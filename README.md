# R_VOLUTION remote: a Dafny model of the device and player core

This project models the core of a React Native remote control for R_VOLUTION
media players:

- discovering players on the local network;
- keeping the list of known players in the key-value store;
- the screens that add, edit, refresh, scan for and delete players;
- the HTTP client that sends infrared codes to a player;
- the choice of interface language.

One Dafny module stands for each source file:

| module | file | flavour |
|---|---|---|
| `Types` | `types/index.ts` | records, plus the HTTP reply the network gives |
| `Text` | (JavaScript builtins) | `trim`, `split`, `includes`, `parseInt`, `toLowerCase`, `${n}` |
| `NetworkDiscovery` | `services/networkDiscovery.ts` | loop methods proved against sweep functions |
| `Storage` | `utils/storage.ts` | a `DeviceStore` class proved against list functions |
| `IpValidation` | `validateIP` in the add and edit screens | predicates and lemmas |
| `AddDevice` | `screens/AddDeviceScreen.tsx` | a handler method proved against an outcome function |
| `EditDevice` | `screens/EditDeviceScreen.tsx` | handler methods proved against outcome functions |
| `DevicesScreen` | `screens/DevicesScreen.tsx` | a class whose fields are the React state variables |
| `PlayerApi` | `services/playerAPI.ts` | functions over the code table and the network |
| `Language` | `contexts/LanguageContext.tsx` | locale resolution functions, plus a provider class |

The model uses these conventions:

- **The network is a value.** `Network = string -> Reply` gives the reply to a GET of each URL. A reply is either `Response(status, bodyName)` or `Failure`. `Failure` stands for a thrown error, a refused connection or the abort by a timeout. `response.ok` is an ok status, 200 to 299, as the WHATWG Fetch standard defines it.
- **The store is a class.** `DeviceStore` holds `entries`, a map from key to device list, and two flags set by the environment: when one is true, every read (or every write) rejects. The language store is the same with string values.
- **Every clock reading is a parameter.** This covers each `Date.now()`: one value per host in the sweep, one per device in the refresh, one for a single probe.
- **Methods return what they fetched.** Each method that performs requests also returns the URLs it fetched, in order. Its contract says exactly which requests are made.

The availability check, the sweep probe and the command call accept a reply
only when `response.ok` holds (any status 200 to 299). Only `checkConnection`
accepts any status other than 404 (`services/playerAPI.ts:124`). `PlayerApi.ServerErrorSplitsTheRules`
shows the difference: for a player that answers 500, the two rules disagree.

## Model

| member | source | states |
|---|---|---|
| `NetworkDiscovery.ProbeAddress` | services/networkDiscovery.ts:27-70 | one host's probe gives a record exactly when its `/status` reply is ok, and nothing on any other status or a thrown error |
| `NetworkDiscovery.ScanNetwork` | services/networkDiscovery.ts:11-83 | the loop over hosts 1..254 returns the sweep's records, fetches the 254 `/status` URLs in host order, and fires the sweep's callbacks |
| `NetworkDiscovery.DiscoveredNameMarked` | services/networkDiscovery.ts:41-47 | a discovered name always contains "R_VOLUTION"; a body name containing it wins; any other name is the default `R_VOLUTION (<ip>)` |
| `NetworkDiscovery.SweepUrlsDistinct` | services/networkDiscovery.ts:4-32 | the sweep fetches 254 pairwise distinct URLs, `http://192.168.1.<i>:80/status` for i = 1..254 |
| `NetworkDiscovery.SweepMembers` | services/networkDiscovery.ts:24-66 | a record is returned exactly when it is the record of some host 1..254 whose reply is ok |
| `NetworkDiscovery.SweepYieldsIffOk` | services/networkDiscovery.ts:39-69 | a host's address appears among the results if and only if that host's reply has an ok status |
| `NetworkDiscovery.SweepRecordShape` | services/networkDiscovery.ts:52-59 | every returned record has id `<ip>:80`, port 80, is online, has a name containing "R_VOLUTION", and carries its own host's clock value as `lastSeen` |
| `NetworkDiscovery.SweepIdsDistinct` | services/networkDiscovery.ts:24-61 | the returned records have pairwise distinct addresses |
| `NetworkDiscovery.SweepRecordKeyed` | services/networkDiscovery.ts:53-56 | every returned record's id is the one its address and port determine |
| `NetworkDiscovery.SweepFoundEvents` | services/networkDiscovery.ts:61-65 | onDeviceFound fires once per returned record, in the order of the returned list |
| `NetworkDiscovery.SweepProgress` | services/networkDiscovery.ts:71-73 | onProgress fires 254 times with numerators 1, 2, ..., 254, whatever the replies |
| `NetworkDiscovery.SilentNetworkFindsNothing` | services/networkDiscovery.ts:39-69 | when no host answers ok, the sweep returns the empty list |
| `NetworkDiscovery.KeptMembers` | services/networkDiscovery.ts:61 | a record is kept exactly when it is the outcome of some probe |
| `NetworkDiscovery.ReportedFound` | services/networkDiscovery.ts:61-65 | the callbacks report the kept records through onDeviceFound, and in the same order |
| `NetworkDiscovery.ReportedProgress` | services/networkDiscovery.ts:71-73 | one onProgress per probe, numbered from 1 |
| `NetworkDiscovery.DeviceIdPortInjective` | services/networkDiscovery.ts:53 | the port can be read back from an id `<ip>:<port>`: two ids that are equal have equal ports |
| `NetworkDiscovery.DeviceIdInjective` | services/networkDiscovery.ts:53 | for a fixed port, equal ids mean equal addresses |
| `NetworkDiscovery.StatusUrlInjective` | services/networkDiscovery.ts:32 | for a fixed port, equal `/status` URLs mean equal addresses |
| `NetworkDiscovery.HostAddressInjective` | services/networkDiscovery.ts:25 | distinct host numbers give distinct addresses |
| `NetworkDiscovery.CheckDeviceAvailability` | services/networkDiscovery.ts:86-104 | true if and only if the `/status` reply of that address and port has an ok status; a thrown error or timeout gives false |
| `NetworkDiscovery.AvailabilityByStatus` | services/networkDiscovery.ts:94-103 | 404 and 500 mean unavailable, 200 and 299 mean available, and a thrown error means unavailable |
| `NetworkDiscovery.CreateDeviceFromIP` | services/networkDiscovery.ts:107-125 | null exactly when the address is unavailable; otherwise an online record keyed `<ip>:<port>`, with the default name and the current time |
| `NetworkDiscovery.CreateDeviceRepeatable` | services/networkDiscovery.ts:111-124 | two probes of one address agree on availability, and their records differ at most in `lastSeen` |
| `Storage.FindByAddress` | utils/storage.ts:28 | `findIndex` gives the first position with that address, or -1 exactly when there is none |
| `Storage.DeviceStore.SaveDevices` | utils/storage.ts:6-13 | the key is rewritten with the list; a failed write changes nothing and is rethrown |
| `Storage.DeviceStore.LoadDevices` | utils/storage.ts:15-23 | the stored list, or the empty list when the key is absent or the read fails; it never throws |
| `Storage.DeviceStore.AddDevice` | utils/storage.ts:25-41 | the store afterwards holds the loaded list with the record upserted; a failed write is rethrown |
| `Storage.DeviceStore.RemoveDevice` | utils/storage.ts:43-52 | the store afterwards holds the loaded list without the records carrying the id; a failed write is rethrown |
| `Storage.UpsertAppends` | utils/storage.ts:32-34 | a record with a new address is appended: the list grows by one and keeps the old records in front |
| `Storage.UpsertReplacesFirst` | utils/storage.ts:28-31 | a record whose address is stored replaces the first record with that address; the length and every other position are unchanged |
| `Storage.UpsertIdempotent` | utils/storage.ts:25-41 | adding the same record twice gives the list that adding it once gives |
| `Storage.UpsertContains` | utils/storage.ts:28-34 | after the add, the record is in the list |
| `Storage.UpsertKeepsOthers` | utils/storage.ts:28-34 | a record with another address survives the add |
| `Storage.UpsertKeepsAddressesUnique` | utils/storage.ts:28-34 | an add keeps a list free of duplicate addresses free of them |
| `Storage.WithoutIdMembers` | utils/storage.ts:46 | a record survives the removal if and only if it was there and has another id |
| `Storage.WithoutIdAppend` | utils/storage.ts:46 | the filter works piecewise, so the records that stay keep their order |
| `Storage.WithoutAbsentId` | utils/storage.ts:46 | removing an id that no record carries leaves the list as it was |
| `Storage.WithoutIdShrinks` | utils/storage.ts:46 | the removal never lengthens the list, and shortens it when the id is present |
| `Storage.SaveLoadRoundTrip` | utils/storage.ts:6-23 | saving a list and then loading gives back that list |
| `Storage.SaveKeepsOtherKeys` | utils/storage.ts:8 | saving touches no other key |
| `Storage.AddAfterFailedReadOverwrites` | utils/storage.ts:15-36 | when the read fails but the write succeeds, addDevice replaces the whole stored list by the one record |
| `Storage.LoadedDefaults` | utils/storage.ts:18-21 | an empty store and a failing read both load as the empty list |
| `IpValidation.ValidateIPCharacterised` | screens/AddDeviceScreen.tsx:33-42 | validateIP accepts exactly four dot-separated groups of one to three ASCII digits, each of value at most 255 |
| `IpValidation.MatchesGroupsSplit` | screens/AddDeviceScreen.tsx:34-37 | the anchored pattern `(\d{1,3}\.){n}\d{1,3}` holds exactly when splitting at '.' gives n + 1 groups of one to three digits |
| `IpValidation.DottedQuadAccepted` | screens/AddDeviceScreen.tsx:33-42 | every address written with plain decimal octets 0..255 is accepted |
| `IpValidation.DottedQuadRejected` | screens/AddDeviceScreen.tsx:38-41 | a written octet above 255 is rejected |
| `IpValidation.ThreeGroupsRejected` | screens/AddDeviceScreen.tsx:34-35 | three groups are too few, whatever they contain |
| `IpValidation.ValidIpIsTrimmed` | screens/AddDeviceScreen.tsx:34 | an accepted address starts and ends with a digit, so trimming leaves it unchanged and it is not blank |
| `IpValidation.PaddedIpRejected` | screens/AddDeviceScreen.tsx:34-35 | an address with a leading or trailing space is rejected, because the pattern is anchored |
| `IpValidation.AcceptsPlainAddress` | screens/AddDeviceScreen.tsx:33-42 | "192.168.1.10" is accepted |
| `IpValidation.RejectsOctetAbove255` | screens/AddDeviceScreen.tsx:38-41 | "192.168.1.256" is rejected |
| `IpValidation.AcceptsLeadingZeros` | screens/AddDeviceScreen.tsx:38-41 | "010.001.000.255" is accepted, because parseInt reads "010" as 10 |
| `IpValidation.AcceptedFromParts` | screens/EditDeviceScreen.tsx:37-46 | four dot-free groups, each an octet, make an accepted address (the edit screen's copy of validateIP is the same predicate) |
| `AddDevice.CheckInputs` | screens/AddDeviceScreen.tsx:45-59 | the three alerts in order: blank address, invalid address, port outside 1..65535; when all pass, the parsed port |
| `AddDevice.HandleAddDevice` | screens/AddDeviceScreen.tsx:44-109 | a failed check fetches nothing and leaves the store alone; otherwise exactly one probe of `<ip>:<port>/status`; the store is written only when the probe gives a record, and an added record is then stored |
| `AddDevice.AddOutcomeCases` | screens/AddDeviceScreen.tsx:44-109 | each ending of handleAddDevice, stated as an if-and-only-if: a blank address; then an invalid address; then a bad port; then, after the checks, unreachable exactly when the probe is not ok, the error alert exactly when it is ok and the write fails, and success exactly when it is ok and the write works |
| `AddDevice.AddedRecord` | screens/AddDeviceScreen.tsx:66-73 | the stored record has the typed address and port, is online, seen now, keyed `<ip>:<port>`, and is named after the trimmed name, or "R_VOLUTION (<ip>)" when the name is blank |
| `AddDevice.RecordFields` | screens/AddDeviceScreen.tsx:69-71 | the name override changes only the name, and only when the typed name is not blank |
| `AddDevice.PaddedAddressRefused` | screens/AddDeviceScreen.tsx:45-53 | a padded address passes the blank check but fails the syntax check |
| `AddDevice.PortTextAccepted` | screens/AddDeviceScreen.tsx:55-56 | the text of a number n passes the port check exactly when n is in 1..65535 |
| `AddDevice.PortTrailingText` | screens/AddDeviceScreen.tsx:55-56 | "80abc" parses as 80 and passes the check |
| `AddDevice.PortZeroRejected` | screens/AddDeviceScreen.tsx:56 | port "0" fails the check |
| `AddDevice.PortWithoutDigitsRejected` | screens/AddDeviceScreen.tsx:55-56 | an empty port and a port without digits parse as NaN and fail |
| `EditDevice.FindById` | screens/EditDeviceScreen.tsx:105 | `findIndex` by id gives the first position with that id, or -1 exactly when there is none |
| `EditDevice.CheckInputs` | screens/EditDeviceScreen.tsx:49-62 | the three alerts in order: blank name, blank address, invalid address |
| `EditDevice.UpdateDevice` | screens/EditDeviceScreen.tsx:102-133 | load, rewrite the first record with the device's id, then save; a missing id or a failed read or write leaves the store alone and ends in the error alert |
| `EditDevice.HandleSaveDevice` | screens/EditDeviceScreen.tsx:48-100 | a failed check or a cancel leaves the store alone; the probe is fetched only when the typed address differs from the stored one; otherwise the edit is saved |
| `EditDevice.EditedRewritesOnlyThatEntry` | screens/EditDeviceScreen.tsx:104-116 | a successful edit rewrites the first record with the id and nothing else: same length, every other record kept |
| `EditDevice.RewrittenFields` | screens/EditDeviceScreen.tsx:109-114 | the rewritten record takes the trimmed name and address, and the id they give with the device's port; its port, status and `lastSeen` are kept |
| `EditDevice.EditedNoneIffAbsent` | screens/EditDeviceScreen.tsx:105-126 | there is nothing to rewrite exactly when no stored record carries the id |
| `EditDevice.EditKeepsKeyed` | screens/EditDeviceScreen.tsx:109-114 | a record keyed by its address and port, edited with an accepted address, stays keyed that way and takes the typed address unchanged |
| `EditDevice.CheckOrder` | screens/EditDeviceScreen.tsx:49-62 | checks run name, then address blank, then syntax; all pass if and only if the name is not blank and the address is valid |
| `EditDevice.EditOutcomeCases` | screens/EditDeviceScreen.tsx:48-133 | each ending of handleSaveDevice, stated as an if-and-only-if over inputs, replies, the user's answer and the store: a blank name; then a blank address; then an invalid address; cancelled exactly when a changed address does not answer and the user cancels; otherwise not found, save failed or updated, according to whether the id is stored and the write works |
| `EditDevice.NoProbeWhenUnchanged` | screens/EditDeviceScreen.tsx:68 | with the address unchanged the replies do not matter, and the edit is never cancelled |
| `EditDevice.SaveAnywayIgnoresProbe` | screens/EditDeviceScreen.tsx:78-83 | "save anyway" ends as if the probe had succeeded |
| `EditDevice.UpdateOutcomeRange` | screens/EditDeviceScreen.tsx:102-133 | updateDevice ends in success, a missing record or a failed write; success exactly when the read and write work and the id is stored |
| `EditDevice.UpdatedThenLoaded` | screens/EditDeviceScreen.tsx:104-116 | after a successful edit, the next load gives the edited list |
| `DevicesScreen.DevicesScreen.constructor` | screens/DevicesScreen.tsx:29-33 | the initial state: empty list, both spinners off, both counters 0 |
| `DevicesScreen.DevicesScreen.LoadDevicesList` | screens/DevicesScreen.tsx:35-43 | the displayed list becomes what the store holds |
| `DevicesScreen.DevicesScreen.CheckDevicesStatus` | screens/DevicesScreen.tsx:57-71 | every device is refreshed in list order; that list is displayed and then saved |
| `DevicesScreen.DevicesScreen.OnRefresh` | screens/DevicesScreen.tsx:73-77 | the refresh is displayed and saved; the spinner stays on exactly when the save throws |
| `DevicesScreen.DevicesScreen.HandleScanNetwork` | screens/DevicesScreen.tsx:79-151 | an unconfirmed scan changes nothing; a confirmed scan resets the counters, applies the sweep's callbacks in order, reloads, and reports the count or "none found" |
| `DevicesScreen.DevicesScreen.OnDeviceFound` | screens/DevicesScreen.tsx:97-102 | the found counter goes up by one, and the record is added to the store |
| `DevicesScreen.DevicesScreen.OnProgress` | screens/DevicesScreen.tsx:103-106 | the progress state becomes the reported value |
| `DevicesScreen.DevicesScreen.OnScanEvent` | screens/DevicesScreen.tsx:96-107 | one callback is one step of the replay function |
| `DevicesScreen.DevicesScreen.ApplyScanEvents` | screens/DevicesScreen.tsx:96-107 | the callbacks applied in order give the replay of the event log |
| `DevicesScreen.DevicesScreen.HandleDeleteDevice` | screens/DevicesScreen.tsx:153-169 | an unconfirmed delete changes nothing; a confirmed one removes the id and reloads, except that a failed write throws before the reload |
| `DevicesScreen.RefreshKeepsOtherFields` | screens/DevicesScreen.tsx:58-67 | the refresh keeps the length, the order and every field except `isOnline` and `lastSeen` |
| `DevicesScreen.RefreshOnlineIffAvailable` | screens/DevicesScreen.tsx:60-63 | each device is online afterwards if and only if its own `/status` answers ok |
| `DevicesScreen.RefreshLastSeen` | screens/DevicesScreen.tsx:64 | `lastSeen` becomes the time read exactly for the devices found online; the others keep theirs |
| `DevicesScreen.RefreshKeepsKeys` | screens/DevicesScreen.tsx:61-65 | the refresh keeps every id, and keeps addresses unique |
| `DevicesScreen.PressAfterRefresh` | screens/DevicesScreen.tsx:171-180 | after a refresh, a press opens the control screen exactly for the devices that answered, and for that device |
| `DevicesScreen.ReplayCounts` | screens/DevicesScreen.tsx:100 | the found counter goes up by one per onDeviceFound |
| `DevicesScreen.ReplayProgress` | screens/DevicesScreen.tsx:105 | the progress state is the last reported value, or the old one when none was reported |
| `DevicesScreen.ReplayStore` | screens/DevicesScreen.tsx:101 | the reported records are added to the store in the order of reporting |
| `DevicesScreen.AddAllLoads` | screens/DevicesScreen.tsx:101 | with working reads and writes, the adds leave the upserted list in the store |
| `DevicesScreen.AddAllFailingWrites` | screens/DevicesScreen.tsx:101 | when every write fails, the adds change nothing |
| `DevicesScreen.UpsertAllContains` | screens/DevicesScreen.tsx:101 | upserting records with pairwise distinct addresses leaves every one of them in the list |
| `DevicesScreen.ScanStoresEveryFound` | screens/DevicesScreen.tsx:96-110 | with working reads and writes, every record a scan returns is stored afterwards |
| `DevicesScreen.UpsertAllKeepsOthers` | screens/DevicesScreen.tsx:101 | a stored record survives the scan unless a scanned record has its address |
| `DevicesScreen.DeleteRemovesId` | screens/DevicesScreen.tsx:162-165 | after a working delete, no stored record carries the id, and every other record stays |
| `PlayerApi.SendIRCommand` | services/playerAPI.ts:103-118 | one GET of `<base>/cgi-bin/do?cmd=ir_code&ir_code=<code>`; true if and only if the reply is ok; a thrown error gives false |
| `PlayerApi.CheckConnection` | services/playerAPI.ts:120-129 | one GET with the code TEST; true if and only if there is a reply and its status is not 404 |
| `PlayerApi.SetVolume` | services/playerAPI.ts:353-356 | no request, and always false |
| `PlayerApi.GetStatus` | services/playerAPI.ts:359-362 | no request, and always null |
| `PlayerApi.IrCodesAreHex` | services/playerAPI.ts:7-77 | every value of the code table is eight uppercase hexadecimal characters |
| `PlayerApi.PlaybackCodesHex` | services/playerAPI.ts:8-12 | the playback codes are eight uppercase hexadecimal characters |
| `PlayerApi.VolumeCodesHex` | services/playerAPI.ts:14-17 | the volume codes are eight uppercase hexadecimal characters |
| `PlayerApi.SeekCodesHex` | services/playerAPI.ts:19-25 | the seek codes are eight uppercase hexadecimal characters |
| `PlayerApi.CursorCodesHex` | services/playerAPI.ts:27-32 | the cursor codes are eight uppercase hexadecimal characters |
| `PlayerApi.MenuCodesHex` | services/playerAPI.ts:34-38 | the menu codes are eight uppercase hexadecimal characters |
| `PlayerApi.SpecialCodesHex` | services/playerAPI.ts:40-47 | the special-function codes are eight uppercase hexadecimal characters |
| `PlayerApi.ColourCodesHex` | services/playerAPI.ts:49-53 | the colour codes are eight uppercase hexadecimal characters |
| `PlayerApi.ExtraCodesHex` | services/playerAPI.ts:55-64 | the further codes are eight uppercase hexadecimal characters |
| `PlayerApi.DigitCodeShape` | services/playerAPI.ts:66-76 | digit n's code is F, the hex digit 15 - n, 0, the hex digit n, then 4040 |
| `PlayerApi.DigitCommandSendsDigitCode` | services/playerAPI.ts:312-350 | digitN fetches the command URL of DIGIT_N, for every N in 0..9 |
| `PlayerApi.PlayPauseSameCode` | services/playerAPI.ts:132-138 | play and pause send PLAY_PAUSE, "AC534040": the same request, with the same answer |
| `PlayerApi.StopReturnSameCode` | services/playerAPI.ts:140-142 | stop, and return (lines 224-226), both send "BD424040": the same request, with the same answer |
| `PlayerApi.SharedTableCodes` | services/playerAPI.ts:22-62 | cursor left/right share a code with rewind/forward 60 s; page up shares a code with forward 10 s |
| `PlayerApi.BaseUrlOfRecord` | services/playerAPI.ts:82-84 | for a record keyed by its address and port, the base URL is `http://` followed by its id |
| `PlayerApi.OmittedPortIs80` | services/playerAPI.ts:82-83 | an omitted port means port 80: the base URL is `http://<ip>:80` |
| `PlayerApi.BaseUrlPortInjective` | services/playerAPI.ts:83 | APIs built with different ports have different base URLs |
| `PlayerApi.CommandUrlInjective` | services/playerAPI.ts:105 | distinct codes give distinct command URLs |
| `PlayerApi.TestIsNoCommand` | services/playerAPI.ts:103-129 | the connection test never fetches any command's URL |
| `PlayerApi.AcceptedIsReachable` | services/playerAPI.ts:103-129 | every reply a command counts as success also passes the connection check |
| `PlayerApi.ServerErrorSplitsTheRules` | services/playerAPI.ts:103-129 | a player answering 500 passes the connection check while every command fails |
| `PlayerApi.NotFoundFailsBoth` | services/playerAPI.ts:103-129 | a player answering 404 fails the connection check and every command |
| `PlayerApi.FailureFailsBoth` | services/playerAPI.ts:114-128 | thrown errors fail the connection check and every command |
| `Language.DeviceLanguageSupported` | contexts/LanguageContext.tsx:23-31 | getDeviceLanguage always gives one of the ten supported codes |
| `Language.FirstSegment` | contexts/LanguageContext.tsx:23 | `split(/[-_]/)[0]` is a prefix of the locale |
| `Language.ResolvesHead` | contexts/LanguageContext.tsx:23-31 | a locale `<head>`, `<head>-…` or `<head>_…` gives the lowercased head when it is supported, and "en" otherwise |
| `Language.MissingLocaleFallsBack` | contexts/LanguageContext.tsx:23-31 | no locale, or an empty one, gives "en" |
| `Language.SupportedResolvesToItself` | contexts/LanguageContext.tsx:25-29 | a supported code resolves to itself |
| `Language.ResolveIdempotent` | contexts/LanguageContext.tsx:16-32 | resolving an already-resolved language changes nothing |
| `Language.RegionalLocaleExamples` | contexts/LanguageContext.tsx:23-29 | "fr-FR" gives "fr" and "de_DE" gives "de" |
| `Language.UpperCaseLocaleExample` | contexts/LanguageContext.tsx:23-29 | "ZH" gives "zh" |
| `Language.UnsupportedLocaleExample` | contexts/LanguageContext.tsx:23-31 | "ko-KR" gives "en" |
| `Language.LoadAppliesOnlyKnown` | contexts/LanguageContext.tsx:43-46 | a load changes the language only to the saved value, and only when that value is a key of the translations; such a value is always applied |
| `Language.LoadKeepsSupported` | contexts/LanguageContext.tsx:35-46 | when every translation key is a supported code, the language stays a supported code |
| `Language.SaveThenLoad` | contexts/LanguageContext.tsx:41-59 | a language saved by a successful write is the one the next successful load applies |
| `Language.FailedReadKeepsLanguage` | contexts/LanguageContext.tsx:47-49 | a failed read leaves the language as it was |
| `Language.LanguageProvider.constructor` | contexts/LanguageContext.tsx:35 | the initial language is getDeviceLanguage's, and so a supported code |
| `Language.LanguageProvider.LoadLanguage` | contexts/LanguageContext.tsx:41-50 | the language becomes the load's result for the stored value |
| `Language.LanguageProvider.SetLanguage` | contexts/LanguageContext.tsx:52-59 | a failed write changes neither the store nor the language; a successful one writes the key and then switches the language |
| `Language.UseLanguage` | contexts/LanguageContext.tsx:74-80 | the hook throws if and only if there is no provider; otherwise it gives the provider's value |
| `Text.BlankIffAllSpace` | screens/AddDeviceScreen.tsx:45 | `!s.trim()` holds exactly when s is all white space |
| `Text.Trim` | screens/AddDeviceScreen.tsx:69-70 | a trimmed text neither starts nor ends with white space; a text that does neither is unchanged |
| `Text.ParseIntRoundTrip` | screens/AddDeviceScreen.tsx:55 | parseInt reads back the decimal text of every natural number |
| `Text.ParseIntNoDigits` | screens/AddDeviceScreen.tsx:55-56 | a text that starts with no space, sign or digit parses as NaN |
| `Text.JoinSplit` | screens/AddDeviceScreen.tsx:37 | joining the pieces of `split('.')` with '.' gives back the text |
| `Text.SplitPiecesFree` | screens/AddDeviceScreen.tsx:37 | no piece of a split contains the separator |
| `Text.ContainsIff` | services/networkDiscovery.ts:45 | `includes` holds exactly when the text occurs at some position |
| `Text.ToLowerAscii` | contexts/LanguageContext.tsx:23 | `toLowerCase` keeps the length and lowercases each ASCII letter |
| `Text.IntToStringInjective` | services/networkDiscovery.ts:53 | distinct numbers render as distinct texts |
| `Types.IsOkStatus` | services/networkDiscovery.ts:39 | `response.ok`: a status from 200 to 299; used by every probe and command rule below |
| `Types.RespondsOk` | services/networkDiscovery.ts:32-39 | a GET of the URL gets a reply with an ok status; a thrown error does not |
| `Text.ParseInt` | screens/AddDeviceScreen.tsx:55 | `parseInt(s, 10)`: optional leading white space and sign, then the longest run of digits; NaN (`None`) when there is no digit; properties in `Text.ParseIntRoundTrip` and `Text.ParseIntNoDigits` |
| `Text.Split` | screens/AddDeviceScreen.tsx:37 | `split('.')`: the maximal separator-free pieces in order, empty ones included; properties in `Text.JoinSplit` and `Text.SplitPiecesFree` |
| `Text.Contains` | services/networkDiscovery.ts:45 | `includes`: characterised by `Text.ContainsIff` |
| `Text.IsBlank` | screens/AddDeviceScreen.tsx:45 | `!s.trim()`: characterised by `Text.BlankIffAllSpace` |
| `Text.NatToString` | services/networkDiscovery.ts:53 | the decimal text of a natural number; `Text.ParseIntRoundTrip` inverts it |
| `Text.IntToString` | services/playerAPI.ts:83 | the decimal text of a number in a template literal; `Text.IntToStringInjective` |
| `IpValidation.ValidateIP` | screens/AddDeviceScreen.tsx:33-42 | validateIP, also as copied at EditDeviceScreen.tsx:37-46: the pattern test and then every part in 0..255; characterised by `IpValidation.ValidateIPCharacterised` |
| `IpValidation.MatchesIpPattern` | screens/AddDeviceScreen.tsx:34-35 | `/^(\d{1,3}\.){3}\d{1,3}$/.test(ip)`; characterised by `IpValidation.MatchesGroupsSplit` |
| `IpValidation.PartInRange` | screens/AddDeviceScreen.tsx:38-41 | `num >= 0 && num <= 255` for `parseInt(part, 10)`; NaN fails it |
| `Storage.Upsert` | utils/storage.ts:28-34 | the list addDevice writes: the first record with the address replaced, or the record appended; properties in the `Storage.Upsert*` lemmas |
| `Storage.WithoutId` | utils/storage.ts:46 | `filter(d => d.id !== deviceId)`; properties in the `Storage.WithoutId*` lemmas |
| `Storage.Loaded` | utils/storage.ts:15-23 | what loadDevices gives for the store's contents; `Storage.SaveLoadRoundTrip`, `Storage.LoadedDefaults` |
| `Storage.Saved` | utils/storage.ts:6-13 | the store after saveDevices; `Storage.SaveKeepsOtherKeys` |
| `Storage.DeviceStore.Current` | utils/storage.ts:15-23 | the list loadDevices would give for the store's current state |
| `NetworkDiscovery.HostAddress` | services/networkDiscovery.ts:25 | `192.168.1.<i>`; `NetworkDiscovery.HostAddressInjective` |
| `NetworkDiscovery.StatusUrl` | services/networkDiscovery.ts:32 | `http://<ip>:<port>/status`; `NetworkDiscovery.StatusUrlInjective` |
| `NetworkDiscovery.DeviceId` | services/networkDiscovery.ts:53 | `<ip>:<port>`; `NetworkDiscovery.DeviceIdInjective`, `NetworkDiscovery.DeviceIdPortInjective` |
| `NetworkDiscovery.DefaultName` | services/networkDiscovery.ts:41 | `R_VOLUTION (<ip>)` |
| `NetworkDiscovery.DiscoveredName` | services/networkDiscovery.ts:41-47 | the body's name when it contains "R_VOLUTION", else the default; `NetworkDiscovery.DiscoveredNameMarked` |
| `NetworkDiscovery.ScanRecord` | services/networkDiscovery.ts:52-59 | the record built for a host that answered ok; `NetworkDiscovery.SweepRecordShape` |
| `NetworkDiscovery.HostOutcome` | services/networkDiscovery.ts:27-70 | what probing host i gives: its record on an ok reply, else nothing; `NetworkDiscovery.ProbeAddress` computes it |
| `NetworkDiscovery.Kept` | services/networkDiscovery.ts:61 | the records among the outcomes, in order; `NetworkDiscovery.KeptMembers` |
| `NetworkDiscovery.Reported` | services/networkDiscovery.ts:61-73 | the callbacks fired per outcome; `NetworkDiscovery.ReportedFound`, `NetworkDiscovery.ReportedProgress` |
| `NetworkDiscovery.Sweep` | services/networkDiscovery.ts:11-83 | the records scanNetwork returns for a given network and clock; characterised by `NetworkDiscovery.SweepMembers` |
| `NetworkDiscovery.SweepEvents` | services/networkDiscovery.ts:61-73 | the callbacks scanNetwork fires; `NetworkDiscovery.SweepFoundEvents`, `NetworkDiscovery.SweepProgress` |
| `NetworkDiscovery.SweepUrls` | services/networkDiscovery.ts:24-32 | the URLs scanNetwork fetches; `NetworkDiscovery.SweepUrlsDistinct` |
| `AddDevice.PortAccepted` | screens/AddDeviceScreen.tsx:55-56 | `parseInt(port, 10)` is a number from 1 to 65535; `AddDevice.PortTextAccepted` |
| `AddDevice.InputError` | screens/AddDeviceScreen.tsx:45-59 | the first failing input check, or none; `AddDevice.CheckInputs` computes it |
| `AddDevice.Named` | screens/AddDeviceScreen.tsx:69-71 | the record renamed after the trimmed name when that is not blank; `AddDevice.RecordFields` |
| `AddDevice.NewRecord` | screens/AddDeviceScreen.tsx:66-71 | the record stored after a successful probe; `AddDevice.AddedRecord` |
| `AddDevice.AddOutcome` | screens/AddDeviceScreen.tsx:44-109 | how handleAddDevice ends; `AddDevice.HandleAddDevice` is proved to end this way, and `AddDevice.AddOutcomeCases` characterises it |
| `EditDevice.Rewritten` | screens/EditDeviceScreen.tsx:109-114 | the spread-updated record; `EditDevice.RewrittenFields` |
| `EditDevice.Edited` | screens/EditDeviceScreen.tsx:104-114 | the list updateDevice saves, or none when the id is not stored; `EditDevice.EditedRewritesOnlyThatEntry`, `EditDevice.EditedNoneIffAbsent` |
| `EditDevice.InputError` | screens/EditDeviceScreen.tsx:49-62 | the first failing input check, or none; `EditDevice.CheckOrder` |
| `EditDevice.NeedsProbe` | screens/EditDeviceScreen.tsx:68 | `ipAddress !== device.ipAddress` |
| `EditDevice.UpdateOutcome` | screens/EditDeviceScreen.tsx:102-133 | how updateDevice ends; `EditDevice.UpdateOutcomeRange` |
| `EditDevice.UpdatedEntries` | screens/EditDeviceScreen.tsx:104-116 | the store after updateDevice; `EditDevice.UpdatedThenLoaded` |
| `EditDevice.EditOutcome` | screens/EditDeviceScreen.tsx:48-100 | how handleSaveDevice ends; `EditDevice.HandleSaveDevice` is proved to end this way, and `EditDevice.EditOutcomeCases` characterises it |
| `DevicesScreen.Refreshed` | screens/DevicesScreen.tsx:59-66 | one device after its availability check: `isOnline` set, `lastSeen` updated only when online |
| `DevicesScreen.RefreshAll` | screens/DevicesScreen.tsx:58-67 | every device refreshed, in order; the `DevicesScreen.Refresh*` lemmas |
| `DevicesScreen.HandlePress` | screens/DevicesScreen.tsx:171-180 | handleDevicePress: navigation for an online device, the offline alert otherwise; `DevicesScreen.PressAfterRefresh` |
| `DevicesScreen.LastProgress` | screens/DevicesScreen.tsx:103-106 | the progress state after a run of onProgress calls: the last value reported, or the 0 set when the scan starts |
| `DevicesScreen.UpsertAll` | screens/DevicesScreen.tsx:101 | the list after one addDevice per found record; `DevicesScreen.UpsertAllContains`, `DevicesScreen.UpsertAllKeepsOthers` |
| `DevicesScreen.AddAll` | screens/DevicesScreen.tsx:101 | the store after one addDevice per found record; `DevicesScreen.AddAllLoads`, `DevicesScreen.AddAllFailingWrites` |
| `DevicesScreen.Step` | screens/DevicesScreen.tsx:96-107 | one scan callback's effect on the counters and the store; `DevicesScreen.DevicesScreen.OnScanEvent` performs it |
| `DevicesScreen.Replay` | screens/DevicesScreen.tsx:96-107 | the callbacks applied in order; `DevicesScreen.ReplayCounts`, `DevicesScreen.ReplayProgress`, `DevicesScreen.ReplayStore` |
| `PlayerApi.IrCode` | services/playerAPI.ts:7-77 | the IR_CODES table; `PlayerApi.IrCodesAreHex` |
| `PlayerApi.PlaybackCode` | services/playerAPI.ts:8-12 | the playback section of the table |
| `PlayerApi.VolumeCode` | services/playerAPI.ts:14-17 | the volume section of the table |
| `PlayerApi.SeekCode` | services/playerAPI.ts:19-25 | the advanced navigation section of the table |
| `PlayerApi.CursorCode` | services/playerAPI.ts:27-32 | the cursor section of the table |
| `PlayerApi.MenuCode` | services/playerAPI.ts:34-38 | the menu section of the table |
| `PlayerApi.SpecialCode` | services/playerAPI.ts:40-47 | the special functions section of the table |
| `PlayerApi.ColourCode` | services/playerAPI.ts:49-53 | the colour functions section of the table |
| `PlayerApi.ExtraCode` | services/playerAPI.ts:55-64 | the further functions section of the table |
| `PlayerApi.DigitCode` | services/playerAPI.ts:66-76 | DIGIT_0 to DIGIT_9; `PlayerApi.DigitCodeShape` |
| `PlayerApi.KeyOf` | services/playerAPI.ts:131-350 | the table key each command method sends; `PlayerApi.PlayPauseSameCode`, `PlayerApi.StopReturnSameCode`, `PlayerApi.DigitCommandSendsDigitCode` |
| `PlayerApi.NamedKey` | services/playerAPI.ts:131-309 | the key of each command method other than the digits |
| `PlayerApi.NewApi` | services/playerAPI.ts:82-84 | the constructor's base URL; `PlayerApi.OmittedPortIs80`, `PlayerApi.BaseUrlOfRecord`, `PlayerApi.BaseUrlPortInjective` |
| `PlayerApi.CommandUrl` | services/playerAPI.ts:105 | the command URL; `PlayerApi.CommandUrlInjective` |
| `PlayerApi.CommandAccepted` | services/playerAPI.ts:113-117 | a command's reply counts as success when it is ok; a thrown error is false |
| `PlayerApi.Reachable` | services/playerAPI.ts:124-128 | the connection check's rule: a status other than 404; a thrown error is false |
| `PlayerApi.Run` | services/playerAPI.ts:131-350 | a command method: the table lookup, then sendIRCommand; `PlayerApi.TestIsNoCommand`, `PlayerApi.ServerErrorSplitsTheRules` |
| `Language.LanguageCode` | contexts/LanguageContext.tsx:23 | `deviceLanguage?.split(/[-_]/)[0]?.toLowerCase()` |
| `Language.GetDeviceLanguage` | contexts/LanguageContext.tsx:16-32 | getDeviceLanguage given the platform locale; `Language.DeviceLanguageSupported`, `Language.ResolvesHead`, `Language.MissingLocaleFallsBack` |
| `Language.StoredLanguage` | contexts/LanguageContext.tsx:43 | `getItem(LANGUAGE_KEY)`: none when the key is absent or the read fails |
| `Language.AfterLoad` | contexts/LanguageContext.tsx:44-46 | the language after loadLanguage; `Language.LoadAppliesOnlyKnown` |

## Left out

- Timeouts and aborts: `AbortController` and the 1000, 3000 and 5000 ms timers are not modelled. A timed-out request is a `Failure` reply.
- Concurrency: the 254 probes of scanNetwork run concurrently under `Promise.all`; the model runs them one after another in host order. The same holds for checkDevicesStatus's `Promise.all`. Callback order in the model is therefore host order, and the returned list is in host order too; in the app, both follow reply timing.
- The addDevice race: the scan's onDeviceFound calls `addDevice` without awaiting it, so concurrent adds can overwrite each other. The model applies each add in full before the next callback. The adds are also not awaited before `await loadDevicesList()` (screens/DevicesScreen.tsx:110), so in the app the list shown after a scan can lack records whose write has not finished; the model's final `devices == store.Current()` comes after every add and includes them all.
- DevicesScreen.DevicesScreen.HandleScanNetwork: the callbacks are applied after the sweep has returned, in the order they fired, not interleaved with the probes. The final `scanProgress` is therefore 254 (the numerator of the last host); in the app it is that of whichever probe finishes last.
- Progress: onProgress receives `i / 254`; the model records the numerator i.
- JSON: `JSON.stringify`/`JSON.parse` and the AsyncStorage text format are not modelled. The store keeps device lists directly, and a probe reply carries the parsed `name` member, when it is a string. A `name` that is an array containing the element "R_VOLUTION" passes `includes` in the app and would be stored as the name; the model cannot represent that. A name of any other type makes `includes` throw, which gives the default name, as `None` does in the model.
- Platform locale: the locale lookup through `NativeModules` (contexts/LanguageContext.tsx:17-21) is a parameter of type `Option<string>`.
- Lowercasing: `toLowerCase` is modelled on ASCII letters only; other characters are unchanged.
- Language.LanguageProvider: the translations table is its set of keys. The `t` value (`translations[language]`) and inherited object keys such as `constructor` are not modelled.
- UI: rendering, navigation, alerts' texts, the loading spinners of the add and edit screens, console logging and `setDebugInfo` are not modelled. Alerts are the values of the result types.
- EditDevice.EditOutcome: takes the result of the input checks as a parameter, so its lemmas hold for any check result. HandleSaveDevice ties that result to InputError.
- Outer catch branches: handleAddDevice's outer `catch` (screens/AddDeviceScreen.tsx:98-105) is reached only when the store write in addDevice throws, which is `AddResult.SaveFailed`. handleSaveDevice's and handleScanNetwork's outer catches are unreachable, because updateDevice, the probes and loadDevicesList catch their own errors. No other thrown error is modelled.
- NetworkDiscovery.ScanNetwork: the network is fixed for the whole scan, so a host answers the same way each time it is asked.
- The player control screen, the components, `App.tsx` and the `scripts/` directory are not part of this model. `PlayerStatus` is declared but never produced.

