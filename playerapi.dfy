// The player's control API (services/playerAPI.ts): every command is one GET
// of `http://<ip>:<port>/cgi-bin/do?cmd=ir_code&ir_code=<CODE>`, where CODE
// is the infrared code the IR_CODES table gives the pressed key. A command
// succeeds when the reply is ok; the connection check sends the code "TEST"
// and only a 404 (or a thrown error) counts as unreachable.

module PlayerApi {
  import opened Types
  import opened Text
  import NetworkDiscovery

  /**
   * The keys of the IR_CODES table, grouped as the table groups them; the
   * ten digit keys are DigitKey(0) to DigitKey(9).
   */
  datatype IrKey =
    | Playback(playback: PlaybackKey)
    | Volume(volume: VolumeKey)
    | Seek(seek: SeekKey)
    | Cursor(cursor: CursorKey)
    | Menus(menu: MenuKey)
    | Special(special: SpecialKey)
    | Colour(colour: ColourKey)
    | Extra(extra: ExtraKey)
    | DigitKey(n: DigitIndex)

  /** The playback and control keys. */
  datatype PlaybackKey = PlayPause | Stop | Next | Previous

  /** The volume keys. */
  datatype VolumeKey = VolumeUp | VolumeDown | Mute

  /** The advanced navigation keys. */
  datatype SeekKey = FastForward | FastReverse | Forward60Sec | Rewind60Sec | Forward10Sec | Rewind10Sec

  /** The cursor navigation keys. */
  datatype CursorKey = CursorUp | CursorDown | CursorLeft | CursorRight | CursorEnter

  /** The menu and navigation keys. */
  datatype MenuKey = Home | Menu | Info | Return

  /** The special functions keys. */
  datatype SpecialKey = PowerToggle | PowerOn | PowerOff | Audio | Subtitle | Repeat | Zoom

  /** The colour functions keys. */
  datatype ColourKey = FunctionRed | FunctionGreen | FunctionYellow | FunctionBlue

  /** The further functions keys. */
  datatype ExtraKey = ThreeD | RVideo | Explorer | FormatScroll | Mouse | Dimmer | PageUp | PageDown | Delete

  type DigitIndex = n: nat | n < 10

  /** DIGIT_0 ... DIGIT_9. */
  function DigitCode(n: DigitIndex): string {
    match n
    case 0 => "FF004040"
    case 1 => "FE014040"
    case 2 => "FD024040"
    case 3 => "FC034040"
    case 4 => "FB044040"
    case 5 => "FA054040"
    case 6 => "F9064040"
    case 7 => "F8074040"
    case 8 => "F7084040"
    case _ => "F6094040"
  }

  /** The IR_CODES table. */
  function IrCode(key: IrKey): string {
    match key
    case Playback(k) => PlaybackCode(k)
    case Volume(k) => VolumeCode(k)
    case Seek(k) => SeekCode(k)
    case Cursor(k) => CursorCode(k)
    case Menus(k) => MenuCode(k)
    case Special(k) => SpecialCode(k)
    case Colour(k) => ColourCode(k)
    case Extra(k) => ExtraCode(k)
    case DigitKey(n) => DigitCode(n)
  }

  function PlaybackCode(key: PlaybackKey): string {
    match key
    case PlayPause => "AC534040"
    case Stop => "BD424040"
    case Next => "E11E4040"
    case Previous => "E01F4040"
  }

  function VolumeCode(key: VolumeKey): string {
    match key
    case VolumeUp => "E7184040"
    case VolumeDown => "E8174040"
    case Mute => "BC434040"
  }

  function SeekCode(key: SeekKey): string {
    match key
    case FastForward => "E41BBF00"
    case FastReverse => "E31CBF00"
    case Forward60Sec => "EE114040"
    case Rewind60Sec => "EF104040"
    case Forward10Sec => "BF404040"
    case Rewind10Sec => "DF204040"
  }

  function CursorCode(key: CursorKey): string {
    match key
    case CursorUp => "F40B4040"
    case CursorDown => "F10E4040"
    case CursorLeft => "EF104040"
    case CursorRight => "EE114040"
    case CursorEnter => "F20D4040"
  }

  function MenuCode(key: MenuKey): string {
    match key
    case Home => "E51A4040"
    case Menu => "BA454040"
    case Info => "BB444040"
    case Return => "BD424040"
  }

  function SpecialCode(key: SpecialKey): string {
    match key
    case PowerToggle => "B24D4040"
    case PowerOn => "4CB34040"
    case PowerOff => "4AB54040"
    case Audio => "E6194040"
    case Subtitle => "E41B4040"
    case Repeat => "B9464040"
    case Zoom => "E21D4040"
  }

  function ColourCode(key: ColourKey): string {
    match key
    case FunctionRed => "A68E4040"
    case FunctionGreen => "F50A4040"
    case FunctionYellow => "BE414040"
    case FunctionBlue => "AB544040"
  }

  function ExtraCode(key: ExtraKey): string {
    match key
    case ThreeD => "ED124040"
    case RVideo => "EC134040"
    case Explorer => "EA164040"
    case FormatScroll => "EB144040"
    case Mouse => "B98F4040"
    case Dimmer => "A45B4040"
    case PageUp => "BF404040"
    case PageDown => "DB204040"
    case Delete => "F30C4040"
  }

  /** The command methods of RvolutionPlayerAPI that send an infrared code. */
  datatype Command =
    | Play | Pause | Stop | Next | Previous
    | VolumeUp | VolumeDown | Mute
    | FastForward | FastReverse | Forward60Sec | Rewind60Sec | Forward10Sec | Rewind10Sec
    | CursorUp | CursorDown | CursorLeft | CursorRight | CursorEnter
    | Home | Menu | Info | Return
    | PowerToggle | PowerOn | PowerOff | Audio | Subtitle | Repeat | Zoom
    | FunctionRed | FunctionGreen | FunctionYellow | FunctionBlue
    | ThreeD | RVideo | Explorer | FormatScroll | Mouse | Dimmer | PageUp | PageDown | DeleteKey
    | Digit(n: DigitIndex)

  /** The table key each command method sends: play and pause both send PLAY_PAUSE. */
  function KeyOf(command: Command): IrKey {
    if command.Digit? then DigitKey(command.n) else NamedKey(command)
  }

  function NamedKey(command: Command): IrKey
    requires !command.Digit?
  {
    match command
    case Play => Playback(PlayPause)
    case Pause => Playback(PlayPause)
    case Stop => Playback(PlaybackKey.Stop)
    case Next => Playback(PlaybackKey.Next)
    case Previous => Playback(PlaybackKey.Previous)
    case VolumeUp => Volume(VolumeKey.VolumeUp)
    case VolumeDown => Volume(VolumeKey.VolumeDown)
    case Mute => Volume(VolumeKey.Mute)
    case FastForward => Seek(SeekKey.FastForward)
    case FastReverse => Seek(SeekKey.FastReverse)
    case Forward60Sec => Seek(SeekKey.Forward60Sec)
    case Rewind60Sec => Seek(SeekKey.Rewind60Sec)
    case Forward10Sec => Seek(SeekKey.Forward10Sec)
    case Rewind10Sec => Seek(SeekKey.Rewind10Sec)
    case CursorUp => Cursor(CursorKey.CursorUp)
    case CursorDown => Cursor(CursorKey.CursorDown)
    case CursorLeft => Cursor(CursorKey.CursorLeft)
    case CursorRight => Cursor(CursorKey.CursorRight)
    case CursorEnter => Cursor(CursorKey.CursorEnter)
    case Home => Menus(MenuKey.Home)
    case Menu => Menus(MenuKey.Menu)
    case Info => Menus(MenuKey.Info)
    case Return => Menus(MenuKey.Return)
    case PowerToggle => Special(SpecialKey.PowerToggle)
    case PowerOn => Special(SpecialKey.PowerOn)
    case PowerOff => Special(SpecialKey.PowerOff)
    case Audio => Special(SpecialKey.Audio)
    case Subtitle => Special(SpecialKey.Subtitle)
    case Repeat => Special(SpecialKey.Repeat)
    case Zoom => Special(SpecialKey.Zoom)
    case FunctionRed => Colour(ColourKey.FunctionRed)
    case FunctionGreen => Colour(ColourKey.FunctionGreen)
    case FunctionYellow => Colour(ColourKey.FunctionYellow)
    case FunctionBlue => Colour(ColourKey.FunctionBlue)
    case ThreeD => Extra(ExtraKey.ThreeD)
    case RVideo => Extra(ExtraKey.RVideo)
    case Explorer => Extra(ExtraKey.Explorer)
    case FormatScroll => Extra(ExtraKey.FormatScroll)
    case Mouse => Extra(ExtraKey.Mouse)
    case Dimmer => Extra(ExtraKey.Dimmer)
    case PageUp => Extra(ExtraKey.PageUp)
    case PageDown => Extra(ExtraKey.PageDown)
    case DeleteKey => Extra(ExtraKey.Delete)
  }

  /** An instance of RvolutionPlayerAPI: only its base URL, fixed at construction. */
  datatype Api = Api(baseUrl: string)

  const DefaultPort: int := 80
  const CommandPath: string := "/cgi-bin/do?cmd=ir_code&ir_code="
  /** The code checkConnection sends. */
  const TestCode: string := "TEST"

  /** `new RvolutionPlayerAPI(ipAddress, port)`; an omitted port is 80. */
  function NewApi(ipAddress: string, port: Option<int>): Api {
    Api("http://" + ipAddress + ":" + IntToString(port.GetOr(DefaultPort)))
  }

  function CommandUrl(api: Api, irCode: string): string {
    api.baseUrl + CommandPath + irCode
  }

  /** A call of the API: the URLs it fetched and what its promise resolves to. */
  datatype Call<T> = Call(fetched: seq<string>, result: T)

  /** `response.ok` for a command; a thrown error or timeout is caught and reported as false. */
  predicate CommandAccepted(reply: Reply) {
    match reply
    case Response(status, _) => IsOkStatus(status)
    case Failure => false
  }

  /** `response.status !== 404` for the connection check; a thrown error is caught and reported as false. */
  predicate Reachable(reply: Reply) {
    match reply
    case Response(status, _) => status != 404
    case Failure => false
  }

  /** sendIRCommand: one GET of the command URL; true exactly when the reply is ok. */
  function SendIRCommand(net: Network, api: Api, irCode: string): (c: Call<bool>)
    ensures c.fetched == [CommandUrl(api, irCode)]
    ensures c.result <==> RespondsOk(net, CommandUrl(api, irCode))
  {
    var url := CommandUrl(api, irCode);
    Call([url], CommandAccepted(net(url)))
  }

  /** checkConnection: one GET with the code "TEST"; false only on a 404 or a thrown error. */
  function CheckConnection(net: Network, api: Api): (c: Call<bool>)
    ensures c.fetched == [CommandUrl(api, TestCode)]
    ensures c.result <==>
      net(CommandUrl(api, TestCode)).Response? && net(CommandUrl(api, TestCode)).status != 404
  {
    var url := CommandUrl(api, TestCode);
    Call([url], Reachable(net(url)))
  }

  /** A command method: the table lookup, then sendIRCommand. */
  function Run(net: Network, api: Api, command: Command): Call<bool> {
    SendIRCommand(net, api, IrCode(KeyOf(command)))
  }

  /** setVolume: no request, always false (the infrared protocol has no absolute volume). */
  function SetVolume(volume: int): (c: Call<bool>)
    ensures c.fetched == [] && !c.result
  {
    Call([], false)
  }

  /** getStatus: no request, always null. */
  function GetStatus(): (c: Call<Option<PlayerStatus>>)
    ensures c.fetched == [] && c.result.None?
  {
    Call([], None)
  }

  // ---------------------------------------------------------------------
  // Properties

  predicate IsUpperHexDigit(c: char) {
    '0' <= c <= '9' || 'A' <= c <= 'F'
  }

  /** Eight characters, each an uppercase hexadecimal digit. */
  predicate IsHexCode(s: string) {
    |s| == 8 &&
    IsUpperHexDigit(s[0]) && IsUpperHexDigit(s[1]) && IsUpperHexDigit(s[2]) && IsUpperHexDigit(s[3]) &&
    IsUpperHexDigit(s[4]) && IsUpperHexDigit(s[5]) && IsUpperHexDigit(s[6]) && IsUpperHexDigit(s[7])
  }

  /** Every value of the IR_CODES table is an eight-character uppercase hexadecimal code. */
  lemma IrCodesAreHex(key: IrKey)
    ensures IsHexCode(IrCode(key))
  {
    match key
    case Playback(k) => PlaybackCodesHex(k);
    case Volume(k) => VolumeCodesHex(k);
    case Seek(k) => SeekCodesHex(k);
    case Cursor(k) => CursorCodesHex(k);
    case Menus(k) => MenuCodesHex(k);
    case Special(k) => SpecialCodesHex(k);
    case Colour(k) => ColourCodesHex(k);
    case Extra(k) => ExtraCodesHex(k);
    case DigitKey(n) => DigitCodeShape(n);
  }

  lemma PlaybackCodesHex(key: PlaybackKey)
    ensures IsHexCode(PlaybackCode(key))
  {
  }

  lemma VolumeCodesHex(key: VolumeKey)
    ensures IsHexCode(VolumeCode(key))
  {
  }

  lemma SeekCodesHex(key: SeekKey)
    ensures IsHexCode(SeekCode(key))
  {
  }

  lemma CursorCodesHex(key: CursorKey)
    ensures IsHexCode(CursorCode(key))
  {
  }

  lemma MenuCodesHex(key: MenuKey)
    ensures IsHexCode(MenuCode(key))
  {
  }

  lemma SpecialCodesHex(key: SpecialKey)
    ensures IsHexCode(SpecialCode(key))
  {
  }

  lemma ColourCodesHex(key: ColourKey)
    ensures IsHexCode(ColourCode(key))
  {
  }

  lemma ExtraCodesHex(key: ExtraKey)
    ensures IsHexCode(ExtraCode(key))
  {
  }

  /** The upper-case hexadecimal digit of a value below 16. */
  function HexDigit(v: nat): (c: char)
    requires v < 16
    ensures IsUpperHexDigit(c)
  {
    if v < 10 then ('0' as int + v) as char else ('A' as int + v - 10) as char
  }

  /** `F`, the digit 15 - n, `0`, the digit n, then `4040`. */
  predicate DigitShaped(code: string, n: DigitIndex) {
    |code| == 8 && code[0] == 'F' && code[1] == HexDigit(15 - n) && code[2] == '0' && code[3] == HexDigit(n) &&
    code[4] == '4' && code[5] == '0' && code[6] == '4' && code[7] == '0'
  }

  /** The code of digit n is the command byte 0xFF - n, then the byte n, then the address bytes 40 40. */
  lemma DigitCodeShape(n: DigitIndex)
    ensures DigitShaped(IrCode(DigitKey(n)), n)
    ensures IsHexCode(IrCode(DigitKey(n)))
  {
    assert DigitShaped(DigitCode(n), n);
  }

  /** digitN sends the table's DIGIT_N code, for every N in 0..9. */
  lemma DigitCommandSendsDigitCode(net: Network, api: Api, n: DigitIndex)
    ensures Run(net, api, Digit(n)).fetched == [CommandUrl(api, DigitCode(n))]
    ensures DigitShaped(IrCode(KeyOf(Digit(n))), n)
  {
    DigitCodeShape(n);
  }

  /** play and pause are one toggle: the same request and the same answer. */
  lemma PlayPauseSameCode(net: Network, api: Api)
    ensures IrCode(KeyOf(Play)) == IrCode(KeyOf(Pause)) == "AC534040"
    ensures Run(net, api, Play) == Run(net, api, Pause)
  {
  }

  /** stop and return send the same code, so the player cannot tell them apart. */
  lemma StopReturnSameCode(net: Network, api: Api)
    ensures IrCode(KeyOf(Command.Stop)) == IrCode(KeyOf(Command.Return)) == "BD424040"
    ensures Run(net, api, Command.Stop) == Run(net, api, Command.Return)
  {
  }

  /** Three more pairs of keys share one code in the table. */
  lemma SharedTableCodes()
    ensures IrCode(Cursor(CursorKey.CursorLeft)) == IrCode(Seek(SeekKey.Rewind60Sec))
    ensures IrCode(Cursor(CursorKey.CursorRight)) == IrCode(Seek(SeekKey.Forward60Sec))
    ensures IrCode(Extra(ExtraKey.PageUp)) == IrCode(Seek(SeekKey.Forward10Sec))
  {
  }

  /** `${ip}:${port}` after "http://": the base URL of the record's own address and port. */
  lemma BaseUrlOfRecord(d: Device)
    requires NetworkDiscovery.WellKeyed(d)
    ensures NewApi(d.ipAddress, Some(d.port)).baseUrl == "http://" + d.id
  {
  }

  /** An omitted port means port 80. */
  lemma OmittedPortIs80(ipAddress: string)
    ensures NewApi(ipAddress, None) == NewApi(ipAddress, Some(80))
    ensures NewApi(ipAddress, None).baseUrl == "http://" + ipAddress + ":80"
  {
    assert IntToString(80) == "80";
  }

  /** Two APIs built with different ports have different base URLs. */
  lemma BaseUrlPortInjective(a: string, b: string, p: int, q: int)
    ensures NewApi(a, Some(p)) == NewApi(b, Some(q)) ==> p == q
  {
    if NewApi(a, Some(p)) == NewApi(b, Some(q)) {
      var u := NewApi(a, Some(p)).baseUrl;
      assert u == "http://" + NetworkDiscovery.DeviceId(a, p);
      assert u == "http://" + NetworkDiscovery.DeviceId(b, q);
      assert u[7..] == NetworkDiscovery.DeviceId(a, p);
      assert u[7..] == NetworkDiscovery.DeviceId(b, q);
      NetworkDiscovery.DeviceIdPortInjective(a, b, p, q);
    }
  }

  /** Distinct codes give distinct URLs, and the connection test never sends a command's code. */
  lemma CommandUrlInjective(api: Api, x: string, y: string)
    ensures CommandUrl(api, x) == CommandUrl(api, y) ==> x == y
  {
    if CommandUrl(api, x) == CommandUrl(api, y) {
      var n := |api.baseUrl + CommandPath|;
      assert x == CommandUrl(api, x)[n..];
      assert y == CommandUrl(api, y)[n..];
    }
  }

  lemma TestIsNoCommand(net: Network, api: Api, command: Command)
    ensures Run(net, api, command).fetched != CheckConnection(net, api).fetched
  {
    IrCodesAreHex(KeyOf(command));
    CommandUrlInjective(api, IrCode(KeyOf(command)), TestCode);
  }

  /** Every reply a command counts as success also passes the connection check. */
  lemma AcceptedIsReachable(reply: Reply)
    ensures CommandAccepted(reply) ==> Reachable(reply)
  {
  }

  /**
   * The two rules part on every non-ok status other than 404: a player
   * answering 500 passes the connection check while each command fails.
   * A 404 or a thrown error fails both.
   */
  lemma ServerErrorSplitsTheRules(net: Network, api: Api, command: Command)
    requires forall url :: net(url) == Response(500, None)
    ensures CheckConnection(net, api).result && !Run(net, api, command).result
  {
  }

  lemma NotFoundFailsBoth(net: Network, api: Api, command: Command)
    requires forall url :: net(url).Response? && net(url).status == 404
    ensures !CheckConnection(net, api).result && !Run(net, api, command).result
  {
  }

  lemma FailureFailsBoth(net: Network, api: Api, command: Command)
    requires forall url :: net(url) == Failure
    ensures !CheckConnection(net, api).result && !Run(net, api, command).result
  {
  }
}
