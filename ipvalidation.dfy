// validateIP, written out identically in the add and edit screens: the text
// must match /^(\d{1,3}\.){3}\d{1,3}$/ and every dot-separated part, read with
// parseInt(part, 10), must lie in 0..255.

module IpValidation {
  import opened Types
  import opened Text

  /**
   * `(\d{1,3}\.){dots}\d{1,3}` anchored at both ends. Digits and '.' are
   * disjoint, so each `\d{1,3}` can only end where the run of digits ends.
   */
  predicate MatchesGroups(s: string, dots: nat)
    decreases dots
  {
    var n := LeadingDigits(s);
    1 <= n <= 3 &&
    if dots == 0 then n == |s|
    else n < |s| && s[n] == '.' && MatchesGroups(s[n + 1..], dots - 1)
  }

  /** The regular expression test `/^(\d{1,3}\.){3}\d{1,3}$/.test(ip)`. */
  predicate MatchesIpPattern(ip: string) {
    MatchesGroups(ip, 3)
  }

  /** `num >= 0 && num <= 255` for `num = parseInt(part, 10)`; NaN fails both comparisons. */
  predicate PartInRange(part: string) {
    match ParseInt(part)
    case Some(v) => 0 <= v <= 255
    case None => false
  }

  predicate ValidateIP(ip: string) {
    MatchesIpPattern(ip) &&
    var parts := Split(ip, '.');
    forall i :: 0 <= i < |parts| ==> PartInRange(parts[i])
  }

  /** A group as the rule means it: one to three ASCII digits whose value is at most 255. */
  predicate IsOctetText(g: string) {
    1 <= |g| <= 3 && AllDigits(g) && DecimalValue(g) <= 255
  }

  predicate IsDigitGroup(g: string) {
    1 <= |g| <= 3 && AllDigits(g)
  }

  predicate AllDigitGroups(parts: seq<string>) {
    forall i :: 0 <= i < |parts| ==> IsDigitGroup(parts[i])
  }

  lemma AllDigitGroupsCons(head: string, tail: seq<string>)
    ensures AllDigitGroups([head] + tail) <==> IsDigitGroup(head) && AllDigitGroups(tail)
  {
    var parts := [head] + tail;
    assert parts[0] == head;
    assert forall i :: 0 <= i < |tail| ==> tail[i] == parts[i + 1];
  }

  lemma {:induction false} LeadingDigitsAtLeast(s: string, k: nat)
    requires k <= |s| && AllDigits(s[..k])
    ensures LeadingDigits(s) >= k
  {
    if k > 0 {
      assert IsDigit(s[..k][0]);
      assert s[1..][..k - 1] == s[..k][1..];
      LeadingDigitsAtLeast(s[1..], k - 1);
    }
  }

  /** Without a dot, only the last group can match. */
  lemma NoDotGroups(s: string, dots: nat)
    requires '.' !in s
    ensures MatchesGroups(s, dots) <==> dots == 0 && IsDigitGroup(s)
  {
    var n := LeadingDigits(s);
    if AllDigits(s) {
      AllDigitsLeading(s);
    }
    if n == |s| {
      assert s[..n] == s;
    }
    if dots > 0 && n < |s| {
      assert s[n] in s;
    }
  }

  /** At the first dot, the regular expression consumes one group and that dot. */
  lemma DotGroups(s: string, k: nat, dots: nat)
    requires k < |s| && s[k] == '.' && '.' !in s[..k]
    ensures MatchesGroups(s, dots) <==>
      dots > 0 && IsDigitGroup(s[..k]) && MatchesGroups(s[k + 1..], dots - 1)
  {
    var n := LeadingDigits(s);
    assert n <= k;
    if AllDigits(s[..k]) {
      LeadingDigitsAtLeast(s, k);
    }
    if n < k {
      assert s[..k][n] == s[n];
    }
    if n == k {
      assert s[..n] == s[..k];
    }
  }

  lemma MatchesGroupsNoDot(s: string, dots: nat)
    requires IndexOf(s, '.') < 0
    ensures MatchesGroups(s, dots) <==>
      (|Split(s, '.')| == dots + 1 && AllDigitGroups(Split(s, '.')))
  {
    IndexOfFirst(s, '.');
    assert Split(s, '.') == [s] + [];
    AllDigitGroupsCons(s, []);
    NoDotGroups(s, dots);
  }

  lemma {:induction false} MatchesGroupsSplit(s: string, dots: nat)
    ensures MatchesGroups(s, dots) <==>
      (|Split(s, '.')| == dots + 1 && AllDigitGroups(Split(s, '.')))
    decreases |s|
  {
    var k := IndexOf(s, '.');
    if k < 0 {
      MatchesGroupsNoDot(s, dots);
    } else {
      if dots > 0 {
        MatchesGroupsSplit(s[k + 1..], dots - 1);
      }
      MatchesGroupsAtDot(s, k, dots);
    }
  }

  /** The inductive step of MatchesGroupsSplit: the first group and dot come off both sides. */
  lemma MatchesGroupsAtDot(s: string, k: nat, dots: nat)
    requires IndexOf(s, '.') == k
    requires dots > 0 ==> (MatchesGroups(s[k + 1..], dots - 1) <==>
      (|Split(s[k + 1..], '.')| == dots && AllDigitGroups(Split(s[k + 1..], '.'))))
    ensures MatchesGroups(s, dots) <==>
      (|Split(s, '.')| == dots + 1 && AllDigitGroups(Split(s, '.')))
  {
    IndexOfFirst(s, '.');
    var tail := Split(s[k + 1..], '.');
    assert Split(s, '.') == [s[..k]] + tail;
    DotGroups(s, k, dots);
    AllDigitGroupsCons(s[..k], tail);
  }

  /**
   * validateIP accepts exactly four dot-separated groups of one to three
   * ASCII digits, each of value at most 255.
   */
  lemma ValidateIPCharacterised(ip: string)
    ensures ValidateIP(ip) <==>
      (|Split(ip, '.')| == 4 &&
       forall i :: 0 <= i < 4 ==> IsOctetText(Split(ip, '.')[i]))
  {
    var parts := Split(ip, '.');
    MatchesGroupsSplit(ip, 3);
    forall i | 0 <= i < |parts| && IsDigitGroup(parts[i])
      ensures PartInRange(parts[i]) <==> IsOctetText(parts[i])
    {
      ParseIntOfDigits(parts[i]);
    }
    if |parts| == 4 && forall i :: 0 <= i < 4 ==> IsOctetText(parts[i]) {
      assert AllDigitGroups(parts);
    }
  }

  lemma QuadSplit(a: string, b: string, c: string, d: string)
    requires '.' !in a && '.' !in b && '.' !in c && '.' !in d
    ensures Split(a + "." + b + "." + c + "." + d, '.') == [a, b, c, d]
  {
    var r2 := c + ['.'] + d;
    var r1 := b + ['.'] + r2;
    SplitNone(d, '.');
    SplitCons(c, '.', d);
    assert Split(r2, '.') == [c, d];
    SplitCons(b, '.', r2);
    assert Split(r1, '.') == [b, c, d];
    SplitCons(a, '.', r1);
    DotAssoc(a, b, c, d);
  }

  lemma DotAssoc(a: string, b: string, c: string, d: string)
    ensures a + "." + b + "." + c + "." + d == a + ['.'] + (b + ['.'] + (c + ['.'] + d))
  {
  }

  /** Four dot-free groups, each an octet, make an accepted address. */
  lemma AcceptedFromParts(ip: string, parts: seq<string>)
    requires Split(ip, '.') == parts && |parts| == 4
    requires forall i :: 0 <= i < 4 ==> IsOctetText(parts[i])
    ensures ValidateIP(ip)
  {
    ValidateIPCharacterised(ip);
  }

  lemma OctetOfNat(n: nat)
    requires n <= 255
    ensures IsOctetText(NatToString(n))
  {
    NatToStringDigits(n);
    NatToStringLength(n);
  }

  /** The canonical dotted-decimal text of four octet values. */
  function DottedQuad(a: nat, b: nat, c: nat, d: nat): string {
    NatToString(a) + "." + NatToString(b) + "." + NatToString(c) + "." + NatToString(d)
  }

  /** Every address written with plain decimal octets 0..255 is accepted. */
  lemma DottedQuadAccepted(a: nat, b: nat, c: nat, d: nat)
    requires a <= 255 && b <= 255 && c <= 255 && d <= 255
    ensures ValidateIP(DottedQuad(a, b, c, d))
  {
    var ga, gb, gc, gd := NatToString(a), NatToString(b), NatToString(c), NatToString(d);
    OctetOfNat(a);
    OctetOfNat(b);
    OctetOfNat(c);
    OctetOfNat(d);
    QuadSplit(ga, gb, gc, gd);
    var parts := [ga, gb, gc, gd];
    assert forall i :: 0 <= i < 4 ==> IsOctetText(parts[i]);
    var ip := ga + "." + gb + "." + gc + "." + gd;
    AcceptedFromParts(ip, parts);
    assert ValidateIP(ip);
  }

  lemma {:induction false} MatchesGroupsEnds(s: string, dots: nat)
    requires MatchesGroups(s, dots)
    ensures |s| > 0 && IsDigit(s[0]) && IsDigit(s[|s| - 1])
    decreases dots
  {
    var n := LeadingDigits(s);
    assert s[..n][0] == s[0];
    if dots == 0 {
      assert s[..n][n - 1] == s[|s| - 1];
    } else {
      MatchesGroupsEnds(s[n + 1..], dots - 1);
    }
  }

  /** An accepted address starts and ends with a digit, so it is neither blank nor padded. */
  lemma ValidIpIsTrimmed(ip: string)
    requires ValidateIP(ip)
    ensures |ip| > 0 && IsDigit(ip[0]) && IsDigit(ip[|ip| - 1])
    ensures Trim(ip) == ip && !IsBlank(ip)
  {
    MatchesGroupsEnds(ip, 3);
    DigitIsNotSpace(ip[0]);
    DigitIsNotSpace(ip[|ip| - 1]);
  }

  lemma DigitIsNotSpace(c: char)
    requires IsDigit(c)
    ensures !IsJsSpace(c)
  {
  }

  /** Input with a leading or trailing space is rejected (the pattern is anchored). */
  lemma PaddedIpRejected(ip: string)
    ensures !ValidateIP(" " + ip) && !ValidateIP(ip + " ")
  {
    if ValidateIP(" " + ip) {
      ValidIpIsTrimmed(" " + ip);
    }
    if ValidateIP(ip + " ") {
      ValidIpIsTrimmed(ip + " ");
    }
  }

  /** An octet above 255, or a group longer than three digits, is rejected. */
  lemma DottedQuadRejected(a: nat, b: nat, c: nat, d: nat)
    requires a > 255 || b > 255 || c > 255 || d > 255
    ensures !ValidateIP(DottedQuad(a, b, c, d))
  {
    var ga, gb, gc, gd := NatToString(a), NatToString(b), NatToString(c), NatToString(d);
    NatToStringDigits(a);
    NatToStringDigits(b);
    NatToStringDigits(c);
    NatToStringDigits(d);
    QuadSplit(ga, gb, gc, gd);
    var ip := ga + "." + gb + "." + gc + "." + gd;
    ValidateIPCharacterised(ip);
    var parts := [ga, gb, gc, gd];
    assert !IsOctetText(parts[0]) || !IsOctetText(parts[1]) || !IsOctetText(parts[2]) || !IsOctetText(parts[3]);
  }

  // Worked examples. Each literal goal is kept apart from the proof that
  // establishes it, so that the verifier does not evaluate the literal.

  lemma PlainAddressText()
    ensures DottedQuad(192, 168, 1, 10) == "192.168.1.10"
  {
    assert NatToString(192) == "192" && NatToString(168) == "168";
    assert NatToString(10) == "10";
  }

  lemma OverflowAddressText()
    ensures DottedQuad(192, 168, 1, 256) == "192.168.1.256"
  {
    assert NatToString(192) == "192" && NatToString(168) == "168";
    assert NatToString(256) == "256";
  }

  lemma AcceptsPlainAddress()
    ensures ValidateIP("192.168.1.10")
  {
    DottedQuadAccepted(192, 168, 1, 10);
    PlainAddressText();
  }

  lemma RejectsOctetAbove255()
    ensures !ValidateIP("192.168.1.256")
  {
    DottedQuadRejected(192, 168, 1, 256);
    OverflowAddressText();
  }

  lemma TripleSplit(a: string, b: string, c: string)
    requires '.' !in a && '.' !in b && '.' !in c
    ensures Split(a + "." + b + "." + c, '.') == [a, b, c]
  {
    var r := b + ['.'] + c;
    SplitNone(c, '.');
    SplitCons(b, '.', c);
    assert Split(r, '.') == [b, c];
    SplitCons(a, '.', r);
    DotAssoc3(a, b, c);
  }

  lemma DotAssoc3(a: string, b: string, c: string)
    ensures a + "." + b + "." + c == a + ['.'] + (b + ['.'] + c)
  {
  }

  /** Three groups are one too few, whatever they hold: "192.168.1" is rejected. */
  lemma ThreeGroupsRejected(a: string, b: string, c: string)
    requires '.' !in a && '.' !in b && '.' !in c
    ensures !ValidateIP(a + "." + b + "." + c)
  {
    TripleSplit(a, b, c);
    MatchesGroupsSplit(a + "." + b + "." + c, 3);
  }

  /** The value of a three-digit text. */
  lemma ThreeDigitValue(x: char, y: char, z: char)
    requires IsDigit(x) && IsDigit(y) && IsDigit(z)
    ensures IsDigitGroup([x, y, z])
    ensures DecimalValue([x, y, z]) == DigitValue(x) * 100 + DigitValue(y) * 10 + DigitValue(z)
  {
    DecimalValueSnoc([], x);
    assert [] + [x] == [x];
    DecimalValueSnoc([x], y);
    assert [x] + [y] == [x, y];
    DecimalValueSnoc([x, y], z);
    assert [x, y] + [z] == [x, y, z];
  }

  lemma ZeroPaddedOctets()
    ensures IsOctetText("010") && IsOctetText("001") && IsOctetText("000") && IsOctetText("255")
  {
    ThreeDigitValue('0', '1', '0');
    ThreeDigitValue('0', '0', '1');
    ThreeDigitValue('0', '0', '0');
    ThreeDigitValue('2', '5', '5');
  }

  lemma ZeroPaddedJoined()
    ensures ValidateIP("010" + "." + "001" + "." + "000" + "." + "255")
  {
    QuadSplit("010", "001", "000", "255");
    ZeroPaddedOctets();
    var parts := ["010", "001", "000", "255"];
    assert forall i :: 0 <= i < 4 ==> IsOctetText(parts[i]);
    AcceptedFromParts("010" + "." + "001" + "." + "000" + "." + "255", parts);
  }

  /** Leading zeros are accepted: parseInt reads "010" as 10. */
  lemma AcceptsLeadingZeros()
    ensures ValidateIP("010.001.000.255")
  {
    ZeroPaddedJoined();
    assert "010" + "." + "001" + "." + "000" + "." + "255" == "010.001.000.255";
  }
}
