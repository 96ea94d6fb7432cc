/** The human-readable form of addresses.  Texts are their UTF-8 bytes, in which a slash is always
    the one byte 47. */
module TextForm {
  import opened Options
  import opened Sequences
  import opened Varint
  import opened Codec
  import Utf8

  const SLASH: byte := 47

  // ----- Splitting at slashes -----

  /** The position of the first slash, or the length where there is none. */
  function FirstSlash(s: Bytes): (n: nat)
    ensures n <= |s|
    ensures n < |s| ==> s[n] == SLASH
  {
    if s == [] || s[0] == SLASH then 0 else 1 + FirstSlash(s[1..])
  }

  predicate NoSlash(s: Bytes) {
    FirstSlash(s) == |s|
  }

  predicate AtSlash(s: Bytes) {
    s == [] || s[0] == SLASH
  }

  /** The first slash of a text that is followed by a slash or by nothing. */
  lemma {:induction false} SlashBehind(s: Bytes, rest: Bytes)
    requires AtSlash(rest)
    ensures FirstSlash(s + rest) == FirstSlash(s)
  {
    if s == [] {
      assert s + rest == rest;
    } else if s[0] != SLASH {
      SlashBehind(s[1..], rest);
      assert (s + rest)[1..] == s[1..] + rest;
    }
  }

  // ----- Prefixes -----

  /** The prefix of each registered code, and the code of each registered prefix. */
  datatype Registry = Registry(prefixes: map<nat, Bytes>, codes: map<Bytes, nat>)

  /** Codes and prefixes belong to each other one to one, codes are standard and have the prefix under
      which the standard codec knows them, and prefixes are not empty and hold no slash. */
  ghost predicate Consistent(reg: Registry) {
    && (forall c :: c in reg.prefixes ==>
          && c in STD_CODES && ShapeOf(c) != Unknown
          && reg.prefixes[c] == PrefixOf(c)
          && reg.prefixes[c] in reg.codes && reg.codes[reg.prefixes[c]] == c)
    && (forall s :: s in reg.codes ==>
          && s != [] && NoSlash(s) && Utf8.IsText(s)
          && reg.codes[s] in reg.prefixes && reg.prefixes[reg.codes[s]] == s)
  }

  /** The prefixes of the default registry: ip4, ip6, tcp, worker, dnsaddr, service, node, project,
      space and secure. */
  function PrefixOf(code: nat): Bytes {
    if code == IP4 then [105, 112, 52]
    else if code == IP6 then [105, 112, 54]
    else if code == TCP then [116, 99, 112]
    else if code == WORKER then [119, 111, 114, 107, 101, 114]
    else if code == DNSADDR then [100, 110, 115, 97, 100, 100, 114]
    else if code == SERVICE then [115, 101, 114, 118, 105, 99, 101]
    else if code == NODE then [110, 111, 100, 101]
    else if code == PROJECT then [112, 114, 111, 106, 101, 99, 116]
    else if code == SPACE then [115, 112, 97, 99, 101]
    else if code == SECURE then [115, 101, 99, 117, 114, 101]
    else []
  }

  function CodeOf(prefix: Bytes): nat {
    if prefix == PrefixOf(IP4) then IP4
    else if prefix == PrefixOf(IP6) then IP6
    else if prefix == PrefixOf(TCP) then TCP
    else if prefix == PrefixOf(WORKER) then WORKER
    else if prefix == PrefixOf(DNSADDR) then DNSADDR
    else if prefix == PrefixOf(SERVICE) then SERVICE
    else if prefix == PrefixOf(NODE) then NODE
    else if prefix == PrefixOf(PROJECT) then PROJECT
    else if prefix == PrefixOf(SPACE) then SPACE
    else SECURE
  }

  const PREFIXES: set<Bytes> := set c | c in STD_CODES :: PrefixOf(c)

  const DEFAULT: Registry :=
    Registry(map c | c in STD_CODES :: PrefixOf(c), map s | s in PREFIXES :: CodeOf(s))

  /** Digits, letters and what lies between them in ASCII, which is no slash. */
  predicate IsPlain(s: Bytes) {
    forall i :: 0 <= i < |s| ==> 48 <= s[i] <= 122
  }

  lemma {:induction false} PlainIsText(s: Bytes)
    requires IsPlain(s)
    ensures NoSlash(s) && Utf8.IsText(s)
  {
    if s != [] {
      PlainIsText(s[1..]);
      Utf8.OneByteIsText(s[0]);
      Utf8.TextAppend([s[0]], s[1..]);
      assert s == [s[0]] + s[1..];
    }
  }

  lemma PrefixesAreDistinct(code: nat)
    requires code in STD_CODES
    ensures CodeOf(PrefixOf(code)) == code
    ensures |PrefixOf(code)| >= 3 && IsPlain(PrefixOf(code)) && ShapeOf(code) != Unknown
  {
  }

  lemma DefaultIsConsistent()
    ensures Consistent(DEFAULT)
  {
    forall c | c in STD_CODES
      ensures PrefixOf(c) in PREFIXES && CodeOf(PrefixOf(c)) == c && ShapeOf(c) != Unknown
    {
      PrefixesAreDistinct(c);
    }
    forall s | s in PREFIXES
      ensures s != [] && NoSlash(s) && Utf8.IsText(s) && CodeOf(s) in STD_CODES && PrefixOf(CodeOf(s)) == s
    {
      var c :| c in STD_CODES && PrefixOf(c) == s;
      PrefixesAreDistinct(c);
      PlainIsText(s);
    }
  }

  // ----- Values -----

  /** The texts of IP addresses, and the addresses that texts are read as. */
  datatype Ips = Ips(show: Bytes -> Bytes, read4: Bytes -> Option<Bytes>, read6: Bytes -> Option<Bytes>)

  /** Reading undoes showing, and texts of addresses hold no slash. */
  ghost predicate Inverse(ips: Ips) {
    && (forall a: Bytes :: |a| == 4 ==> Shows(a, ips.show) && ips.read4(ips.show(a)) == Some(a))
    && (forall a: Bytes :: |a| == 16 ==> Shows(a, ips.show) && ips.read6(ips.show(a)) == Some(a))
    && (forall t: Bytes :: ips.read4(t).Some? ==> |ips.read4(t).value| == 4)
    && (forall t: Bytes :: ips.read6(t).Some? ==> |ips.read6(t).value| == 16)
  }

  predicate Shows(a: Bytes, show: Bytes -> Bytes) {
    NoSlash(show(a)) && Utf8.IsText(show(a))
  }

  /** Two letters for each byte. */
  function Letters(a: Bytes): Bytes {
    if a == [] then [] else [97 + a[0] / 16, 97 + a[0] % 16] + Letters(a[1..])
  }

  function FromLetters(t: Bytes): Option<Bytes> {
    if t == [] then Some([])
    else if |t| == 1 || !(97 <= t[0] < 113) || !(97 <= t[1] < 113) then None
    else
      match FromLetters(t[2..])
      case Some(a) => Some([16 * (t[0] - 97) + (t[1] - 97)] + a)
      case None => None
  }

  lemma {:induction false} LettersRead(a: Bytes)
    ensures FromLetters(Letters(a)) == Some(a) && IsPlain(Letters(a))
  {
    if a != [] {
      LettersRead(a[1..]);
      var t := Letters(a);
      assert t[0] == 97 + a[0] / 16 && t[1] == 97 + a[0] % 16 && t[2..] == Letters(a[1..]);
      HeadAndTail(a);
    }
  }

  function OfLength(n: nat, r: Option<Bytes>): Option<Bytes> {
    if r.Some? && |r.value| == n then r else None
  }

  const LETTERS: Ips := Ips(Letters, t => OfLength(4, FromLetters(t)), t => OfLength(16, FromLetters(t)))

  /** Such texts exist. */
  lemma InverseExists()
    ensures Inverse(LETTERS)
  {
    forall a: Bytes ensures FromLetters(Letters(a)) == Some(a) && Shows(a, Letters) {
      LettersRead(a);
      PlainIsText(Letters(a));
    }
  }

  function Decimal(n: nat): Bytes {
    if n < 10 then [48 + n] else Decimal(n / 10) + [48 + n % 10]
  }

  predicate IsDigit(b: byte) {
    48 <= b <= 57
  }

  function Digits(s: Bytes): Option<nat> {
    if s == [] || !IsDigit(s[|s| - 1]) then None
    else if |s| == 1 then Some(s[0] - 48)
    else
      match Digits(s[..|s| - 1])
      case Some(n) => Some(10 * n + s[|s| - 1] - 48)
      case None => None
  }

  /** `u16::from_str`: decimal digits, after a plus sign if one likes. */
  function ReadU16(s: Bytes): Option<nat> {
    var digits := if s != [] && s[0] == 43 then s[1..] else s;
    match Digits(digits)
    case Some(n) => if n < 0x1_0000 then Some(n) else None
    case None => None
  }

  lemma {:induction false} DecimalReads(n: nat)
    ensures Decimal(n) != [] && IsDigit(Decimal(n)[0]) && Digits(Decimal(n)) == Some(n)
    ensures IsPlain(Decimal(n))
  {
    if n >= 10 {
      DecimalReads(n / 10);
      var s := Decimal(n);
      assert s[..|s| - 1] == Decimal(n / 10);
    }
  }

  /** A port number, most significant byte first. */
  function Port(data: Bytes): nat
    requires |data| == 2
  {
    256 * (data[0] as int) + data[1] as int
  }

  function ShowValue(p: Proto, ips: Ips): Bytes
    requires IsValid(p)
  {
    if p.code == TCP then Decimal(Port(p.data))
    else if p.code == IP4 || p.code == IP6 then ips.show(p.data)
    else p.data
  }

  function ReadValue(code: nat, s: Bytes, ips: Ips): Result<Proto> {
    if code == TCP then
      match ReadU16(s)
      case Some(n) => Ok(Proto(code, [n / 256, n % 256]))
      case None => Err(BadValue(s))
    else if code == IP4 then FromIp(code, s, ips.read4(s))
    else if code == IP6 then FromIp(code, s, ips.read6(s))
    else Ok(Proto(code, s))
  }

  function FromIp(code: nat, s: Bytes, r: Option<Bytes>): Result<Proto> {
    match r case Some(a) => Ok(Proto(code, a)) case None => Err(BadValue(s))
  }

  /** The values whose text can be told from what follows it: numbers always, texts without
      slashes. */
  predicate Separable(p: Proto) {
    ShapeOf(p.code) == Text ==> NoSlash(p.data)
  }

  /** A shown value is read back; it holds a slash only as a text that does. */
  lemma ReadShown(p: Proto, ips: Ips)
    requires IsValid(p) && Inverse(ips)
    ensures ReadValue(p.code, ShowValue(p, ips), ips) == Ok(p)
    ensures NoSlash(ShowValue(p, ips)) <==> Separable(p)
    ensures !Separable(p) ==> ShowValue(p, ips) == p.data
    ensures Utf8.IsText(ShowValue(p, ips))
  {
    if p.code == TCP {
      var n := Port(p.data);
      DecimalReads(n);
      PlainIsText(Decimal(n));
      assert n / 256 == p.data[0] && n % 256 == p.data[1];
      assert p.data == [p.data[0], p.data[1]];
    }
  }

  // ----- Writing and reading addresses -----

  /** A slash, the prefix, a slash, the value, and then what follows. */
  function Section(prefix: Bytes, value: Bytes, rest: Bytes): Bytes {
    [SLASH] + (prefix + ([SLASH] + (value + rest)))
  }

  function ShowAll(ps: seq<Proto>, reg: Registry, ips: Ips): (s: Bytes)
    requires AllValid(ps, reg.prefixes.Keys)
    ensures AtSlash(s)
  {
    if ps == [] then []
    else Section(reg.prefixes[ps[0].code], ShowValue(ps[0], ips), ShowAll(ps[1..], reg, ips))
  }

  /** The prefix at the front, after a slash if there is one, and what follows the next slash. */
  function Heading(s: Bytes): (Bytes, Bytes) {
    var n := FirstSlash(s);
    if n == |s| then (s, [])
    else if n > 0 then (s[..n], s[n + 1..])
    else
      var t := s[1..];
      var m := FirstSlash(t);
      if m == |t| then (t, []) else (t[..m], t[m + 1..])
  }

  /** One step of the iterator over textual values: code, value and remainder.  The value ends
      before the next slash. */
  function NextText(s: Bytes, reg: Registry): (r: Result<(nat, Bytes, Bytes)>)
    requires Consistent(reg) && s != []
    ensures r.Ok? ==> |r.value.2| < |s|
  {
    var (prefix, value) := Heading(s);
    if prefix !in reg.codes then Err(UnknownPrefix(prefix))
    else Ok((reg.codes[prefix], value[..FirstSlash(value)], value[FirstSlash(value)..]))
  }

  /** `try_from_str`, as a list of values. */
  function ParseAll(s: Bytes, reg: Registry, ips: Ips): Result<seq<Proto>>
    requires Consistent(reg)
    decreases |s|
  {
    if s == [] then Ok([])
    else
      match NextText(s, reg)
      case Err(e) => Err(e)
      case Ok((code, x, rest)) =>
        match ReadValue(code, x, ips)
        case Err(e) => Err(e)
        case Ok(p) => Joined(p, ParseAll(rest, reg, ips))
  }

  function Joined(p: Proto, r: Result<seq<Proto>>): Result<seq<Proto>> {
    match r case Err(e) => Err(e) case Ok(ps) => Ok([p] + ps)
  }

  // ----- The round trip -----

  lemma HeadingOfSection(prefix: Bytes, value: Bytes, rest: Bytes)
    requires NoSlash(prefix)
    ensures Heading(Section(prefix, value, rest)) == (prefix, value + rest)
  {
    var w := [SLASH] + (value + rest);
    var t := prefix + w;
    CutAppend([SLASH], t);
    SlashBehind(prefix, w);
    CutAppend(prefix, w);
    CutAppend([SLASH], value + rest);
    assert t[|prefix| + 1..] == t[|prefix|..][1..];
  }

  /** The iterator yields the part of a shown value before its first slash. */
  lemma NextOfSection(code: nat, v: Bytes, rest: Bytes, reg: Registry)
    requires Consistent(reg) && code in reg.prefixes && AtSlash(rest)
    ensures var n := FirstSlash(v);
            NextText(Section(reg.prefixes[code], v, rest), reg) == Ok((code, v[..n], v[n..] + rest))
  {
    HeadingOfSection(reg.prefixes[code], v, rest);
    SlashBehind(v, rest);
    CutInside(v, rest, FirstSlash(v));
  }

  lemma CutInside(v: Bytes, rest: Bytes, n: nat)
    requires n <= |v|
    ensures (v + rest)[..n] == v[..n] && (v + rest)[n..] == v[n..] + rest
    ensures n == |v| ==> v[..n] == v && v[n..] + rest == rest
  {
  }

  lemma ParseHead(s: Bytes, code: nat, x: Bytes, rest: Bytes, reg: Registry, ips: Ips)
    requires Consistent(reg) && s != [] && NextText(s, reg) == Ok((code, x, rest))
    ensures var v := ReadValue(code, x, ips);
            ParseAll(s, reg, ips) == if v.Ok? then Joined(v.value, ParseAll(rest, reg, ips)) else Err(v.error)
  {
  }

  lemma ReadKeepsText(code: nat, x: Bytes, ips: Ips)
    requires ShapeOf(code) == Text
    ensures ReadValue(code, x, ips) == Ok(Proto(code, x))
  {
  }

  /** Reading one shown value and then the rest; a text with a slash is cut short. */
  lemma ParseSection(p: Proto, rest: Bytes, reg: Registry, ips: Ips)
    requires IsValid(p) && Consistent(reg) && p.code in reg.prefixes && Inverse(ips) && AtSlash(rest)
    ensures var r := ParseAll(Section(reg.prefixes[p.code], ShowValue(p, ips), rest), reg, ips);
            if Separable(p) then r == Joined(p, ParseAll(rest, reg, ips))
            else r.Ok? ==> r.value != [] && r.value[0] != p
  {
    var v := ShowValue(p, ips);
    var n := FirstSlash(v);
    NextOfSection(p.code, v, rest, reg);
    ParseHead(Section(reg.prefixes[p.code], v, rest), p.code, v[..n], v[n..] + rest, reg, ips);
    ReadShown(p, ips);
    CutInside(v, rest, n);
    if !Separable(p) {
      ReadKeepsText(p.code, v[..n], ips);
    }
  }

  predicate AllSeparable(ps: seq<Proto>) {
    forall i :: 0 <= i < |ps| ==> Separable(ps[i])
  }

  lemma SeparableParts(ps: seq<Proto>)
    requires ps != []
    ensures AllSeparable(ps) <==> Separable(ps[0]) && AllSeparable(ps[1..])
  {
    assert forall i :: 1 <= i < |ps| ==> ps[i] == ps[1..][i - 1];
  }

  lemma JoinedIs(p: Proto, r: Result<seq<Proto>>, ps: seq<Proto>)
    requires ps != [] && ps[0] == p
    ensures Joined(p, r) == Ok(ps) <==> r == Ok(ps[1..])
  {
    assert ps == [p] + ps[1..];
    assert r.Ok? ==> ([p] + r.value)[1..] == r.value;
  }

  /** Parsing the shown form of an address gives the address back exactly when no text in it holds
      a slash. */
  lemma {:induction false} TextRoundTrip(ps: seq<Proto>, reg: Registry, ips: Ips)
    requires AllValid(ps, reg.prefixes.Keys) && Consistent(reg) && Inverse(ips)
    ensures ParseAll(ShowAll(ps, reg, ips), reg, ips) == Ok(ps) <==> AllSeparable(ps)
  {
    if ps != [] {
      var rest := ShowAll(ps[1..], reg, ips);
      TextRoundTrip(ps[1..], reg, ips);
      ParseSection(ps[0], rest, reg, ips);
      SeparableParts(ps);
      JoinedIs(ps[0], ParseAll(rest, reg, ips), ps);
    }
  }

  lemma SectionIsText(prefix: Bytes, value: Bytes, rest: Bytes)
    requires Utf8.IsText(prefix) && Utf8.IsText(value) && Utf8.IsText(rest)
    ensures Utf8.IsText(Section(prefix, value, rest))
  {
    Utf8.OneByteIsText(SLASH);
    Utf8.TextAppend(value, rest);
    Utf8.TextAppend([SLASH], value + rest);
    Utf8.TextAppend(prefix, [SLASH] + (value + rest));
    Utf8.TextAppend([SLASH], prefix + ([SLASH] + (value + rest)));
  }

  /** The shown form of an address is UTF-8. */
  lemma {:induction false} ShownIsText(ps: seq<Proto>, reg: Registry, ips: Ips)
    requires AllValid(ps, reg.prefixes.Keys) && Consistent(reg) && Inverse(ips)
    ensures Utf8.IsText(ShowAll(ps, reg, ips))
  {
    if ps != [] {
      ShownIsText(ps[1..], reg, ips);
      ReadShown(ps[0], ips);
      SectionIsText(reg.prefixes[ps[0].code], ShowValue(ps[0], ips), ShowAll(ps[1..], reg, ips));
    }
  }

  const SLASHED: Bytes := [97, SLASH, 98]

  lemma SlashedIsText()
    ensures Utf8.IsText(SLASHED)
  {
    Utf8.OneByteIsText(97);
    Utf8.OneByteIsText(SLASH);
    Utf8.OneByteIsText(98);
    Utf8.TextAppend([97], [SLASH]);
    Utf8.TextAppend([97] + [SLASH], [98]);
    assert [97] + [SLASH] + [98] == SLASHED;
  }

  lemma SlashedParts()
    ensures FirstSlash(SLASHED) == 1 && SLASHED[..1] == [97] && SLASHED[1..] + [] == [SLASH, 98]
    ensures Heading([SLASH, 98]) == ([98], [])
  {
    assert SLASHED[1..][0] == SLASH;
    var t: Bytes := [SLASH, 98];
    assert t[1..] == [98] && [98][1..] == [];
    assert FirstSlash([98]) == 1 + FirstSlash([98][1..]);
  }

  /** No prefix is as short as one letter. */
  lemma PrefixesAreLonger(s: Bytes, reg: Registry)
    requires Consistent(reg) && s in reg.codes
    ensures |s| > 1
  {
    PrefixesAreDistinct(reg.codes[s]);
  }

  /** The worker "a/b" is shown as "/worker/a/b", which is refused for the unknown prefix "b". */
  lemma SlashIsRefused(reg: Registry, ips: Ips)
    requires Consistent(reg) && WORKER in reg.prefixes
    ensures var ps := [Proto(WORKER, SLASHED)];
            && AllValid(ps, reg.prefixes.Keys)
            && ParseAll(ShowAll(ps, reg, ips), reg, ips) == Err(UnknownPrefix([98]))
  {
    SlashedIsText();
    SlashedParts();
    if [98] in reg.codes {
      PrefixesAreLonger([98], reg);
    }
    var ps := [Proto(WORKER, SLASHED)];
    var s := Section(reg.prefixes[WORKER], SLASHED, []);
    ShowLast(ps[0], reg, ips);
    NextOfSection(WORKER, SLASHED, [], reg);
    ParseHead(s, WORKER, [97], [SLASH, 98], reg, ips);
    ReadKeepsText(WORKER, [97], ips);
  }

  lemma ShowLast(p: Proto, reg: Registry, ips: Ips)
    requires IsValid(p) && p.code in reg.prefixes
    ensures AllValid([p], reg.prefixes.Keys)
    ensures ShowAll([p], reg, ips) == Section(reg.prefixes[p.code], ShowValue(p, ips), [])
  {
    assert [p][1..] == [];
    assert ShowAll([p][1..], reg, ips) == [];
  }
}
