/** What the two forms of an address look like: the groups of a varint, the table of protocols, and
    addresses written out. */
module WireMeaning {
  import opened Options
  import opened Sequences
  import opened Varint
  import opened Codec
  import opened TextForm
  import Utf8

  // ----- Numbers -----

  /** `n` without its `i` lowest digits in base `b`. */
  function Shifted(n: nat, b: nat, i: nat): nat
    requires b > 0
    decreases i
  {
    if i == 0 then n else Shifted(n / b, b, i - 1)
  }

  /** A varint is written in groups of seven bits, the lowest first, with the high bit on all but the
      last. */
  lemma {:induction false} VarintGroups(n: nat, i: nat)
    requires i < |Encode(n)|
    ensures Encode(n)[i] == (if i < |Encode(n)| - 1 then 128 else 0) + Shifted(n, 128, i) % 128
    decreases i
  {
    if n >= 128 && i > 0 {
      assert Encode(n)[i] == Encode(n / 128)[i - 1];
      VarintGroups(n / 128, i - 1);
    }
  }

  /** And in no more groups than the number needs: nothing is left behind them, and something before. */
  lemma {:induction false} VarintLength(n: nat)
    ensures Shifted(n, 128, |Encode(n)|) == 0
    ensures |Encode(n)| > 1 ==> Shifted(n, 128, |Encode(n)| - 1) > 0
  {
    if n >= 128 {
      VarintLength(n / 128);
    } else {
      assert Shifted(n, 128, 1) == Shifted(n / 128, 128, 0);
    }
  }

  /** The digits of a decimal number, the highest first. */
  lemma {:induction false} DecimalDigits(n: nat, i: nat)
    requires i < |Decimal(n)|
    ensures Decimal(n)[|Decimal(n)| - 1 - i] == 48 + Shifted(n, 10, i) % 10
    decreases i
  {
    if n >= 10 && i > 0 {
      var s, t := Decimal(n), Decimal(n / 10);
      assert s[|s| - 1 - i] == t[|t| - 1 - (i - 1)];
      DecimalDigits(n / 10, i - 1);
    }
  }

  // ----- The protocols -----

  /** Each protocol by its code, its prefix and the length of its values. */
  lemma FixedProtocols()
    ensures PrefixOf(4) == ['i' as int, 'p' as int, '4' as int] && ShapeOf(4) == Fixed(4)
    ensures PrefixOf(41) == ['i' as int, 'p' as int, '6' as int] && ShapeOf(41) == Fixed(16)
    ensures PrefixOf(6) == ['t' as int, 'c' as int, 'p' as int] && ShapeOf(6) == Fixed(2)
  {
  }

  lemma TextProtocols()
    ensures PrefixOf(56) == ['d' as int, 'n' as int, 's' as int, 'a' as int, 'd' as int, 'd' as int, 'r' as int]
    ensures PrefixOf(102526) == ['w' as int, 'o' as int, 'r' as int, 'k' as int, 'e' as int, 'r' as int]
    ensures PrefixOf(62526) == ['s' as int, 'e' as int, 'r' as int, 'v' as int, 'i' as int, 'c' as int, 'e' as int]
    ensures PrefixOf(72526) == ['n' as int, 'o' as int, 'd' as int, 'e' as int]
    ensures PrefixOf(82526) == ['p' as int, 'r' as int, 'o' as int, 'j' as int, 'e' as int, 'c' as int, 't' as int]
    ensures PrefixOf(92526) == ['s' as int, 'p' as int, 'a' as int, 'c' as int, 'e' as int]
    ensures PrefixOf(99526) == ['s' as int, 'e' as int, 'c' as int, 'u' as int, 'r' as int, 'e' as int]
    ensures forall c :: c in {56, 102526, 62526, 72526, 82526, 92526, 99526} ==> ShapeOf(c) == Codec.Text
  {
  }

  lemma NoOtherProtocols(code: nat)
    requires code !in {4, 41, 6, 56, 102526, 62526, 72526, 82526, 92526, 99526}
    ensures code !in STD_CODES && ShapeOf(code) == Unknown
  {
  }

  /** Codes are 32-bit numbers: the first one too large overflows. */
  lemma CodesAre32Bits(reg: set<nat>, rest: Bytes)
    requires 4294967295 !in reg
    ensures Next(Encode(4294967295) + rest, reg) == Err(Unregistered(4294967295))
    ensures Next(Encode(4294967296) + rest, reg) == Err(Overflow)
  {
    DecodeEncode(4294967295, rest);
    DecodeEncode(4294967296, rest);
  }

  /** Lengths of texts are 64-bit numbers. */
  lemma LengthsAre64Bits(rest: Bytes)
    requires |rest| < 18446744073709551615
    ensures SplitBytes(WORKER, Encode(18446744073709551615) + rest) == Err(RequiredBytes(WORKER, 18446744073709551615))
    ensures SplitBytes(WORKER, Encode(18446744073709551616) + rest) == Err(Overflow)
  {
    DecodeEncode(18446744073709551615, rest);
    DecodeEncode(18446744073709551616, rest);
  }

  /** Input that ends inside a number, and a number with an empty last group, are told apart. */
  lemma VarintErrors(b: byte)
    requires b >= 128
    ensures Decode([]) == Insufficient && Decode([b]) == Insufficient && Decode([b, 0]) == NotMinimal
  {
    assert [b][1..] == [] && [b, 0][1..] == [0] && [0][1..] == [];
    assert Decode([0]) == Number(0, []);
  }

  // ----- The first error is reported -----

  lemma {:induction false} ReadBehind(ps: seq<Proto>, rest: Bytes, reg: set<nat>)
    requires AllValid(ps, reg)
    ensures ReadAll(rest, reg).Err? ==> ReadAll(WriteAll(ps) + rest, reg) == ReadAll(rest, reg)
  {
    if ps == [] {
      Empty(rest);
    } else {
      ReadBehind(ps[1..], rest, reg);
      Assoc(Write(ps[0]), WriteAll(ps[1..]), rest);
      NextReadsWrite(ps[0], WriteAll(ps[1..]) + rest, reg);
      WriteIsNotEmpty(ps[0]);
    }
  }

  /** Behind valid values, an error of the iterator is the error of the whole. */
  lemma FirstErrorIsReported(ps: seq<Proto>, rest: Bytes, reg: set<nat>)
    requires AllValid(ps, reg) && rest != [] && Next(rest, reg).Err?
    ensures ReadAll(WriteAll(ps) + rest, reg) == Err(Next(rest, reg).error)
  {
    ReadBehind(ps, rest, reg);
  }

  /** A text that is not UTF-8 is reported by its code. */
  lemma InvalidTextIsReported(ps: seq<Proto>, code: nat, data: Bytes, rest: Bytes, reg: set<nat>)
    requires AllValid(ps, reg) && ShapeOf(code) == Codec.Text && code in reg && !Utf8.IsText(data)
    requires |data| < 18446744073709551616
    ensures ReadAll(WriteAll(ps) + (Write(Proto(code, data)) + rest), reg) == Err(InvalidProto(code))
  {
    var p := Proto(code, data);
    NextReadsText(p, rest, reg);
    WriteIsNotEmpty(p);
    ReadBehind(ps, Write(p) + rest, reg);
  }

  lemma NextReadsText(p: Proto, rest: Bytes, reg: set<nat>)
    requires ShapeOf(p.code) == Codec.Text && p.code in reg && |p.data| < 18446744073709551616
    ensures Next(Write(p) + rest, reg) == Ok((p, rest))
  {
    TakeBack(p.code, p.data, rest);
    DecodeEncode(|p.data|, p.data + rest);
    Assoc(Encode(|p.data|), p.data, rest);
    DecodeEncode(p.code, Body(p) + rest);
    Assoc(Encode(p.code), Body(p), rest);
    assert p.code < U32_END;
  }

  // ----- Addresses written out -----

  /** A port follows its code, high byte first; a text follows its code and its length. */
  lemma WrittenOut(hi: byte, lo: byte, b: byte)
    ensures Write(Proto(TCP, [hi, lo])) == [6, hi, lo]
    ensures Write(Proto(WORKER, [b])) == [254, 160, 6, 1, b]
  {
    WorkerCode();
  }

  lemma WorkerCode()
    ensures Encode(102526) == [254, 160, 6]
  {
    assert Encode(6) == [6] && 800 / 128 == 6 && 800 % 128 == 32;
    assert Encode(800) == [160] + Encode(6);
    assert 102526 / 128 == 800 && 102526 % 128 == 126;
    assert Encode(102526) == [254] + Encode(800);
  }

  /** Port 8080 is shown as "/tcp/8080". */
  lemma PortShownOut(reg: Registry, ips: Ips)
    requires Consistent(reg) && TCP in reg.prefixes
    ensures var p := Proto(TCP, [31, 144]);
            && AllValid([p], reg.prefixes.Keys)
            && ShowAll([p], reg, ips) == ['/' as int, 't' as int, 'c' as int, 'p' as int, '/' as int, '8' as int, '0' as int, '8' as int, '0' as int]
  {
    ShowLast(Proto(TCP, [31, 144]), reg, ips);
    Port8080(ips);
    FixedProtocols();
    PortSection();
  }

  /** The worker "a" is shown as "/worker/a". */
  lemma WorkerShownOut(reg: Registry, ips: Ips)
    requires Consistent(reg) && WORKER in reg.prefixes
    ensures var p := Proto(WORKER, ['a' as int]);
            && AllValid([p], reg.prefixes.Keys)
            && ShowAll([p], reg, ips) == ['/' as int, 'w' as int, 'o' as int, 'r' as int, 'k' as int, 'e' as int, 'r' as int, '/' as int, 'a' as int]
  {
    Utf8.OneByteIsText('a' as int);
    ShowLast(Proto(WORKER, ['a' as int]), reg, ips);
    TextProtocols();
    WorkerSection();
  }

  /** Values are shown one behind the other. */
  lemma ShownInOrder(p: Proto, ps: seq<Proto>, reg: Registry, ips: Ips)
    requires IsValid(p) && p.code in reg.prefixes && AllValid(ps, reg.prefixes.Keys)
    ensures AllValid([p], reg.prefixes.Keys) && AllValid([p] + ps, reg.prefixes.Keys)
    ensures ShowAll([p] + ps, reg, ips) == ShowAll([p], reg, ips) + ShowAll(ps, reg, ips)
  {
    var prefix, value, rest := reg.prefixes[p.code], ShowValue(p, ips), ShowAll(ps, reg, ips);
    ShowLast(p, reg, ips);
    assert ([p] + ps)[1..] == ps;
    Empty(value);
    Assoc([SLASH], value, rest);
    Assoc(prefix, [SLASH] + value, rest);
    Assoc([SLASH], prefix + ([SLASH] + value), rest);
  }

  lemma PortSection()
    ensures Section(['t' as int, 'c' as int, 'p' as int], ['8' as int, '0' as int, '8' as int, '0' as int], []) == ['/' as int, 't' as int, 'c' as int, 'p' as int, '/' as int, '8' as int, '0' as int, '8' as int, '0' as int]
  {
  }

  lemma WorkerSection()
    ensures Section(['w' as int, 'o' as int, 'r' as int, 'k' as int, 'e' as int, 'r' as int], ['a' as int], []) == ['/' as int, 'w' as int, 'o' as int, 'r' as int, 'k' as int, 'e' as int, 'r' as int, '/' as int, 'a' as int]
  {
  }

  lemma Port8080(ips: Ips)
    ensures ShowValue(Proto(TCP, [31, 144]), ips) == ['8' as int, '0' as int, '8' as int, '0' as int]
  {
    assert Port([31, 144]) == 8080;
    assert Decimal(8) == [56] && Decimal(80) == Decimal(8) + [48] && Decimal(808) == Decimal(80) + [56];
    assert Decimal(8080) == Decimal(808) + [48];
  }

  /** A slash in front may be left out. */
  lemma LeadingSlashIsOptional(s: Bytes, reg: Registry, ips: Ips)
    requires Consistent(reg) && s != [] && s[0] != SLASH
    ensures ParseAll([SLASH] + s, reg, ips) == ParseAll(s, reg, ips)
  {
    assert ([SLASH] + s)[1..] == s;
    assert Heading([SLASH] + s) == Heading(s);
    assert NextText([SLASH] + s, reg) == NextText(s, reg);
  }

  /** A prefix with nothing behind it has the empty value. */
  lemma PrefixAlone(code: nat, reg: Registry, ips: Ips)
    requires Consistent(reg) && code in reg.prefixes && ShapeOf(code) == Codec.Text
    ensures ParseAll(reg.prefixes[code], reg, ips) == Ok([Proto(code, [])])
  {
    var s := reg.prefixes[code];
    assert NoSlash(s) && Heading(s) == (s, []);
    assert NextText(s, reg) == Ok((code, [], []));
    ParseHead(s, code, [], [], reg, ips);
    ReadKeepsText(code, [], ips);
    assert ParseAll([], reg, ips) == Ok([]);
    Empty([Proto(code, [])]);
  }

  /** Ports are decimal numbers, after a plus sign if one likes. */
  lemma PortTexts()
    ensures ReadU16(['8' as int, '0' as int]) == Some(80) && ReadU16(['+' as int, '8' as int, '0' as int]) == Some(80)
  {
    var t: Bytes := ['8' as int, '0' as int];
    var u: Bytes := ['+' as int, '8' as int, '0' as int];
    assert u[1..] == t && t[..1] == [56];
    assert Digits([56]) == Some(8) && Digits(t) == Some(80);
  }

  /** A port is stored high byte first; any other text is reported. */
  lemma PortValues(s: Bytes, ips: Ips)
    ensures ReadU16(s).Some? ==>
              ReadValue(TCP, s, ips) == Ok(Proto(TCP, [ReadU16(s).value / 256, ReadU16(s).value % 256]))
    ensures ReadU16(s) == None ==> ReadValue(TCP, s, ips) == Err(BadValue(s))
  {
  }

  /** No sign but that one, no empty text and nothing from 65536 on is a port. */
  lemma NoPorts(n: nat)
    ensures ReadU16([]) == None && ReadU16(['-' as int, '1' as int]) == None
    ensures ReadU16(Decimal(n)) == if n <= 65535 then Some(n) else None
  {
    var v: Bytes := ['-' as int, '1' as int];
    assert v[..1] == [45] && Digits([45]) == None;
    DecimalReads(n);
  }
}
