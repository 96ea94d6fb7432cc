/** Parsing and displaying addresses: the iterator over textual values, `try_from_str` and
    `Display`. */
module StrIters {
  import opened Options
  import opened Sequences
  import opened Varint
  import opened Codec
  import opened Chunks
  import opened MultiAddrs
  import opened TextForm
  import Utf8

  class StrIter {
    const reg: Registry
    var str: Bytes

    constructor (str: Bytes, reg: Registry)
      ensures this.str == str && this.reg == reg
    {
      this.str, this.reg := str, reg;
    }

    /** The next prefix and value.  Every successful step makes the remaining input shorter; a
        failing one leaves it. */
    method Next() returns (r: Option<Result<(nat, Bytes)>>)
      requires Consistent(reg)
      modifies this
      ensures old(str) == [] ==> r == None && str == []
      ensures old(str) != [] ==>
                match NextText(old(str), reg)
                case Ok((code, value, rest)) => r == Some(Ok((code, value))) && str == rest && |str| < |old(str)|
                case Err(e) => r == Some(Err(e)) && str == old(str)
    {
      if str == [] {
        return None;
      }
      var (prefix, value) := Heading(str);
      if prefix in reg.codes {
        var p := FirstSlash(value);
        str := value[p..];
        return Some(Ok((reg.codes[prefix], value[..p])));
      } else {
        return Some(Err(UnknownPrefix(prefix)));
      }
    }
  }

  // ----- Accepted texts give valid addresses -----

  lemma SlashCut(s: Bytes, n: nat)
    requires Utf8.IsText(s) && n == FirstSlash(s)
    ensures Utf8.IsText(s[..n]) && Utf8.IsText(s[n..]) && (n < |s| ==> Utf8.IsText(s[n + 1..]))
  {
    if n < |s| {
      Utf8.CutAround(s, n);
    } else {
      assert s[..n] == s && s[n..] == [];
    }
  }

  lemma HeadingIsText(s: Bytes)
    requires Utf8.IsText(s) && s != []
    ensures Utf8.IsText(Heading(s).1) && |Heading(s).0| + |Heading(s).1| <= |s|
  {
    var n := FirstSlash(s);
    SlashCut(s, n);
    if n == 0 {
      SlashCut(s[1..], FirstSlash(s[1..]));
    }
  }

  lemma NextIsText(s: Bytes, reg: Registry)
    requires Utf8.IsText(s) && Consistent(reg) && s != []
    ensures NextText(s, reg).Ok? ==>
              var (code, x, rest) := NextText(s, reg).value;
              code in reg.prefixes && Utf8.IsText(x) && Utf8.IsText(rest) && |x| + |rest| < |s|
  {
    HeadingIsText(s);
    var value := Heading(s).1;
    SlashCut(value, FirstSlash(value));
  }

  lemma ValidCons(p: Proto, ps: seq<Proto>, codes: set<nat>)
    requires IsValid(p) && p.code in codes && AllValid(ps, codes)
    ensures AllValid([p] + ps, codes)
  {
  }

  lemma ReadIsValid(code: nat, x: Bytes, ips: Ips)
    requires ShapeOf(code) != Unknown && Inverse(ips) && Utf8.IsText(x) && |x| < USIZE_END
    ensures ReadValue(code, x, ips).Ok? ==> IsValid(ReadValue(code, x, ips).value) && ReadValue(code, x, ips).value.code == code
  {
  }

  /** Whatever text is accepted, its values are valid and registered. */
  lemma {:induction false} ParsedIsValid(s: Bytes, reg: Registry, ips: Ips)
    requires Utf8.IsText(s) && |s| < USIZE_END && Consistent(reg) && Inverse(ips)
    ensures ParseAll(s, reg, ips).Ok? ==> AllValid(ParseAll(s, reg, ips).value, reg.prefixes.Keys)
    decreases |s|
  {
    if s != [] && ParseAll(s, reg, ips).Ok? {
      NextIsText(s, reg);
      var (code, x, rest) := NextText(s, reg).value;
      ReadIsValid(code, x, ips);
      ParsedIsValid(rest, reg, ips);
      ValidCons(ReadValue(code, x, ips).value, ParseAll(rest, reg, ips).value, reg.prefixes.Keys);
    }
  }

  lemma {:induction false} NoSlashBefore(s: Bytes)
    ensures NoSlash(s[..FirstSlash(s)])
  {
    if s != [] && s[0] != SLASH {
      var n := FirstSlash(s);
      NoSlashBefore(s[1..]);
      assert s[..n][1..] == s[1..][..n - 1];
    }
  }

  lemma SeparableCons(p: Proto, ps: seq<Proto>)
    requires Separable(p) && AllSeparable(ps)
    ensures AllSeparable([p] + ps)
  {
    SeparableParts([p] + ps);
    assert ([p] + ps)[1..] == ps;
  }

  /** Values end before the next slash, so no value of an accepted text holds one. */
  lemma {:induction false} ParsedIsSeparable(s: Bytes, reg: Registry, ips: Ips)
    requires Consistent(reg)
    ensures ParseAll(s, reg, ips).Ok? ==> AllSeparable(ParseAll(s, reg, ips).value)
    decreases |s|
  {
    if s != [] && ParseAll(s, reg, ips).Ok? {
      var (code, x, rest) := NextText(s, reg).value;
      NoSlashBefore(Heading(s).1);
      ReadIsSeparable(code, x, ips);
      ParsedIsSeparable(rest, reg, ips);
      SeparableCons(ReadValue(code, x, ips).value, ParseAll(rest, reg, ips).value);
    }
  }

  lemma ReadIsSeparable(code: nat, x: Bytes, ips: Ips)
    requires NoSlash(x) && ReadValue(code, x, ips).Ok?
    ensures Separable(ReadValue(code, x, ips).value)
  {
  }

  /** Whatever text is accepted, showing its values and parsing again gives them back. */
  lemma ParsedTextSurvives(s: Bytes, reg: Registry, ips: Ips)
    requires Utf8.IsText(s) && |s| < USIZE_END && Consistent(reg) && Inverse(ips)
    ensures var r := ParseAll(s, reg, ips);
            r.Ok? ==> AllValid(r.value, reg.prefixes.Keys) && ParseAll(ShowAll(r.value, reg, ips), reg, ips) == r
  {
    ParsedIsValid(s, reg, ips);
    ParsedIsSeparable(s, reg, ips);
    if ParseAll(s, reg, ips).Ok? {
      TextRoundTrip(ParseAll(s, reg, ips).value, reg, ips);
    }
  }

  // ----- Parsing -----

  lemma PrependJoined(seen: seq<Proto>, p: Proto, r: Result<seq<Proto>>)
    ensures Prepend(seen, Joined(p, r)) == Prepend(seen + [p], r)
  {
    if r.Ok? {
      assert seen + ([p] + r.value) == seen + [p] + r.value;
    }
  }

  /** One step of parsing, in front of which `seen` has been parsed. */
  lemma ParseStep(s: Bytes, reg: Registry, ips: Ips, seen: seq<Proto>)
    requires Consistent(reg) && s != []
    ensures var all := Prepend(seen, ParseAll(s, reg, ips));
            var next := NextText(s, reg);
            if next.Err? then all == Err(next.error)
            else
              var p := ReadValue(next.value.0, next.value.1, ips);
              if p.Err? then all == Err(p.error)
              else all == Prepend(seen + [p.value], ParseAll(next.value.2, reg, ips))
  {
    if NextText(s, reg).Ok? {
      var (code, x, rest) := NextText(s, reg).value;
      if ReadValue(code, x, ips).Ok? {
        PrependJoined(seen, ReadValue(code, x, ips).value, ParseAll(rest, reg, ips));
      }
    }
  }

  /** The bytes of a parsed text. */
  method Transcode(input: Bytes, reg: Registry, ips: Ips) returns (r: Result<Bytes>)
    requires Consistent(reg)
    ensures match ParseAll(input, reg, ips)
            case Err(e) => r == Err(e)
            case Ok(ps) => r == Ok(Concat(Written(ps)))
  {
    var it := new StrIter(input, reg);
    var b: Bytes := [];
    ghost var all := ParseAll(input, reg, ips);
    ghost var ps: seq<Proto> := [];
    assert all.Ok? ==> [] + all.value == all.value;
    while true
      invariant it.reg == reg
      invariant all == Prepend(ps, ParseAll(it.str, reg, ips))
      invariant b == Concat(Written(ps))
      decreases |it.str|
    {
      if it.str != [] {
        ParseStep(it.str, reg, ips, ps);
      }
      var pair := it.Next();
      if pair == None {
        break;
      }
      if pair.value.Err? {
        return Err(pair.value.error);
      }
      var (code, value) := pair.value.value;
      var p := ReadValue(code, value, ips);
      if p.Err? {
        return Err(p.error);
      }
      WrittenPush(ps, p.value);
      ConcatPush(Written(ps), Write(p.value));
      b := b + Write(p.value);
      ps := ps + [p.value];
    }
    assert all.Ok? ==> ps + [] == ps;
    return Ok(b);
  }

  lemma {:induction false} WrittenPush(ps: seq<Proto>, p: Proto)
    ensures Written(ps + [p]) == Written(ps) + [Write(p)]
  {
    if ps == [] {
      assert ps + [p] == [p] && [p][1..] == [];
      assert Written([p]) == [Write(p)] + Written([p][1..]);
    } else {
      WrittenPush(ps[1..], p);
      assert (ps + [p])[1..] == ps[1..] + [p];
    }
  }

  /** Parse a text: the address has exactly the values of the text. */
  method TryFromStr(input: Bytes, reg: Registry, ips: Ips) returns (r: Result<MultiAddr>)
    requires Utf8.IsText(input) && |input| < USIZE_END && Consistent(reg) && Inverse(ips)
    ensures match ParseAll(input, reg, ips)
            case Err(e) => r == Err(e)
            case Ok(ps) => r.Ok? && fresh(r.value) && r.value.Valid() && r.value.protos == ps
                           && r.value.off == 0 && r.value.reg == reg.prefixes.Keys
  {
    var b := Transcode(input, reg, ips);
    if b.Err? {
      return Err(b.error);
    }
    ghost var ps := ParseAll(input, reg, ips).value;
    var a := new MultiAddr(reg.prefixes.Keys);
    a.dat := b.value;
    ParsedIsValid(input, reg, ips);
    WrittenWires(ps, reg.prefixes.Keys);
    a.protos, a.chunks := ps, Written(ps);
    assert b.value[0..] == b.value;
    return Ok(a);
  }

  // ----- Displaying -----

  lemma SectionAppend(out: Bytes, prefix: Bytes, value: Bytes, rest: Bytes)
    ensures (out + ([SLASH] + (prefix + ([SLASH] + value)))) + rest == out + Section(prefix, value, rest)
  {
    Assoc([SLASH], value, rest);
    Assoc(prefix, [SLASH] + value, rest);
    Assoc([SLASH], prefix + ([SLASH] + value), rest);
    Assoc(out, [SLASH] + (prefix + ([SLASH] + value)), rest);
  }

  method Display(addr: MultiAddr, reg: Registry, ips: Ips) returns (out: Bytes)
    requires addr.Valid() && addr.reg == reg.prefixes.Keys
    ensures AllValid(addr.protos, reg.prefixes.Keys) && out == ShowAll(addr.protos, reg, ips)
  {
    var rest := addr.Items();
    WiresAreWriteAll(addr.protos, addr.chunks, addr.reg);
    out := [];
    ghost var all := ShowAll(addr.protos, reg, ips);
    assert [] + all == all;
    while rest != []
      invariant AllValid(rest, reg.prefixes.Keys)
      invariant out + ShowAll(rest, reg, ips) == all
      decreases |rest|
    {
      var p := rest[0];
      var prefix, value := reg.prefixes[p.code], ShowValue(p, ips);
      SectionAppend(out, prefix, value, ShowAll(rest[1..], reg, ips));
      out := out + ([SLASH] + (prefix + ([SLASH] + value)));
      rest := rest[1..];
    }
  }

  /** Display and then parse: the same bytes, exactly when no text holds a slash. */
  method DisplayThenParse(addr: MultiAddr, reg: Registry, ips: Ips) returns (r: Result<MultiAddr>)
    requires addr.Valid() && addr.reg == reg.prefixes.Keys && Consistent(reg) && Inverse(ips)
    requires AllValid(addr.protos, reg.prefixes.Keys) ==> |ShowAll(addr.protos, reg, ips)| < USIZE_END
    ensures (r.Ok? && r.value.Valid() && r.value.dat[r.value.off..] == addr.dat[addr.off..]) <==>
            AllSeparable(addr.protos)
  {
    var s := Display(addr, reg, ips);
    ShownIsText(addr.protos, reg, ips);
    r := TryFromStr(s, reg, ips);
    TextRoundTrip(addr.protos, reg, ips);
    BytesOf(addr);
    if r.Ok? {
      BytesOf(r.value);
    }
  }
}
