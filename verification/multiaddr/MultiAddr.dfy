/** An address: a byte buffer with a moving start, used as a double-ended queue of protocol
    values. */
module MultiAddrs {
  import opened Options
  import opened Sequences
  import opened Varint
  import opened Codec
  import opened BytesIters
  import opened Chunks

  /** Iterate to the end and keep the last item, as `Iterator::last` does. */
  method LastItem(bytes: Bytes, reg: set<nat>, ghost ps: seq<Proto>, ghost cs: seq<Bytes>)
      returns (r: Option<(nat, Proto)>)
    requires Wires(ps, cs, reg) && bytes == Concat(cs)
    ensures if ps == [] then r == None
            else
              var n := |ps| - 1;
              r == Some((|Concat(cs[..n])|, ps[n]))
  {
    var it := new BytesIter(bytes, reg);
    r := None;
    ghost var n := 0;
    StartBetween(bytes, cs);
    while true
      invariant it.bytes == bytes && it.reg == reg && !it.isErr
      invariant 0 <= n <= |ps|
      invariant Between(bytes, it.offset, cs[..n], cs[n..])
      invariant if n == 0 then r == None else r == Some((|Concat(cs[..n - 1])|, ps[n - 1]))
      decreases |ps| - n
    {
      WiresCut(ps, cs, n, reg);
      var item := it.NextValid(cs[..n], cs[n..], ps[n..]);
      if item == None {
        break;
      }
      r := item;
      NextChunk(cs, n);
      n := n + 1;
    }
  }

  lemma StartBetween(bytes: Bytes, cs: seq<Bytes>)
    requires bytes == Concat(cs)
    ensures Between(bytes, 0, cs[..0], cs[0..]) && Between(bytes, 0, [], cs)
  {
    assert cs[..0] == [] && cs[0..] == cs && [] + bytes == bytes;
  }

  class MultiAddr {
    var dat: Bytes
    var off: nat
    const reg: set<nat>

    /** The values of this address, and the bytes of each. */
    ghost var protos: seq<Proto>
    ghost var chunks: seq<Bytes>

    ghost predicate Valid()
      reads this
    {
      Wires(protos, chunks, reg) && off <= |dat| && dat[off..] == Concat(chunks)
    }

    constructor (reg: set<nat>)
      ensures Valid() && protos == [] && this.reg == reg && off == 0
    {
      this.dat, this.off, this.reg := [], 0, reg;
      protos, chunks := [], [];
    }

    method Clone() returns (c: MultiAddr)
      requires Valid()
      ensures fresh(c) && c.Valid() && c.protos == protos && c.reg == reg && c.off == 0 && c.dat == dat[off..]
    {
      c := new MultiAddr(reg);
      c.dat := if off > 0 then dat[off..] else dat;
      c.protos, c.chunks := protos, chunks;
      assert dat[0..] == dat && c.dat[0..] == c.dat;
    }

    /** Add a value at the end; one that cannot be written changes nothing. */
    method PushBackValue(p: Proto) returns (r: Result<()>)
      requires Valid() && Sized(p)
      modifies this
      ensures Valid() && off == old(off)
      ensures r == Writable(p, reg)
      ensures protos == if r.Ok? then old(protos) + [p] else old(protos)
    {
      r := Writable(p, reg);
      if r.Err? {
        return;
      }
      WiresPushBack(protos, chunks, p, Write(p), reg);
      ConcatPush(chunks, Write(p));
      CutFurther(dat, Write(p), off);
      dat := dat + Write(p);
      protos, chunks := protos + [p], chunks + [Write(p)];
      return Ok(());
    }

    /** Add a value at the front: the buffer is rebuilt but the start offset stays. */
    method PushFrontValue(p: Proto) returns (r: Result<()>)
      requires Valid() && Sized(p)
      modifies this
      ensures r == Writable(p, reg)
      ensures off == old(off) && dat == if r.Ok? then Write(p) + old(dat) else old(dat)
      ensures protos == if r.Ok? then [p] + old(protos) else old(protos)
      ensures r.Ok? ==> (Valid() <==> Rotates(Write(p), old(dat[..off])))
      ensures r.Err? ==> Valid()
    {
      r := Writable(p, reg);
      if r.Err? {
        return;
      }
      WiresPushFront(protos, chunks, p, Write(p), reg);
      PushFrontExactly(Write(p), dat, off, Concat(chunks));
      assert ([Write(p)] + chunks)[1..] == chunks;
      dat := Write(p) + dat;
      protos, chunks := [p] + protos, [Write(p)] + chunks;
      return Ok(());
    }

    /** Remove the last value. */
    method PopBack() returns (r: Option<Proto>)
      requires Valid()
      modifies this
      ensures Valid() && off == old(off)
      ensures if old(protos) == [] then r == None && protos == []
              else r == Some(old(protos)[|old(protos)| - 1]) && protos == old(protos)[..|old(protos)| - 1]
    {
      var last := LastItem(dat[off..], reg, protos, chunks);
      if last == None {
        return None;
      }
      var (o, p) := last.value;
      DropLastBytes(dat, off, protos, chunks, reg);
      var dlen := |dat| - off;
      var val := dat[off + dlen - |p.data|..];
      dat := dat[..off + dlen - |p.data|];
      dat := dat[..off + o];
      protos, chunks := protos[..|protos| - 1], chunks[..|protos| - 1];
      return Some(Proto(p.code, val));
    }

    /** Remove the last value. */
    method DropLast()
      requires Valid()
      modifies this
      ensures Valid() && off == old(off)
      ensures protos == if old(protos) == [] then [] else old(protos)[..|old(protos)| - 1]
    {
      var last := LastItem(dat[off..], reg, protos, chunks);
      if last.Some? {
        DropLastBytes(dat, off, protos, chunks, reg);
        dat := dat[..off + last.value.0];
        protos, chunks := protos[..|protos| - 1], chunks[..|protos| - 1];
      }
    }

    /** Remove the first value by moving the start behind it. */
    method PopFront() returns (r: Option<Proto>)
      requires Valid()
      modifies this
      ensures Valid() && dat == old(dat)
      ensures if old(protos) == [] then r == None && protos == [] && off == old(off)
              else r == Some(old(protos)[0]) && protos == old(protos)[1..] && off > old(off)
    {
      var it := new BytesIter(dat[off..], reg);
      FirstBytes(dat, off, protos, chunks, reg);
      StartBetween(dat[off..], chunks);
      var item := it.NextValid([], chunks, protos);
      if item == None {
        return None;
      }
      var p := item.value.1;
      off := off + it.offset;
      var val := dat[off - |p.data|..off];
      protos, chunks := protos[1..], chunks[1..];
      return Some(Proto(p.code, val));
    }

    /** Remove the first value. */
    method DropFirst()
      requires Valid()
      modifies this
      ensures Valid() && dat == old(dat)
      ensures if old(protos) == [] then protos == [] && off == old(off)
              else protos == old(protos)[1..] && off > old(off)
    {
      var it := new BytesIter(dat[off..], reg);
      FirstBytes(dat, off, protos, chunks, reg);
      StartBetween(dat[off..], chunks);
      var item := it.NextValid([], chunks, protos);
      if item.Some? {
        off := off + it.offset;
        protos, chunks := protos[1..], chunks[1..];
      }
    }

    /** Add values at the end until one cannot be written. */
    method TryExtend(items: seq<Proto>) returns (r: Result<()>)
      requires Valid() && AllSized(items)
      modifies this
      ensures Valid() && off == old(off)
      ensures var n := Leading(items, reg);
              && protos == old(protos) + items[..n]
              && r == if n == |items| then Ok(()) else Writable(items[n], reg)
    {
      ghost var before, done: seq<Proto> := protos, [];
      var rest := items;
      while rest != []
        invariant Valid() && off == old(off)
        invariant Extending(items, done, rest, reg) && protos == before + done
        decreases |rest|
      {
        var p := rest[0];
        ExtendOne(items, done, rest, reg);
        r := PushBackValue(p);
        if r.Err? {
          LeadingIs(items, done, rest, reg);
          return r;
        }
        Assoc(before, done, [p]);
        done, rest := done + [p], rest[1..];
      }
      LeadingIs(items, done, rest, reg);
      return Ok(());
    }

    /** All values in order. */
    method Items() returns (items: seq<Proto>)
      requires Valid()
      ensures items == protos
    {
      var it := new BytesIter(dat[off..], reg);
      items := [];
      ghost var n := 0;
      StartBetween(dat[off..], chunks);
      while true
        invariant it.bytes == dat[off..] && it.reg == reg && !it.isErr
        invariant 0 <= n <= |protos| && items == protos[..n]
        invariant Between(it.bytes, it.offset, chunks[..n], chunks[n..])
        decreases |protos| - n
      {
        WiresCut(protos, chunks, n, reg);
        var item := it.NextValid(chunks[..n], chunks[n..], protos[n..]);
        if item == None {
          break;
        }
        items := items + [item.value.1];
        NextChunk(chunks, n);
        n := n + 1;
      }
    }

    /** The first `at` values and the others, as addresses over the standard registry. */
    method Split(at: nat) returns (a: MultiAddr, b: MultiAddr)
      requires Valid()
      ensures fresh(a) && fresh(b) && a != b && a.Valid() && b.Valid()
      ensures a.reg == STD_CODES && b.reg == STD_CODES
      ensures var n := if at <= |protos| then at else |protos|;
              a.protos == protos[..n] && b.protos == protos[n..]
    {
      var items := Items();
      var n := if at <= |items| then at else |items|;
      AllStandard(protos, chunks, reg);
      SizedParts(protos, n);
      AcceptedParts(protos, n, STD_CODES);
      AllLead(protos[..n], STD_CODES);
      AllLead(protos[n..], STD_CODES);
      a := new MultiAddr(STD_CODES);
      var r := a.TryExtend(items[..n]);
      b := new MultiAddr(STD_CODES);
      r := b.TryExtend(items[n..]);
    }

    /** Add the values of another address at the end. */
    method ConcatMut(other: MultiAddr) returns (r: Result<()>)
      requires Valid() && other.Valid() && other != this
      modifies this
      ensures Valid() && off == old(off)
      ensures var n := Leading(other.protos, reg);
              && protos == old(protos) + other.protos[..n]
              && r == if n == |other.protos| then Ok(()) else Err(Unregistered(other.protos[n].code))
    {
      var items := other.Items();
      AllStandard(other.protos, other.chunks, other.reg);
      r := TryExtend(items);
      assert r.Err? ==> Accepts(items[Leading(items, reg)], STD_CODES);
    }

    /** Do the codes from `start` on match the given ones? */
    method Matches(start: nat, codes: seq<Match>) returns (r: bool)
      requires Valid()
      ensures r <==> (codes == [] || AcceptAll(codes, protos, start))
    {
      var items := Items();
      var n, i := |codes|, 0;
      while start + i < |items| && i < |codes|
        invariant 0 <= i <= |codes| && n == |codes| - i
        invariant i > 0 ==> start + i <= |items|
        invariant forall j :: 0 <= j < i ==> codes[j].Accepts(items[start + j].code)
      {
        n := n - 1;
        if !codes[i].Accepts(items[start + i].code) {
          return false;
        }
        i := i + 1;
      }
      return n == 0;
    }
  }

  datatype Match = Val(code: nat) | Any(codes: seq<nat>) {
    predicate Accepts(c: nat) {
      match this case Val(x) => c == x case Any(xs) => c in xs
    }
  }

  /** A match is one code, or any of several. */
  lemma MatchMeans(c: nat, x: nat, xs: seq<nat>)
    ensures Val(x).Accepts(c) <==> c == x
    ensures Any(xs).Accepts(c) <==> c in xs
  {
  }

  predicate AllSized(ps: seq<Proto>) {
    forall i {:trigger Sized(ps[i])} :: 0 <= i < |ps| ==> Sized(ps[i])
  }

  lemma SizedParts(ps: seq<Proto>, n: nat)
    requires AllSized(ps) && n <= |ps|
    ensures AllSized(ps[..n]) && AllSized(ps[n..])
  {
    forall i {:trigger Sized(ps[n..][i])} | 0 <= i < |ps| - n ensures Sized(ps[n..][i]) {
      assert Sized(ps[n + i]);
    }
    forall i {:trigger Sized(ps[..n][i])} | 0 <= i < n ensures Sized(ps[..n][i]) {
      assert Sized(ps[i]);
    }
  }

  /** The value can be written by an address with this registry. */
  predicate Accepts(p: Proto, reg: set<nat>) {
    IsValid(p) && p.code in reg
  }

  predicate AllAccepted(ps: seq<Proto>, reg: set<nat>) {
    forall i {:trigger Accepts(ps[i], reg)} :: 0 <= i < |ps| ==> Accepts(ps[i], reg)
  }

  predicate AcceptAll(codes: seq<Match>, ps: seq<Proto>, start: nat) {
    && start + |codes| <= |ps|
    && forall i :: 0 <= i < |codes| ==> codes[i].Accepts(ps[start + i].code)
  }

  /** How many leading values can be written. */
  function Leading(items: seq<Proto>, reg: set<nat>): (n: nat)
    ensures n <= |items|
    ensures forall i {:trigger Accepts(items[i], reg)} :: 0 <= i < n ==> Accepts(items[i], reg)
    ensures n < |items| ==> !Accepts(items[n], reg)
  {
    if items == [] || !Accepts(items[0], reg) then 0 else 1 + Leading(items[1..], reg)
  }

  /** The values `done` have been added, and `rest` are still to add. */
  ghost predicate Extending(items: seq<Proto>, done: seq<Proto>, rest: seq<Proto>, reg: set<nat>) {
    items == done + rest && AllSized(rest) && AllAccepted(done, reg)
  }

  lemma ExtendOne(items: seq<Proto>, done: seq<Proto>, rest: seq<Proto>, reg: set<nat>)
    requires Extending(items, done, rest, reg) && rest != []
    ensures Sized(rest[0])
    ensures Accepts(rest[0], reg) ==> Extending(items, done + [rest[0]], rest[1..], reg)
  {
    MoveOne(done, rest);
    SizedParts(rest, 1);
    var more := done + [rest[0]];
    forall i | 0 <= i < |done| ensures Accepts(more[i], reg) <==> Accepts(done[i], reg) {
      assert more[i] == done[i];
    }
    assert more[|done|] == rest[0];
  }

  lemma LeadingIs(items: seq<Proto>, done: seq<Proto>, rest: seq<Proto>, reg: set<nat>)
    requires Extending(items, done, rest, reg)
    requires rest != [] ==> !Accepts(rest[0], reg)
    ensures Leading(items, reg) == |done| && items[..|done|] == done
    ensures rest != [] ==> items[|done|] == rest[0]
  {
    assert rest != [] ==> items[|done|] == rest[0];
    forall i | 0 <= i < |done| ensures Accepts(items[i], reg) {
      assert items[i] == done[i] && Accepts(done[i], reg);
    }
  }

  lemma NextChunk(cs: seq<Bytes>, n: nat)
    requires n < |cs|
    ensures cs[..n] + [cs[n..][0]] == cs[..n + 1] && cs[n..][1..] == cs[n + 1..]
  {
  }

  lemma ValidIsStandard(p: Proto)
    requires IsValid(p)
    ensures Sized(p) && Accepts(p, STD_CODES)
  {
  }

  /** Valid values can be written by an address with the standard registry. */
  lemma AllStandard(ps: seq<Proto>, cs: seq<Bytes>, reg: set<nat>)
    requires Wires(ps, cs, reg)
    ensures AllSized(ps) && AllAccepted(ps, STD_CODES)
  {
    forall i | 0 <= i < |ps| ensures Sized(ps[i]) && Accepts(ps[i], STD_CODES) {
      assert Wire(ps[i], cs[i], reg);
      ValidIsStandard(ps[i]);
    }
  }

  lemma AllLead(ps: seq<Proto>, reg: set<nat>)
    requires AllAccepted(ps, reg)
    ensures Leading(ps, reg) == |ps| && ps[..|ps|] == ps
  {
  }

  lemma AcceptedParts(ps: seq<Proto>, n: nat, reg: set<nat>)
    requires AllAccepted(ps, reg) && n <= |ps|
    ensures AllAccepted(ps[..n], reg) && AllAccepted(ps[n..], reg)
  {
    forall i {:trigger Accepts(ps[n..][i], reg)} | 0 <= i < |ps| - n ensures Accepts(ps[n..][i], reg) {
      assert Accepts(ps[n + i], reg);
    }
    forall i {:trigger Accepts(ps[..n][i], reg)} | 0 <= i < n ensures Accepts(ps[..n][i], reg) {
      assert Accepts(ps[i], reg);
    }
  }

  /** An address is determined by its values: the bytes are their binary form, and reading the bytes
      gives the values back. */
  lemma BytesOf(a: MultiAddr)
    requires a.Valid()
    ensures a.dat[a.off..] == WriteAll(a.protos)
    ensures ReadAll(a.dat[a.off..], a.reg) == Ok(a.protos)
  {
    WiresAreWriteAll(a.protos, a.chunks, a.reg);
    BytesAreLists(a.dat[a.off..], a.protos, a.reg);
  }

  lemma Rejoin(ps: seq<Proto>, n: nat, reg: set<nat>)
    requires n <= |ps| && AllAccepted(ps, reg)
    ensures var tail := ps[n..];
            Leading(tail, reg) == |tail| && ps[..n] + tail[..|tail|] == ps
  {
    AcceptedParts(ps, n, reg);
    AllLead(ps[n..], reg);
  }

  /** Splitting anywhere and putting the parts together again restores the address. */
  method SplitThenConcat(addr: MultiAddr, at: nat) returns (whole: MultiAddr)
    requires addr.Valid()
    ensures fresh(whole) && whole.Valid()
    ensures whole.protos == addr.protos && whole.dat[whole.off..] == addr.dat[addr.off..]
  {
    var a, b := addr.Split(at);
    AllStandard(addr.protos, addr.chunks, addr.reg);
    whole := a;
    Rejoin(addr.protos, |a.protos|, STD_CODES);
    var r := whole.ConcatMut(b);
    BytesOf(whole);
    BytesOf(addr);
  }

  // ----- Reading -----

  function Prepend(ps: seq<Proto>, r: Result<seq<Proto>>): Result<seq<Proto>> {
    match r case Ok(qs) => Ok(ps + qs) case Err(e) => Err(e)
  }

  /** One step of reading, in front of which `seen` has been read. */
  lemma ReadStep(bs: Bytes, reg: set<nat>, seen: seq<Proto>)
    requires bs != []
    ensures match Codec.Next(bs, reg)
            case Err(e) => Prepend(seen, ReadAll(bs, reg)) == Err(e)
            case Ok((p, rest)) =>
              if !IsValid(p) then Prepend(seen, ReadAll(bs, reg)) == Err(InvalidProto(p.code))
              else Prepend(seen, ReadAll(bs, reg)) == Prepend(seen + [p], ReadAll(rest, reg))
  {
    if Codec.Next(bs, reg).Ok? {
      var (p, rest) := Codec.Next(bs, reg).value;
      if ReadAll(rest, reg).Ok? {
        assert seen + ([p] + ReadAll(rest, reg).value) == seen + [p] + ReadAll(rest, reg).value;
      }
    }
  }

  /** What remains to be read is a suffix of the input. */
  lemma RestIsSuffix(input: Bytes, offset: nat, reg: set<nat>)
    requires offset < |input| && Codec.Next(input[offset..], reg).Ok?
    ensures var rest := Codec.Next(input[offset..], reg).value.1;
            offset < |input| - |rest| && input[|input| - |rest|..] == rest
  {
    WriteOfNext(input[offset..], reg);
    var (p, rest) := Codec.Next(input[offset..], reg).value;
    SuffixOf(input, offset, Write(p), rest);
  }

  lemma SuffixOf(input: Bytes, offset: nat, c: Bytes, rest: Bytes)
    requires offset <= |input| && input[offset..] == c + rest
    ensures input[|input| - |rest|..] == rest
  {
    CutAppend(c, rest);
    assert input[|input| - |rest|..] == input[offset..][|c|..];
  }

  /** The check of `try_from_bytes` finds the first error, if there is one. */
  method CheckBytes(input: Bytes, reg: set<nat>) returns (e: Option<Error>)
    ensures match ReadAll(input, reg) case Err(err) => e == Some(err) case Ok(_) => e == None
  {
    var it := new BytesIter(input, reg);
    ghost var seen: seq<Proto>, rest, all := [], input, ReadAll(input, reg);
    assert input[0..] == input;
    assert all.Ok? ==> [] + all.value == all.value;
    while true
      invariant it.bytes == input && it.reg == reg && !it.isErr
      invariant it.offset <= |input| && rest == input[it.offset..]
      invariant all == Prepend(seen, ReadAll(rest, reg))
      decreases |rest|
    {
      if rest != [] {
        ReadStep(rest, reg, seen);
      }
      ghost var start := it.offset;
      var item := it.Next();
      if item == None {
        break;
      }
      if item.value.Err? {
        return Some(item.value.error);
      }
      var p := item.value.value.1;
      if !IsValid(p) {
        return Some(InvalidProto(p.code));
      }
      RestIsSuffix(input, start, reg);
      seen, rest := seen + [p], Codec.Next(rest, reg).value.1;
    }
    return None;
  }

  /** Accept exactly the bytes of a list of valid values. */
  method TryFromBytes(input: Bytes, reg: set<nat>) returns (r: Result<MultiAddr>)
    ensures match ReadAll(input, reg)
            case Err(e) => r == Err(e)
            case Ok(ps) => r.Ok? && fresh(r.value) && r.value.Valid() && r.value.reg == reg
                           && r.value.dat == input && r.value.off == 0 && r.value.protos == ps
  {
    var e := CheckBytes(input, reg);
    if e.Some? {
      return Err(e.value);
    }
    var a := new MultiAddr(reg);
    a.dat := input;
    ghost var ps := ReadAll(input, reg).value;
    ReadAllWires(input, ps, reg);
    a.protos, a.chunks := ps, Written(ps);
    assert input[0..] == input;
    return Ok(a);
  }

  lemma ReadAllWires(input: Bytes, ps: seq<Proto>, reg: set<nat>)
    requires ReadAll(input, reg) == Ok(ps)
    ensures Wires(ps, Written(ps), reg) && input == Concat(Written(ps))
  {
    BytesAreLists(input, ps, reg);
    WrittenWires(ps, reg);
    WiresAreWriteAll(ps, Written(ps), reg);
  }

  // ----- Cutting the buffer -----

  /** The removed bytes `gone` end with the new bytes `enc`, or, where `enc` is longer, `enc` ends with
      `gone` and repeats itself at that distance. */
  predicate Rotates(enc: Bytes, gone: Bytes) {
    if |enc| <= |gone| then gone[|gone| - |enc|..] == enc
    else enc == enc[|gone|..] + gone
  }

  lemma RotatesMeans(enc: Bytes, gone: Bytes)
    ensures (enc + gone)[|gone|..] == enc <==> Rotates(enc, gone)
  {
    if |enc| <= |gone| {
      assert (enc + gone)[|gone|..] == gone[|gone| - |enc|..];
    } else {
      CutFurther(enc, gone, |gone|);
    }
  }

  /** Adding at the front does what it should exactly when the bytes before the start, already
      removed from the address, end with the new bytes, or continue them where they are shorter. */
  lemma PushFrontExactly(enc: Bytes, dat: Bytes, off: nat, rest: Bytes)
    requires off <= |dat| && dat[off..] == rest
    ensures (enc + dat)[off..] == enc + rest <==> Rotates(enc, dat[..off])
  {
    var gone := dat[..off];
    assert dat == gone + rest;
    Assoc(enc, gone, rest);
    CutFurther(enc + gone, rest, off);
    SameEnd((enc + gone)[off..], enc, rest);
    RotatesMeans(enc, gone);
  }

  lemma CutFurther(a: Bytes, b: Bytes, n: nat)
    requires n <= |a|
    ensures (a + b)[n..] == a[n..] + b
  {
  }

  lemma SameEnd(a: Bytes, b: Bytes, rest: Bytes)
    requires |a| == |b|
    ensures a + rest == b + rest <==> a == b
  {
    CutAppend(a, rest);
    CutAppend(b, rest);
  }

  /** An address that has lost nothing from its front, and one that has just lost this very value,
      are both safe. */
  lemma RotatesWhenSafe(enc: Bytes, before: Bytes)
    ensures Rotates(enc, [])
    ensures Rotates(enc, before + enc)
  {
    Empty(enc);
    CutAppend(before, enc);
  }

  /** Add one value to a new address, remove it, and add another of the same length at the front: the
      address shows the removed value, and is right only if that is also the new one. */
  method PushAfterPop(reg: set<nat>, p: Proto, q: Proto) returns (addr: MultiAddr)
    requires IsValid(p) && p.code in reg && IsValid(q) && q.code in reg && |Write(p)| == |Write(q)|
    ensures fresh(addr) && addr.off <= |addr.dat| && addr.protos == [q]
    ensures addr.dat[addr.off..] == Write(p)
    ensures addr.Valid() <==> p == q
  {
    addr := new MultiAddr(reg);
    var r := addr.PushBackValue(p);
    OneValue(addr, p);
    var popped := addr.PopFront();
    BytesOf(addr);
    ghost var gone := addr.dat;
    assert gone == Write(p) && addr.off == |gone|;
    r := addr.PushFrontValue(q);
    SameLength(Write(q), gone);
    SameBytes(p, q, reg);
  }

  /** Bytes written in front of removed ones of the same length are hidden behind the start. */
  lemma SameLength(enc: Bytes, gone: Bytes)
    requires |enc| == |gone|
    ensures (enc + gone)[|gone|..] == gone && (Rotates(enc, gone[..|gone|]) <==> enc == gone)
  {
    CutAppend(enc, gone);
    assert gone[..|gone|] == gone && gone[0..] == gone;
  }

  lemma OneValue(addr: MultiAddr, p: Proto)
    requires addr.Valid() && addr.protos == [p]
    ensures addr.dat[addr.off..] == Write(p)
  {
    BytesOf(addr);
    assert [p][1..] == [] && Write(p) + [] == Write(p);
    assert WriteAll([p]) == Write(p) + WriteAll([p][1..]);
  }

  /** Two values with the same bytes are the same. */
  lemma SameBytes(p: Proto, q: Proto, reg: set<nat>)
    requires IsValid(p) && p.code in reg && IsValid(q) && q.code in reg
    ensures Write(p) == Write(q) <==> p == q
  {
    NextReadsWrite(p, [], reg);
    NextReadsWrite(q, [], reg);
    Empty(Write(p));
    Empty(Write(q));
  }

  /** After losing one port, adding another at the front brings the lost one back in its place. */
  method PushFrontCanCorrupt() returns (addr: MultiAddr)
    ensures fresh(addr) && !addr.Valid() && addr.off <= |addr.dat|
    ensures addr.protos == [Proto(TCP, [0, 2])] && addr.dat[addr.off..] == Write(Proto(TCP, [0, 1]))
  {
    assert Write(Proto(TCP, [0, 2])) == [6, 0, 2] && Write(Proto(TCP, [0, 1])) == [6, 0, 1];
    addr := PushAfterPop(STD_CODES, Proto(TCP, [0, 1]), Proto(TCP, [0, 2]));
  }

  lemma DropLastBytes(dat: Bytes, off: nat, ps: seq<Proto>, cs: seq<Bytes>, reg: set<nat>)
    requires Wires(ps, cs, reg) && off <= |dat| && dat[off..] == Concat(cs) && ps != []
    ensures var n := |ps| - 1;
            var o := |Concat(cs[..n])|;
            && off + o <= |dat| - |ps[n].data|
            && dat[|dat| - |ps[n].data|..] == ps[n].data
            && dat[..off + o][off..] == Concat(cs[..n])
            && Wires(ps[..n], cs[..n], reg)
  {
    var n := |ps| - 1;
    WiresCut(ps, cs, n, reg);
    WiresEnd(ps, cs, n, reg);
    assert cs == cs[..n] + [cs[n]];
    ConcatPush(cs[..n], cs[n]);
    CutThree(dat, off, Concat(cs[..n]), cs[n], |ps[n].data|);
  }

  lemma CutThree(dat: Bytes, off: nat, front: Bytes, enc: Bytes, k: nat)
    requires off <= |dat| && dat[off..] == front + enc && k <= |enc|
    ensures off + |front| <= |dat| - k
    ensures dat[..off + |front|][off..] == front && dat[|dat| - k..] == enc[|enc| - k..]
  {
    CutAppend(front, enc);
    assert dat[..off + |front|][off..] == dat[off..][..|front|];
    assert dat[|dat| - k..] == dat[off..][|front|..][|enc| - k..];
  }

  lemma FirstBytes(dat: Bytes, off: nat, ps: seq<Proto>, cs: seq<Bytes>, reg: set<nat>)
    requires Wires(ps, cs, reg) && off <= |dat| && dat[off..] == Concat(cs)
    ensures ps != [] ==>
              var n := |Concat([] + [cs[0]])|;
              && n == |cs[0]| > 0
              && off + n <= |dat| && |ps[0].data| <= n
              && dat[off + n - |ps[0].data|..off + n] == ps[0].data
              && dat[off + n..] == Concat(cs[1..])
              && Wires(ps[1..], cs[1..], reg)
  {
    if ps != [] {
      WiresCut(ps, cs, 1, reg);
      WiresEnd(ps, cs, 0, reg);
      ConcatPush([], cs[0]);
      CutFront(dat, off, cs[0], Concat(cs[1..]), |ps[0].data|);
    }
  }

  lemma CutFront(dat: Bytes, off: nat, enc: Bytes, rest: Bytes, k: nat)
    requires off <= |dat| && dat[off..] == enc + rest && k <= |enc|
    ensures off + |enc| <= |dat|
    ensures dat[off + |enc|..] == rest && dat[off + |enc| - k..off + |enc|] == enc[|enc| - k..]
  {
    CutAppend(enc, rest);
    assert dat[off + |enc|..] == dat[off..][|enc|..];
    assert dat[off + |enc| - k..off + |enc|] == dat[off..][..|enc|][|enc| - k..];
  }
}
