/** Byte strings cut into chunks, one for each protocol value. */
module Chunks {
  import opened Sequences
  import opened Varint
  import opened Codec

  function Concat(cs: seq<Bytes>): Bytes {
    if cs == [] then [] else cs[0] + Concat(cs[1..])
  }

  lemma {:induction false} ConcatAppend(a: seq<Bytes>, b: seq<Bytes>)
    ensures Concat(a + b) == Concat(a) + Concat(b)
  {
    if a == [] {
      assert a + b == b;
    } else {
      ConcatAppend(a[1..], b);
      assert (a + b)[1..] == a[1..] + b;
      Assoc(a[0], Concat(a[1..]), Concat(b));
    }
  }

  lemma ConcatOne(c: Bytes)
    ensures Concat([c]) == c
  {
    assert [c][1..] == [] && c + [] == c;
  }

  lemma ConcatPush(cs: seq<Bytes>, c: Bytes)
    ensures Concat(cs + [c]) == Concat(cs) + c
  {
    ConcatAppend(cs, [c]);
    ConcatOne(c);
  }

  /** `c` is the written form of the valid and registered value `p`. */
  ghost predicate Wire(p: Proto, c: Bytes, reg: set<nat>) {
    IsValid(p) && p.code in reg && c == Write(p)
  }

  ghost predicate Wires(ps: seq<Proto>, cs: seq<Bytes>, reg: set<nat>) {
    |ps| == |cs| && forall i {:trigger Wire(ps[i], cs[i], reg)} :: 0 <= i < |ps| ==> Wire(ps[i], cs[i], reg)
  }

  lemma WiresPushBack(ps: seq<Proto>, cs: seq<Bytes>, p: Proto, c: Bytes, reg: set<nat>)
    requires Wires(ps, cs, reg) && Wire(p, c, reg)
    ensures Wires(ps + [p], cs + [c], reg)
  {
    forall i | 0 <= i < |ps| + 1 ensures Wire((ps + [p])[i], (cs + [c])[i], reg) {
      if i < |ps| {
        assert Wire(ps[i], cs[i], reg);
        assert (ps + [p])[i] == ps[i] && (cs + [c])[i] == cs[i];
      }
    }
  }

  lemma WiresPushFront(ps: seq<Proto>, cs: seq<Bytes>, p: Proto, c: Bytes, reg: set<nat>)
    requires Wires(ps, cs, reg) && Wire(p, c, reg)
    ensures Wires([p] + ps, [c] + cs, reg)
  {
    forall i | 0 <= i < |ps| + 1 ensures Wire(([p] + ps)[i], ([c] + cs)[i], reg) {
      if i > 0 {
        assert Wire(ps[i - 1], cs[i - 1], reg);
        assert ([p] + ps)[i] == ps[i - 1] && ([c] + cs)[i] == cs[i - 1];
      }
    }
  }

  lemma WiresCut(ps: seq<Proto>, cs: seq<Bytes>, n: nat, reg: set<nat>)
    requires Wires(ps, cs, reg) && n <= |ps|
    ensures Wires(ps[..n], cs[..n], reg) && Wires(ps[n..], cs[n..], reg)
  {
    forall i | 0 <= i < n ensures Wire(ps[..n][i], cs[..n][i], reg) {
      assert Wire(ps[i], cs[i], reg);
    }
    forall i | 0 <= i < |ps| - n ensures Wire(ps[n..][i], cs[n..][i], reg) {
      assert Wire(ps[n + i], cs[n + i], reg);
    }
  }

  /** The chunks of a list of values make up its binary form. */
  lemma {:induction false} WiresAreWriteAll(ps: seq<Proto>, cs: seq<Bytes>, reg: set<nat>)
    requires Wires(ps, cs, reg)
    ensures Concat(cs) == WriteAll(ps) && AllValid(ps, reg)
  {
    if ps != [] {
      assert Wire(ps[0], cs[0], reg);
      WiresCut(ps, cs, 1, reg);
      WiresAreWriteAll(ps[1..], cs[1..], reg);
    }
  }

  function Written(ps: seq<Proto>): (cs: seq<Bytes>)
    ensures |cs| == |ps|
  {
    if ps == [] then [] else [Write(ps[0])] + Written(ps[1..])
  }

  lemma {:induction false} WrittenWires(ps: seq<Proto>, reg: set<nat>)
    requires AllValid(ps, reg)
    ensures Wires(ps, Written(ps), reg)
  {
    if ps != [] {
      WrittenWires(ps[1..], reg);
      WiresPushFront(ps[1..], Written(ps[1..]), ps[0], Write(ps[0]), reg);
      assert [ps[0]] + ps[1..] == ps;
    }
  }

  /** A written value is not empty and ends with its data. */
  lemma WireEnds(p: Proto, c: Bytes, reg: set<nat>)
    requires Wire(p, c, reg)
    ensures 0 < |c| && |p.data| <= |c| && c[|c| - |p.data|..] == p.data
  {
    if ShapeOf(p.code) == Text {
      Assoc(Encode(p.code), Encode(|p.data|), p.data);
      CutAppend(Encode(p.code) + Encode(|p.data|), p.data);
    } else {
      CutAppend(Encode(p.code), p.data);
    }
  }

  lemma WiresEnd(ps: seq<Proto>, cs: seq<Bytes>, i: nat, reg: set<nat>)
    requires Wires(ps, cs, reg) && i < |ps|
    ensures 0 < |cs[i]| && |ps[i].data| <= |cs[i]| && cs[i][|cs[i]| - |ps[i].data|..] == ps[i].data
  {
    WireEnds(ps[i], cs[i], reg);
  }
}
