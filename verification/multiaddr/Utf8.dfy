/** UTF-8 texts as byte sequences, by the table of well-formed sequences in section 4 of
    RFC 3629. */
module Utf8 {
  import opened Varint

  predicate In(bs: Bytes, i: nat, lo: int, hi: int) {
    i < |bs| && lo <= bs[i] <= hi
  }

  predicate Tails(bs: Bytes, from: nat, to: nat) {
    forall i :: from <= i < to ==> In(bs, i, 0x80, 0xBF)
  }

  /** The length of the first character, or 0 where the input does not start with one. */
  function CharLength(bs: Bytes): (n: nat)
    ensures n <= |bs|
    ensures n > 0 ==> Tails(bs, 1, n)
  {
    if In(bs, 0, 0x00, 0x7F) then 1
    else if In(bs, 0, 0xC2, 0xDF) && In(bs, 1, 0x80, 0xBF) then 2
    else if In(bs, 0, 0xE0, 0xEF) && In(bs, 1, ThirdLow(bs[0]), ThirdHigh(bs[0])) && In(bs, 2, 0x80, 0xBF) then 3
    else if In(bs, 0, 0xF0, 0xF4) && In(bs, 1, FourthLow(bs[0]), FourthHigh(bs[0])) && In(bs, 2, 0x80, 0xBF)
            && In(bs, 3, 0x80, 0xBF) then 4
    else 0
  }

  function ThirdLow(b: byte): int { if b == 0xE0 then 0xA0 else 0x80 }
  function ThirdHigh(b: byte): int { if b == 0xED then 0x9F else 0xBF }
  function FourthLow(b: byte): int { if b == 0xF0 then 0x90 else 0x80 }
  function FourthHigh(b: byte): int { if b == 0xF4 then 0x8F else 0xBF }

  predicate IsText(bs: Bytes) {
    bs == [] || (CharLength(bs) > 0 && IsText(bs[CharLength(bs)..]))
  }

  lemma AfterOneByte(bs: Bytes)
    requires IsText(bs) && bs != [] && bs[0] < 0x80
    ensures IsText(bs[1..])
  {
    assert CharLength(bs) == 1;
  }

  /** A text cut at a one-byte character gives texts before and after it. */
  lemma CutAround(bs: Bytes, p: nat)
    requires IsText(bs) && p < |bs| && bs[p] < 0x80
    ensures IsText(bs[..p]) && IsText(bs[p..]) && IsText(bs[p + 1..])
  {
    CutText(bs, p);
    AfterOneByte(bs[p..]);
    assert bs[p..][1..] == bs[p + 1..];
  }

  lemma {:induction false} CutText(bs: Bytes, p: nat)
    requires IsText(bs) && p < |bs| && bs[p] < 0x80
    ensures IsText(bs[..p]) && IsText(bs[p..])
    decreases |bs|
  {
    var n := CharLength(bs);
    if p == 0 {
      assert bs[0..] == bs;
    } else {
      assert p < n ==> In(bs, p, 0x80, 0xBF);
      CutText(bs[n..], p - n);
      CutTwice(bs, n, p);
      SameChar(bs, p);
    }
  }

  lemma CutTwice(bs: Bytes, n: nat, p: nat)
    requires n <= p <= |bs|
    ensures bs[n..][..p - n] == bs[..p][n..] && bs[n..][p - n..] == bs[p..]
  {
    assert bs[n..][..p - n] == bs[n..p];
    assert bs[..p][n..] == bs[n..p];
  }

  /** The first character is the same in every prefix that holds it. */
  lemma SameChar(bs: Bytes, p: nat)
    requires 0 < CharLength(bs) <= p <= |bs|
    ensures CharLength(bs[..p]) == CharLength(bs)
  {
    var n := CharLength(bs);
    assert forall i :: 0 <= i < n ==> bs[..p][i] == bs[i];
    assert In(bs, 0, 0, 0xFF);
    assert n > 1 ==> bs[..p][1] == bs[1];
    assert n > 2 ==> bs[..p][2] == bs[2];
    assert n > 3 ==> bs[..p][3] == bs[3];
  }

  lemma {:induction false} TextAppend(a: Bytes, b: Bytes)
    requires IsText(a) && IsText(b)
    ensures IsText(a + b)
    decreases |a|
  {
    if a == [] {
      assert a + b == b;
    } else {
      var n := CharLength(a);
      TextAppend(a[n..], b);
      CharOfAppend(a, b);
    }
  }

  lemma CharOfAppend(a: Bytes, b: Bytes)
    requires CharLength(a) > 0
    ensures CharLength(a + b) == CharLength(a)
    ensures (a + b)[CharLength(a)..] == a[CharLength(a)..] + b
  {
    var n := CharLength(a);
    assert (a + b)[0] == a[0];
    assert n > 1 ==> (a + b)[1] == a[1];
    assert n > 2 ==> (a + b)[2] == a[2];
    assert n > 3 ==> (a + b)[3] == a[3];
  }

  lemma OneByteIsText(b: byte)
    requires b < 0x80
    ensures IsText([b])
  {
    assert CharLength([b]) == 1 && [b][1..] == [];
  }
}
