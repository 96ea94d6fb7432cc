/** The binary form of protocol values: `StdCodec` and the protocols it knows. */
module Codec {
  import opened Sequences
  import opened Varint
  import Utf8

  const U32_END := 0x1_0000_0000
  const USIZE_END := 0x1_0000_0000_0000_0000

  datatype Error =
    | BadVarint(error: Varint)
    | Overflow
    | RequiredBytes(code: nat, n: nat)
    | Unregistered(code: nat)
    | InvalidProto(code: nat)
    | UnknownPrefix(prefix: Bytes)
    | BadValue(value: Bytes)

  datatype Result<+T> = Ok(value: T) | Err(error: Error)

  // ----- The protocols -----

  const IP4 := 4
  const IP6 := 41
  const TCP := 6
  const WORKER := 102526
  const DNSADDR := 56
  const SERVICE := 62526
  const NODE := 72526
  const PROJECT := 82526
  const SPACE := 92526
  const SECURE := 99526

  const TEXT_CODES: set<nat> := {WORKER, DNSADDR, SERVICE, NODE, PROJECT, SPACE, SECURE}

  /** The codes of the default registry. */
  const STD_CODES: set<nat> := TEXT_CODES + {IP4, IP6, TCP}

  /** Values are texts of any length or have a fixed length. */
  datatype Shape = Text | Fixed(length: nat) | Unknown

  function ShapeOf(code: nat): Shape {
    if code == IP4 then Fixed(4)
    else if code == IP6 then Fixed(16)
    else if code == TCP then Fixed(2)
    else if code in TEXT_CODES then Text
    else Unknown
  }

  datatype Proto = Proto(code: nat, data: Bytes)

  /** A value that `is_valid_bytes` accepts.  Codes are 32-bit numbers, and every slice is shorter
      than the address space. */
  predicate IsValid(p: Proto) {
    match ShapeOf(p.code)
    case Text => Utf8.IsText(p.data) && |p.data| < USIZE_END
    case Fixed(n) => |p.data| == n
    case Unknown => false
  }

  /** What the types of the source and its slices guarantee of every value: fixed-length values have
      their length. */
  predicate Sized(p: Proto) {
    (ShapeOf(p.code).Fixed? ==> |p.data| == ShapeOf(p.code).length) && |p.data| < USIZE_END
  }

  /** `write_bytes` refuses unknown codes and texts that are not UTF-8. */
  function Writable(p: Proto, reg: set<nat>): (r: Result<()>)
    requires Sized(p)
    ensures r.Ok? <==> IsValid(p) && p.code in reg
    ensures r.Err? ==> r.error == if p.code in reg && p.code in STD_CODES then BadValue(p.data) else Unregistered(p.code)
  {
    if p.code !in reg || ShapeOf(p.code) == Unknown then Err(Unregistered(p.code))
    else if ShapeOf(p.code) == Text && !Utf8.IsText(p.data) then Err(BadValue(p.data))
    else Ok(())
  }

  predicate AllValid(ps: seq<Proto>, reg: set<nat>) {
    forall i :: 0 <= i < |ps| ==> IsValid(ps[i]) && ps[i].code in reg
  }

  // ----- Writing -----

  function Body(p: Proto): Bytes {
    if ShapeOf(p.code) == Text then Encode(|p.data|) + p.data else p.data
  }

  function Write(p: Proto): Bytes {
    Encode(p.code) + Body(p)
  }

  // ----- Reading -----

  function DecodeBelow(end: nat, bs: Bytes): Result<(nat, Bytes)> {
    match Decode(bs)
    case Number(n, rest) => if n < end then Ok((n, rest)) else Err(Overflow)
    case error => Err(BadVarint(error))
  }

  function Take(code: nat, n: nat, bs: Bytes): Result<(Bytes, Bytes)> {
    if |bs| < n then Err(RequiredBytes(code, n)) else Ok((bs[..n], bs[n..]))
  }

  /** `split_bytes`: the value of a protocol and the remainder. */
  function SplitBytes(code: nat, bs: Bytes): (r: Result<(Bytes, Bytes)>)
    ensures r.Ok? ==> |r.value.1| <= |bs|
  {
    match ShapeOf(code)
    case Text =>
      (match DecodeBelow(USIZE_END, bs)
       case Ok((n, rest)) => Take(code, n, rest)
       case Err(e) => Err(e))
    case Fixed(n) => Take(code, n, bs)
    case Unknown => Err(Unregistered(code))
  }

  /** One step of the iterator over binary values: the protocol at the front and the remainder. */
  function Next(bs: Bytes, reg: set<nat>): (r: Result<(Proto, Bytes)>)
    ensures r.Ok? ==> |r.value.1| < |bs|
  {
    match DecodeBelow(U32_END, bs)
    case Err(e) => Err(e)
    case Ok((code, rest)) =>
      if code !in reg then Err(Unregistered(code))
      else
        match SplitBytes(code, rest)
        case Ok((data, rest')) => Ok((Proto(code, data), rest'))
        case Err(e) => Err(e)
  }

  lemma TakeBack(code: nat, data: Bytes, rest: Bytes)
    ensures Take(code, |data|, data + rest) == Ok((data, rest))
  {
    CutAppend(data, rest);
  }

  lemma SplitReadsBody(p: Proto, rest: Bytes)
    requires IsValid(p)
    ensures SplitBytes(p.code, Body(p) + rest) == Ok((p.data, rest))
  {
    TakeBack(p.code, p.data, rest);
    if ShapeOf(p.code) == Text {
      DecodeEncode(|p.data|, p.data + rest);
      Assoc(Encode(|p.data|), p.data, rest);
    }
  }

  /** What is written is read back, whatever follows it. */
  lemma NextReadsWrite(p: Proto, rest: Bytes, reg: set<nat>)
    requires IsValid(p) && p.code in reg
    ensures Next(Write(p) + rest, reg) == Ok((p, rest))
  {
    SplitReadsBody(p, rest);
    DecodeEncode(p.code, Body(p) + rest);
    Assoc(Encode(p.code), Body(p), rest);
    assert p.code < U32_END;
  }

  lemma BodyOfSplit(code: nat, bs: Bytes)
    requires SplitBytes(code, bs).Ok?
    ensures var (data, rest) := SplitBytes(code, bs).value;
            && bs == Body(Proto(code, data)) + rest
            && ShapeOf(code) != Unknown
            && (ShapeOf(code) == Text || IsValid(Proto(code, data)))
            && |data| < USIZE_END
  {
    var (data, rest) := SplitBytes(code, bs).value;
    if ShapeOf(code) == Text {
      EncodeDecode(bs);
      assert Decode(bs).rest == data + rest;
      Assoc(Encode(|data|), data, rest);
    } else {
      assert bs == data + rest;
    }
  }

  /** What is read was written: the input is the value written out, and the remainder. */
  lemma WriteOfNext(bs: Bytes, reg: set<nat>)
    requires Next(bs, reg).Ok?
    ensures var (p, rest) := Next(bs, reg).value;
            && bs == Write(p) + rest && |rest| < |bs|
            && p.code in reg
            && (IsValid(p) <==> (ShapeOf(p.code) == Text ==> Utf8.IsText(p.data)))
  {
    var (p, rest) := Next(bs, reg).value;
    EncodeDecode(bs);
    var body := Decode(bs).rest;
    BodyOfSplit(p.code, body);
    Assoc(Encode(p.code), Body(p), rest);
  }

  // ----- Lists of values -----

  function WriteAll(ps: seq<Proto>): Bytes {
    if ps == [] then [] else Write(ps[0]) + WriteAll(ps[1..])
  }

  /** `try_from_bytes`: read and check value after value. */
  function ReadAll(bs: Bytes, reg: set<nat>): Result<seq<Proto>>
    decreases |bs|
  {
    if bs == [] then Ok([])
    else
      match Next(bs, reg)
      case Err(e) => Err(e)
      case Ok((p, rest)) =>
        if !IsValid(p) then Err(InvalidProto(p.code))
        else
          match ReadAll(rest, reg)
          case Ok(ps) => Ok([p] + ps)
          case Err(e) => Err(e)
  }

  lemma WriteIsNotEmpty(p: Proto)
    ensures Write(p) != []
  {
  }

  /** Every list of valid values is read back from its bytes. */
  lemma {:induction false} ReadAllOfWriteAll(ps: seq<Proto>, reg: set<nat>)
    requires AllValid(ps, reg)
    ensures ReadAll(WriteAll(ps), reg) == Ok(ps)
  {
    if ps != [] {
      NextReadsWrite(ps[0], WriteAll(ps[1..]), reg);
      ReadAllOfWriteAll(ps[1..], reg);
      WriteIsNotEmpty(ps[0]);
      assert [ps[0]] + ps[1..] == ps;
    }
  }

  /** Every accepted input is the bytes of the list read from it, and that list is valid. */
  lemma {:induction false} WriteAllOfReadAll(bs: Bytes, reg: set<nat>)
    ensures ReadAll(bs, reg).Ok? ==> WriteAll(ReadAll(bs, reg).value) == bs && AllValid(ReadAll(bs, reg).value, reg)
    decreases |bs|
  {
    if bs != [] && ReadAll(bs, reg).Ok? {
      WriteOfNext(bs, reg);
      var (p, rest) := Next(bs, reg).value;
      WriteAllOfReadAll(rest, reg);
      var ps := ReadAll(rest, reg).value;
      assert ReadAll(bs, reg).value == [p] + ps;
      assert ([p] + ps)[1..] == ps;
    }
  }

  /** The binary form is a bijection between the lists of valid values and the accepted inputs. */
  lemma BytesAreLists(bs: Bytes, ps: seq<Proto>, reg: set<nat>)
    ensures ReadAll(bs, reg) == Ok(ps) <==> AllValid(ps, reg) && bs == WriteAll(ps)
  {
    WriteAllOfReadAll(bs, reg);
    if AllValid(ps, reg) {
      ReadAllOfWriteAll(ps, reg);
    }
  }
}
