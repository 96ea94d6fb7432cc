/** The iterator over the binary values of an address. */
module BytesIters {
  import opened Options
  import opened Sequences
  import opened Varint
  import opened Codec
  import opened Chunks

  class BytesIter {
    const bytes: Bytes
    const reg: set<nat>
    var offset: nat
    var isErr: bool

    constructor (bytes: Bytes, reg: set<nat>)
      ensures this.bytes == bytes && this.reg == reg && offset == 0 && !isErr
    {
      this.bytes, this.reg, offset, isErr := bytes, reg, 0, false;
    }

    /** The next value with the offset at which it starts, or an error, after which the iterator is
        at its end. */
    method Next() returns (r: Option<Result<(nat, Proto)>>)
      modifies this
      ensures old(offset) >= |bytes| || old(isErr) ==> r == None && offset == old(offset) && isErr == old(isErr)
      ensures old(offset) < |bytes| && !old(isErr) ==>
                match Codec.Next(bytes[old(offset)..], reg)
                case Ok((p, rest)) => r == Some(Ok((old(offset), p))) && offset == |bytes| - |rest| && !isErr
                case Err(e) => r == Some(Err(e)) && offset == old(offset) && isErr
    {
      if offset >= |bytes| || isErr {
        return None;
      }
      match DecodeBelow(U32_END, bytes[offset..]) {
        case Err(e) =>
          isErr := true;
          return Some(Err(e));
        case Ok((code, bs)) =>
          if code in reg {
            match SplitBytes(code, bs) {
              case Ok((data, rest)) =>
                var start := offset;
                offset := |bytes| - |rest|;
                return Some(Ok((start, Proto(code, data))));
              case Err(e) =>
                isErr := true;
                return Some(Err(e));
            }
          }
          isErr := true;
          return Some(Err(Unregistered(code)));
      }
    }

    /** The step over bytes that are known to be valid: it yields the first value still to come, and
        the "valid protocol" expectation holds. */
    method NextValid(ghost done: seq<Bytes>, ghost todo: seq<Bytes>, ghost ps: seq<Proto>)
        returns (r: Option<(nat, Proto)>)
      requires !isErr && Between(bytes, offset, done, todo) && Wires(ps, todo, reg)
      modifies this
      ensures !isErr
      ensures if ps == [] then r == None && offset == old(offset)
              else r == Some((old(offset), ps[0])) && Between(bytes, offset, done + [todo[0]], todo[1..])
    {
      Advance(bytes, offset, done, todo, ps, reg);
      var item := Next();
      if item == None {
        return None;
      }
      return Some(item.value.value);
    }
  }

  /** An iterator over the chunks `done` and `todo` is where they meet. */
  ghost predicate Between(bytes: Bytes, offset: nat, done: seq<Bytes>, todo: seq<Bytes>) {
    bytes == Concat(done) + Concat(todo) && offset == |Concat(done)|
  }

  /** The first chunk still to come is read as its value. */
  lemma Advance(bytes: Bytes, offset: nat, done: seq<Bytes>, todo: seq<Bytes>, ps: seq<Proto>, reg: set<nat>)
    requires Between(bytes, offset, done, todo) && Wires(ps, todo, reg)
    ensures ps == [] <==> offset >= |bytes|
    ensures ps != [] ==>
              var rest := Concat(todo[1..]);
              && Codec.Next(bytes[offset..], reg) == Ok((ps[0], rest))
              && Between(bytes, |bytes| - |rest|, done + [todo[0]], todo[1..])
  {
    CutAppend(Concat(done), Concat(todo));
    if ps != [] {
      var p, c, rest := ps[0], todo[0], Concat(todo[1..]);
      assert Wire(p, c, reg);
      WireEnds(p, c, reg);
      NextReadsWrite(p, rest, reg);
      ConcatPush(done, c);
      Assoc(Concat(done), c, rest);
    }
  }
}
