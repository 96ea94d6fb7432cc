/** Whole sequences of operations: an address is a double-ended queue of protocol values. */
module AddressDeque {
  import opened Options
  import opened Codec
  import opened MultiAddrs

  datatype Act =
    | PushBack(p: Proto)
    | PushFront(p: Proto)
    | PopBack
    | PopFront
    | DropFirst
    | DropLast
    | Clone

  /** The list that an address stands for, and whether nothing was removed from its front since it
      was made or cloned. */
  datatype Deque = Deque(items: seq<Proto>, intact: bool)

  function Front(q: Deque): Deque
    requires q.items != []
  {
    Deque(q.items[1..], false)
  }

  function Back(q: Deque): Deque
    requires q.items != []
  {
    q.(items := q.items[..|q.items| - 1])
  }

  /** Values that are not valid and registered are refused. */
  function Next(q: Deque, a: Act, reg: set<nat>): Deque {
    match a
    case PushBack(p) => if IsValid(p) && p.code in reg then q.(items := q.items + [p]) else q
    case PushFront(p) => if IsValid(p) && p.code in reg then q.(items := [p] + q.items) else q
    case Clone => q.(intact := true)
    case PopFront => if q.items == [] then q else Front(q)
    case DropFirst => if q.items == [] then q else Front(q)
    case PopBack => if q.items == [] then q else Back(q)
    case DropLast => if q.items == [] then q else Back(q)
  }

  /** What a removal returns. */
  function Taken(q: Deque, a: Act): Option<Proto> {
    if q.items == [] then None
    else
      match a
      case PopFront => Some(q.items[0])
      case PopBack => Some(q.items[|q.items| - 1])
      case _ => None
  }

  /** Values are added at the front only while nothing has been removed there. */
  predicate Sound(q: Deque, acts: seq<Act>, reg: set<nat>)
    decreases |acts|
  {
    acts != [] ==>
      && (acts[0].PushBack? || acts[0].PushFront? ==> Sized(acts[0].p))
      && (acts[0].PushFront? ==> q.intact)
      && Sound(Next(q, acts[0], reg), acts[1..], reg)
  }

  function Run(q: Deque, acts: seq<Act>, reg: set<nat>): Deque
    decreases |acts|
  {
    if acts == [] then q else Run(Next(q, acts[0], reg), acts[1..], reg)
  }

  function AllTaken(q: Deque, acts: seq<Act>, reg: set<nat>): seq<Option<Proto>>
    decreases |acts|
  {
    if acts == [] then [] else [Taken(q, acts[0])] + AllTaken(Next(q, acts[0], reg), acts[1..], reg)
  }

  /** The address stands for the list. */
  ghost predicate Stands(a: MultiAddr, q: Deque)
    reads a
  {
    a.Valid() && a.protos == q.items && (q.intact <==> a.off == 0)
  }

  /** One operation.  Cloning goes on with the clone. */
  method Do(addr: MultiAddr, a: Act, ghost q: Deque) returns (next: MultiAddr, taken: Option<Proto>)
    requires Stands(addr, q) && Sound(q, [a], addr.reg)
    modifies addr
    ensures next == addr || fresh(next)
    ensures next.reg == addr.reg && Stands(next, Next(q, a, addr.reg)) && taken == Taken(q, a)
  {
    next, taken := addr, None;
    match a {
      case PushBack(p) => var r := addr.PushBackValue(p);
      case PushFront(p) =>
        RotatesWhenSafe(Write(p), []);
        assert addr.dat[..0] == [];
        var r := addr.PushFrontValue(p);
      case PopBack => taken := addr.PopBack();
      case PopFront => taken := addr.PopFront();
      case DropFirst => addr.DropFirst();
      case DropLast => addr.DropLast();
      case Clone => next := addr.Clone();
    }
  }

  /** Over every sequence of operations the address stands for the list, hands out what the list
      hands out, and its bytes are the binary form of the list. */
  method DoAll(reg: set<nat>, acts: seq<Act>) returns (addr: MultiAddr, taken: seq<Option<Proto>>)
    requires Sound(Deque([], true), acts, reg)
    ensures fresh(addr) && addr.Valid() && addr.protos == Run(Deque([], true), acts, reg).items
    ensures addr.dat[addr.off..] == WriteAll(addr.protos)
    ensures taken == AllTaken(Deque([], true), acts, reg)
  {
    addr := new MultiAddr(reg);
    taken := [];
    var rest := acts;
    ghost var q := Deque([], true);
    while rest != []
      invariant fresh(addr) && addr.reg == reg && Stands(addr, q) && Sound(q, rest, reg)
      invariant Run(q, rest, reg) == Run(Deque([], true), acts, reg)
      invariant taken + AllTaken(q, rest, reg) == AllTaken(Deque([], true), acts, reg)
      decreases |rest|
    {
      var a := rest[0];
      SoundHead(q, rest, reg);
      var t: Option<Proto>;
      MoveTaken(taken, q, rest, reg);
      addr, t := Do(addr, a, q);
      taken, q, rest := taken + [t], Next(q, a, reg), rest[1..];
    }
    BytesOf(addr);
    assert taken + [] == taken;
  }

  lemma SoundHead(q: Deque, acts: seq<Act>, reg: set<nat>)
    requires Sound(q, acts, reg) && acts != []
    ensures Sound(q, [acts[0]], reg)
  {
    assert [acts[0]][1..] == [];
  }

  lemma MoveTaken(taken: seq<Option<Proto>>, q: Deque, acts: seq<Act>, reg: set<nat>)
    requires acts != []
    ensures (taken + [Taken(q, acts[0])]) + AllTaken(Next(q, acts[0], reg), acts[1..], reg) == taken + AllTaken(q, acts, reg)
  {
  }
}
