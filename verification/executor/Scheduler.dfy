/** The cooperative executor, `block_on`, as a state machine over its steps.  Polls are atomic with
    respect to each other; what a poll does, wakes and spawns included, is arbitrary. */
module Scheduler {

  type Id = nat

  /** Where the executor is: polling the main future, at the head of the inner loop, polling a task,
      or finished. */
  datatype Phase = InMain | AtLoop(last: Id, budget: nat) | InTask(id: Id, budget: nat) | Finished

  datatype Sched = Sched(node: Id, tasks: set<Id>, queue: seq<Id>, nextId: Id, phase: Phase)

  datatype Event =
    | MainReady
    | MainPending
    | Pop
    | TaskDone(ready: bool)
    | Wake(id: Id)
    | Spawn

  predicate Polling(s: Sched) {
    s.phase.InMain? || s.phase.InTask?
  }

  /** The waker of the main future does nothing, so its id is never queued. */
  predicate Enabled(s: Sched, e: Event) {
    match e
    case MainReady => s.phase.InMain?
    case MainPending => s.phase.InMain?
    case Pop => s.phase.AtLoop?
    case TaskDone(_) => s.phase.InTask?
    case Wake(id) => Polling(s) && id != s.node
    case Spawn => Polling(s)
  }

  /** After a task: back to the main future once the budget is used up. */
  function AfterPoll(last: Id, budget: nat): Phase {
    if budget == 0 then InMain else AtLoop(last, budget - 1)
  }

  function Step(s: Sched, e: Event): Sched
    requires Enabled(s, e)
  {
    match e
    case MainReady => s.(phase := Finished)
    case MainPending => s.(phase := AtLoop(s.node, |s.queue|))
    case Wake(id) => s.(queue := s.queue + [id])
    case Spawn => s.(queue := s.queue + [s.nextId], tasks := s.tasks + {s.nextId}, nextId := s.nextId + 1)
    case TaskDone(ready) =>
      var id := s.phase.id;
      s.(tasks := if ready then s.tasks - {id} else s.tasks, phase := AfterPoll(id, s.phase.budget))
    case Pop =>
      if s.queue == [] then s.(phase := InMain)
      else
        var id, rest := s.queue[0], s.queue[1..];
        if id == s.phase.last then s.(queue := rest + [id], phase := InMain)
        else if id !in s.tasks then s.(queue := rest, phase := AfterPoll(id, s.phase.budget))
        else s.(queue := rest, phase := InTask(id, s.phase.budget))
  }

  /** `poll_task` is called for `id`. */
  predicate Visits(s: Sched, e: Event, id: Id) {
    e == Pop && s.phase.AtLoop? && s.queue != [] && s.queue[0] == id && id != s.phase.last
  }

  // ----- Runs -----

  predicate Legal(s: Sched, run: seq<Event>)
    decreases |run|
  {
    run == [] || (Enabled(s, run[0]) && Legal(Step(s, run[0]), run[1..]))
  }

  function Run(s: Sched, run: seq<Event>): Sched
    requires Legal(s, run)
    decreases |run|
  {
    if run == [] then s else Run(Step(s, run[0]), run[1..])
  }

  predicate VisitsIn(s: Sched, run: seq<Event>, id: Id)
    requires Legal(s, run)
    decreases |run|
  {
    run != [] && (Visits(s, run[0], id) || VisitsIn(Step(s, run[0]), run[1..], id))
  }

  /** The number of rounds begun: polls of the main future that came back pending. */
  function Rounds(run: seq<Event>): nat {
    if run == [] then 0 else (if run[0] == MainPending then 1 else 0) + Rounds(run[1..])
  }

  /** The number of calls of `poll_task`. */
  function Polls(s: Sched, run: seq<Event>): nat
    requires Legal(s, run)
    decreases |run|
  {
    if run == [] then 0
    else
      (if s.queue != [] && Visits(s, run[0], s.queue[0]) then 1 else 0) + Polls(Step(s, run[0]), run[1..])
  }

  // ----- What every step keeps -----

  /** Ids are handed out once, so a spawned task never meets an existing one. */
  predicate WellFormed(s: Sched) {
    && s.node < s.nextId
    && s.node !in s.tasks && s.node !in s.queue
    && (forall t :: t in s.tasks ==> t < s.nextId)
    && (s.phase.InTask? ==> s.phase.id in s.tasks)
  }

  lemma StepKeepsWellFormed(s: Sched, e: Event)
    requires WellFormed(s) && Enabled(s, e)
    ensures WellFormed(Step(s, e))
    ensures e == Spawn ==> s.nextId !in s.tasks
  {
  }

  // ----- Bounded waiting -----

  /** The position of an id in the queue, or the length where it is absent. */
  function Position(q: seq<Id>, id: Id): (k: nat)
    ensures k <= |q|
    ensures k < |q| ==> q[k] == id
    ensures id in q <==> k < |q|
  {
    if q == [] || q[0] == id then 0 else 1 + Position(q[1..], id)
  }

  lemma {:induction false} PositionPush(q: seq<Id>, id: Id, x: Id)
    requires id in q
    ensures Position(q + [x], id) == Position(q, id)
  {
    if q[0] != id {
      PositionPush(q[1..], id, x);
      assert (q + [x])[1..] == q[1..] + [x];
    }
  }

  lemma PositionPop(q: seq<Id>, id: Id)
    requires id in q && q[0] != id
    ensures id in q[1..] && Position(q[1..], id) == Position(q, id) - 1
  {
  }

  /** No task has been popped in this round yet. */
  predicate Fresh(s: Sched) {
    s.phase.AtLoop? && s.phase.last == s.node
  }

  /** The rounds that may still begin before `id`, which waits in the queue, is visited. */
  function Patience(s: Sched, id: Id): nat {
    Position(s.queue, id) + if Fresh(s) then 0 else 1
  }

  /** `id` waits in the queue and is not the task that has just run. */
  predicate Waits(s: Sched, id: Id) {
    id in s.queue && id != s.node && !(s.phase.AtLoop? && s.phase.last == id) && !(s.phase.InTask? && s.phase.id == id)
  }

  lemma StepWaits(s: Sched, e: Event, id: Id)
    requires WellFormed(s) && Enabled(s, e) && Waits(s, id) && !Visits(s, e, id)
    ensures Waits(Step(s, e), id)
    ensures Patience(Step(s, e), id) <= Patience(s, id) - if e == MainPending then 1 else 0
  {
    match e
    case Wake(x) => PositionPush(s.queue, id, x);
    case Spawn => PositionPush(s.queue, id, s.nextId);
    case Pop =>
      PositionPop(s.queue, id);
      if s.queue[0] == s.phase.last {
        PositionPush(s.queue[1..], id, s.queue[0]);
      }
    case _ =>
  }

  /** While an id that waits at position `k` is not visited, no more than `k` further rounds begin,
      whatever the tasks wake or spawn. */
  lemma {:induction false} BoundedWaiting(s: Sched, run: seq<Event>, id: Id)
    requires WellFormed(s) && Waits(s, id) && Legal(s, run) && !VisitsIn(s, run, id)
    ensures Rounds(run) <= Patience(s, id)
    decreases |run|
  {
    if run != [] {
      StepKeepsWellFormed(s, run[0]);
      StepWaits(s, run[0], id);
      BoundedWaiting(Step(s, run[0]), run[1..], id);
    }
  }

  // ----- The length of a round -----

  /** The visits a round may still make. */
  function Allowance(s: Sched): nat {
    match s.phase
    case AtLoop(_, budget) => budget + 1
    case InTask(_, budget) => budget
    case _ => 0
  }

  /** A round that starts with `n` queued ids visits at most `n + 1`, whatever the tasks wake or
      spawn. */
  lemma {:induction false} BoundedRound(s: Sched, run: seq<Event>)
    requires Legal(s, run) && Rounds(run) == 0
    ensures Polls(s, run) <= Allowance(s)
    decreases |run|
  {
    if run != [] {
      BoundedRound(Step(s, run[0]), run[1..]);
    }
  }

  /** Exactly so many, unless a pop finds the queue empty or meets the task that has just run. */
  predicate Ends(s: Sched, e: Event) {
    e == Pop && s.phase.AtLoop? && (s.queue == [] || s.queue[0] == s.phase.last)
  }

  predicate EndsEarly(s: Sched, run: seq<Event>)
    requires Legal(s, run)
    decreases |run|
  {
    run != [] && (Ends(s, run[0]) || EndsEarly(Step(s, run[0]), run[1..]))
  }

  lemma {:induction false} RoundIsUsedUp(s: Sched, run: seq<Event>)
    requires Legal(s, run) && Rounds(run) == 0 && !EndsEarly(s, run)
    ensures Polls(s, run) + Allowance(Run(s, run)) == Allowance(s)
    decreases |run|
  {
    if run != [] {
      RoundIsUsedUp(Step(s, run[0]), run[1..]);
    }
  }

  /** A round begins with one visit more than there are queued ids, and none of them has just run. */
  lemma RoundBegins(s: Sched)
    requires s.phase.InMain?
    ensures Allowance(Step(s, MainPending)) == |s.queue| + 1 && Fresh(Step(s, MainPending))
    ensures Step(s, MainPending).queue == s.queue && Step(s, MainPending).tasks == s.tasks
  {
  }

  // ----- The life of a task -----

  /** A spawned task is stored and queued behind all others, under an id that was never used. */
  lemma SpawnedIsQueued(s: Sched)
    requires WellFormed(s) && Enabled(s, Spawn)
    ensures var t := Step(s, Spawn);
            && t.queue == s.queue + [s.nextId] && t.tasks == s.tasks + {s.nextId} && t.nextId == s.nextId + 1
            && s.nextId !in s.tasks && t.phase == s.phase
  {
  }

  /** A woken id is queued behind all others. */
  lemma WokenIsQueued(s: Sched, id: Id)
    requires Enabled(s, Wake(id))
    ensures Step(s, Wake(id)) == s.(queue := s.queue + [id])
  {
  }

  /** A queued id stays queued until it is visited. */
  lemma QueuedStays(s: Sched, e: Event, id: Id)
    requires Enabled(s, e) && id in s.queue && !Visits(s, e, id)
    ensures id in Step(s, e).queue
  {
    if e == Pop && s.queue[0] != id {
      assert id in s.queue[1..];
    }
  }

  /** A task lives until it is polled and ready. */
  lemma LivesUntilReady(s: Sched, e: Event, id: Id)
    requires Enabled(s, e) && id in s.tasks
    ensures id in Step(s, e).tasks <==> !(e == TaskDone(true) && s.phase.id == id)
  {
  }

  /** Some state of the run polls the task. */
  predicate PolledIn(s: Sched, run: seq<Event>, id: Id)
    requires Legal(s, run)
    decreases |run|
  {
    run != [] &&
    (var t := Step(s, run[0]);
     (run[0] == Pop && t.phase.InTask? && t.phase.id == id) || PolledIn(t, run[1..], id))
  }

  /** A live task that is visited is polled. */
  lemma {:induction false} VisitedIsPolled(s: Sched, run: seq<Event>, id: Id)
    requires Legal(s, run) && VisitsIn(s, run, id) && id in s.tasks && !(s.phase.InTask? && s.phase.id == id)
    ensures PolledIn(s, run, id)
    decreases |run|
  {
    var t := Step(s, run[0]);
    if !Visits(s, run[0], id) && !(t.phase.InTask? && t.phase.id == id) {
      LivesUntilReady(s, run[0], id);
      VisitedIsPolled(t, run[1..], id);
    }
  }

  /** A live task at position `k` when a round starts is polled within `k + 1` rounds. */
  lemma QueuedIsPolled(s: Sched, run: seq<Event>, id: Id)
    requires WellFormed(s) && Fresh(s) && id in s.queue && id in s.tasks
    requires Legal(s, run) && Rounds(run) > Position(s.queue, id)
    ensures PolledIn(s, run, id)
  {
    if !VisitsIn(s, run, id) {
      BoundedWaiting(s, run, id);
    }
    VisitedIsPolled(s, run, id);
  }

  /** A spawned task is polled within two rounds more than there are ids in front of it. */
  lemma SpawnedIsPolled(s: Sched, run: seq<Event>)
    requires WellFormed(s) && Enabled(s, Spawn)
    requires Legal(Step(s, Spawn), run) && Rounds(run) > |s.queue| + 1
    ensures PolledIn(Step(s, Spawn), run, s.nextId)
  {
    var t, id := Step(s, Spawn), s.nextId;
    StepKeepsWellFormed(s, Spawn);
    assert t.queue[|s.queue|] == id;
    if !VisitsIn(t, run, id) {
      PositionOfLast(s.queue, id);
      BoundedWaiting(t, run, id);
    }
    VisitedIsPolled(t, run, id);
  }

  lemma {:induction false} PositionOfLast(q: seq<Id>, id: Id)
    ensures Position(q + [id], id) <= |q|
  {
    if q != [] && q[0] != id {
      PositionOfLast(q[1..], id);
      assert (q + [id])[1..] == q[1..] + [id];
    }
  }

  /** The task has been removed and is not being polled. */
  predicate Over(s: Sched, id: Id) {
    id < s.nextId && id !in s.tasks && !(s.phase.InTask? && s.phase.id == id)
  }

  lemma {:induction false} OverForGood(s: Sched, run: seq<Event>, id: Id)
    requires Over(s, id) && Legal(s, run)
    ensures Over(Run(s, run), id)
    decreases |run|
  {
    if run != [] {
      OverForGood(Step(s, run[0]), run[1..], id);
    }
  }

  /** Once a task is ready, no state of any run from there holds it or polls it, even if its id is still
      queued. */
  lemma FinishedIsNeverPolled(s: Sched, run: seq<Event>)
    requires WellFormed(s) && s.phase.InTask? && Legal(Step(s, TaskDone(true)), run)
    ensures var t := Run(Step(s, TaskDone(true)), run);
            s.phase.id !in t.tasks && !(t.phase.InTask? && t.phase.id == s.phase.id)
  {
    OverForGood(Step(s, TaskDone(true)), run, s.phase.id);
  }
}
