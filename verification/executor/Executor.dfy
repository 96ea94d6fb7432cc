/** The executor object and its loops. */
module Executors {
  import opened Scheduler
  import opened Sequences

  /** What one poll does: the ids it wakes and the tasks it spawns, in order, and whether the future is
      ready. */
  datatype Action = WakeId(id: Id) | SpawnTask

  datatype Script = Script(actions: seq<Action>, ready: bool)

  /** The waker of the main future queues nothing. */
  predicate Proper(script: Script, node: Id) {
    forall i :: 0 <= i < |script.actions| ==> script.actions[i] != WakeId(node)
  }

  function EventOf(a: Action): Event {
    if a.WakeId? then Wake(a.id) else Spawn
  }

  function Events(actions: seq<Action>): seq<Event> {
    if actions == [] then [] else [EventOf(actions[0])] + Events(actions[1..])
  }

  // ----- What the loops do, as a function of the polls -----

  /** The state after the actions of a poll. */
  function Acted(s: Sched, actions: seq<Action>): (t: Sched)
    ensures t.phase == s.phase && t.node == s.node && s.tasks <= t.tasks
    decreases |actions|
  {
    if actions == [] then s
    else
      match actions[0]
      case WakeId(id) => Acted(s.(queue := s.queue + [id]), actions[1..])
      case SpawnTask =>
        Acted(s.(queue := s.queue + [s.nextId], tasks := s.tasks + {s.nextId}, nextId := s.nextId + 1), actions[1..])
  }

  /** The events of one poll of a task. */
  function Turn(script: Script): seq<Event> {
    Events(script.actions) + [TaskDone(script.ready)]
  }

  function AfterTurn(s: Sched, script: Script): Sched
    requires s.phase.InTask?
  {
    Step(Acted(s, script.actions), TaskDone(script.ready))
  }

  /** The events of a part of the loop, the state it ends in, and the number of the next poll of a
      task. */
  datatype Pass = Pass(run: seq<Event>, end: Sched, next: nat)

  /** The rest of a round, from the head of the inner loop.  The `n`th call of `poll_task` does, if the
      task exists, what `polls(n)` says. */
  function RoundOf(s: Sched, polls: nat -> Script, n: nat): (r: Pass)
    requires s.phase.AtLoop?
    ensures r.end.phase.InMain? && r.end.node == s.node
    decreases s.phase.budget
  {
    if !CallsPoll(s) then Pass([Pop], Step(s, Pop), n)
    else
      var t, visit := AfterVisit(s, polls(n)), Visit(s, polls(n));
      if t.phase.InMain? then Pass(visit, t, n + 1)
      else
        var rest := RoundOf(t, polls, n + 1);
        Pass(visit + rest.run, rest.end, rest.next)
  }

  /** The next pop leads to a call of `poll_task`: the queue is not empty, and it is not the turn of the
      task that has just run. */
  predicate CallsPoll(s: Sched)
    requires s.phase.AtLoop?
  {
    s.queue != [] && s.queue[0] != s.phase.last
  }

  /** The events of popping a task and polling it, if it exists. */
  function Visit(s: Sched, script: Script): seq<Event>
    requires s.phase.AtLoop?
  {
    if Step(s, Pop).phase.InTask? then [Pop] + Turn(script) else [Pop]
  }

  function AfterVisit(s: Sched, script: Script): (t: Sched)
    requires s.phase.AtLoop? && CallsPoll(s)
    ensures t.phase == AfterPoll(s.queue[0], s.phase.budget) && t.node == s.node
  {
    var t := Step(s, Pop);
    if t.phase.InTask? then AfterTurn(t, script) else t
  }

  /** The whole loop: the polls of the main future do what `mains` says, until one is ready, and each
      that is not is followed by a round. */
  function LoopOf(s: Sched, mains: seq<Script>, polls: nat -> Script, n: nat): Pass
    requires s.phase.InMain?
    decreases |mains|
  {
    if mains == [] then Pass([], s, n)
    else
      var a, events := Acted(s, mains[0].actions), Events(mains[0].actions);
      if mains[0].ready then Pass(events + [MainReady], Step(a, MainReady), n)
      else
        var round := RoundOf(Step(a, MainPending), polls, n);
        var rest := LoopOf(round.end, mains[1..], polls, round.next);
        Pass(events + ([MainPending] + round.run) + rest.run, rest.end, rest.next)
  }

  /** A visit does what the next poll says, and the rest of the round what the later ones say. */
  lemma RoundVisitsInOrder(s: Sched, polls: nat -> Script, n: nat)
    requires s.phase.AtLoop? && s.queue != [] && s.queue[0] != s.phase.last && s.queue[0] in s.tasks
    ensures var t := AfterVisit(s, polls(n));
            var visit := [Pop] + Events(polls(n).actions) + [TaskDone(polls(n).ready)];
            var r := RoundOf(s, polls, n);
            if s.phase.budget == 0 then r == Pass(visit, t, n + 1)
            else
              var rest := RoundOf(t, polls, n + 1);
              r == Pass(visit + rest.run, rest.end, rest.next)
  {
    Assoc([Pop], Events(polls(n).actions), [TaskDone(polls(n).ready)]);
  }

  // ----- These are runs of the state machine -----

  /** The events lead from `s` to `t`, beginning so many rounds and calling `poll_task` so often. */
  ghost predicate Leads(s: Sched, run: seq<Event>, t: Sched, rounds: nat, visits: nat) {
    Legal(s, run) && Run(s, run) == t && Rounds(run) == rounds && Polls(s, run) == visits
  }

  lemma {:induction false} LeadsAppend(
      s: Sched, a: seq<Event>, t: Sched, j: nat, v: nat, b: seq<Event>, u: Sched, k: nat, w: nat)
    requires Leads(s, a, t, j, v) && Leads(t, b, u, k, w)
    ensures Leads(s, a + b, u, j + k, v + w)
    decreases |a|
  {
    if a == [] {
      Empty(b);
    } else {
      var s' := Step(s, a[0]);
      LeadsAppend(s', a[1..], t, Rounds(a[1..]), Polls(s', a[1..]), b, u, k, w);
      TailOfAppend(a, b);
    }
  }

  lemma LeadsOne(s: Sched, e: Event)
    requires Enabled(s, e)
    ensures Leads(s, [e], Step(s, e), if e == MainPending then 1 else 0,
                  if s.queue != [] && Visits(s, e, s.queue[0]) then 1 else 0)
  {
    assert [e][1..] == [];
    assert Legal(Step(s, e), [e][1..]) && Run(s, [e]) == Run(Step(s, e), [e][1..]);
    assert Rounds([e][1..]) == 0 && Polls(Step(s, e), [e][1..]) == 0;
  }

  lemma {:induction false} ActsLead(s: Sched, actions: seq<Action>)
    requires Polling(s) && forall i :: 0 <= i < |actions| ==> actions[i] != WakeId(s.node)
    ensures Leads(s, Events(actions), Acted(s, actions), 0, 0)
    decreases |actions|
  {
    if actions != [] {
      var e := EventOf(actions[0]);
      assert actions[0] != WakeId(s.node);
      LeadsOne(s, e);
      ActsLead(Step(s, e), actions[1..]);
      LeadsAppend(s, [e], Step(s, e), 0, 0, Events(actions[1..]), Acted(s, actions), 0, 0);
    }
  }

  lemma TurnLeads(s: Sched, script: Script)
    requires s.phase.InTask? && Proper(script, s.node)
    ensures Leads(s, Turn(script), AfterTurn(s, script), 0, 0)
  {
    var t := Acted(s, script.actions);
    ActsLead(s, script.actions);
    LeadsOne(t, TaskDone(script.ready));
    LeadsAppend(s, Events(script.actions), t, 0, 0, [TaskDone(script.ready)], AfterTurn(s, script), 0, 0);
  }

  lemma VisitLeads(s: Sched, script: Script)
    requires s.phase.AtLoop? && CallsPoll(s) && Proper(script, s.node)
    ensures Leads(s, Visit(s, script), AfterVisit(s, script), 0, 1)
  {
    var t := Step(s, Pop);
    LeadsOne(s, Pop);
    if t.phase.InTask? {
      TurnLeads(t, script);
      LeadsAppend(s, [Pop], t, 0, 1, Turn(script), AfterTurn(t, script), 0, 0);
    }
  }

  /** A round is a legal run back to the main future that begins no other round, and `next` counts its
      calls of `poll_task`. */
  lemma {:induction false} RoundLeads(s: Sched, polls: nat -> Script, n: nat)
    requires s.phase.AtLoop? && forall i :: Proper(polls(i), s.node)
    ensures var r := RoundOf(s, polls, n);
            r.next >= n && Leads(s, r.run, r.end, 0, r.next - n)
    decreases s.phase.budget
  {
    if !CallsPoll(s) {
      LeadsOne(s, Pop);
    } else {
      VisitLeads(s, polls(n));
      var t := AfterVisit(s, polls(n));
      if t.phase.AtLoop? {
        RoundLeads(t, polls, n + 1);
        var rest := RoundOf(t, polls, n + 1);
        LeadsAppend(s, Visit(s, polls(n)), t, 0, 1, rest.run, rest.end, 0, rest.next - (n + 1));
      }
    }
  }

  /** The same, from the pending poll of the main future that begins the round. */
  lemma BeginRound(s: Sched, polls: nat -> Script, n: nat)
    requires s.phase.InMain? && forall i :: Proper(polls(i), s.node)
    ensures var r := RoundOf(Step(s, MainPending), polls, n);
            r.next >= n && Leads(s, [MainPending] + r.run, r.end, 1, r.next - n)
  {
    var t := Step(s, MainPending);
    var r := RoundOf(t, polls, n);
    LeadsOne(s, MainPending);
    RoundLeads(t, polls, n);
    LeadsAppend(s, [MainPending], t, 1, 0, r.run, r.end, 0, r.next - n);
  }

  /** The number of polls before the first that is ready. */
  function Pendings(mains: seq<Script>): (k: nat)
    ensures k <= |mains| && forall i :: 0 <= i < k ==> !mains[i].ready
    ensures k < |mains| ==> mains[k].ready
  {
    if mains == [] || mains[0].ready then 0 else 1 + Pendings(mains[1..])
  }

  predicate Stops(mains: seq<Script>) {
    Pendings(mains) < |mains|
  }

  /** The whole loop is a legal run.  It ends exactly when a poll of the main future is ready, begins a
      round after every poll before that, and `next` counts its calls of `poll_task`. */
  lemma {:induction false} LoopLeads(s: Sched, mains: seq<Script>, polls: nat -> Script, n: nat)
    requires s.phase.InMain? && forall i :: Proper(polls(i), s.node)
    requires forall i :: 0 <= i < |mains| ==> Proper(mains[i], s.node)
    ensures var r := LoopOf(s, mains, polls, n);
            && r.next >= n && Leads(s, r.run, r.end, Pendings(mains), r.next - n)
            && r.end.phase == if Stops(mains) then Finished else InMain
    decreases |mains|
  {
    if mains != [] {
      var a, events := Acted(s, mains[0].actions), Events(mains[0].actions);
      ActsLead(s, mains[0].actions);
      if mains[0].ready {
        LeadsOne(a, MainReady);
        LeadsAppend(s, events, a, 0, 0, [MainReady], Step(a, MainReady), 0, 0);
      } else {
        var round := RoundOf(Step(a, MainPending), polls, n);
        BeginRound(a, polls, n);
        LeadsAppend(s, events, a, 0, 0, [MainPending] + round.run, round.end, 1, round.next - n);
        LoopLeads(round.end, mains[1..], polls, round.next);
        var rest := LoopOf(round.end, mains[1..], polls, round.next);
        LeadsAppend(s, events + ([MainPending] + round.run), round.end, 1, round.next - n,
                    rest.run, rest.end, Pendings(mains[1..]), rest.next - round.next);
      }
    }
  }

  // ----- The loops -----

  class Executor {
    const node: Id
    var tasks: set<Id>
    var queue: seq<Id>
    var nextId: Id

    ghost function View(phase: Phase): Sched
      reads this
    {
      Sched(node, tasks, queue, nextId, phase)
    }

    constructor ()
      ensures node == 0 && nextId == 1 && tasks == {} && queue == []
      ensures WellFormed(View(InMain))
    {
      node, tasks, queue, nextId := 0, {}, [], 1;
    }

    /** Queue a new task under a new id. */
    method SpawnNew()
      modifies this
      ensures Polling(View(InMain)) && View(InMain) == Step(old(View(InMain)), Spawn)
    {
      queue := queue + [nextId];
      tasks := tasks + {nextId};
      nextId := nextId + 1;
    }

    /** The wakes and spawns of one poll, in order. */
    method Perform(actions: seq<Action>, ghost phase: Phase)
      modifies this
      ensures View(phase) == Acted(old(View(phase)), actions)
      decreases |actions|
    {
      if actions != [] {
        match actions[0] {
          case WakeId(id) => queue := queue + [id];
          case SpawnTask => SpawnNew();
        }
        Perform(actions[1..], phase);
      }
    }

    /** Poll one task, if it exists, and remove it when it is done. */
    method PollTask(id: Id, script: Script, ghost budget: nat)
      modifies this
      ensures View(AfterPoll(id, budget)) ==
              if id in old(tasks) then AfterTurn(old(View(InTask(id, budget))), script)
              else old(View(AfterPoll(id, budget)))
      ensures id in old(tasks) ==> (id in tasks <==> !script.ready)
    {
      if id !in tasks {
        return;
      }
      Perform(script.actions, InTask(id, budget));
      if script.ready {
        tasks := tasks - {id};
      }
    }

    /** Pop the next id and poll its task. */
    method PollNext(ghost last: Id, script: Script, ghost budget: nat) returns (id: Id)
      requires queue != [] && queue[0] != last
      modifies this
      ensures id == old(queue)[0]
      ensures View(AfterPoll(id, budget)) == AfterVisit(old(View(AtLoop(last, budget))), script)
    {
      id := queue[0];
      queue := queue[1..];
      PollTask(id, script, budget);
    }

    /** One round: the loop over the queue after the main future came back pending.  Each task popped is
        polled, and the `n`th call of `poll_task` does what `polls(n)` says. */
    method Round(polls: nat -> Script, first: nat) returns (n: nat, ghost run: seq<Event>)
      requires forall i :: Proper(polls(i), node)
      modifies this
      ensures Pass(run, View(InMain), n) == RoundOf(old(View(AtLoop(node, |queue|))), polls, first)
      ensures n >= first && Leads(old(View(InMain)), [MainPending] + run, View(InMain), 1, n - first)
    {
      BeginRound(View(InMain), polls, first);
      n, run := InnerLoop(polls, first);
    }

    method InnerLoop(polls: nat -> Script, first: nat) returns (n: nat, ghost run: seq<Event>)
      modifies this
      ensures Pass(run, View(InMain), n) == RoundOf(old(View(AtLoop(node, |queue|))), polls, first)
    {
      ghost var whole := RoundOf(View(AtLoop(node, |queue|)), polls, first);
      var last, budget: nat := node, |queue|;
      n, run := first, [];
      Empty(whole.run);
      while true
        invariant Remains(whole, run, View(AtLoop(last, budget)), polls, n)
        decreases budget
      {
        ghost var s, k := View(AtLoop(last, budget)), n;
        RoundTurn(whole, run, s, polls, k);
        if queue == [] {
          run := run + [Pop];
          break;
        }
        if queue[0] == last {
          queue := queue[1..] + [last];
          run := run + [Pop];
          break;
        }
        last := PollNext(last, polls(n), budget);
        n := n + 1;
        run := run + Visit(s, polls(k));
        if budget == 0 {
          break;
        }
        budget := budget - 1;
      }
    }

    /** The outer loop: polls of the main future, each that is not ready followed by a round.  The result
        says whether the main future was ready within the given polls. */
    method BlockOn(mains: seq<Script>, polls: nat -> Script) returns (ready: bool, ghost run: seq<Event>, n: nat)
      requires forall i :: 0 <= i < |mains| ==> Proper(mains[i], node)
      requires forall i :: Proper(polls(i), node)
      modifies this
      ensures ready <==> exists i :: 0 <= i < |mains| && mains[i].ready
      ensures Pass(run, View(if ready then Finished else InMain), n) == LoopOf(old(View(InMain)), mains, polls, 0)
      ensures Leads(old(View(InMain)), run, View(if ready then Finished else InMain), Rounds(run), n)
      ensures !ready ==> Rounds(run) == |mains|
    {
      LoopLeads(View(InMain), mains, polls, 0);
      ghost var whole := LoopOf(View(InMain), mains, polls, 0);
      var rest := mains;
      ready, run, n := false, [], 0;
      while rest != []
        invariant whole == Onward(run, LoopOf(View(InMain), rest, polls, n))
        invariant Stops(mains) <==> Stops(rest)
        decreases |rest|
      {
        ghost var s, k, before := View(InMain), n, run;
        var main := rest[0];
        Perform(main.actions, InMain);
        if main.ready {
          return true, run + (Events(main.actions) + [MainReady]), n;
        }
        ghost var more;
        n, more := Round(polls, n);
        LoopTurn(s, rest, polls, k, before);
        run := run + (Events(main.actions) + ([MainPending] + more));
        rest := rest[1..];
      }
      Empty(run);
    }
  }

  /** What follows `run`, with `run` in front. */
  function Onward(run: seq<Event>, p: Pass): Pass {
    p.(run := run + p.run)
  }

  /** With `run` behind, what is still to come from `s` makes up the whole. */
  ghost predicate Remains(whole: Pass, run: seq<Event>, s: Sched, polls: nat -> Script, n: nat) {
    s.phase.AtLoop? && whole == Onward(run, RoundOf(s, polls, n))
  }

  /** One turn of the inner loop. */
  lemma RoundTurn(whole: Pass, run: seq<Event>, s: Sched, polls: nat -> Script, n: nat)
    requires Remains(whole, run, s, polls, n)
    ensures if !CallsPoll(s) then whole == Pass(run + [Pop], Step(s, Pop), n)
            else
              var t, run' := AfterVisit(s, polls(n)), run + Visit(s, polls(n));
              if t.phase.InMain? then whole == Pass(run', t, n + 1) else Remains(whole, run', t, polls, n + 1)
  {
    if CallsPoll(s) && AfterVisit(s, polls(n)).phase.AtLoop? {
      Assoc(run, Visit(s, polls(n)), RoundOf(AfterVisit(s, polls(n)), polls, n + 1).run);
    }
  }

  /** One turn of the outer loop, behind `run`. */
  lemma LoopTurn(s: Sched, mains: seq<Script>, polls: nat -> Script, n: nat, run: seq<Event>)
    requires s.phase.InMain? && mains != [] && !mains[0].ready
    ensures var a := Acted(s, mains[0].actions);
            var round := RoundOf(Step(a, MainPending), polls, n);
            var run' := run + (Events(mains[0].actions) + ([MainPending] + round.run));
            Onward(run, LoopOf(s, mains, polls, n)) ==
              Onward(run', LoopOf(round.end, mains[1..], polls, round.next))
  {
    var round := RoundOf(Step(Acted(s, mains[0].actions), MainPending), polls, n);
    Assoc(run, Events(mains[0].actions) + ([MainPending] + round.run),
          LoopOf(round.end, mains[1..], polls, round.next).run);
  }
}
