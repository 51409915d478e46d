/**
 What holds over whole runs of a stage, whatever the interleaving: what has been parsed when
 Wait returns, that no state is stuck, that every run ends, and that the log does not depend
 on the schedule.
 */
module Schedules {
  import opened Stage
  import opened StageInvariant
  import opened StageProof

  ghost predicate Agrees(c: Config, s: State) {
    && Counted(c, s) && TakenOnce(s) && Accounted(c, s) && NothingLost(c, s)
    && OutputAgrees(s.output, s.history.performed) && Phased(s)
  }

  lemma InitialAgrees(c: Config)
    ensures Agrees(c, Initial(c))
  {
    var workers := Initial(c).workers;
    assert RunningSet(workers) == {};
    NothingRemains(workers);
  }

  lemma StepAgrees(c: Config, s: State, t: State)
    requires Agrees(c, s) && IsStep(c, s, t)
    ensures Agrees(c, t)
  {
    var m: Move :| CanMove(c, s, m) && t == After(c, s, m);
    hide After, CanMove, Counted, TakenOnce, Accounted, NothingLost, OutputAgrees, Phased;
    CountedKept(c, s, m);
    TakenOnceKept(c, s, m);
    AccountedKept(c, s, m);
    NothingLostKept(c, s, m);
    OutputAgreesKept(c, s, m);
    PhasedKept(c, s, m);
  }

  lemma StepOfRun(c: Config, states: seq<State>, i: nat)
    requires IsRun(c, states) && i + 1 < |states|
    ensures IsStep(c, states[i], states[i + 1])
  {
    var j := i + 1;
    assert IsStep(c, states[i], states[j]);
  }

  /** The counts and the accounts agree in every state of every run. */
  lemma {:induction false} RunAgrees(c: Config, states: seq<State>, i: nat)
    requires IsRun(c, states) && i < |states|
    ensures Agrees(c, states[i])
  {
    hide Agrees, IsStep;
    if i == 0 {
      InitialAgrees(c);
    } else {
      StepOfRun(c, states, i - 1);
      RunAgrees(c, states, i - 1);
      StepAgrees(c, states[i - 1], states[i]);
    }
  }

  lemma {:induction false} RunStaysWithin(c: Config, states: seq<State>, i: nat, ids: set<string>)
    requires IsRun(c, states) && i < |states| && IsClosed(c, ids)
    ensures Within(states[i], ids)
  {
    hide Within, IsClosed, IsStep;
    if i == 0 {
      InitialWithin(c, ids);
    } else {
      StepOfRun(c, states, i - 1);
      RunStaysWithin(c, states, i - 1, ids);
      StepWithin(c, states[i - 1], states[i], ids);
    }
  }

  lemma InitialWithin(c: Config, ids: set<string>)
    requires IsClosed(c, ids)
    ensures Within(Initial(c), ids)
  {}

  lemma StepWithin(c: Config, s: State, t: State, ids: set<string>)
    requires Within(s, ids) && IsClosed(c, ids) && IsStep(c, s, t)
    ensures Within(t, ids)
  {
    hide Within, IsClosed, CanMove, After;
    var m: Move :| CanMove(c, s, m) && t == After(c, s, m);
    WithinKept(c, s, m, ids);
  }

  // ------------------------------------------------------------------
  // When Wait returns

  /** The wait group is never negative, and it is zero only when nothing is under way. */
  lemma WaitGroupCountsWork(c: Config, states: seq<State>, i: nat)
    requires IsRun(c, states) && i < |states|
    ensures states[i].waiting == UnderWay(states[i]) >= 0
    ensures states[i].waiting == 0 ==> IsQuiet(states[i])
  {
    RunAgrees(c, states, i);
    if states[i].waiting == 0 {
      EmptyIsQuiet(states[i]);
    }
  }

  /** A submission takes a place in the channel while fewer than 1000 are taken, and waits to be sent otherwise. */
  lemma SubmissionWaits(c: Config, s: State)
    requires CanMove(c, s, CallerSubmits)
    ensures var t, id := After(c, s, CallerSubmits), s.caller.roots[0];
            && t.caller == Submitting(s.caller.roots[1..]) && t.waiting == s.waiting + 1
            && (if |s.channel| < 1000 then t.channel == s.channel + [id] && t.senders == s.senders
                else t.channel == s.channel && t.senders == s.senders + multiset{id})
            && t == s.(caller := t.caller, waiting := t.waiting, channel := t.channel, senders := t.senders)
  {}

  /** What one action of a running item does: a use of a type is logged at once exactly when its file is known. */
  lemma ActionIsPerformed(c: Config, s: State, w: nat)
    requires CanMove(c, s, WorkerActs(w))
    ensures var t, a := After(c, s, WorkerActs(w)), s.workers[w].rest[0];
            && t.workers == s.workers[w := Running(s.workers[w].id, s.workers[w].rest[1..])]
            && t.output == (match a
                            case Submit(_) => s.output
                            case AddFile(file) => s.output.(files := s.output.files + {file})
                            case UseType(use) =>
                              if use.target in s.output.files then s.output.(logged := s.output.logged + [use])
                              else s.output.(typeRefs := s.output.typeRefs + [use])
                            case UseReceiver(use) => s.output.(receiverRefs := s.output.receiverRefs + [use]))
            && (a.Submit? ==>
                  && t.waiting == s.waiting + 1
                  && (if |s.channel| < 1000 then t.channel == s.channel + [a.id] && t.senders == s.senders
                      else t.channel == s.channel && t.senders == s.senders + multiset{a.id}))
            && (!a.Submit? ==> t.waiting == s.waiting && t.channel == s.channel && t.senders == s.senders)
  {}

  /** Each item once, each of `ids` and no other. */
  ghost predicate ListsOnce(items: seq<string>, ids: set<string>) {
    && (forall i, j | 0 <= i < j < |items| :: items[i] != items[j])
    && (forall id :: id in items <==> id in ids)
  }

  /** The smallest set that holds the roots and all that parsing its members submits. */
  ghost predicate IsClosure(c: Config, ids: set<string>) {
    IsClosed(c, ids) && forall other: set<string> | IsClosed(c, other) :: ids <= other
  }

  lemma QuietIsDone(c: Config, s: State)
    requires Agrees(c, s) && !s.caller.Submitting?
    ensures ListsOnce(s.history.started, s.seen)
    ensures ActionsOf(c, s.history.started) == s.history.performed + s.history.skipped
  {
    hide ActionsOf, Remaining, OutputAgrees, NothingLost;
    assert s.history.started + [] + [] == s.history.started;
    assert RunningSet(s.workers) == {};
    NothingRemains(s.workers);
  }

  lemma DoneIsClosed(c: Config, s: State)
    requires Agrees(c, s) && !s.caller.Submitting? && s.errors == 0
    ensures IsClosed(c, s.seen)
  {
    hide OutputAgrees, Counted, TakenOnce;
    QuietIsDone(c, s);
    forall id, j | id in s.seen && Submit(j) in c.program(id) ensures j in s.seen {
      assert id in s.history.started;
      ItemsHaveTheirActions(c, s.history.started, id, Submit(j));
      assert IsKnown(s, j);
    }
    forall id | id in c.roots ensures id in s.seen {
      assert IsKnown(s, id);
    }
  }

  /**
   Once Wait has returned without an error, what has been parsed is exactly the closure of the
   roots under "parsing this submits that", each item once and to its end.
   */
  lemma ParsedIsClosure(c: Config, states: seq<State>, i: nat)
    requires IsRun(c, states) && i < |states| && !states[i].caller.Submitting? && states[i].errors == 0
    ensures IsClosure(c, states[i].seen)
    ensures ListsOnce(states[i].history.started, states[i].seen)
    ensures states[i].history.performed == ActionsOf(c, states[i].history.started)
  {
    var s := states[i];
    RunAgrees(c, states, i);
    hide Counted, TakenOnce, NothingLost, OutputAgrees, ListsOnce, IsRun;
    QuietIsDone(c, s);
    DoneIsClosed(c, s);
    forall other: set<string> | IsClosed(c, other) ensures s.seen <= other {
      RunStaysWithin(c, states, i, other);
    }
  }

  /** Closing after the wait: no goroutine is waiting to send, and nothing is in the channel. */
  lemma CloseFindsNothing(c: Config, states: seq<State>, i: nat)
    requires IsRun(c, states) && i < |states| && !states[i].caller.Submitting?
    ensures |states[i].workers| == c.numWorkers
    ensures states[i].senders == multiset{} && states[i].channel == [] && states[i].waiting == 0
    ensures states[i].caller == Finished ==>
              states[i].loop == Exited && forall w | 0 <= w < c.numWorkers :: states[i].workers[w] == Stopped
  {
    RunAgrees(c, states, i);
    hide TakenOnce, Accounted, NothingLost, OutputAgrees;
    var s := states[i];
    assert RunningSet(s.workers) == {};
  }

  // ------------------------------------------------------------------
  // Nothing is ever stuck

  /** Some move is possible without anything failing. */
  ghost predicate CanStep(c: Config, s: State) {
    exists m: Move :: CanMove(c, s, m) && !m.WorkerFails?
  }

  lemma WorkCanGoOn(c: Config, s: State)
    requires Counted(c, s) && Phased(s) && c.numWorkers > 0 && s.caller.Submitting? && UnderWay(s) > 0
    ensures CanStep(c, s)
  {
    if RunningSet(s.workers) != {} {
      var w: int :| w in RunningSet(s.workers);
      assert CanMove(c, s, if s.workers[w].rest == [] then WorkerFinishes(w) else WorkerActs(w));
    } else if |s.workerCh| > 0 {
      assert !s.workers[0].Running? by {
        assert 0 !in RunningSet(s.workers);
      }
      assert CanMove(c, s, WorkerStarts(0, c.program(s.workerCh[0])));
    } else if s.loop.Holding? {
      assert CanMove(c, s, LoopHandsOver);
    } else if |s.channel| > 0 {
      assert CanMove(c, s, LoopReceives);
    } else {
      var id :| id in s.senders;
      assert CanMove(c, s, SenderSends(id));
    }
  }

  /** Both channels are bounded and workers submit while they hold a worker, yet something can always go on. */
  lemma NoStateIsStuck(c: Config, s: State)
    requires Agrees(c, s) && c.numWorkers > 0 && s.caller != Finished
    ensures CanStep(c, s)
  {
    hide TakenOnce, Accounted, NothingLost, OutputAgrees;
    match s.caller
    case Submitting(roots) =>
      if |roots| > 0 {
        assert CanMove(c, s, CallerSubmits);
      } else if s.waiting == 0 {
        assert CanMove(c, s, WaitReturns);
      } else {
        WorkCanGoOn(c, s);
      }
    case Returned => assert CanMove(c, s, CallerCloses);
    case Closed =>
      if s.loop == Receiving {
        assert CanMove(c, s, LoopExits);
      } else if w: nat :| w < |s.workers| && s.workers[w] != Stopped {
        assert CanMove(c, s, WorkerStops(w));
      } else {
        assert CanMove(c, s, CloseReturns);
      }
  }

  // ------------------------------------------------------------------
  // Every run ends

  /** The items of `universe` that the loop has not let through. */
  function Unseen(universe: set<string>, s: State): nat {
    |universe - s.seen|
  }

  function WorkerWeight(worker: Worker): nat {
    match worker
    case Idle => 1
    case Running(_, rest) => 2 + 6 * |rest|
    case Stopped => 0
  }

  function WorkersWeight(workers: seq<Worker>): nat
    decreases |workers|
  {
    if |workers| == 0 then 0 else WorkersWeight(workers[..|workers| - 1]) + WorkerWeight(workers[|workers| - 1])
  }

  function ItemWeight(c: Config, id: string): nat {
    2 + 6 * |c.program(id)|
  }

  function ItemsWeight(c: Config, ids: seq<string>): nat {
    if |ids| == 0 then 0 else ItemWeight(c, ids[0]) + ItemsWeight(c, ids[1..])
  }

  function CallerWeight(caller: Caller): nat {
    match caller
    case Submitting(roots) => 3 + 5 * |roots|
    case Returned => 2
    case Closed => 1
    case Finished => 0
  }

  function LoopWeight(c: Config, loop: Loop): nat {
    match loop
    case Receiving => 1
    case Holding(id) => 2 + ItemWeight(c, id)
    case Exited => 0
  }

  /** What is left to do with the items let through so far. */
  function Weight(c: Config, s: State): nat {
    CallerWeight(s.caller) + 4 * |s.senders| + 3 * |s.channel| + LoopWeight(c, s.loop)
    + ItemsWeight(c, s.workerCh) + WorkersWeight(s.workers)
  }

  lemma {:induction false} WorkerReplaced(workers: seq<Worker>, w: nat, worker: Worker)
    requires w < |workers|
    ensures WorkersWeight(workers[w := worker]) + WorkerWeight(workers[w])
            == WorkersWeight(workers) + WorkerWeight(worker)
    decreases |workers|
  {
    hide WorkerWeight;
    var last, updated := |workers| - 1, workers[w := worker];
    if w == last {
      assert updated[..last] == workers[..last];
    } else {
      WorkerReplaced(workers[..last], w, worker);
      assert updated[..last] == workers[..last][w := worker];
    }
  }

  lemma {:induction false} ItemAppended(c: Config, ids: seq<string>, id: string)
    ensures ItemsWeight(c, ids + [id]) == ItemsWeight(c, ids) + ItemWeight(c, id)
  {
    if |ids| > 0 {
      ItemAppended(c, ids[1..], id);
      assert (ids + [id])[1..] == ids[1..] + [id];
    } else {
      assert (ids + [id])[1..] == [];
    }
  }

  /** Each move lets a new item through, or leaves less to do with the others. */
  lemma MoveGoesOn(c: Config, s: State, m: Move, universe: set<string>)
    requires CanMove(c, s, m) && Within(s, universe)
    ensures var t := After(c, s, m);
            Unseen(universe, t) < Unseen(universe, s)
            || (Unseen(universe, t) == Unseen(universe, s) && Weight(c, t) < Weight(c, s))
  {
    hide Record, WorkersWeight, Within, Act, Receive;
    var t := After(c, s, m);
    match m
    case LoopReceives =>
      ReceiveGoesOn(c, s, universe);
    case LoopHandsOver => ItemAppended(c, s.workerCh, s.loop.id);
    case WorkerStarts(w, actions) =>
      WorkerReplaced(s.workers, w, t.workers[w]);
      assert |actions| == |multiset(actions)| == |c.program(s.workerCh[0])|;
    case WorkerActs(w) => ActGoesOn(c, s, w, universe);
    case WorkerFinishes(w) => WorkerReplaced(s.workers, w, Idle);
    case WorkerFails(w) => WorkerReplaced(s.workers, w, Idle);
    case WorkerStops(w) => WorkerReplaced(s.workers, w, Stopped);
    case _ =>
  }

  lemma ActGoesOn(c: Config, s: State, w: nat, universe: set<string>)
    requires IsRunning(s, w) && |s.workers[w].rest| > 0
    ensures Unseen(universe, Act(s, w)) == Unseen(universe, s) && Weight(c, Act(s, w)) < Weight(c, s)
  {
    hide Record, WorkersWeight;
    WorkerReplaced(s.workers, w, Act(s, w).workers[w]);
  }

  lemma ReceiveGoesOn(c: Config, s: State, universe: set<string>)
    requires |s.channel| > 0 && s.loop == Receiving && Within(s, universe)
    ensures var t := Receive(s);
            Unseen(universe, t) < Unseen(universe, s)
            || (Unseen(universe, t) == Unseen(universe, s) && Weight(c, t) < Weight(c, s))
  {
    var id := s.channel[0];
    if id !in s.seen {
      assert universe - (s.seen + {id}) == universe - s.seen - {id};
      assert id in universe - s.seen;
    }
  }

  lemma StepGoesOn(c: Config, s: State, t: State, universe: set<string>)
    requires IsStep(c, s, t) && Agrees(c, s) && Within(s, universe) && IsClosed(c, universe)
    ensures Agrees(c, t) && Within(t, universe)
    ensures Unseen(universe, t) < Unseen(universe, s)
            || (Unseen(universe, t) == Unseen(universe, s) && Weight(c, t) < Weight(c, s))
  {
    hide Agrees, Within, IsClosed, CanMove, After, Unseen, Weight;
    var m: Move :| CanMove(c, s, m) && t == After(c, s, m);
    MoveGoesOn(c, s, m, universe);
    StepAgrees(c, s, t);
    StepWithin(c, s, t, universe);
  }

  /** With finitely many items, no schedule goes on forever. */
  lemma EveryScheduleEnds(c: Config, universe: set<string>, schedule: nat -> State, i: nat) returns (end: nat)
    requires IsClosed(c, universe) && Agrees(c, schedule(i)) && Within(schedule(i), universe)
    ensures end >= i && !IsStep(c, schedule(end), schedule(end + 1)) && Agrees(c, schedule(end))
    decreases Unseen(universe, schedule(i)), Weight(c, schedule(i))
  {
    hide Agrees, Within, IsClosed, IsStep, Unseen, Weight;
    if !IsStep(c, schedule(i), schedule(i + 1)) {
      end := i;
    } else {
      StepGoesOn(c, schedule(i), schedule(i + 1), universe);
      end := EveryScheduleEnds(c, universe, schedule, i + 1);
    }
  }

  lemma SomeStep(c: Config, s: State) returns (t: State)
    requires CanStep(c, s)
    ensures IsStep(c, s, t)
  {
    hide CanMove, After;
    var m: Move :| CanMove(c, s, m);
    t := After(c, s, m);
  }

  /** A schedule that goes on for as long as anything can. */
  ghost predicate GoesOn(c: Config, schedule: nat -> State, k: nat) {
    IsStep(c, schedule(k), schedule(k + 1)) || forall t :: !IsStep(c, schedule(k), t)
  }

  /** With at least one worker and finitely many items, Wait and Close return under every schedule. */
  lemma EveryScheduleFinishes(c: Config, universe: set<string>, schedule: nat -> State) returns (end: nat)
    requires c.numWorkers > 0 && IsClosed(c, universe)
    requires schedule(0) == Initial(c) && forall k: nat :: GoesOn(c, schedule, k)
    ensures schedule(end).caller == Finished
  {
    hide Agrees, Within, IsClosed, CanMove, After, Initial;
    InitialAgrees(c);
    InitialWithin(c, universe);
    end := EveryScheduleEnds(c, universe, schedule, 0);
    assert GoesOn(c, schedule, end);
    if schedule(end).caller != Finished {
      NoStateIsStuck(c, schedule(end));
      var t := SomeStep(c, schedule(end));
    }
  }

  // ------------------------------------------------------------------
  // The log does not depend on the schedule

  lemma {:induction false} IndexedCounts(uses: seq<Use>, files: set<string>, use: Use)
    ensures multiset(Indexed(uses, files))[use] == if use.target in files then multiset(uses)[use] else 0
    decreases |uses|
  {
    if |uses| > 0 {
      var last := |uses| - 1;
      IndexedCounts(uses[..last], files, use);
      assert uses == uses[..last] + [uses[last]];
    }
  }

  /** The final log holds every performed use of an indexed file, as often as it was performed. */
  lemma FinalLogCounts(o: Output, performed: multiset<Action>, use: Use)
    requires OutputAgrees(o, performed)
    ensures multiset(FinalLog(o))[use]
            == if use.target in o.files then performed[UseType(use)] + performed[UseReceiver(use)] else 0
  {
    IndexedCounts(o.receiverRefs, o.files, use);
    IndexedCounts(o.typeRefs, o.files, use);
    assert Recorded(o, use) == performed[UseType(use)] + performed[UseReceiver(use)];
    assert multiset(o.logged)[use] > 0 ==> use in o.logged;
  }

  lemma {:induction false} ItemMovedLast(c: Config, a: seq<string>, x: string, b: seq<string>)
    ensures ActionsOf(c, a + [x] + b) == ActionsOf(c, a + b) + multiset(c.program(x))
    decreases |b|
  {
    if |b| == 0 {
      assert a + [x] + b == a + [x] && a + b == a;
      OneMoreItem(c, a, x);
    } else {
      var rest, y := b[..|b| - 1], b[|b| - 1];
      ItemMovedLast(c, a, x, rest);
      assert a + [x] + b == (a + [x] + rest) + [y] && a + b == (a + rest) + [y];
      OneMoreItem(c, a + [x] + rest, y);
      OneMoreItem(c, a + rest, y);
    }
  }

  lemma SomeListed(items: seq<string>, ids: set<string>)
    requires ListsOnce(items, ids) && |items| > 0
    ensures ids != {}
  {
    assert items[0] in items;
  }

  /** The order in which items were taken does not matter for what they do. */
  lemma {:induction false} SameItemsSameActions(c: Config, a: seq<string>, b: seq<string>, ids: set<string>)
    requires ListsOnce(a, ids) && ListsOnce(b, ids)
    ensures ActionsOf(c, a) == ActionsOf(c, b)
    decreases |a|
  {
    if |b| > 0 {
      SomeListed(b, ids);
    }
    if |a| == 0 {
      assert ids == {};
    } else {
      var rest, x := a[..|a| - 1], a[|a| - 1];
      assert x in ids;
      var k :| 0 <= k < |b| && b[k] == x;
      var others := b[..k] + b[k + 1..];
      assert b == b[..k] + [x] + b[k + 1..] && a == rest + [x];
      ItemMovedLast(c, b[..k], x, b[k + 1..]);
      OneMoreItem(c, rest, x);
      WithoutLast(a, ids);
      WithoutOne(b, k, ids);
      SameItemsSameActions(c, rest, others, ids - {x});
    }
  }

  lemma WithoutLast(a: seq<string>, ids: set<string>)
    requires ListsOnce(a, ids) && |a| > 0
    ensures ListsOnce(a[..|a| - 1], ids - {a[|a| - 1]})
  {
    var rest, x := a[..|a| - 1], a[|a| - 1];
    assert a == rest + [x];
    forall id ensures id in rest <==> id in ids - {x} {
      assert id in a <==> id in rest || id == x;
    }
  }

  lemma WithoutOne(b: seq<string>, k: nat, ids: set<string>)
    requires ListsOnce(b, ids) && k < |b|
    ensures ListsOnce(b[..k] + b[k + 1..], ids - {b[k]})
  {
    var others := b[..k] + b[k + 1..];
    assert b == b[..k] + [b[k]] + b[k + 1..];
    forall id ensures id in others <==> id in ids - {b[k]} {
      assert id in b <==> id in others || id == b[k];
      if id in others {
        var i :| 0 <= i < |others| && others[i] == id;
        assert id == b[if i < k then i else i + 1];
      }
    }
  }

  /** The log after the stage in terms of the program alone: `items` list the closure of the roots. */
  ghost predicate IsLogOf(c: Config, items: seq<string>, log: seq<Use>) {
    var all := ActionsOf(c, items);
    forall use :: multiset(log)[use] ==
      if AddFile(use.target) in all then all[UseType(use)] + all[UseReceiver(use)] else 0
  }

  /**
   After an error-free stage the resolved log holds exactly the uses, by the items of the
   closure, of types whose file an item of the closure adds.
   */
  lemma LogIsDetermined(c: Config, states: seq<State>, i: nat, items: seq<string>, ids: set<string>)
    requires IsRun(c, states) && i < |states| && !states[i].caller.Submitting? && states[i].errors == 0
    requires IsClosure(c, ids) && ListsOnce(items, ids)
    ensures IsLogOf(c, items, FinalLog(states[i].output))
  {
    var s := states[i];
    hide IsRun, IsClosed, ListsOnce;
    ParsedIsClosure(c, states, i);
    RunAgrees(c, states, i);
    assert s.seen == ids;
    SameItemsSameActions(c, s.history.started, items, ids);
    forall use
      ensures var all := ActionsOf(c, items);
              multiset(FinalLog(s.output))[use]
              == if AddFile(use.target) in all then all[UseType(use)] + all[UseReceiver(use)] else 0
    {
      hide FinalLog, ActionsOf, Counted, TakenOnce, Accounted, NothingLost, Phased;
      FinalLogCounts(s.output, s.history.performed, use);
    }
  }

  /** Two schedules of the same stage leave the same files and the same references, counted. */
  lemma SchedulesAgree(c: Config, one: seq<State>, i: nat, two: seq<State>, j: nat)
    requires IsRun(c, one) && i < |one| && !one[i].caller.Submitting? && one[i].errors == 0
    requires IsRun(c, two) && j < |two| && !two[j].caller.Submitting? && two[j].errors == 0
    ensures one[i].seen == two[j].seen && one[i].output.files == two[j].output.files
    ensures multiset(FinalLog(one[i].output)) == multiset(FinalLog(two[j].output))
  {
    var s, t := one[i], two[j];
    hide IsRun, IsClosed, ListsOnce, Counted, TakenOnce, Accounted, NothingLost, Phased, FinalLog, ActionsOf, Recorded;
    ParsedIsClosure(c, one, i);
    ParsedIsClosure(c, two, j);
    RunAgrees(c, one, i);
    RunAgrees(c, two, j);
    SameItemsSameActions(c, s.history.started, t.history.started, s.seen);
    forall use ensures multiset(FinalLog(s.output))[use] == multiset(FinalLog(t.output))[use] {
      FinalLogCounts(s.output, s.history.performed, use);
      FinalLogCounts(t.output, t.history.performed, use);
    }
  }

  // ------------------------------------------------------------------
  // A run from beginning to end

  lemma ExtendRun(c: Config, states: seq<State>, m: Move) returns (longer: seq<State>)
    requires IsRun(c, states) && CanMove(c, states[|states| - 1], m)
    ensures IsRun(c, longer) && longer == states + [After(c, states[|states| - 1], m)]
  {
    hide CanMove, After;
    var last := states[|states| - 1];
    longer := states + [After(c, last, m)];
    assert IsStep(c, last, After(c, last, m));
    forall i, j | 0 <= i && j == i + 1 < |longer| ensures IsStep(c, longer[i], longer[j]) {
      if j < |states| {
        assert IsStep(c, states[i], states[j]);
      }
    }
  }

  function NothingToDo(id: string): seq<Action> {
    []
  }

  const ONE_ITEM: Config := Config(NothingToDo, ["a"], 1)

  /** One item, one worker: Close returns without an error. */
  lemma OneItemRun() returns (states: seq<State>)
    ensures IsRun(ONE_ITEM, states)
    ensures states[|states| - 1].caller == Finished && states[|states| - 1].errors == 0
  {
    hide IsRun;
    states := OneItemParsed();
    states := ExtendRun(ONE_ITEM, states, WaitReturns);
    states := ExtendRun(ONE_ITEM, states, CallerCloses);
    states := ExtendRun(ONE_ITEM, states, LoopExits);
    states := ExtendRun(ONE_ITEM, states, WorkerStops(0));
    states := ExtendRun(ONE_ITEM, states, CloseReturns);
  }

  lemma OneItemParsed() returns (states: seq<State>)
    ensures IsRun(ONE_ITEM, states)
    ensures states[|states| - 1]
            == State(Submitting([]), 0, [], multiset{}, Receiving, {"a"}, [], [Idle], 0, Output({}, [], [], []),
                     History(["a"], multiset{}, multiset{}))
  {
    states := [Initial(ONE_ITEM)];
    states := ExtendRun(ONE_ITEM, states, CallerSubmits);
    hide IsRun;
    states := ExtendRun(ONE_ITEM, states, LoopReceives);
    states := ExtendRun(ONE_ITEM, states, LoopHandsOver);
    states := ExtendRun(ONE_ITEM, states, WorkerStarts(0, []));
    states := ExtendRun(ONE_ITEM, states, WorkerFinishes(0));
  }
}
