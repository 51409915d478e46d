/** Each move keeps the invariants of the stage. */
module StageProof {
  import opened Stage
  import opened StageInvariant

  lemma EnqueueCounted(c: Config, s: State, id: string)
    requires Counted(c, s)
    ensures Counted(c, Enqueue(s, id))
  {}

  lemma ReceiveCounted(c: Config, s: State)
    requires Counted(c, s) && |s.channel| > 0 && s.loop == Receiving
    ensures Counted(c, Receive(s))
  {
    hide RunningSet;
  }

  lemma ActCounted(c: Config, s: State, w: nat)
    requires Counted(c, s) && IsRunning(s, w) && |s.workers[w].rest| > 0
    ensures Counted(c, Act(s, w))
  {
    hide RunningSet, Record;
    NoneChanges(s.workers, w, s.workers[w].(rest := s.workers[w].rest[1..]));
  }

  lemma CountedKept(c: Config, s: State, m: Move)
    requires Counted(c, s) && CanMove(c, s, m)
    ensures Counted(c, After(c, s, m))
  {
    hide RunningSet, Enqueue, Receive, Act;
    match m
    case CallerSubmits => EnqueueCounted(c, s.(caller := Submitting(s.caller.roots[1..])), s.caller.roots[0]);
    case LoopReceives => ReceiveCounted(c, s);
    case WorkerActs(w) => ActCounted(c, s, w);
    case WorkerStarts(_, _) => WorkerCounted(c, s, m);
    case WorkerFinishes(_) => WorkerCounted(c, s, m);
    case WorkerFails(_) => WorkerCounted(c, s, m);
    case WorkerStops(_) => WorkerCounted(c, s, m);
    case _ =>
  }

  lemma WorkerCounted(c: Config, s: State, m: Move)
    requires Counted(c, s) && CanMove(c, s, m)
    requires m.WorkerStarts? || m.WorkerFinishes? || m.WorkerFails? || m.WorkerStops?
    ensures Counted(c, After(c, s, m))
  {
    hide RunningSet, Enqueue, Receive, Act;
    match m
    case WorkerStarts(w, actions) => OneStarts(s.workers, w, Running(s.workerCh[0], actions));
    case WorkerFinishes(w) => OneEnds(s.workers, w, Idle);
    case WorkerFails(w) => OneEnds(s.workers, w, Idle);
    case WorkerStops(w) => NoneChanges(s.workers, w, Stopped);
  }

  lemma TakenAfter(c: Config, s: State, m: Move)
    requires CanMove(c, s, m)
    ensures var t := After(c, s, m);
            if m.LoopReceives? && s.channel[0] !in s.seen
            then Taken(t) == Taken(s) + [s.channel[0]] && t.seen == s.seen + {s.channel[0]}
            else Taken(t) == Taken(s) && t.seen == s.seen
  {
    hide Record;
    match m
    case LoopReceives => assert s.history.started + s.workerCh + [] == s.history.started + s.workerCh;
    case LoopHandsOver =>
      assert s.history.started + s.workerCh + [s.loop.id] == s.history.started + (s.workerCh + [s.loop.id]) + [];
    case WorkerStarts(w, actions) =>
      assert s.workerCh == [s.workerCh[0]] + s.workerCh[1..];
      assert s.history.started + s.workerCh == s.history.started + [s.workerCh[0]] + s.workerCh[1..];
    case _ =>
  }

  lemma TakenOnceKept(c: Config, s: State, m: Move)
    requires TakenOnce(s) && CanMove(c, s, m)
    ensures TakenOnce(After(c, s, m))
  {
    TakenAfter(c, s, m);
    hide After, Taken, CanMove;
    var t := After(c, s, m);
    if m.LoopReceives? && s.channel[0] !in s.seen {
      assert forall id :: id in Taken(t) <==> id in Taken(s) || id == s.channel[0];
    }
  }

  /** What moves out of a worker's rest has been performed or skipped, or came with a new item. */
  lemma Rebalanced(
      total: multiset<Action>, h: History, remaining: multiset<Action>, total': multiset<Action>, h': History,
      remaining': multiset<Action>, before: multiset<Action>, after: multiset<Action>, started: multiset<Action>,
      performed: multiset<Action>, skipped: multiset<Action>)
    requires total == h.performed + remaining + h.skipped && total' == total + started
    requires h'.performed == h.performed + performed && h'.skipped == h.skipped + skipped
    requires remaining' + before == remaining + after && after + performed + skipped == before + started
    ensures total' == h'.performed + remaining' + h'.skipped
  {
    forall a: Action ensures total'[a] == (h'.performed + remaining' + h'.skipped)[a] {
      assert (remaining' + before)[a] == (remaining + after)[a];
      assert (after + performed + skipped)[a] == (before + started)[a];
    }
  }

  lemma WorkerAccounted(
      c: Config, s: State, t: State, w: nat, started: multiset<Action>, performed: multiset<Action>,
      skipped: multiset<Action>)
    requires Accounted(c, s) && w < |s.workers| && |t.workers| == |s.workers|
             && t.workers == s.workers[w := t.workers[w]]
    requires ActionsOf(c, t.history.started) == ActionsOf(c, s.history.started) + started
    requires t.history.performed == s.history.performed + performed && t.history.skipped == s.history.skipped + skipped
    requires RestOf(t.workers[w]) + performed + skipped == RestOf(s.workers[w]) + started
    requires t.errors == 0 ==> s.errors == 0 && skipped == multiset{}
    ensures Accounted(c, t)
  {
    hide ActionsOf, Remaining, RestOf;
    RemainingReplaced(s.workers, w, t.workers[w]);
    Rebalanced(ActionsOf(c, s.history.started), s.history, Remaining(s.workers), ActionsOf(c, t.history.started),
               t.history,
               Remaining(t.workers), RestOf(s.workers[w]), RestOf(t.workers[w]), started, performed, skipped);
  }

  lemma StartAccounted(c: Config, s: State, w: nat, actions: seq<Action>)
    requires Accounted(c, s) && CanMove(c, s, WorkerStarts(w, actions))
    ensures Accounted(c, After(c, s, WorkerStarts(w, actions)))
  {
    hide Accounted, ActionsOf;
    OneMoreItem(c, s.history.started, s.workerCh[0]);
    WorkerAccounted(c, s, After(c, s, WorkerStarts(w, actions)), w, multiset(actions), multiset{}, multiset{});
  }

  lemma ActAccounted(c: Config, s: State, w: nat)
    requires Accounted(c, s) && IsRunning(s, w) && |s.workers[w].rest| > 0
    ensures Accounted(c, Act(s, w))
  {
    hide Accounted, ActionsOf, Act;
    ActChanges(s, w);
    WorkerAccounted(c, s, Act(s, w), w, multiset{}, multiset{s.workers[w].rest[0]}, multiset{});
  }

  lemma EndAccounted(c: Config, s: State, m: Move)
    requires Accounted(c, s) && CanMove(c, s, m) && (m.WorkerFinishes? || m.WorkerFails? || m.WorkerStops?)
    ensures Accounted(c, After(c, s, m))
  {
    hide Accounted, ActionsOf;
    var skipped := if m.WorkerFails? then multiset(s.workers[m.w].rest) else multiset{};
    if m.WorkerFinishes? {
      assert s.workers[m.w].rest == [];
    }
    WorkerAccounted(c, s, After(c, s, m), m.w, multiset{}, multiset{}, skipped);
  }

  lemma AccountedKept(c: Config, s: State, m: Move)
    requires Accounted(c, s) && CanMove(c, s, m)
    ensures Accounted(c, After(c, s, m))
  {
    hide ActionsOf, Remaining, Enqueue, Receive, Act;
    match m
    case CallerSubmits => EnqueueChanges(s.(caller := Submitting(s.caller.roots[1..])), s.caller.roots[0]);
    case LoopReceives => ReceiveChanges(s);
    case WorkerStarts(w, actions) => StartAccounted(c, s, w, actions);
    case WorkerActs(w) => ActAccounted(c, s, w);
    case WorkerFinishes(w) => EndAccounted(c, s, m);
    case WorkerFails(w) => EndAccounted(c, s, m);
    case WorkerStops(w) => EndAccounted(c, s, m);
    case _ =>
  }

  lemma EnqueueChanges(s: State, id: string)
    ensures var t := Enqueue(s, id);
            && t.caller == s.caller && t.history == s.history && t.workers == s.workers && t.errors == s.errors
            && t.loop == s.loop
  {}

  lemma ReceiveChanges(s: State)
    requires |s.channel| > 0
    ensures var t := Receive(s);
            && t.caller == s.caller && t.history == s.history && t.workers == s.workers && t.errors == s.errors
            && (s.loop != Exited ==> t.loop != Exited)
  {}

  lemma ActChanges(s: State, w: nat)
    requires IsRunning(s, w) && |s.workers[w].rest| > 0
    ensures var t, a, worker := Act(s, w), s.workers[w].rest[0], s.workers[w];
            && t.caller == s.caller && t.errors == s.errors && t.loop == s.loop
            && t.history == s.history.(performed := s.history.performed + multiset{a})
            && t.workers == s.workers[w := worker.(rest := worker.rest[1..])]
            && multiset(worker.rest) == multiset{a} + multiset(worker.rest[1..])
            && (a.Submit? ==> IsKnown(t, a.id))
  {
    hide Record;
    assert s.workers[w].rest == [s.workers[w].rest[0]] + s.workers[w].rest[1..];
  }

  lemma KnownStays(c: Config, s: State, m: Move, id: string)
    requires CanMove(c, s, m) && IsKnown(s, id)
    ensures IsKnown(After(c, s, m), id)
  {
    hide Record;
    if m.LoopReceives? && id in s.channel && id !in s.channel[1..] {
      assert id == s.channel[0];
    }
  }

  lemma EnqueueKnows(s: State, id: string)
    ensures IsKnown(Enqueue(s, id), id)
  {}

  lemma NothingLostKept(c: Config, s: State, m: Move)
    requires NothingLost(c, s) && CanMove(c, s, m)
    ensures NothingLost(c, After(c, s, m))
  {
    hide Record, IsKnown, Enqueue, Receive;
    forall id | IsKnown(s, id) ensures IsKnown(After(c, s, m), id) {
      KnownStays(c, s, m, id);
    }
    match m
    case CallerSubmits =>
      EnqueueKnows(s.(caller := Submitting(s.caller.roots[1..])), s.caller.roots[0]);
      EnqueueChanges(s.(caller := Submitting(s.caller.roots[1..])), s.caller.roots[0]);
      assert forall id | id in s.caller.roots :: id == s.caller.roots[0] || id in s.caller.roots[1..];
    case LoopReceives => ReceiveChanges(s);
    case WorkerActs(w) => ActChanges(s, w);
    case _ =>
  }

  lemma EnqueueWithin(s: State, id: string, ids: set<string>)
    requires Within(s, ids) && id in ids
    ensures Within(Enqueue(s, id), ids)
  {}

  lemma ReceiveWithin(s: State, ids: set<string>)
    requires Within(s, ids) && |s.channel| > 0
    ensures Within(Receive(s), ids)
  {}

  lemma ActWithin(s: State, w: nat, ids: set<string>)
    requires Within(s, ids) && IsRunning(s, w) && |s.workers[w].rest| > 0
    ensures Within(Act(s, w), ids)
  {
    hide Record;
    assert WorkerWithin(s.workers[w], ids);
  }

  lemma StartWithin(c: Config, id: string, actions: seq<Action>, ids: set<string>)
    requires IsClosed(c, ids) && id in ids && multiset(actions) == multiset(c.program(id))
    ensures WorkerWithin(Running(id, actions), ids)
  {
    forall j | Submit(j) in actions ensures j in ids {
      assert Submit(j) in multiset(actions);
      assert Submit(j) in c.program(id);
    }
  }

  lemma WithinKept(c: Config, s: State, m: Move, ids: set<string>)
    requires Within(s, ids) && IsClosed(c, ids) && CanMove(c, s, m)
    ensures Within(After(c, s, m), ids)
  {
    hide IsClosed, Enqueue, Receive, Act;
    match m
    case CallerSubmits => EnqueueWithin(s.(caller := Submitting(s.caller.roots[1..])), s.caller.roots[0], ids);
    case LoopReceives => ReceiveWithin(s, ids);
    case WorkerStarts(w, actions) => StartWithin(c, s.workerCh[0], actions, ids);
    case WorkerActs(w) => ActWithin(s, w, ids);
    case _ =>
  }

  lemma RecordCounts(o: Output, a: Action, use: Use)
    ensures Recorded(Record(o, a), use) == Recorded(o, use) + if a in {UseType(use), UseReceiver(use)} then 1 else 0
  {}

  lemma OutputAgreesKept(c: Config, s: State, m: Move)
    requires OutputAgrees(s.output, s.history.performed) && CanMove(c, s, m)
    ensures OutputAgrees(After(c, s, m).output, After(c, s, m).history.performed)
  {
    match m
    case WorkerActs(w) => ActRecorded(s.output, s.history.performed, s.workers[w].rest[0]);
    case _ =>
  }

  lemma ActRecorded(o: Output, performed: multiset<Action>, a: Action)
    requires OutputAgrees(o, performed)
    ensures OutputAgrees(Record(o, a), performed + multiset{a})
  {
    forall use ensures Recorded(Record(o, a), use)
                       == (performed + multiset{a})[UseType(use)] + (performed + multiset{a})[UseReceiver(use)]
    {
      RecordCounts(o, a, use);
    }
  }

  lemma EmptyIsQuiet(s: State)
    requires UnderWay(s) == 0
    ensures IsQuiet(s)
  {
    forall w | 0 <= w < |s.workers| ensures !s.workers[w].Running? {
      assert w in RunningSet(s.workers) <==> s.workers[w].Running?;
    }
  }

  /** The caller never submits once it waits, so nothing starts again. */
  lemma QuietStays(c: Config, s: State, m: Move)
    requires IsQuiet(s) && !s.caller.Submitting? && CanMove(c, s, m)
    ensures IsQuiet(After(c, s, m))
  {
    hide Enqueue, Receive, Act;
  }

  lemma PhasedKept(c: Config, s: State, m: Move)
    requires Phased(s) && Counted(c, s) && CanMove(c, s, m)
    ensures Phased(After(c, s, m))
  {
    if s.caller.Submitting? {
      SubmittingPhased(c, s, m);
    } else {
      QuietStays(c, s, m);
      ClosingPhased(c, s, m);
    }
  }

  lemma SubmittingPhased(c: Config, s: State, m: Move)
    requires Phased(s) && Counted(c, s) && CanMove(c, s, m) && s.caller.Submitting?
    ensures Phased(After(c, s, m))
  {
    hide IsQuiet, RunningSet, Held, Enqueue, Receive, Act;
    match m
    case WaitReturns => EmptyIsQuiet(After(c, s, m));
    case CallerSubmits => EnqueueChanges(s.(caller := Submitting(s.caller.roots[1..])), s.caller.roots[0]);
    case LoopReceives => ReceiveChanges(s);
    case WorkerActs(w) => ActChanges(s, w);
    case _ =>
  }

  lemma ClosingPhased(c: Config, s: State, m: Move)
    requires Phased(s) && CanMove(c, s, m) && !s.caller.Submitting? && IsQuiet(After(c, s, m))
    ensures Phased(After(c, s, m))
  {
    hide Enqueue, Receive, Act;
  }
}
