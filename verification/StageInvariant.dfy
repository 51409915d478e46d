/** What every interleaving of a stage keeps. */
module StageInvariant {
  import opened Stage

  // ------------------------------------------------------------------
  // Workers, counted and summed

  function RunningSet(workers: seq<Worker>): set<int> {
    set w | 0 <= w < |workers| && workers[w].Running?
  }

  lemma OneStarts(workers: seq<Worker>, w: nat, worker: Worker)
    requires w < |workers| && !workers[w].Running? && worker.Running?
    ensures |RunningSet(workers[w := worker])| == |RunningSet(workers)| + 1
  {
    assert RunningSet(workers[w := worker]) == RunningSet(workers) + {w};
  }

  lemma OneEnds(workers: seq<Worker>, w: nat, worker: Worker)
    requires w < |workers| && workers[w].Running? && !worker.Running?
    ensures |RunningSet(workers[w := worker])| == |RunningSet(workers)| - 1
  {
    assert RunningSet(workers[w := worker]) == RunningSet(workers) - {w};
  }

  lemma NoneChanges(workers: seq<Worker>, w: nat, worker: Worker)
    requires w < |workers| && workers[w].Running? == worker.Running?
    ensures RunningSet(workers[w := worker]) == RunningSet(workers)
  {}

  function RestOf(worker: Worker): multiset<Action> {
    if worker.Running? then multiset(worker.rest) else multiset{}
  }

  /** The actions that running workers still have to perform. */
  function Remaining(workers: seq<Worker>): multiset<Action>
    decreases |workers|
  {
    if |workers| == 0 then multiset{} else Remaining(workers[..|workers| - 1]) + RestOf(workers[|workers| - 1])
  }

  lemma {:induction false} RemainingReplaced(workers: seq<Worker>, w: nat, worker: Worker)
    requires w < |workers|
    ensures Remaining(workers[w := worker]) + RestOf(workers[w]) == Remaining(workers) + RestOf(worker)
    decreases |workers|
  {
    hide RestOf;
    var last, updated := |workers| - 1, workers[w := worker];
    assert Remaining(updated) == Remaining(updated[..last]) + RestOf(updated[last]);
    if w == last {
      assert updated[..last] == workers[..last];
    } else {
      RemainingReplaced(workers[..last], w, worker);
      assert updated[..last] == workers[..last][w := worker];
      var before, after, end := Remaining(workers[..last]), Remaining(updated[..last]), RestOf(workers[last]);
      assert after + end + RestOf(workers[w]) == after + RestOf(workers[w]) + end;
      assert before + end + RestOf(worker) == before + RestOf(worker) + end;
    }
  }

  lemma {:induction false} NothingRemains(workers: seq<Worker>)
    requires RunningSet(workers) == {}
    ensures Remaining(workers) == multiset{}
    decreases |workers|
  {
    if |workers| > 0 {
      var rest := workers[..|workers| - 1];
      forall w | w in RunningSet(rest) ensures w in RunningSet(workers) {}
      NothingRemains(rest);
      assert |workers| - 1 !in RunningSet(workers);
    }
  }

  /** All actions of a list of items. */
  function ActionsOf(c: Config, ids: seq<string>): multiset<Action>
    decreases |ids|
  {
    if |ids| == 0 then multiset{} else ActionsOf(c, ids[..|ids| - 1]) + multiset(c.program(ids[|ids| - 1]))
  }

  lemma OneMoreItem(c: Config, ids: seq<string>, id: string)
    ensures ActionsOf(c, ids + [id]) == ActionsOf(c, ids) + multiset(c.program(id))
  {
    assert (ids + [id])[..|ids|] == ids;
  }

  lemma {:induction false} ItemsHaveTheirActions(c: Config, ids: seq<string>, id: string, a: Action)
    requires id in ids && a in c.program(id)
    ensures a in ActionsOf(c, ids)
    decreases |ids|
  {
    var last := |ids| - 1;
    if ids[last] != id {
      assert id in ids[..last];
      ItemsHaveTheirActions(c, ids[..last], id, a);
    }
  }

  // ------------------------------------------------------------------
  // The wait group counts what is under way

  function Held(loop: Loop): seq<string> {
    if loop.Holding? then [loop.id] else []
  }

  /** Submitted and neither finished nor dropped: queued, held, or being parsed. */
  function UnderWay(s: State): nat {
    |s.channel| + |s.senders| + |Held(s.loop)| + |s.workerCh| + |RunningSet(s.workers)|
  }

  ghost predicate Counted(c: Config, s: State) {
    && s.waiting == UnderWay(s)
    && |s.channel| <= CHANNEL_SIZE && |s.workerCh| <= c.numWorkers && |s.workers| == c.numWorkers
  }

  // ------------------------------------------------------------------
  // Each item is taken once

  /** The items the loop let through, in the order in which it did. */
  function Taken(s: State): seq<string> {
    s.history.started + s.workerCh + Held(s.loop)
  }

  ghost predicate TakenOnce(s: State) {
    && (forall i, j | 0 <= i < j < |Taken(s)| :: Taken(s)[i] != Taken(s)[j])
    && (forall id :: id in Taken(s) <==> id in s.seen)
  }

  /** Every action of a started item has been performed, is still to come, or was skipped by a failure. */
  ghost predicate Accounted(c: Config, s: State) {
    && ActionsOf(c, s.history.started) == s.history.performed + Remaining(s.workers) + s.history.skipped
    && (s.errors == 0 ==> s.history.skipped == multiset{})
  }

  // ------------------------------------------------------------------
  // What has been submitted is not lost

  predicate IsKnown(s: State, id: string) {
    id in s.seen || id in s.channel || id in s.senders
  }

  ghost predicate NothingLost(c: Config, s: State) {
    && (forall id | Submit(id) in s.history.performed :: IsKnown(s, id))
    && (forall id | id in c.roots :: IsKnown(s, id) || (s.caller.Submitting? && id in s.caller.roots))
  }

  /** A set of items that holds the roots and all that parsing its members submits. */
  ghost predicate IsClosed(c: Config, ids: set<string>) {
    && (forall id | id in c.roots :: id in ids)
    && (forall id, j | id in ids && Submit(j) in c.program(id) :: j in ids)
  }

  ghost predicate WorkerWithin(worker: Worker, ids: set<string>) {
    worker.Running? ==> forall j | Submit(j) in worker.rest :: j in ids
  }

  /** Nothing outside `ids` is anywhere in the stage. */
  ghost predicate Within(s: State, ids: set<string>) {
    && (forall id | id in s.seen :: id in ids)
    && (forall id | id in s.channel :: id in ids)
    && (forall id | id in s.senders :: id in ids)
    && (forall id | id in s.workerCh :: id in ids)
    && (s.loop.Holding? ==> s.loop.id in ids)
    && (s.caller.Submitting? ==> forall id | id in s.caller.roots :: id in ids)
    && (forall w {:trigger s.workers[w]} | 0 <= w < |s.workers| :: WorkerWithin(s.workers[w], ids))
  }

  // ------------------------------------------------------------------
  // The output

  /** How often a use has been recorded. */
  function Recorded(o: Output, use: Use): nat {
    multiset(o.logged)[use] + multiset(o.typeRefs)[use] + multiset(o.receiverRefs)[use]
  }

  ghost predicate OutputAgrees(o: Output, performed: multiset<Action>) {
    && (forall file :: file in o.files <==> AddFile(file) in performed)
    && (forall use | use in o.logged :: use.target in o.files)
    && (forall use :: Recorded(o, use) == performed[UseType(use)] + performed[UseReceiver(use)])
  }

  // ------------------------------------------------------------------
  // Once Wait has returned

  predicate IsQuiet(s: State) {
    && s.channel == [] && s.senders == multiset{} && !s.loop.Holding? && s.workerCh == []
    && forall w | 0 <= w < |s.workers| :: !s.workers[w].Running?
  }

  /** After the wait nothing is under way; the loop ends after the close, the workers after the loop. */
  ghost predicate Phased(s: State) {
    && (!s.caller.Submitting? ==> IsQuiet(s))
    && (s.loop == Exited ==> s.caller in {Closed, Finished})
    && (forall w | 0 <= w < |s.workers| && s.workers[w] == Stopped :: s.loop == Exited)
    && (s.caller == Finished ==> s.loop == Exited && forall w | 0 <= w < |s.workers| :: s.workers[w] == Stopped)
  }
}
