/**
 One parsing stage as a state machine: the caller that submits the roots and waits, sender
 goroutines that found the channel full, the loop that drops duplicates, and the workers,
 which submit more while they parse. Every move is one atomic step of one of them.
 */
module Stage {
  const CHANNEL_SIZE: nat := 1000

  /** A use of a named type or of a method's receiver; `target` is the file that declares the type. */
  datatype Use = Use(target: string, position: int)

  /** What parsing an item does, as far as others can see. */
  datatype Action =
    | Submit(id: string)
    | AddFile(file: string)
    | UseType(use: Use)
    | UseReceiver(use: Use)

  /** What parsing each item does, what the caller submits, and how many workers there are. */
  datatype Config = Config(program: string -> seq<Action>, roots: seq<string>, numWorkers: nat)

  /** What the caller does next: submit these, then wait; close; wait for the loop to end. */
  datatype Caller = Submitting(roots: seq<string>) | Returned | Closed | Finished

  datatype Loop = Receiving | Holding(id: string) | Exited

  datatype Worker = Idle | Running(id: string, rest: seq<Action>) | Stopped

  /** The index as far as the items of a stage touch it, and the deferred references. */
  datatype Output = Output(files: set<string>, logged: seq<Use>, receiverRefs: seq<Use>, typeRefs: seq<Use>)

  /** What has happened so far, for stating properties. */
  datatype History = History(started: seq<string>, performed: multiset<Action>, skipped: multiset<Action>)

  datatype State = State(
    caller: Caller, waiting: int, channel: seq<string>, senders: multiset<string>, loop: Loop, seen: set<string>,
    workerCh: seq<string>, workers: seq<Worker>, errors: nat, output: Output, history: History)

  function Initial(c: Config): State {
    State(Submitting(c.roots), 0, [], multiset{}, Receiving, {}, [], seq(c.numWorkers, _ => Idle), 0,
          Output({}, [], [], []), History([], multiset{}, multiset{}))
  }

  datatype Move =
    | CallerSubmits
    | WaitReturns
    | CallerCloses
    | CloseReturns
    | SenderSends(id: string)
    | LoopReceives
    | LoopHandsOver
    | LoopExits
    | WorkerStarts(w: nat, actions: seq<Action>)
    | WorkerActs(w: nat)
    | WorkerFinishes(w: nat)
    | WorkerFails(w: nat)
    | WorkerStops(w: nat)

  predicate IsRunning(s: State, w: nat) {
    w < |s.workers| && s.workers[w].Running?
  }

  predicate IsIdle(s: State, w: nat) {
    w < |s.workers| && s.workers[w].Idle?
  }

  predicate CanMove(c: Config, s: State, m: Move) {
    match m
    case CallerSubmits => s.caller.Submitting? && |s.caller.roots| > 0
    case WaitReturns => s.caller == Submitting([]) && s.waiting == 0
    case CallerCloses => s.caller == Returned
    case CloseReturns =>
      s.caller == Closed && s.loop == Exited && forall w | 0 <= w < |s.workers| :: s.workers[w] == Stopped
    case SenderSends(id) => id in s.senders && |s.channel| < CHANNEL_SIZE
    case LoopReceives => s.loop == Receiving && |s.channel| > 0
    case LoopHandsOver => s.loop.Holding? && |s.workerCh| < c.numWorkers
    case LoopExits => s.loop == Receiving && |s.channel| == 0 && s.caller in {Closed, Finished}
    case WorkerStarts(w, actions) =>
      IsIdle(s, w) && |s.workerCh| > 0 && multiset(actions) == multiset(c.program(s.workerCh[0]))
    case WorkerActs(w) => IsRunning(s, w) && |s.workers[w].rest| > 0
    case WorkerFinishes(w) => IsRunning(s, w) && |s.workers[w].rest| == 0
    case WorkerFails(w) => IsRunning(s, w)
    case WorkerStops(w) => IsIdle(s, w) && s.loop == Exited && |s.workerCh| == 0
  }

  /** Submitting never blocks: with the channel full, a goroutine of its own waits to send. */
  function Enqueue(s: State, id: string): State {
    var t := s.(waiting := s.waiting + 1);
    if |s.channel| < CHANNEL_SIZE then t.(channel := s.channel + [id]) else t.(senders := s.senders + multiset{id})
  }

  /** An item seen before is dropped, a new one is remembered and held until a worker can have it. */
  function Receive(s: State): State
    requires |s.channel| > 0
  {
    var id, t := s.channel[0], s.(channel := s.channel[1..]);
    if id in s.seen then t.(waiting := s.waiting - 1)
    else t.(seen := s.seen + {id}, loop := Holding(id))
  }

  /** A type reference is logged when its target's file is known, and put off otherwise; a receiver always is. */
  function Record(o: Output, a: Action): Output {
    match a
    case Submit(_) => o
    case AddFile(file) => o.(files := o.files + {file})
    case UseType(use) =>
      if use.target in o.files then o.(logged := o.logged + [use]) else o.(typeRefs := o.typeRefs + [use])
    case UseReceiver(use) => o.(receiverRefs := o.receiverRefs + [use])
  }

  function Act(s: State, w: nat): State
    requires IsRunning(s, w) && |s.workers[w].rest| > 0
  {
    var a, worker := s.workers[w].rest[0], s.workers[w];
    var t := s.(workers := s.workers[w := worker.(rest := worker.rest[1..])],
                output := Record(s.output, a),
                history := s.history.(performed := s.history.performed + multiset{a}));
    if a.Submit? then Enqueue(t, a.id) else t
  }

  function After(c: Config, s: State, m: Move): State
    requires CanMove(c, s, m)
  {
    match m
    case CallerSubmits => Enqueue(s.(caller := Submitting(s.caller.roots[1..])), s.caller.roots[0])
    case WaitReturns => s.(caller := Returned)
    case CallerCloses => s.(caller := Closed)
    case CloseReturns => s.(caller := Finished)
    case SenderSends(id) => s.(channel := s.channel + [id], senders := s.senders - multiset{id})
    case LoopReceives => Receive(s)
    case LoopHandsOver => s.(loop := Receiving, workerCh := s.workerCh + [s.loop.id])
    case LoopExits => s.(loop := Exited)
    case WorkerStarts(w, actions) =>
      s.(workers := s.workers[w := Running(s.workerCh[0], actions)], workerCh := s.workerCh[1..],
         history := s.history.(started := s.history.started + [s.workerCh[0]]))
    case WorkerActs(w) => Act(s, w)
    case WorkerFinishes(w) => s.(workers := s.workers[w := Idle], waiting := s.waiting - 1)
    case WorkerFails(w) =>
      s.(workers := s.workers[w := Idle], waiting := s.waiting - 1, errors := s.errors + 1,
         history := s.history.(skipped := s.history.skipped + multiset(s.workers[w].rest)))
    case WorkerStops(w) => s.(workers := s.workers[w := Stopped])
  }

  ghost predicate IsStep(c: Config, s: State, t: State) {
    exists m: Move :: CanMove(c, s, m) && t == After(c, s, m)
  }

  /** The states of some run, from the start on. */
  ghost predicate IsRun(c: Config, states: seq<State>) {
    && |states| > 0 && states[0] == Initial(c)
    && forall i, j {:trigger IsStep(c, states[i], states[j])} | 0 <= i && j == i + 1 < |states| ::
         IsStep(c, states[i], states[j])
  }

  // ------------------------------------------------------------------
  // After the stage

  /** The deferred references whose target file is in the index, in order. */
  function Indexed(uses: seq<Use>, files: set<string>): seq<Use>
    decreases |uses|
  {
    if |uses| == 0 then []
    else Indexed(uses[..|uses| - 1], files)
         + if uses[|uses| - 1].target in files then [uses[|uses| - 1]] else []
  }

  /** The log once the deferred references have been resolved: receivers first, then types. */
  function FinalLog(o: Output): seq<Use> {
    o.logged + Indexed(o.receiverRefs, o.files) + Indexed(o.typeRefs, o.files)
  }
}
