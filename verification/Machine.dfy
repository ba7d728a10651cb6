/**
 * The run as a small-step machine: W walker threads, the output thread and the main thread,
 * interleaved at their atomic operations. A schedule is any sequence of enabled actions.
 */
module Machine {
  import opened FileSystem
  import opened WalkSpec

  const BATCH_SIZE: nat := 256
  const CHAN_MULT: nat := 4

  /** A queued task with the descriptor its directory is opened from; None for a root. */
  datatype QTask = QTask(task: Task, parent: Option<nat>)

  /** Where the visitor was called: on a root, or on record `i` of the directory behind `fd`. */
  datatype Spot = AtRoot | AtRecord(fd: nat, i: nat)

  /** A walker's program counter with the locals it needs from there on. */
  datatype Phase =
    | Top                                                   // about to load `quit`
    | Seek                                                  // about to pop its own deque
    | Draw(at: nat)                                         // found it empty, trying the injector
    | Poll(v: nat, at: nat, lost: bool)                     // trying peer `v`; `lost`: some try was a lost race
    | Miss                                                  // found no task, about to load `pending`
    | Begin(q: QTask)                                       // about to process `q`
    | Gate(q: QTask)                                        // about to check the depth limit
    | Throttle(q: QTask)                                    // waiting for a limiter token
    | Opening(q: QTask)                                     // about to open and check the directory
    | Reading(q: QTask, fd: nat, i: nat)                    // about to read record `i`
    | Sending(q: QTask, spot: Spot, batch: seq<Entry>)      // inside the visitor, sending a full batch
    | Enqueue(q: QTask, fd: nat, i: nat)                    // about to increment `pending` for child `i`
    | Push(q: QTask, fd: nat, i: nat)                       // about to push child `i`
    | Quitting(q: QTask, spot: Spot)                        // visitor said Quit, about to store `quit`
    | Done(q: QTask)                                        // processed, about to decrement `pending`
    | Spent(q: QTask)                                       // decremented, about to drop the task
    | Flushing(batch: seq<Entry>)                           // left the loop, sending the last batch
    | Exited

  /**
   * One walker thread: its deque (oldest first), its batch, and as history all its visitor ever
   * accepted and all the children it ever pushed.
   */
  datatype Walker = Walker(phase: Phase, deque: seq<QTask>, buf: seq<Entry>, log: seq<Entry>, made: seq<Task>)

  datatype Batch = Batch(from: nat, entries: seq<Entry>)
  datatype Tagged = Tagged(from: nat, entry: Entry)

  /** The output thread: blocked on the channel, writing a batch, or done with the receiver dropped. */
  datatype Output = Waiting | Printing(from: nat, rest: seq<Entry>) | Finished

  function Tag(from: nat, es: seq<Entry>): (ts: seq<Tagged>)
    ensures |ts| == |es| && forall i | 0 <= i < |es| :: ts[i] == Tagged(from, es[i])
  {
    seq(|es|, i requires 0 <= i < |es| => Tagged(from, es[i]))
  }

  function Flat(chan: seq<Batch>): seq<Tagged> {
    if chan == [] then [] else Tag(chan[0].from, chan[0].entries) + Flat(chan[1..])
  }

  function InHand(out: Output): seq<Tagged> {
    if out.Printing? then Tag(out.from, out.rest) else []
  }

  /**
   * `fds[fd]` is the depth of the directory behind descriptor `fd`; `sender` is the main
   * thread's own channel end. `lost` records the entries that went down with the receiver or met
   * a closed channel, `history` the events so far, and `moves` counts the changes of any queue.
   */
  datatype State = State(injector: seq<QTask>, pending: int, quit: bool, shutdown: bool,
                         walkers: seq<Walker>, fds: seq<nat>, chan: seq<Batch>, out: Output,
                         sender: bool, written: seq<Tagged>, lost: seq<Tagged>, history: multiset<Event>,
                         moves: nat)

  /** What one walker does on its own, reading and writing the shared scalars. */
  datatype Step =
    | LoadQuit | PopOwn | OwnEmpty | LoadPending
    | Process | CheckDepth | Token | Refused | Open | NextRecord
    | FetchAdd | PushChild | StoreQuit | FetchSub | DropTask | SendFails

  datatype Action =
    | Local(w: nat, step: Step)
    | StealBatch(w: nat, order: seq<QTask>)
    | StealPeer(w: nat, v: nat)
    | Pass(w: nat, lost: bool)
    | Send(w: nat)
    | HandOver(w: nat)
    | Receive
    | Write
    | NextBatch
    | HangUp
    | WalkReturns
    | Interrupt

  function WalkerCount(job: Plan): nat {
    if job.cfg.threads >= 2 then job.cfg.threads - 1 else 1
  }

  function Capacity(job: Plan): nat {
    if job.cfg.threads >= 1 then CHAN_MULT * (job.cfg.threads - 1) else 0
  }

  /** --max-results, where 0 means unlimited. */
  function Cap(job: Plan): Option<nat> {
    if job.cfg.maxResults.Some? && job.cfg.maxResults.value > 0 then job.cfg.maxResults else None
  }

  function Queued(ts: seq<Task>): (qs: seq<QTask>)
    ensures |qs| == |ts| && forall i | 0 <= i < |ts| :: qs[i] == QTask(ts[i], None)
  {
    seq(|ts|, i requires 0 <= i < |ts| => QTask(ts[i], None))
  }

  /** The state right after the roots are seeded and the threads are spawned. */
  function Init(job: Plan): State {
    var seeds := Queued(Roots(job));
    State(seeds, |seeds|, false, false, seq(WalkerCount(job), _ => Walker(Top, [], [], [], [])),
          [], [], Waiting, true, [], [], multiset{}, 0)
  }

  // ----- The visitor -----

  /** A child is queued when it is descended into and, under pruning, could still read its own records. */
  predicate EnqueuesAt(job: Plan, t: Task, i: nat) {
    DescendsAt(job, t, i) && (job.cfg.pruning ==> !DepthReached(job, t.depth + 1))
  }

  /** Where a walker goes on once the visitor said Continue. */
  function Resume(job: Plan, q: QTask, spot: Spot): Phase {
    match spot
    case AtRoot => Gate(q)
    case AtRecord(fd, i) => if EnqueuesAt(job, q.task, i) then Enqueue(q, fd, i) else Reading(q, fd, i + 1)
  }

  predicate Accepts(job: Plan, shutdown: bool, e: Entry) {
    !shutdown && job.cfg.keep(e)
  }

  /** The visitor on entry `e`: quit on shutdown, else filter, batch, and send a full batch. */
  function Visit(job: Plan, shutdown: bool, k: Walker, q: QTask, spot: Spot, e: Entry): Walker {
    if shutdown then k.(phase := Quitting(q, spot))
    else if !job.cfg.keep(e) then k.(phase := Resume(job, q, spot))
    else if |k.buf| + 1 >= BATCH_SIZE then
      k.(phase := Sending(q, spot, k.buf + [e]), buf := [], log := k.log + [e])
    else k.(phase := Resume(job, q, spot), buf := k.buf + [e], log := k.log + [e])
  }

  function Noted(job: Plan, shutdown: bool, e: Entry): multiset<Event> {
    if Accepts(job, shutdown, e) then multiset{Emit(e)} else multiset{}
  }

  /** Leaving the worker loop drops the visitor, which flushes its partial batch. */
  function Leave(k: Walker): Walker {
    if k.buf == [] then k.(phase := Exited) else k.(phase := Flushing(k.buf), buf := [])
  }

  /** A walker after its pending send succeeded. */
  function Sent(job: Plan, k: Walker): Walker {
    if k.phase.Sending? then k.(phase := Resume(job, k.phase.q, k.phase.spot)) else k.(phase := Exited)
  }

  predicate Blocked(p: Phase) {
    p.Sending? || p.Flushing?
  }

  // ----- Local steps -----

  /** What a walker can see of the shared state; `fd` is the descriptor the next open returns. */
  datatype View = View(quit: bool, shutdown: bool, pending: int, fd: nat, closed: bool, moves: nat)

  /** A local step's outcome: the new walker, and its additions to the shared state. */
  datatype Effect = Effect(k: Walker, pending: int, quit: bool, fds: seq<nat>, lost: seq<Entry>,
                           events: multiset<Event>, moves: nat)

  function Only(k: Walker): Effect {
    Effect(k, 0, false, [], [], multiset{}, 0)
  }

  function To(k: Walker, p: Phase): Effect {
    Only(k.(phase := p))
  }

  function Looked(k: Walker, q: QTask, d: Option<Id>, fd: nat): Effect {
    if d.None? then To(k, Done(q))
    else To(k, Reading(q, fd, 0)).(fds := [q.task.depth], events := multiset{Read(d.value, q.task.depth)})
  }

  function Consumed(job: Plan, v: View, k: Walker, q: QTask, fd: nat, i: nat): Effect {
    if i >= |Stream(job, q.task)| then To(k, Done(q))
    else if !ShownAt(job, q.task, i) then To(k, Reading(q, fd, i + 1)).(events := multiset{Scan})
    else
      var e := EntryAt(job, q.task, i);
      Only(Visit(job, v.shutdown, k, q, AtRecord(fd, i), e)).(
        events := multiset{Scan} + Noted(job, v.shutdown, e))
  }

  function Processed(job: Plan, v: View, k: Walker, q: QTask): Effect {
    if q.parent.Some? then To(k, Gate(q))
    else
      var e := RootEntry(q.task);
      Only(Visit(job, v.shutdown, k, q, AtRoot, e)).(events := Noted(job, v.shutdown, e))
  }

  predicate CanStep(job: Plan, v: View, k: Walker, step: Step) {
    match step
    case LoadQuit => k.phase.Top?
    case PopOwn => k.phase.Seek? && k.deque != []
    case OwnEmpty => k.phase.Seek? && k.deque == []
    case LoadPending => k.phase.Miss?
    case Process => k.phase.Begin?
    case CheckDepth => k.phase.Gate?
    case Token => k.phase.Throttle?
    case Refused => k.phase.Throttle? && v.quit
    case Open => k.phase.Opening?
    case NextRecord => k.phase.Reading?
    case FetchAdd => k.phase.Enqueue?
    case PushChild => k.phase.Push? && DescendsAt(job, k.phase.q.task, k.phase.i)
    case StoreQuit => k.phase.Quitting?
    case FetchSub => k.phase.Done?
    case DropTask => k.phase.Spent?
    case SendFails => Blocked(k.phase) && v.closed
  }

  function StepOf(job: Plan, v: View, k: Walker, step: Step): Effect
    requires CanStep(job, v, k, step)
  {
    match step
    case LoadQuit => if v.quit then Only(Leave(k)) else To(k, Seek)
    case PopOwn =>
      Only(k.(phase := Begin(k.deque[|k.deque| - 1]), deque := k.deque[..|k.deque| - 1])).(moves := 1)
    case OwnEmpty => To(k, Draw(v.moves))
    case LoadPending => if v.pending == 0 then Only(Leave(k)) else To(k, Top)
    case Process => Processed(job, v, k, k.phase.q)
    case CheckDepth =>
      To(k, if DepthReached(job, k.phase.q.task.depth) then Done(k.phase.q)
            else if job.cfg.limited then Throttle(k.phase.q) else Opening(k.phase.q))
    case Token => To(k, Opening(k.phase.q))
    case Refused => To(k, Done(k.phase.q))
    case Open => Looked(k, k.phase.q, Entered(job, k.phase.q.task), v.fd)
    case NextRecord => Consumed(job, v, k, k.phase.q, k.phase.fd, k.phase.i)
    case FetchAdd => To(k, Push(k.phase.q, k.phase.fd, k.phase.i)).(pending := 1)
    case PushChild =>
      var child := ChildAt(job, k.phase.q.task, k.phase.i);
      Only(k.(phase := Reading(k.phase.q, k.phase.fd, k.phase.i + 1),
              deque := k.deque + [QTask(child, Some(k.phase.fd))], made := k.made + [child])).(moves := 1)
    case StoreQuit => To(k, Done(k.phase.q)).(quit := true)
    case FetchSub => To(k, Spent(k.phase.q)).(pending := -1)
    case DropTask => To(k, Top)
    case SendFails =>
      To(k, if k.phase.Sending? then Quitting(k.phase.q, k.phase.spot) else Exited).(lost := k.phase.batch)
  }

  // ----- Actions -----

  predicate AllExited(s: State) {
    forall w | 0 <= w < |s.walkers| :: s.walkers[w].phase.Exited?
  }

  function ViewOf(s: State): View {
    View(s.quit, s.shutdown, s.pending, |s.fds|, s.out.Finished?, s.moves)
  }

  /** Stealing comes after the own deque was found empty: first from the injector, then peer by peer. */
  predicate Hungry(k: Walker) {
    (k.phase.Draw? || k.phase.Poll?) && k.deque == []
  }

  /** Whether the queue a hungry walker is looking at has a task for it. */
  predicate Tempting(s: State, w: nat)
    requires w < |s.walkers|
  {
    var p := s.walkers[w].phase;
    if p.Draw? then s.injector != []
    else p.Poll? && p.v < |s.walkers| && p.v != w && s.walkers[p.v].deque != []
  }

  /** A try at a queue can lose a race only if some queue has changed since it began. */
  predicate Racing(s: State, p: Phase) {
    (p.Draw? || (p.Poll? && p.v < |s.walkers|)) && p.at < s.moves
  }

  /** The next place to look; a round in which a race was lost is tried again from the injector. */
  function Onward(s: State, p: Phase, lost: bool): Phase {
    if p.Draw? then Poll(0, s.moves, lost)
    else if p.Poll? && p.v < |s.walkers| then Poll(p.v + 1, s.moves, p.lost || lost)
    else if p.Poll? && p.lost then Draw(s.moves)
    else Miss
  }

  predicate Enabled(job: Plan, s: State, a: Action) {
    match a
    case Local(w, step) => w < |s.walkers| && CanStep(job, ViewOf(s), s.walkers[w], step)
    case StealBatch(w, order) =>
      && w < |s.walkers| && Hungry(s.walkers[w]) && s.walkers[w].phase.Draw?
      && |order| + 1 <= |s.injector|
      && multiset(order) == multiset(s.injector[1..|order| + 1])
    case StealPeer(w, v) =>
      && w < |s.walkers| && Hungry(s.walkers[w]) && s.walkers[w].phase.Poll? && s.walkers[w].phase.v == v
      && v < |s.walkers| && v != w && s.walkers[v].deque != []
    case Pass(w, lost) =>
      && w < |s.walkers| && Hungry(s.walkers[w])
      && if lost then Racing(s, s.walkers[w].phase) else !Tempting(s, w)
    case Send(w) =>
      w < |s.walkers| && Blocked(s.walkers[w].phase) && !s.out.Finished? && |s.chan| < Capacity(job)
    case HandOver(w) =>
      w < |s.walkers| && Blocked(s.walkers[w].phase) && s.out.Waiting? && Capacity(job) == 0
    case Receive => s.out.Waiting? && s.chan != []
    case Write => s.out.Printing? && s.out.rest != []
    case NextBatch => s.out.Printing? && s.out.rest == []
    case HangUp => s.out.Waiting? && s.chan == [] && !s.sender && AllExited(s)
    case WalkReturns => s.sender && AllExited(s)
    case Interrupt => !s.shutdown
  }

  function Merge(s: State, w: nat, e: Effect): State
    requires w < |s.walkers|
  {
    s.(walkers := s.walkers[w := e.k], pending := s.pending + e.pending, quit := s.quit || e.quit,
       fds := s.fds + e.fds, lost := s.lost + Tag(w, e.lost), history := s.history + e.events,
       moves := s.moves + e.moves)
  }

  /** Dropping the receiver closes the channel and discards what is not written yet. */
  function Closed(s: State): State {
    s.(out := Finished, chan := [], lost := s.lost + InHand(s.out) + Flat(s.chan))
  }

  function Emptied(ks: seq<Walker>): (ks': seq<Walker>)
    ensures |ks'| == |ks| && forall w | 0 <= w < |ks| :: ks'[w] == ks[w].(deque := [])
  {
    seq(|ks|, w requires 0 <= w < |ks| => ks[w].(deque := []))
  }

  /**
   * With all workers joined the walk returns, dropping its injector, deques and counter with
   * whatever tasks an early stop left in them; then the main thread drops its channel end.
   */
  function Returned(s: State): State {
    s.(sender := false, injector := [], pending := 0, walkers := Emptied(s.walkers))
  }

  function Wrote(job: Plan, s: State): State
    requires s.out.Printing? && s.out.rest != []
  {
    var s' := s.(written := s.written + [Tagged(s.out.from, s.out.rest[0])],
                 out := Printing(s.out.from, s.out.rest[1..]));
    if Cap(job).Some? && |s'.written| >= Cap(job).value then Closed(s') else s'
  }

  function Apply(job: Plan, s: State, a: Action): State
    requires Enabled(job, s, a)
  {
    match a
    case Local(w, step) => Merge(s, w, StepOf(job, ViewOf(s), s.walkers[w], step))
    case StealBatch(w, order) =>
      s.(walkers := s.walkers[w := s.walkers[w].(phase := Begin(s.injector[0]), deque := order)],
         injector := s.injector[|order| + 1..], moves := s.moves + 1)
    case StealPeer(w, v) =>
      var victim := s.walkers[v];
      s.(walkers := s.walkers[v := victim.(deque := victim.deque[1..])]
                             [w := s.walkers[w].(phase := Begin(victim.deque[0]))],
         moves := s.moves + 1)
    case Pass(w, lost) =>
      s.(walkers := s.walkers[w := s.walkers[w].(phase := Onward(s, s.walkers[w].phase, lost))])
    case Send(w) =>
      s.(walkers := s.walkers[w := Sent(job, s.walkers[w])],
         chan := s.chan + [Batch(w, s.walkers[w].phase.batch)])
    case HandOver(w) =>
      s.(walkers := s.walkers[w := Sent(job, s.walkers[w])], out := Printing(w, s.walkers[w].phase.batch))
    case Receive => s.(out := Printing(s.chan[0].from, s.chan[0].entries), chan := s.chan[1..])
    case Write => Wrote(job, s)
    case NextBatch => s.(out := Waiting)
    case HangUp => Closed(s)
    case WalkReturns => Returned(s)
    case Interrupt => s.(shutdown := true)
  }

  // ----- Runs -----

  /** Whether a whole schedule is enabled, one action after the other. */
  ghost predicate Valid(job: Plan, s: State, acts: seq<Action>)
    decreases |acts|
  {
    acts == [] || (Enabled(job, s, acts[0]) && Valid(job, Apply(job, s, acts[0]), acts[1..]))
  }

  ghost function Run(job: Plan, s: State, acts: seq<Action>): State
    requires Valid(job, s, acts)
    decreases |acts|
  {
    if acts == [] then s else Run(job, Apply(job, s, acts[0]), acts[1..])
  }

  ghost predicate Reachable(job: Plan, s: State) {
    exists acts :: Valid(job, Init(job), acts) && Run(job, Init(job), acts) == s
  }

  /** Every thread has returned. */
  predicate Final(s: State) {
    AllExited(s) && !s.sender && s.out.Finished?
  }

  lemma RunOne(job: Plan, s: State, a: Action)
    requires Enabled(job, s, a)
    ensures Valid(job, s, [a]) && Run(job, s, [a]) == Apply(job, s, a)
  {
    assert [a][1..] == [];
    assert Valid(job, Apply(job, s, a), []);
  }

  lemma {:induction false} RunAppend(job: Plan, s: State, a: seq<Action>, b: seq<Action>)
    requires Valid(job, s, a) && Valid(job, Run(job, s, a), b)
    ensures Valid(job, s, a + b) && Run(job, s, a + b) == Run(job, Run(job, s, a), b)
    decreases |a|
  {
    if a == [] {
      assert a + b == b;
    } else {
      assert (a + b)[1..] == a[1..] + b && (a + b)[0] == a[0];
      var s' := Apply(job, s, a[0]);
      assert Run(job, s, a) == Run(job, s', a[1..]);
      RunAppend(job, s', a[1..], b);
    }
  }
}
