/** The output pipeline: what every visitor accepted, in its order, is written, in flight, or discarded. */
module Flow {
  import opened FileSystem
  import opened WalkSpec
  import opened Machine
  import opened Shape
  import opened Accounting

  /** Everything that left a walker: written, being written, in the channel, or lost to the closed channel. */
  function Pipe(s: State): seq<Tagged> {
    s.written + InHand(s.out) + Flat(s.chan) + s.lost
  }

  /** The entries of one walker, in order. */
  function Of(w: nat, ts: seq<Tagged>): seq<Entry> {
    if ts == [] then []
    else (if ts[0].from == w then [ts[0].entry] else []) + Of(w, ts[1..])
  }

  /** What a walker accepted but has not handed over: its blocked batch, then its partial one. */
  function Held(k: Walker): seq<Entry> {
    (if Blocked(k.phase) then k.phase.batch else []) + k.buf
  }

  predicate CapHit(job: Plan, s: State) {
    Cap(job).Some? && |s.written| == Cap(job).value
  }

  /**
   * Conservation, at every step: what a walker accepted is, in push order, what it has in the
   * pipe (written, in hand, in the channel, or discarded) followed by what it holds.
   */
  ghost predicate FlowAt(s: State, w: nat) {
    w < |s.walkers| ==> s.walkers[w].log == Of(w, Pipe(s)) + Held(s.walkers[w])
  }

  /**
   * The channel closes at the cap or, drained, after every sender is gone. Nothing is in flight
   * behind a closed channel, and nothing is ever lost unless the cap was written.
   */
  ghost predicate Bounded(job: Plan, s: State) {
    && |s.chan| <= Capacity(job)
    && (s.out.Finished? ==> s.chan == [] && (CapHit(job, s) || (AllExited(s) && !s.sender)))
    && (s.lost != [] ==> s.out.Finished? && CapHit(job, s))
    && (Cap(job).Some? ==> |s.written| <= Cap(job).value && (!s.out.Finished? ==> |s.written| < Cap(job).value))
    && (!s.sender ==> AllExited(s))
    && forall t | t in Pipe(s) :: t.from < |s.walkers|
  }

  // ----- Sequence facts -----

  lemma {:induction false} OfSplit(w: nat, a: seq<Tagged>, b: seq<Tagged>)
    ensures Of(w, a + b) == Of(w, a) + Of(w, b)
    decreases |a|
  {
    if a == [] {
      assert a + b == b;
    } else {
      assert (a + b)[1..] == a[1..] + b;
      OfSplit(w, a[1..], b);
      var head := if a[0].from == w then [a[0].entry] else [];
      Reassociate(head, Of(w, a[1..]), Of(w, b));
    }
  }

  lemma Reassociate(a: seq<Entry>, b: seq<Entry>, c: seq<Entry>)
    ensures (a + b) + c == a + (b + c)
  {
  }

  lemma {:induction false} OfTag(w: nat, from: nat, es: seq<Entry>)
    ensures Of(w, Tag(from, es)) == if from == w then es else []
    decreases |es|
  {
    if es != [] {
      assert Tag(from, es)[1..] == Tag(from, es[1..]);
      OfTag(w, from, es[1..]);
      assert es == [es[0]] + es[1..];
    }
  }

  lemma {:induction false} FlatAppend(chan: seq<Batch>, b: Batch)
    ensures Flat(chan + [b]) == Flat(chan) + Tag(b.from, b.entries)
    decreases |chan|
  {
    if chan == [] {
      assert chan + [b] == [b] && [b][1..] == [];
    } else {
      assert (chan + [b])[1..] == chan[1..] + [b];
      FlatAppend(chan[1..], b);
    }
  }

  // ----- Walkers -----

  /** What a local step's visitor call accepts. */
  function Gained(job: Plan, v: View, k: Walker, step: Step): seq<Entry>
    requires CanStep(job, v, k, step)
  {
    var log := StepOf(job, v, k, step).k.log;
    if |k.log| <= |log| then log[|k.log|..] else []
  }

  lemma VisitFlow(job: Plan, shutdown: bool, k: Walker, q: QTask, spot: Spot, e: Entry)
    requires !Blocked(k.phase)
    ensures var k' := Visit(job, shutdown, k, q, spot, e);
            var gain := if Accepts(job, shutdown, e) then [e] else [];
            k'.log == k.log + gain && Held(k') == Held(k) + gain
  {
    var k' := Visit(job, shutdown, k, q, spot, e);
    assert Held(k) == k.buf;
    if !Blocked(k'.phase) {
      assert Held(k') == k'.buf;
    } else {
      assert Held(k') == k.buf + [e];
    }
  }

  lemma StepFlow(job: Plan, fds: seq<nat>, v: View, k: Walker, step: Step)
    requires WalkerOk(job, fds, k) && CanStep(job, v, k, step)
    ensures var e, gain := StepOf(job, v, k, step), Gained(job, v, k, step);
            && e.k.log == k.log + gain
            && e.lost + Held(e.k) == Held(k) + gain
            && forall x :: multiset(gain)[x] == e.events[Emit(x)]
  {
    var e := StepOf(job, v, k, step);
    if step.Process? && k.phase.q.parent.None? {
      VisitFlow(job, v.shutdown, k, k.phase.q, AtRoot, RootEntry(k.phase.q.task));
    } else if step.NextRecord? && ShownAt(job, k.phase.q.task, k.phase.i) {
      var q, fd, i := k.phase.q, k.phase.fd, k.phase.i;
      VisitFlow(job, v.shutdown, k, q, AtRecord(fd, i), EntryAt(job, q.task, i));
    } else {
      MoveFlow(job, fds, v, k, step);
    }
  }

  lemma MoveFlow(job: Plan, fds: seq<nat>, v: View, k: Walker, step: Step)
    requires WalkerOk(job, fds, k) && CanStep(job, v, k, step)
    requires step.Process? ==> k.phase.q.parent.Some?
    requires step.NextRecord? ==> !ShownAt(job, k.phase.q.task, k.phase.i)
    ensures var e := StepOf(job, v, k, step);
            && e.k.log == k.log && e.lost + Held(e.k) == Held(k)
            && forall x :: e.events[Emit(x)] == 0
  {
  }

  // ----- Every action keeps the flow -----

  /** What an action moves from its walker into the pipe: a sent batch, or one a closed channel refused. */
  function Leaving(job: Plan, s: State, a: Action): seq<Entry>
    requires Enabled(job, s, a)
  {
    match a
    case Local(w, step) => StepOf(job, ViewOf(s), s.walkers[w], step).lost
    case Send(w) => s.walkers[w].phase.batch
    case HandOver(w) => s.walkers[w].phase.batch
    case _ => []
  }

  function Leaver(a: Action): nat {
    if a.Local? || a.Send? || a.HandOver? then a.w else 0
  }

  lemma Regroup(a: seq<Tagged>, x: Tagged, b: seq<Tagged>, c: seq<Tagged>)
    ensures a + ([x] + b) + c + [] == (a + [x]) + b + c + []
    ensures a + ([x] + b) + c + [] == (a + [x]) + [] + [] + ([] + b + c)
    ensures a + (b + c) == a + b + c && a + b + [] == a + b && a + [] + b == a + b
  {
  }

  lemma TagFirst(from: nat, es: seq<Entry>)
    requires es != []
    ensures Tag(from, es) == [Tagged(from, es[0])] + Tag(from, es[1..])
  {
  }

  /** Writing moves the pipe's next entry to its written part; at the cap the rest is discarded, in order. */
  lemma WritePipe(job: Plan, s: State)
    requires Enabled(job, s, Write) && s.lost == []
    ensures Pipe(Apply(job, s, Write)) == Pipe(s)
  {
    var next, tail := Tagged(s.out.from, s.out.rest[0]), Tag(s.out.from, s.out.rest[1..]);
    TagFirst(s.out.from, s.out.rest);
    Regroup(s.written, next, tail, Flat(s.chan));
  }

  lemma SendPipe(job: Plan, s: State, a: Action)
    requires Enabled(job, s, a) && (a.Send? || a.HandOver?) && s.lost == []
    requires |s.chan| <= Capacity(job)
    ensures Pipe(Apply(job, s, a)) == Pipe(s) + Tag(a.w, s.walkers[a.w].phase.batch)
  {
    var batch := s.walkers[a.w].phase.batch;
    if a.Send? {
      FlatAppend(s.chan, Batch(a.w, batch));
    } else {
      assert s.chan == [];
    }
  }

  lemma ReceivePipe(job: Plan, s: State)
    requires Enabled(job, s, Receive)
    ensures Pipe(Apply(job, s, Receive)) == Pipe(s)
  {
    var head, tail := Tag(s.chan[0].from, s.chan[0].entries), Flat(s.chan[1..]);
    assert Flat(s.chan) == head + tail;
    assert s.written + [] == s.written;
    assert s.written + head + tail == s.written + (head + tail);
  }

  lemma OutputPipe(job: Plan, s: State, a: Action)
    requires Enabled(job, s, a) && (a.Receive? || a.NextBatch? || a.HangUp?)
    ensures Pipe(Apply(job, s, a)) == Pipe(s)
  {
    if a.Receive? {
      ReceivePipe(job, s);
    } else {
      assert InHand(s.out) == [];
    }
  }

  lemma LocalPipe(job: Plan, s: State, a: Action)
    requires Enabled(job, s, a) && a.Local?
    ensures Pipe(Apply(job, s, a)) == Pipe(s) + Tag(a.w, Leaving(job, s, a))
  {
    var more := Tag(a.w, Leaving(job, s, a));
    assert Apply(job, s, a).lost == s.lost + more;
  }

  lemma QuietPipe(job: Plan, s: State, a: Action)
    requires Enabled(job, s, a)
    requires a.StealBatch? || a.StealPeer? || a.Pass? || a.WalkReturns? || a.Interrupt?
    ensures Pipe(Apply(job, s, a)) == Pipe(s)
  {
  }

  /** Every action only appends to the pipe what leaves its walker. */
  lemma PipeMoves(job: Plan, s: State, a: Action)
    requires Enabled(job, s, a) && Bounded(job, s)
    ensures Pipe(Apply(job, s, a)) == Pipe(s) + Tag(Leaver(a), Leaving(job, s, a))
  {
    if a.Local? {
      LocalPipe(job, s, a);
    } else if a.Send? || a.HandOver? {
      SendPipe(job, s, a);
    } else {
      assert Pipe(s) + [] == Pipe(s);
      if a.Write? {
        WritePipe(job, s);
      } else if a.Receive? || a.NextBatch? || a.HangUp? {
        OutputPipe(job, s, a);
      } else {
        QuietPipe(job, s, a);
      }
    }
  }

  lemma SentHolds(job: Plan, fds: seq<nat>, k: Walker)
    requires WalkerOk(job, fds, k) && Blocked(k.phase)
    ensures Held(k) == k.phase.batch && Held(Sent(job, k)) == [] && Sent(job, k).log == k.log
  {
  }

  /** Nobody else's log, batch or blocked send is touched by an action. */
  lemma OthersHold(job: Plan, s: State, a: Action, x: nat)
    requires Enabled(job, s, a) && x < |s.walkers| && !((a.Local? || a.Send? || a.HandOver?) && a.w == x)
    ensures var k, s' := s.walkers[x], Apply(job, s, a);
            |s'.walkers| == |s.walkers| && s'.walkers[x].log == k.log && Held(s'.walkers[x]) == Held(k)
  {
    if a.StealBatch? || a.StealPeer? || a.Pass? {
      var k' := Apply(job, s, a).walkers[x];
      assert k'.log == s.walkers[x].log && k'.buf == s.walkers[x].buf;
      assert Blocked(k'.phase) || Blocked(s.walkers[x].phase) ==> k'.phase == s.walkers[x].phase;
    }
  }

  lemma OwnHold(job: Plan, s: State, a: Action) returns (gain: seq<Entry>)
    requires WellShaped(job, s) && Enabled(job, s, a) && (a.Local? || a.Send? || a.HandOver?)
    ensures var k, s' := s.walkers[a.w], Apply(job, s, a);
            && |s'.walkers| == |s.walkers| && s'.walkers[a.w].log == k.log + gain
            && Leaving(job, s, a) + Held(s'.walkers[a.w]) == Held(k) + gain
  {
    if a.Local? {
      gain := Gained(job, ViewOf(s), s.walkers[a.w], a.step);
      StepFlow(job, s.fds, ViewOf(s), s.walkers[a.w], a.step);
    } else {
      gain := [];
      SentHolds(job, s.fds, s.walkers[a.w]);
    }
  }

  /** What walker `x` accepts and gives away is the change of its log and of what it holds. */
  lemma WalkerMoves(job: Plan, s: State, a: Action, x: nat) returns (gain: seq<Entry>)
    requires WellShaped(job, s) && Enabled(job, s, a) && x < |s.walkers|
    ensures var s' := Apply(job, s, a);
            && |s'.walkers| == |s.walkers|
            && s'.walkers[x].log == s.walkers[x].log + gain
            && (if x == Leaver(a) then Leaving(job, s, a) else []) + Held(s'.walkers[x]) == Held(s.walkers[x]) + gain
  {
    if (a.Local? || a.Send? || a.HandOver?) && a.w == x {
      gain := OwnHold(job, s, a);
    } else {
      gain := [];
      OthersHold(job, s, a, x);
    }
  }

  lemma FlowKept(job: Plan, s: State, a: Action, x: nat)
    requires WellShaped(job, s) && FlowAt(s, x) && Enabled(job, s, a) && Bounded(job, s)
    ensures FlowAt(Apply(job, s, a), x)
  {
    PipeMoves(job, s, a);
    if x < |s.walkers| {
      var gone := if x == Leaver(a) then Leaving(job, s, a) else [];
      var gain := WalkerMoves(job, s, a, x);
      OfSplit(x, Pipe(s), Tag(Leaver(a), Leaving(job, s, a)));
      OfTag(x, Leaver(a), Leaving(job, s, a));
      Reassociate(Of(x, Pipe(s)), Held(s.walkers[x]), gain);
      Reassociate(Of(x, Pipe(s)), gone, Held(Apply(job, s, a).walkers[x]));
    }
  }

  /** Exited walkers stay exited. */
  lemma ExitKept(job: Plan, s: State, a: Action)
    requires Enabled(job, s, a) && AllExited(s)
    ensures AllExited(Apply(job, s, a))
    ensures !a.Local? && !a.Send? && !a.HandOver? && !a.StealBatch? && !a.StealPeer? && !a.Pass?
  {
  }

  lemma FromKept(job: Plan, s: State, a: Action)
    requires Enabled(job, s, a) && Bounded(job, s) && s.walkers != []
    ensures var s' := Apply(job, s, a);
            |s'.walkers| == |s.walkers| && forall t | t in Pipe(s') :: t.from < |s'.walkers|
  {
    PipeMoves(job, s, a);
  }

  lemma LocalLoss(job: Plan, v: View, k: Walker, step: Step)
    requires CanStep(job, v, k, step)
    ensures StepOf(job, v, k, step).lost != [] ==> v.closed
    ensures !k.phase.Exited?
  {
  }

  /** Only a send that meets a closed channel, or the closing at the cap, loses anything. */
  lemma LossKept(job: Plan, s: State, a: Action)
    requires Enabled(job, s, a) && Bounded(job, s)
    ensures var s' := Apply(job, s, a); s'.lost != [] ==> s'.out.Finished? && CapHit(job, s')
  {
    if a.Local? {
      LocalLoss(job, ViewOf(s), s.walkers[a.w], a.step);
      assert !s.walkers[a.w].phase.Exited? && !AllExited(s);
    }
  }

  lemma BoundKept(job: Plan, s: State, a: Action)
    requires WellShaped(job, s) && Enabled(job, s, a) && Bounded(job, s)
    ensures Bounded(job, Apply(job, s, a))
  {
    if AllExited(s) {
      ExitKept(job, s, a);
    }
    FromKept(job, s, a);
    LossKept(job, s, a);
  }

  // ----- Accepted entries are the emitted events -----

  ghost function Tally(e: Entry): Walker -> int {
    (k: Walker) => multiset(k.log)[e]
  }

  /** The emissions so far are what the visitors accepted, counted over all walkers. */
  ghost predicate Logged(s: State, e: Entry) {
    s.history[Emit(e)] == Sum(Tally(e), s.walkers)
  }

  lemma StealLogged(job: Plan, s: State, a: Action, e: Entry)
    requires Logged(s, e) && Enabled(job, s, a) && (a.StealBatch? || a.StealPeer?)
    ensures Logged(Apply(job, s, a), e)
  {
    var k := s.walkers[a.w];
    if a.StealBatch? {
      SumUpdate(Tally(e), s.walkers, a.w, k.(phase := Begin(s.injector[0]), deque := a.order));
    } else {
      var victim := s.walkers[a.v];
      var robbed := victim.(deque := victim.deque[1..]);
      SumUpdate(Tally(e), s.walkers, a.v, robbed);
      SumUpdate(Tally(e), s.walkers[a.v := robbed], a.w, k.(phase := Begin(victim.deque[0])));
    }
  }

  lemma LoggedKept(job: Plan, s: State, a: Action, e: Entry)
    requires WellShaped(job, s) && Logged(s, e) && Enabled(job, s, a)
    ensures Logged(Apply(job, s, a), e)
  {
    if a.Local? {
      var k, v := s.walkers[a.w], ViewOf(s);
      StepFlow(job, s.fds, v, k, a.step);
      SumUpdate(Tally(e), s.walkers, a.w, StepOf(job, v, k, a.step).k);
    } else if a.StealBatch? || a.StealPeer? {
      StealLogged(job, s, a, e);
    } else if a.Pass? {
      SumUpdate(Tally(e), s.walkers, a.w, s.walkers[a.w].(phase := Onward(s, s.walkers[a.w].phase, a.lost)));
    } else if a.Send? || a.HandOver? {
      SumUpdate(Tally(e), s.walkers, a.w, Sent(job, s.walkers[a.w]));
    } else if a.WalkReturns? {
      SumEmptied(Tally(e), s.walkers);
    }
  }

  // ----- From walkers to the whole output -----

  function Entries(ts: seq<Tagged>): seq<Entry> {
    if ts == [] then [] else [ts[0].entry] + Entries(ts[1..])
  }

  ghost function Total(f: nat -> nat, n: nat): nat {
    if n == 0 then 0 else Total(f, n - 1) + f(n - 1)
  }

  lemma {:induction false} TotalStep(f: nat -> nat, g: nat -> nat, at: nat, d: nat, n: nat)
    requires forall w: nat :: f(w) == g(w) + if w == at then d else 0
    ensures Total(f, n) == Total(g, n) + if at < n then d else 0
    decreases n
  {
    if n > 0 {
      TotalStep(f, g, at, d, n - 1);
    }
  }

  ghost function Share(ts: seq<Tagged>, e: Entry): nat -> nat {
    (w: nat) => multiset(Of(w, ts))[e]
  }

  lemma OfStep(w: nat, ts: seq<Tagged>, e: Entry)
    requires ts != []
    ensures multiset(Of(w, ts))[e] == multiset(Of(w, ts[1..]))[e] + if ts[0] == Tagged(w, e) then 1 else 0
  {
    var rest := Of(w, ts[1..]);
    assert multiset([ts[0].entry] + rest) == multiset{ts[0].entry} + multiset(rest);
    assert [] + rest == rest;
  }

  /** Splitting the output by walker and counting again gives the output's own count. */
  lemma {:induction false} SharesAddUp(ts: seq<Tagged>, e: Entry, n: nat)
    requires forall t | t in ts :: t.from < n
    ensures Total(Share(ts, e), n) == multiset(Entries(ts))[e]
    decreases |ts|
  {
    if ts == [] {
      ShareOfNothing(e, n);
    } else {
      var d := if ts[0].entry == e then 1 else 0;
      forall w: nat ensures Share(ts, e)(w) == Share(ts[1..], e)(w) + if w == ts[0].from then d else 0 {
        OfStep(w, ts, e);
      }
      TotalStep(Share(ts, e), Share(ts[1..], e), ts[0].from, d, n);
      SharesAddUp(ts[1..], e, n);
    }
  }

  lemma ShareOfNothing(e: Entry, n: nat)
    ensures Total(Share([], e), n) == 0
  {
  }

  lemma {:induction false} SumSplitLast(f: Walker -> int, ks: seq<Walker>)
    requires ks != []
    ensures Sum(f, ks) == Sum(f, ks[..|ks| - 1]) + f(ks[|ks| - 1])
    decreases |ks|
  {
    if |ks| > 1 {
      assert ks[1..][..|ks| - 2] == ks[..|ks| - 1][1..];
      SumSplitLast(f, ks[1..]);
    }
  }

  lemma PrefixCount(a: seq<Entry>, b: seq<Entry>, e: Entry)
    requires a <= b
    ensures multiset(a)[e] <= multiset(b)[e]
  {
    assert b == a + b[|a|..];
  }

  /** What is written of an entry is at most what was accepted, and all of it if `exact`. */
  lemma {:induction false} ShareVersusLogs(ts: seq<Tagged>, e: Entry, ks: seq<Walker>, exact: bool)
    requires forall w | 0 <= w < |ks| :: Of(w, ts) <= ks[w].log && (exact ==> Of(w, ts) == ks[w].log)
    ensures Total(Share(ts, e), |ks|) <= Sum(Tally(e), ks)
    ensures exact ==> Total(Share(ts, e), |ks|) == Sum(Tally(e), ks)
    decreases |ks|
  {
    if ks != [] {
      var n := |ks| - 1;
      SumSplitLast(Tally(e), ks);
      ShareVersusLogs(ts, e, ks[..n], exact);
      PrefixCount(Of(n, ts), ks[n].log, e);
    }
  }
}
