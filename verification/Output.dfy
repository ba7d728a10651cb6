/** The pipeline's two ends: batching on a walker's side, and the output thread's loop. */
module Output {
  import opened FileSystem
  import opened Machine

  function Concat(batches: seq<seq<Entry>>): seq<Entry> {
    if batches == [] then [] else Concat(batches[..|batches| - 1]) + batches[|batches| - 1]
  }

  lemma ConcatOne(batches: seq<seq<Entry>>, b: seq<Entry>)
    ensures Concat(batches + [b]) == Concat(batches) + b
  {
    assert (batches + [b])[..|batches|] == batches;
  }

  lemma Shift(sent: seq<Entry>, lost: seq<Entry>, batch: seq<Entry>)
    ensures sent + [] + batch == (sent + batch) + [] + []
    ensures sent + lost + batch == sent + (lost + batch) + []
  {
  }

  // ----- Batching -----

  /** One sender's view of the channel: whether the receiver lives, and the batches delivered. */
  class Channel {
    var open: bool
    var sent: seq<seq<Entry>>

    constructor ()
      ensures open && sent == []
    {
      open := true;
      sent := [];
    }

    /** A send fails exactly when the receiver is gone. */
    method Send(batch: seq<Entry>) returns (ok: bool)
      modifies this`sent
      ensures ok == open && sent == if ok then old(sent) + [batch] else old(sent)
    {
      ok := open;
      if ok {
        sent := sent + [batch];
      }
    }

    /** The receiver is dropped, for good. */
    method Close()
      modifies this`open
      ensures !open
    {
      open := false;
    }
  }

  class BatchSender {
    const tx: Channel
    var buf: seq<Entry>
    var closed: bool
    /** Everything ever pushed, and the part of it lost to a closed channel. */
    ghost var pushed: seq<Entry>
    ghost var lost: seq<Entry>

    /**
     * Nothing is lost while the channel is open; what was pushed is, in order, what was
     * delivered, what was lost afterwards, and what is still buffered.
     */
    ghost predicate Valid()
      reads this, tx
    {
      && |buf| < BATCH_SIZE
      && pushed == Concat(tx.sent) + lost + buf
      && (closed ==> !tx.open)
      && (lost != [] ==> closed)
    }

    constructor (tx: Channel)
      requires tx.open && tx.sent == []
      ensures Valid() && this.tx == tx && buf == [] && pushed == [] && !closed
    {
      this.tx := tx;
      buf := [];
      closed := false;
      pushed := [];
      lost := [];
    }

    /** Queues an entry and sends the batch once it is full; false tells the walker to stop. */
    method Push(entry: Entry) returns (ok: bool)
      requires Valid()
      modifies this, tx`sent
      ensures Valid() && pushed == old(pushed) + [entry]
      ensures if |old(buf)| + 1 < 256 then
                ok && buf == old(buf) + [entry] && tx.sent == old(tx.sent) && lost == old(lost)
              else
                buf == [] && ok == tx.open &&
                tx.sent == (if ok then old(tx.sent) + [old(buf) + [entry]] else old(tx.sent)) &&
                lost == (if ok then old(lost) else old(lost) + old(buf) + [entry])
    {
      pushed := pushed + [entry];
      if |buf| + 1 >= BATCH_SIZE {
        ok := FlushFull(buf + [entry]);
      } else {
        buf := buf + [entry];
        ok := true;
      }
    }

    /** Replaces the buffer by an empty one and sends `batch`, its contents. */
    method FlushFull(batch: seq<Entry>) returns (ok: bool)
      requires |buf| < BATCH_SIZE && batch != [] && buf <= batch
      requires pushed == Concat(tx.sent) + lost + batch
      requires (closed ==> !tx.open) && (lost != [] ==> closed)
      modifies this`buf, this`closed, this`lost, tx`sent
      ensures Valid() && buf == [] && ok == tx.open
      ensures tx.sent == if ok then old(tx.sent) + [batch] else old(tx.sent)
      ensures lost == if ok then old(lost) else old(lost) + batch
      ensures closed == (old(closed) || !ok)
    {
      buf := [];
      Shift(Concat(tx.sent), lost, batch);
      ok := tx.Send(batch);
      if ok {
        ConcatOne(old(tx.sent), batch);
      } else {
        closed := true;
        lost := lost + batch;
      }
    }

    /** Sends what is buffered, if anything; false once the channel is known to be closed. */
    method Flush() returns (ok: bool)
      requires Valid()
      modifies this`buf, this`closed, this`lost, tx`sent
      ensures Valid() && buf == [] && pushed == old(pushed)
      ensures ok == if old(buf) == [] then !old(closed) else tx.open
      ensures tx.sent == if old(buf) != [] && tx.open then old(tx.sent) + [old(buf)] else old(tx.sent)
      ensures tx.open ==> lost == old(lost) && pushed == Concat(tx.sent) + lost
    {
      if buf == [] {
        return !closed;
      }
      ok := FlushFull(buf);
    }

    /** Dropping the sender: with the channel open, everything ever pushed has been delivered. */
    method Drop()
      requires Valid()
      modifies this`buf, this`closed, this`lost, tx`sent
      ensures Valid() && buf == []
      ensures tx.open ==> Concat(tx.sent) == pushed
    {
      var ok := Flush();
    }
  }

  // ----- The output thread -----

  /** What the output thread writes: every entry's text with the separator after it. */
  function Render(texts: seq<string>, sep: char): string {
    if texts == [] then [] else Render(texts[..|texts| - 1], sep) + texts[|texts| - 1] + [sep]
  }

  function Texts(text: Entry -> string, es: seq<Entry>): (ts: seq<string>)
    ensures |ts| == |es| && forall i | 0 <= i < |es| :: ts[i] == text(es[i])
  {
    seq(|es|, i requires 0 <= i < |es| => text(es[i]))
  }

  /** The first `cap` entries, all of them without a cap. */
  function Capped(es: seq<Entry>, cap: Option<nat>): seq<Entry> {
    if cap.Some? && cap.value <= |es| then es[..cap.value] else es
  }

  /** The beginning of `es`, as long as the cap lets it be. */
  predicate IsFirst(written: seq<Entry>, es: seq<Entry>, cap: Option<nat>) {
    written <= es && |written| == if cap.Some? && cap.value < |es| then cap.value else |es|
  }

  /** One more entry is written. */
  lemma RenderOne(text: Entry -> string, es: seq<Entry>, e: Entry, sep: char)
    ensures Render(Texts(text, es + [e]), sep) == Render(Texts(text, es), sep) + text(e) + [sep]
  {
    assert Texts(text, es + [e])[..|es|] == Texts(text, es);
  }

  /** One batch, after `before`: its entries up to the cap; `capped` says that the cap was reached. */
  method PrintBatch(batch: seq<Entry>, cap: Option<nat>, sep: char, text: Entry -> string,
                    out: string, count: nat, ghost before: seq<Entry>)
    returns (out': string, count': nat, ghost written: seq<Entry>, capped: bool)
    requires count == |before| && out == Render(Texts(text, before), sep) && (cap.Some? ==> count < cap.value)
    ensures written == Capped(before + batch, cap) && count' == |written|
    ensures IsFirst(written, before + batch, cap)
    ensures out' == Render(Texts(text, written), sep)
    ensures capped <==> cap.Some? && cap.value <= |before + batch|
  {
    out', count', written, capped := out, count, before, false;
    assert batch[..0] == [];
    for j := 0 to |batch|
      invariant written == before + batch[..j] && count' == |written|
      invariant out' == Render(Texts(text, written), sep)
      invariant cap.Some? ==> count' < cap.value
    {
      RenderOne(text, written, batch[j], sep);
      assert written + [batch[j]] == before + batch[..j + 1];
      out' := out' + text(batch[j]) + [sep];
      written := written + [batch[j]];
      count' := count' + 1;
      if cap.Some? && count' >= cap.value {
        assert (before + batch)[..j + 1 + |before|] == before + batch[..j + 1];
        return out', count', written, true;
      }
    }
    assert batch[..|batch|] == batch;
  }

  /**
   * The loop over batches and their entries: it stops in the middle of a batch at the cap, and
   * reports whether it did.
   */
  method PrintLoop(batches: seq<seq<Entry>>, cap: Option<nat>, sep: char, text: Entry -> string)
    returns (out: string, ghost written: seq<Entry>, capped: bool)
    requires cap.Some? ==> cap.value > 0
    ensures written == Capped(Concat(batches), cap) && IsFirst(written, Concat(batches), cap)
    ensures out == Render(Texts(text, written), sep)
    ensures capped <==> cap.Some? && cap.value <= |Concat(batches)|
  {
    out, written, capped := [], [], false;
    var count: nat := 0;
    for i := 0 to |batches|
      invariant written == Concat(batches[..i]) && count == |written|
      invariant out == Render(Texts(text, written), sep)
      invariant cap.Some? ==> count < cap.value
    {
      assert batches[..i + 1][..i] == batches[..i];
      ConcatPrefix(batches, i + 1);
      out, count, written, capped := PrintBatch(batches[i], cap, sep, text, out, count, written);
      if capped {
        return;
      }
    }
    assert batches[..|batches|] == batches;
  }

  lemma {:induction false} ConcatPrefix(batches: seq<seq<Entry>>, n: nat)
    requires n <= |batches|
    ensures Concat(batches[..n]) <= Concat(batches)
    decreases |batches| - n
  {
    if n < |batches| {
      assert batches[..n + 1][..n] == batches[..n];
      ConcatPrefix(batches, n + 1);
    } else {
      assert batches[..n] == batches;
    }
  }

  // ----- Reading the output back -----

  /** A consumer's view: the pieces the separator terminates. */
  function Pieces(s: string, sep: char): seq<string> {
    if s == [] then []
    else
      var rest := Pieces(s[1..], sep);
      if s[0] == sep then [[]] + rest
      else if rest == [] then []
      else [[s[0]] + rest[0]] + rest[1..]
  }

  function Seps(s: string, sep: char): nat {
    if s == [] then 0 else (if s[0] == sep then 1 else 0) + Seps(s[1..], sep)
  }

  lemma {:induction false} PieceCount(s: string, sep: char)
    ensures |Pieces(s, sep)| == Seps(s, sep)
    decreases |s|
  {
    if s != [] {
      PieceCount(s[1..], sep);
    }
  }

  lemma {:induction false} SepsSplit(a: string, b: string, sep: char)
    ensures Seps(a + b, sep) == Seps(a, sep) + Seps(b, sep)
    decreases |a|
  {
    if a == [] {
      assert a + b == b;
    } else {
      assert (a + b)[1..] == a[1..] + b;
      SepsSplit(a[1..], b, sep);
    }
  }

  lemma {:induction false} NoSeps(s: string, sep: char)
    ensures Seps(s, sep) == 0 <==> sep !in s
    decreases |s|
  {
    if s != [] {
      NoSeps(s[1..], sep);
      assert s == [s[0]] + s[1..];
    }
  }

  lemma {:induction false} PieceOf(t: string, b: string, sep: char)
    requires sep !in t
    ensures Pieces(t + [sep] + b, sep) == [t] + Pieces(b, sep)
    decreases |t|
  {
    if t == [] {
      assert t + [sep] + b == [sep] + b && ([sep] + b)[1..] == b;
    } else {
      assert (t + [sep] + b)[1..] == t[1..] + [sep] + b;
      PieceOf(t[1..], b, sep);
      assert [t[0]] + t[1..] == t;
    }
  }

  lemma {:induction false} RenderFront(ts: seq<string>, sep: char)
    requires ts != []
    ensures Render(ts, sep) == ts[0] + [sep] + Render(ts[1..], sep)
    decreases |ts|
  {
    var n := |ts| - 1;
    if n > 0 {
      RenderFront(ts[..n], sep);
      assert ts[..n][1..] == ts[1..][..n - 1] && ts[1..][n - 1] == ts[n];
      Rebracket(ts[0] + [sep], Render(ts[1..][..n - 1], sep), ts[n], [sep]);
    } else {
      assert ts[..0] == [] && ts[1..] == [];
      assert Render([], sep) == [];
    }
  }

  lemma Rebracket(a: string, b: string, c: string, d: string)
    ensures (a + b) + c + d == a + (b + c + d)
  {
  }

  lemma {:induction false} RenderSeps(ts: seq<string>, sep: char)
    ensures Seps(Render(ts, sep), sep) >= |ts|
    ensures Seps(Render(ts, sep), sep) == |ts| <==> forall t | t in ts :: sep !in t
    decreases |ts|
  {
    if ts != [] {
      RenderFront(ts, sep);
      RenderSeps(ts[1..], sep);
      SepsSplit(ts[0] + [sep], Render(ts[1..], sep), sep);
      SepsSplit(ts[0], [sep], sep);
      assert [sep][1..] == [];
      NoSeps(ts[0], sep);
      assert forall t :: t in ts <==> t == ts[0] || t in ts[1..];
    }
  }

  lemma {:induction false} CleanTextsReadBack(ts: seq<string>, sep: char)
    requires forall t | t in ts :: sep !in t
    ensures Pieces(Render(ts, sep), sep) == ts
    decreases |ts|
  {
    if ts != [] {
      RenderFront(ts, sep);
      CleanTextsReadBack(ts[1..], sep);
      PieceOf(ts[0], Render(ts[1..], sep), sep);
    }
  }

  /**
   * The output can be split into the written paths again exactly when no path contains the
   * separator: always with NUL, which no path contains, and not always with a newline.
   */
  lemma OutputReadsBack(ts: seq<string>, sep: char)
    ensures Pieces(Render(ts, sep), sep) == ts <==> forall t | t in ts :: sep !in t
  {
    if Pieces(Render(ts, sep), sep) == ts {
      PieceCount(Render(ts, sep), sep);
      RenderSeps(ts, sep);
    }
    if forall t | t in ts :: sep !in t {
      CleanTextsReadBack(ts, sep);
    }
  }
}
