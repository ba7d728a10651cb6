/** A walker's visitor: the filter cascade, cheapest first, in front of its batch. */
module Visitor {
  import opened FileSystem
  import opened Comparisons
  import opened FileTypes
  import opened MetaPredicates
  import opened Output
  import Machine

  /** The system calls' answers about entries, as the walker gets them. */
  datatype World = World(spelling: Path -> Name, isEmpty: Entry -> bool, readlink: Entry -> Option<string>,
                         fetch: (Entry, bv32) -> Option<Meta>, access: (Entry, bv8) -> bool,
                         users: nat -> bool, groups: nat -> bool)

  /** Matchers are predicates on names and paths; an absent one matches everything. */
  datatype Filters = Filters(minDepth: nat, types: FileType, name: Option<Name -> bool>,
                             regex: Option<Path -> bool>, path: Option<Path -> bool>,
                             lname: Option<string -> bool>, meta: Predicates, now: i64, access: bv8)

  /** What stat would say about an entry with every field asked for. */
  type Truth = Entry -> Option<Meta>

  /**
   * The leaf's promise: a fetch succeeds exactly when stat does and tells the truth about the
   * fields asked for. About all other fields it may say anything.
   */
  ghost predicate Honest(world: World, truth: Truth) {
    forall e, mask ::
      && world.fetch(e, mask).Some? == truth(e).Some?
      && (truth(e).Some? ==>
            forall f | InMask(mask, f) :: SameField(world.fetch(e, mask).value, truth(e).value, f))
  }

  /** The last component, or the whole path of a root like `/` or `..` that ends in no name. */
  function FileName(world: World, path: Path): Name {
    if path == [] || path[|path| - 1] in {"/", ".", ".."} then world.spelling(path) else path[|path| - 1]
  }

  predicate NameStages(fl: Filters, world: World, e: Entry) {
    && (fl.name.Some? ==> fl.name.value(FileName(world, e.path)))
    && (fl.regex.Some? ==> fl.regex.value(e.path))
    && (fl.path.Some? ==> fl.path.value(e.path))
  }

  predicate LinkStage(fl: Filters, world: World, e: Entry) {
    fl.lname.Some? ==>
      e.ty == Symlink && world.readlink(e).Some? && fl.lname.value(world.readlink(e).value)
  }

  predicate MetaStage(fl: Filters, world: World, truth: Truth, e: Entry)
    requires Proper(fl.meta)
  {
    IsActive(fl.meta) ==>
      truth(e).Some? && Verdict(fl.meta, truth(e).value, fl.now, world.users, world.groups)
  }

  /** What the user asked for: the conjunction of all active filters, over the entry's real metadata. */
  predicate Keep(fl: Filters, world: World, truth: Truth, e: Entry)
    requires Proper(fl.meta)
  {
    && e.depth >= fl.minDepth
    && !Ignores(fl.types, e.ty, world.isEmpty(e))
    && NameStages(fl, world, e)
    && LinkStage(fl, world, e)
    && MetaStage(fl, world, truth, e)
    && (fl.access != 0 ==> world.access(e, fl.access))
  }

  datatype WalkState = Continue | Quit

  class Visitor {
    const fl: Filters
    const mask: bv32
    const world: World
    const batch: BatchSender
    const nss: NssCache

    ghost predicate Valid()
      reads this, batch, batch.tx, nss
    {
      && Proper(fl.meta) && MaskIs(mask, FieldsRead(fl.meta))
      && batch.Valid() && nss.Valid() && nss.userDb == world.users && nss.groupDb == world.groups
    }

    constructor (fl: Filters, world: World, mask: bv32, tx: Channel)
      requires Proper(fl.meta) && MaskIs(mask, FieldsRead(fl.meta)) && tx.open && tx.sent == []
      ensures Valid() && this.fl == fl && this.world == world && this.mask == mask && batch.tx == tx
      ensures fresh(batch) && fresh(nss) && batch.pushed == []
    {
      this.fl, this.world, this.mask := fl, world, mask;
      batch := new BatchSender(tx);
      nss := new NssCache(world.users, world.groups);
    }

    /** The stages before the stat, cheapest first. */
    predicate EarlyStages(e: Entry) {
      && e.depth >= fl.minDepth
      && !Ignores(fl.types, e.ty, world.isEmpty(e))
      && NameStages(fl, world, e)
      && LinkStage(fl, world, e)
    }

    /** The early stages, each returning at the first filter that rejects. */
    method CheckEarly(e: Entry) returns (ok: bool)
      ensures ok == EarlyStages(e)
    {
      if e.depth < fl.minDepth {
        return false;
      }
      if Ignores(fl.types, e.ty, world.isEmpty(e)) {
        return false;
      }
      if fl.name.Some? && !fl.name.value(FileName(world, e.path)) {
        return false;
      }
      if fl.regex.Some? && !fl.regex.value(e.path) {
        return false;
      }
      if fl.path.Some? && !fl.path.value(e.path) {
        return false;
      }
      if fl.lname.Some? {
        if e.ty != Symlink {
          return false;
        }
        var target := world.readlink(e);
        if target.None? || !fl.lname.value(target.value) {
          return false;
        }
      }
      return true;
    }

    /** The stat stage, skipped when no predicate is active; the memo answers for the name service. */
    method CheckMeta(e: Entry, ghost truth: Truth) returns (ok: bool)
      requires Valid() && Honest(world, truth)
      modifies nss
      ensures nss.Valid() && ok == MetaStage(fl, world, truth, e)
    {
      if !IsActive(fl.meta) {
        return true;
      }
      var m := world.fetch(e, mask);
      if m.None? {
        return false;
      }
      MaskIsSound(fl.meta, mask, m.value, truth(e).value, fl.now, world.users, world.groups);
      ok := CachedVerdict(fl.meta, m.value, fl.now, nss);
    }

    /**
     * The visitor. Unless the run is shutting down it accepts exactly the entries the filters
     * keep, whatever it saw before and whatever the leaf says about unrequested fields. It says
     * Quit only on shutdown or when its full batch meets a closed channel.
     */
    method Visit(e: Entry, shutdown: bool, ghost truth: Truth) returns (state: WalkState)
      requires Valid() && Honest(world, truth)
      modifies nss, batch, batch.tx`sent
      ensures Valid() && batch.tx.open == old(batch.tx.open)
      ensures var kept := !shutdown && Keep(fl, world, truth, e);
              && batch.pushed == old(batch.pushed) + (if kept then [e] else [])
              && (!kept ==> batch.buf == old(batch.buf) && batch.tx.sent == old(batch.tx.sent))
              && (kept ==> Pushed(e, old(batch.buf), old(batch.tx.sent)))
      ensures state.Quit? <==>
                shutdown || (Keep(fl, world, truth, e) && |old(batch.buf)| + 1 == Machine.BATCH_SIZE && !batch.tx.open)
    {
      if shutdown {
        return Quit;
      }
      var early := CheckEarly(e);
      if !early {
        return Continue;
      }
      var ok := CheckMeta(e, truth);
      if !ok {
        return Continue;
      }
      if fl.access != 0 && !world.access(e, fl.access) {
        return Continue;
      }
      var more := batch.Push(e);
      if !more {
        return Quit;
      }
      return Continue;
    }

    /** The batch after accepting `e`: one entry longer, or full and sent unless the channel is closed. */
    ghost predicate Pushed(e: Entry, buf: seq<Entry>, sent: seq<seq<Entry>>)
      reads batch, batch.tx
    {
      if |buf| + 1 < Machine.BATCH_SIZE then batch.buf == buf + [e] && batch.tx.sent == sent
      else batch.buf == [] && batch.tx.sent == if batch.tx.open then sent + [buf + [e]] else sent
    }

    /** Where the machine's walker `k` is after its visitor step on `e` and the send that may follow. */
    ghost function Settled(job: Plan, shutdown: bool, k: Machine.Walker, q: Machine.QTask, spot: Machine.Spot,
                           e: Entry): Machine.Walker
      reads batch, batch.tx
    {
      var k' := Machine.Visit(job, shutdown, k, q, spot, e);
      if !k'.phase.Sending? then k'
      else if batch.tx.open then Machine.Sent(job, k')
      else Machine.StepOf(job, Machine.View(false, shutdown, 0, 0, true, 0), k', Machine.SendFails).k
    }

    /**
     * The visitor refines the machine: run on a batch like that of walker `k`, it leaves the batch
     * and the accepted entries of the machine's walker, has delivered the batch on which that
     * walker blocks, if any, and says Quit exactly when that walker is on its way out.
     */
    method VisitAs(e: Entry, shutdown: bool, ghost truth: Truth, ghost job: Plan, ghost k: Machine.Walker,
                   ghost q: Machine.QTask, ghost spot: Machine.Spot)
      returns (state: WalkState)
      requires Valid() && Honest(world, truth) && job.cfg.keep(e) == Keep(fl, world, truth, e)
      requires k.buf == batch.buf && k.log == batch.pushed
      modifies nss, batch, batch.tx`sent
      ensures Valid() && batch.tx.open == old(batch.tx.open)
      ensures var k' := Settled(job, shutdown, k, q, spot, e);
              && batch.buf == k'.buf && batch.pushed == k'.log
              && k'.phase == if state.Quit? then Machine.Quitting(q, spot) else Machine.Resume(job, q, spot)
      ensures var blocked := Machine.Visit(job, shutdown, k, q, spot, e).phase;
              batch.tx.sent == old(batch.tx.sent)
                               + if blocked.Sending? && batch.tx.open then [blocked.batch] else []
    {
      state := Visit(e, shutdown, truth);
    }
  }
}
