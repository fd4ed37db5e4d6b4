/**
 * The durability barrier around every social procedure: everything queued is
 * written before the procedure runs and again before it answers, and once a
 * write has failed nothing is answered any more.
 */
module SocialProcedure {
  import opened Vocabulary
  import opened Ledgers
  import opened DurableTables
  import opened WriteBehind
  import opened Durability
  import opened CallsStores

  /** What becomes of a write on its way: it arrives, is lost, or arrives and its answer is lost. */
  datatype Delivery = Delivered | Lost | Unheard

  datatype Reply = Unavailable | Declined(code: ErrorCode) | Acknowledged

  /** What one write on its way does to the tables and to the count of failures. */
  function Sent(t: Tables, failures: nat, w: Write, how: Delivery): (r: (Tables, nat))
    ensures r.1 >= failures
  {
    var arrives := how != Lost && Accepts(t.book, w);
    (if arrives then Store(t, w) else t, if arrives && how == Delivered then failures else failures + 1)
  }

  /** A whole queue, in order: each write is sent, whatever became of those before it. */
  function Written(t: Tables, failures: nat, queue: seq<Write>, delivery: nat -> Delivery): (Tables, nat) {
    if queue == [] then (t, failures)
    else
      var n := |queue| - 1;
      var before := Written(t, failures, queue[..n], delivery);
      Sent(before.0, before.1, queue[n], delivery(n))
  }

  lemma WrittenNext(t: Tables, failures: nat, queue: seq<Write>, delivery: nat -> Delivery, n: nat)
    requires n < |queue|
    ensures var before := Written(t, failures, queue[..n], delivery);
            Written(t, failures, queue[..n + 1], delivery) == Sent(before.0, before.1, queue[n], delivery(n))
            && Sent(before.0, before.1, queue[n], delivery(n)).1 >= before.1
  {
    hide Sent;
    assert queue[..n + 1][..n] == queue[..n];
  }

  class SocialGateway {
    const store: SupabaseCallsStore
    var tables: Tables
    var failures: nat

    constructor (store: SupabaseCallsStore, tables: Tables)
      ensures this.store == store && this.tables == tables && failures == 0
    {
      this.store, this.tables, failures := store, tables, 0;
    }

    /** The process and the database it writes to, as the durability machine sees them. */
    function Abstract(): System
      reads this, store, store.mirror
    {
      System(tables, Some(Process(store.mirror.Contents(), store.queue, failures > 0, store.thesisTable)))
    }

    /** The write at the head of the queue goes out; a failure is recorded. */
    method SendNext(ghost e: Env, how: Delivery)
      requires StableUuids(e) && Safe(e, Abstract()) && store.queue != []
      modifies this, store
      ensures store.queue == old(store.queue)[1..] && store.mirror == old(store.mirror)
      ensures store.mirror.Contents() == old(store.mirror.Contents()) && store.thesisTable == old(store.thesisTable)
      ensures (tables, failures) == Sent(old(tables), old(failures), old(store.queue)[0], how)
      ensures Safe(e, Abstract()) && Keeps(old(tables.book), tables.book)
      ensures old(failures) == 0 && how == Delivered ==> failures == 0
      ensures !store.thesisTable ==> tables.book.updates == old(tables.book.updates)
    {
      hide Safe, Keeps, Accepts, Store, StableUuids;
      ghost var before := Abstract();
      SentUpdates(e, before);
      if failures == 0 { HeadAccepted(e, before); }
      var w := store.queue[0];
      store.queue := store.queue[1..];
      if how == Lost || !Accepts(tables.book, w) {
        failures := failures + 1;
        FailMove(e, before, Abstract());
      } else {
        tables := Store(tables, w);
        if how == Unheard { failures := failures + 1; }
        LandMove(e, before, Abstract());
      }
    }

    /** Write what is queued, in order, going on past failures. When nothing is lost on the way, nothing fails. */
    method Drain(ghost e: Env, delivery: nat -> Delivery)
      requires StableUuids(e) && Safe(e, Abstract())
      modifies this, store
      ensures store.queue == [] && store.mirror == old(store.mirror)
          && store.mirror.Contents() == old(store.mirror.Contents())
      ensures store.thesisTable == old(store.thesisTable)
      ensures (tables, failures) == Written(old(tables), old(failures), old(store.queue), delivery)
          && failures >= old(failures)
      ensures Safe(e, Abstract()) && Keeps(old(tables.book), tables.book)
      ensures old(failures) == 0 && (forall i :: delivery(i) == Delivered) ==> failures == 0
      ensures !store.thesisTable ==> tables.book.updates == old(tables.book.updates)
    {
      hide Safe, Keeps, Sent, StableUuids, Written;
      KeepsItself(tables.book);
      ghost var queue := store.queue;
      var i := 0;
      NothingWritten(tables, failures, queue, delivery);
      while store.queue != []
        invariant i <= |queue| && store.queue == queue[i..]
        invariant store.mirror == old(store.mirror) && store.mirror.Contents() == old(store.mirror.Contents())
        invariant store.thesisTable == old(store.thesisTable)
        invariant (tables, failures) == Written(old(tables), old(failures), queue[..i], delivery)
            && failures >= old(failures)
        invariant Safe(e, Abstract()) && Keeps(old(tables.book), tables.book)
        invariant old(failures) == 0 && (forall i :: delivery(i) == Delivered) ==> failures == 0
        invariant !store.thesisTable ==> tables.book.updates == old(tables.book.updates)
        decreases |store.queue|
      {
        ghost var before := tables.book;
        WrittenNext(old(tables), old(failures), queue, delivery, i);
        SendNext(e, delivery(i));
        KeepsTransitive(old(tables.book), before, tables.book);
        i := i + 1;
      }
      assert queue[..i] == queue;
    }

    /** Whether everything queued is written and nothing has ever failed. */
    method Barrier(ghost e: Env, delivery: nat -> Delivery) returns (ok: bool)
      requires StableUuids(e) && Safe(e, Abstract())
      modifies this, store
      ensures store.mirror == old(store.mirror) && store.mirror.Contents() == old(store.mirror.Contents())
      ensures store.thesisTable == old(store.thesisTable)
      ensures Safe(e, Abstract()) && Keeps(old(tables.book), tables.book) && failures >= old(failures)
      ensures ok <==> Passes(Abstract())
      ensures old(failures) > 0 ==> !ok
      ensures old(failures) == 0 && (forall i :: delivery(i) == Delivered) ==> ok
      ensures !store.thesisTable ==> tables.book.updates == old(tables.book.updates)
    {
      hide Written;
      Drain(e, delivery);
      ok := failures == 0;
    }

    /** One mutation, made in the mirror and queued, or refused with nothing moved. */
    method Mutate(e: Env, op: Op) returns (refusal: Option<ErrorCode>)
      requires forall id | id in store.mirror.calls :: store.mirror.calls[id].id == id
      modifies store, store.mirror
      ensures store.mirror == old(store.mirror) && store.thesisTable == old(store.thesisTable)
      ensures refusal == RefusalOf(e, old(store.thesisTable), old(store.mirror.Contents()), op)
      ensures refusal.None? ==>
                && Perform(e, old(store.mirror.Contents()), op) == Ok(store.mirror.Contents())
                && store.queue == old(store.queue) + Queued(e, old(store.mirror.Contents()), op)
      ensures refusal.Some? ==>
          store.mirror.Contents() == old(store.mirror.Contents()) && store.queue == old(store.queue)
    {
      hide Perform, Queued;
      match op
      case AddCall(rec) => var r := store.InsertCall(e, rec); refusal := if r.Err? then Some(r.code) else None;
      case Hide(callId, reason, at) => var r := store.HideCall(e, callId, reason, at);
          refusal := if r.Err? then Some(r.code) else None;
      case Unhide(callId) => var r := store.UnhideCall(e, callId); refusal := if r.Err? then Some(r.code) else None;
      case AddResponse(rec) => var r := store.InsertResponse(e, rec); refusal := if r.Err? then Some(r.code) else None;
      case AddUpdate(rec) => var r := store.InsertThesisUpdate(e, rec);
          refusal := if r.Err? then Some(r.code) else None;
      case SetResult(callId, ev, at, actor) => var r := store.WriteResult(e, callId, ev, at, actor);
          refusal := if r.Err? then Some(r.code) else None;
      case Follow(a, b) => store.Follow(e, a, b); refusal := None;
      case Unfollow(a, b) => store.Unfollow(e, a, b); refusal := None;
      case Cursor(name, c) => store.SetCursor(e, name, c); refusal := None;
    }

    /**
     * The procedure's own work: its mutations in turn, until one is refused. What was
     * made before a refusal stays made.
     */
    method Work(e: Env, ops: seq<Op>) returns (made: nat, refusal: Option<ErrorCode>)
      requires StableUuids(e) && Safe(e, Abstract()) && AllTimely(e, Abstract(), ops)
      modifies store, store.mirror
      ensures store.mirror == old(store.mirror) && store.thesisTable == old(store.thesisTable)
      ensures Safe(e, Abstract())
      ensures made <= |ops| && PerformAll(e, old(store.mirror.Contents()), ops[..made]) == Ok(store.mirror.Contents())
      ensures refusal.None? <==> made == |ops|
      ensures refusal.Some? ==> refusal == RefusalOf(e, store.thesisTable, store.mirror.Contents(), ops[made])
    {
      hide Safe, Perform, PerformAll, Timely, Queued, StableUuids, RefusalOf, TimelyAfter;
      ghost var start := Abstract();
      made, refusal := 0, None;
      NothingPerformed(e, store.mirror.Contents(), ops);
      while made < |ops|
        invariant made <= |ops| && refusal.None? && store.mirror == old(store.mirror)
            && store.thesisTable == old(store.thesisTable)
        invariant Safe(e, Abstract()) && tables == old(tables) && failures == old(failures)
        invariant PerformAll(e, old(store.mirror.Contents()), ops[..made]) == Ok(store.mirror.Contents())
      {
        ghost var before := Abstract();
        SafeKeyed(e, before);
        refusal := Mutate(e, ops[made]);
        if refusal.Some? { return; }
        PerformNext(e, old(store.mirror.Contents()), ops, made);
        NextIsTimely(e, start, before, ops, made);
        WorkMove(e, before, ops[made], Abstract());
        made := made + 1;
      }
      assert ops[..made] == ops;
    }

    /**
     * Barrier, work, barrier. An acknowledgement means every mutation was
     * performed, everything the mirror shows is in the tables, and no write has
     * failed. A refusal names the code of the mutation refused; those before it
     * are made and in the tables. After a failure every procedure answers that
     * it is unavailable, and does nothing.
     */
    method Run(e: Env, ops: seq<Op>, before: nat -> Delivery, after: nat -> Delivery)
        returns (reply: Reply, ghost made: nat)
      requires StableUuids(e) && Safe(e, Abstract()) && AllTimely(e, Abstract(), ops)
      modifies this, store, store.mirror
      ensures Safe(e, Abstract()) && Keeps(old(tables.book), tables.book) && store.mirror == old(store.mirror)
      ensures made <= |ops| && PerformAll(e, old(store.mirror.Contents()), ops[..made]) == Ok(store.mirror.Contents())
      ensures reply != Unavailable ==> Passes(Abstract()) && Mirrors(e, tables, EntireOf(Abstract()))
      ensures reply != Unavailable && store.thesisTable ==> Mirrors(e, tables, store.mirror.Contents())
      ensures reply.Acknowledged? ==> made == |ops|
      ensures reply.Declined? ==>
          made < |ops| && Some(reply.code) == RefusalOf(e, store.thesisTable, store.mirror.Contents(), ops[made])
      ensures old(failures) > 0 ==> reply == Unavailable && made == 0
      ensures old(failures) == 0 && (forall i :: before(i) == Delivered && after(i) == Delivered) ==>
          reply != Unavailable
    {
      hide Safe, Keeps, PerformAll, AllTimely, RefusalOf, StableUuids, Mirrors;
      made := 0;
      NothingPerformed(e, store.mirror.Contents(), ops);
      ghost var start := Abstract();
      var ahead := Barrier(e, before);
      if !ahead { return Unavailable, made; }
      StillTimely(e, start, Abstract(), ops);
      var done, refusal := Work(e, ops);
      made := done;
      ghost var worked, shown := tables.book, store.mirror.Contents();
      var behind := Barrier(e, after);
      KeepsTransitive(old(tables.book), worked, tables.book);
      if !behind { return Unavailable, made; }
      AllWritten(e, Abstract());
      if refusal.Some? { return Declined(refusal.value), made; }
      reply := Acknowledged;
    }
  }

  lemma NothingWritten(t: Tables, failures: nat, queue: seq<Write>, delivery: nat -> Delivery)
    ensures Written(t, failures, queue[..0], delivery) == (t, failures)
  {
  }

  /** Each mutation, once those before it are made, is one the clock and the callers vouch for. */
  ghost predicate AllTimely(e: Env, s: System, ops: seq<Op>)
    requires s.process.Some?
  {
    forall k | 0 <= k < |ops| :: TimelyAfter(e, s.tables.book.updates, s.process.value, ops[..k], ops[k])
  }

  /** `updates`: those on record, for a process that did not read them. */
  ghost predicate TimelyAfter(e: Env, updates: map<Id, ThesisUpdate>, p: Process, before: seq<Op>, op: Op) {
    var so := PerformAll(e, p.mirror, before);
    so.Ok? && RefusalOf(e, p.thesisTable, so.value, op).None? ==>
      Timely(if p.thesisTable then so.value else WithUpdates(so.value, updates), op)
  }

  /** It depends on what is shown, on whether the updates were read, and if not on those on record. */
  lemma StillTimely(e: Env, s: System, s': System, ops: seq<Op>)
    requires s.process.Some? && s'.process.Some? && AllTimely(e, s, ops)
    requires s'.process.value.mirror == s.process.value.mirror
        && s'.process.value.thesisTable == s.process.value.thesisTable
    requires !s.process.value.thesisTable ==> s'.tables.book.updates == s.tables.book.updates
    ensures AllTimely(e, s', ops)
  {
    hide PerformAll, RefusalOf, Timely;
  }

  lemma NextIsTimely(e: Env, start: System, s: System, ops: seq<Op>, k: nat)
    requires start.process.Some? && s.process.Some? && k < |ops| && AllTimely(e, start, ops)
    requires PerformAll(e, start.process.value.mirror, ops[..k]) == Ok(s.process.value.mirror)
    requires s.tables == start.tables && s.process.value.thesisTable == start.process.value.thesisTable
    requires RefusalOf(e, s.process.value.thesisTable, s.process.value.mirror, ops[k]).None?
    ensures Timely(Entire(s.tables, s.process.value).mirror, ops[k])
  {
    hide PerformAll, RefusalOf, Timely;
    assert TimelyAfter(e, start.tables.book.updates, start.process.value, ops[..k], ops[k]);
  }

  /** A process that did not read the updates has none to write. */
  lemma SentUpdates(e: Env, s: System)
    requires Safe(e, s) && HasWrite(s)
    ensures !s.process.value.thesisTable ==>
        Store(s.tables, s.process.value.queue[0]).book.updates == s.tables.book.updates
  {
    hide Anchored, Stored;
  }

  lemma NothingPerformed(e: Env, l: Ledger, ops: seq<Op>)
    ensures PerformAll(e, l, ops[..0]) == Ok(l)
  {
  }

  lemma PerformNext(e: Env, l: Ledger, ops: seq<Op>, k: nat)
    requires k < |ops| && PerformAll(e, l, ops[..k]).Ok?
    ensures PerformAll(e, l, ops[..k + 1]) == Perform(e, PerformAll(e, l, ops[..k]).value, ops[k])
  {
    PerformLast(e, l, ops[..k], ops[k]);
    assert ops[..k + 1] == ops[..k] + [ops[k]];
  }

  /** Until something fails, the write at the head is one the database takes. */
  lemma HeadAccepted(e: Env, s: System)
    requires Safe(e, s) && HasWrite(s) && !s.process.value.failed
    ensures Accepts(s.tables.book, s.process.value.queue[0])
  {
    NothingRefused(e, s, 0);
  }

  lemma FailMove(e: Env, s: System, s': System)
    requires StableUuids(e) && Safe(e, s) && HasWrite(s) && s' == System(s.tables, Some(Shift(s.process.value, true)))
    ensures Safe(e, s') && Keeps(s.tables.book, s'.tables.book)
  {
    hide Safe, StableUuids, Keeps;
    StepSafe(e, s, Fail, s');
  }

  lemma LandMove(e: Env, s: System, s': System)
    requires StableUuids(e) && Safe(e, s) && TakesWrite(s) && s'.process.Some?
    requires s' == System(Store(s.tables, s.process.value.queue[0]),
        Some(Shift(s.process.value, s'.process.value.failed)))
    requires s.process.value.failed ==> s'.process.value.failed
    ensures Safe(e, s') && Keeps(s.tables.book, s'.tables.book)
  {
    hide Safe, StableUuids, Keeps, Store;
    if s'.process.value.failed == s.process.value.failed {
      StepSafe(e, s, Land, s');
    } else {
      StepSafe(e, s, LandUnheard, s');
    }
  }

  lemma WorkMove(e: Env, s: System, op: Op, s': System)
    requires StableUuids(e) && Safe(e, s) && s.process.Some?
    requires var p := s.process.value;
             && RefusalOf(e, p.thesisTable, p.mirror, op).None? && Perform(e, p.mirror, op).Ok?
                 && Timely(Entire(s.tables, p).mirror, op)
             && s' == s.(process := Some(Performed(e, p, op)))
    ensures Safe(e, s')
  {
    hide Safe, StableUuids, Keeps, Perform, Timely, Queued, RefusalOf;
    StepSafe(e, s, Request(op), s');
  }

  lemma AllWritten(e: Env, s: System)
    requires Safe(e, s) && Passes(s)
    ensures Mirrors(e, s.tables, EntireOf(s))
  {
    BarrierMirrors(e, s);
  }

  lemma SafeKeyed(e: Env, s: System)
    requires Safe(e, s) && s.process.Some?
    ensures forall id | id in s.process.value.mirror.book.calls :: s.process.value.mirror.book.calls[id].id == id
  {
    var base :| Anchored(e, s.tables, Entire(s.tables, s.process.value), base);
    QueueEndsSound(e, base, Entire(s.tables, s.process.value));
    var l := EntireOf(s);
    RowFields(e, l.book);
    forall id | id in l.book.calls ensures l.book.calls[id].id == id {
      assert CallSound(e, RowBook(e, l.book).calls, id);
    }
  }
}
