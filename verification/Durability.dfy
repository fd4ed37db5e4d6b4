/**
 * Acknowledged means durable, as a state machine: requests, single queue
 * writes that land, are refused or lose their answer, closing barriers,
 * crashes, and restarts that hydrate. The queue goes on after a failed write,
 * exactly as the write queue does; only a restart clears the failure. A restart
 * may find the updates table unreadable: it then serves without it, and every
 * append to it is refused until a later restart reads it.
 */
module Durability {
  import opened Vocabulary
  import opened Ledgers
  import opened DurableTables
  import opened WriteBehind
  import opened Hydration

  /**
   * One process: its mirror, the writes still queued, whether any write has failed, and
   * whether the updates table was read.
   */
  datatype Process = Process(mirror: Ledger, queue: seq<Write>, failed: bool, thesisTable: bool)

  datatype System = System(tables: Tables, process: Option<Process>)

  datatype Step =
    | Request(op: Op)      // a mutation, accepted or refused by the mirror
    | Land                 // the database takes the next write
    | Fail                 // the next write is refused or never arrives
    | LandUnheard          // the database takes it, but the answer is lost
    | Barrier              // a social procedure passes its closing barrier
    | Crash
    | Restart(selection: Selection, updatesRead: bool)

  ghost predicate Next(e: Env, s: System, step: Step, s': System) {
    match step
    case Request(op) => s.process.Some? && Requested(e, s, op, s')
    case Land =>
        TakesWrite(s)
        && s' == System(Store(s.tables, s.process.value.queue[0]), Some(Shift(s.process.value, s.process.value.failed)))
    case Fail => HasWrite(s) && s' == System(s.tables, Some(Shift(s.process.value, true)))
    case LandUnheard =>
        TakesWrite(s) && s' == System(Store(s.tables, s.process.value.queue[0]), Some(Shift(s.process.value, true)))
    case Barrier => Passes(s) && s' == s
    case Crash => s' == System(s.tables, None)
    case Restart(sel, read) =>
        s.process.None? && Selects(s.tables, sel) && s' == System(s.tables, Some(Started(e, s.tables, sel, read)))
  }

  /** A new process: hydrated, with nothing queued. */
  function Started(e: Env, t: Tables, sel: Selection, updatesRead: bool): Process
    requires (forall id | id in sel.calls :: id in t.book.calls)
        && (forall id | id in sel.responses :: id in t.book.responses)
    requires (forall id | id in sel.results :: id in t.book.results)
        && (forall id | id in sel.updates :: id in t.book.updates)
  {
    Process(Hydrate(e, t, if updatesRead then sel else Unread(sel)).ledger, [], false, updatesRead)
  }

  ghost predicate Requested(e: Env, s: System, op: Op, s': System)
    requires s.process.Some?
  {
    var p := s.process.value;
    if RefusalOf(e, p.thesisTable, p.mirror, op).Some? then s' == s
    else Timely(Entire(s.tables, p).mirror, op) && s' == s.(process := Some(Performed(e, p, op)))
  }

  function Performed(e: Env, p: Process, op: Op): Process
    requires Perform(e, p.mirror, op).Ok?
  {
    p.(mirror := Perform(e, p.mirror, op).value, queue := p.queue + Queued(e, p.mirror, op))
  }

  /** The process as it would be had it read the updates on record. */
  function Entire(t: Tables, p: Process): Process {
    if p.thesisTable then p else p.(mirror := WithUpdates(p.mirror, t.book.updates))
  }

  /** What the process shows; nothing while there is none. */
  function MirrorOf(s: System): Ledger { if s.process.Some? then s.process.value.mirror else EMPTY }

  predicate HasWrite(s: System) { s.process.Some? && s.process.value.queue != [] }

  ghost predicate TakesWrite(s: System) { HasWrite(s) && Accepts(s.tables.book, s.process.value.queue[0]) }

  function Shift(p: Process, failed: bool): Process
    requires p.queue != []
  {
    p.(queue := p.queue[1..], failed := failed)
  }

  /** The barrier: everything queued has been written, and nothing failed. */
  predicate Passes(s: System) { s.process.Some? && s.process.value.queue == [] && !s.process.value.failed }

  // ── the invariant ───────────────────────────────────────────────────────

  /** `base`: the records as they would stand at the head of the queue had nothing failed. */
  ghost predicate Anchored(e: Env, t: Tables, p: Process, base: Book) {
    && Sound(e, base) && Keeps(t.book, base)
    && FitAll(e, base, p.queue) && RecordAll(base, p.queue) == RowBook(e, p.mirror.book)
    && LockOrder(p.mirror)
    && (!p.failed ==> t.book == base && Mirrors(e, StoreAll(t, p.queue), p.mirror))
  }

  ghost predicate Stored(e: Env, t: Tables) { Sound(e, t.book) && RowBook(e, t.book) == t.book }

  /** A process that did not read the updates shows none and writes none. */
  ghost predicate Partial(p: Process) {
    !p.thesisTable ==> p.mirror.book.updates == map[] && forall w | w in p.queue :: !w.InsertUpdateRow?
  }

  ghost predicate Safe(e: Env, s: System) {
    && Stored(e, s.tables)
    && (s.process.Some? ==>
          Partial(s.process.value) && exists base :: Anchored(e, s.tables, Entire(s.tables, s.process.value), base))
  }

  // ── what each step does to it ───────────────────────────────────────────

  lemma QueueEndsSound(e: Env, base: Book, p: Process)
    requires Sound(e, base) && FitAll(e, base, p.queue) && RecordAll(base, p.queue) == RowBook(e, p.mirror.book)
    ensures Sound(e, RowBook(e, p.mirror.book)) && Keeps(base, RowBook(e, p.mirror.book))
  {
    assert p.queue[..|p.queue|] == p.queue;
    QueueLands(e, base, p.queue, |p.queue|);
  }

  lemma FollowsFollow(e: Env, t: Tables, l: Ledger, op: Op)
    requires FollowGraph(t) == l.follows && t.cursors == l.cursors && Perform(e, l, op).Ok?
    ensures var t', l' := StoreAll(t, Queued(e, l, op)), Perform(e, l, op).value;
        FollowGraph(t') == l'.follows && t'.cursors == l'.cursors
  {
    var ws := Queued(e, l, op);
    if |ws| == 1 {
      assert StoreAll(t, ws) == StoreAll(Store(t, ws[0]), []) == Store(t, ws[0]) by { assert ws[1..] == []; }
    }
    if |ws| == 2 {
      assert ws[1..][1..] == [];
      assert StoreAll(t, ws) == StoreAll(Store(t, ws[0]), ws[1..]) == Store(Store(t, ws[0]), ws[1]);
    }
    hide StoreAll;
    if !op.Follow? && !op.Unfollow? && !op.Cursor? { SocialOpsLeaveFollows(e, l, op); }
  }

  lemma SocialOpsLeaveFollows(e: Env, l: Ledger, op: Op)
    requires Perform(e, l, op).Ok? && !op.Follow? && !op.Unfollow? && !op.Cursor?
    ensures Perform(e, l, op).value.follows == l.follows && Perform(e, l, op).value.cursors == l.cursors
    ensures |Queued(e, l, op)| <= 1
    ensures forall w | w in Queued(e, l, op) ::
        !w.InsertFollowRow? && !w.DeleteFollowRow? && !w.DeleteLegacyFollowRow? && !w.UpsertCursorRow?
  {
  }

  lemma RequestSafe(e: Env, t: Tables, p: Process, op: Op, base: Book)
    requires Anchored(e, t, p, base) && Timely(p.mirror, op) && Perform(e, p.mirror, op).Ok?
    ensures Anchored(e, t, Performed(e, p, op), base)
  {
    var ws, l' := Queued(e, p.mirror, op), Perform(e, p.mirror, op).value;
    QueueEndsSound(e, base, p);
    MutationQueues(e, p.mirror, op);
    FitAllAppend(e, base, p.queue, ws);
    if !p.failed {
      StoreAllAppend(t, p.queue, ws);
      FollowsFollow(e, StoreAll(t, p.queue), p.mirror, op);
      StoreAllBook(t, p.queue + ws);
    }
  }

  /** Performing and completing with the updates on record come to the same in either order. */
  lemma PerformedEntire(e: Env, t: Tables, p: Process, op: Op)
    requires RefusalOf(e, p.thesisTable, p.mirror, op).None? && Partial(p)
    ensures Perform(e, p.mirror, op).Ok? && Partial(Performed(e, p, op))
    ensures Perform(e, Entire(t, p).mirror, op).Ok? && Entire(t, Performed(e, p, op)) == Performed(e, Entire(t, p), op)
  {
    hide Perform, Queued;
    if !p.thesisTable { UpdatesAside(e, p.mirror, t.book.updates, op); }
  }

  lemma RequestStep(e: Env, s: System, op: Op, s': System)
    requires Safe(e, s) && s.process.Some? && Requested(e, s, op, s')
    ensures Safe(e, s') && s'.tables == s.tables
  {
    hide Stored, Anchored, Timely, RefusalOf, Perform, Queued, Entire, Partial;
    var p := s.process.value;
    if RefusalOf(e, p.thesisTable, p.mirror, op).None? {
      var base :| Anchored(e, s.tables, Entire(s.tables, p), base);
      PerformedEntire(e, s.tables, p, op);
      RequestSafe(e, s.tables, Entire(s.tables, p), op, base);
    }
  }

  lemma LandSafe(e: Env, t: Tables, p: Process, base: Book, failed: bool)
    requires Stored(e, t) && Anchored(e, t, p, base) && p.queue != [] && Accepts(t.book, p.queue[0])
        && (p.failed ==> failed)
    ensures Sound(e, Store(t, p.queue[0]).book) && Keeps(t.book, Store(t, p.queue[0]).book)
    ensures Anchored(e, Store(t, p.queue[0]), Shift(p, failed), StoreRecord(base, p.queue[0]))
  {
    hide Sound, Fit, Accepts, Keeps, RowBook, FollowGraph;
    var w := p.queue[0];
    FitLands(e, base, w);
    WriteLands(e, t.book, base, w);
    assert Store(t, w).book == StoreRecord(t.book, w);
  }

  lemma FailSafe(e: Env, t: Tables, p: Process, base: Book)
    requires Anchored(e, t, p, base) && p.queue != []
    ensures Anchored(e, t, Shift(p, true), StoreRecord(base, p.queue[0]))
  {
    FitLands(e, base, p.queue[0]);
    KeepsTransitive(t.book, base, StoreRecord(base, p.queue[0]));
  }

  /** Tables that hold no more than an encoded mirror are themselves encoded. */
  lemma EncodedBelow(e: Env, t: Book, l: Book)
    requires StableUuids(e) && Keeps(t, RowBook(e, l))
    ensures RowBook(e, t) == t
  {
    RowFields(e, l);
    forall id | id in t.calls ensures Row(e, t.calls[id]) == t.calls[id] {
      FrozenSame(t.calls[id], RowBook(e, l).calls[id]);
      var handle := l.calls[id].snapshotId;
      if handle.Some? { assert e.snapshotUuid(e.snapshotUuid(handle.value)) == e.snapshotUuid(handle.value); }
    }
  }

  lemma AnchoredEncoded(e: Env, t: Tables, p: Process, base: Book)
    requires StableUuids(e) && Anchored(e, t, p, base)
    ensures RowBook(e, t.book) == t.book
  {
    QueueEndsSound(e, base, p);
    KeepsTransitive(t.book, base, RowBook(e, p.mirror.book));
    EncodedBelow(e, t.book, p.mirror.book);
  }

  lemma SelectedLockOrder(e: Env, t: Tables, sel: Selection, l: Ledger)
    requires Sound(e, t.book) && Selects(t, sel) && l.order == sel.calls && l.book == t.book
    ensures LockOrder(l)
  {
    SelectedByLock(e, t.book, sel.calls);
  }

  lemma RestartSafe(e: Env, t: Tables, sel: Selection)
    requires Stored(e, t) && Selects(t, sel)
    ensures Anchored(e, t, Started(e, t, sel, true), t.book)
    ensures Started(e, t, sel, true).mirror == Ledger(sel.calls, t.book, FollowGraph(t), t.cursors)
    ensures Started(e, t, sel, true).thesisTable
  {
    HydrateRebuilds(e, t, sel);
    var l := Hydrate(e, t, sel).ledger;
    SelectedLockOrder(e, t, sel, l);
    KeepsItself(t.book);
    hide Sound, Hydrate, Keeps, LockOrder, RowBook, FollowGraph;
  }

  /** A restart that cannot read the updates is one that did, but for what it shows of them. */
  lemma UnreadRestart(e: Env, t: Tables, sel: Selection)
    requires Sound(e, t.book) && Selects(t, sel)
    ensures var p := Started(e, t, sel, false);
            Partial(p) && p.mirror == WithUpdates(Started(e, t, sel, true).mirror, map[])
            && Entire(t, p) == Started(e, t, sel, true).(thesisTable := false)
  {
    HydrateRebuilds(e, t, sel);
    HydrateUnread(e, t, sel);
    hide Sound, Hydrate, FollowGraph;
  }

  lemma AnchoredEither(e: Env, t: Tables, p: Process, base: Book, thesisTable: bool)
    requires Anchored(e, t, p, base)
    ensures Anchored(e, t, p.(thesisTable := thesisTable), base)
  {
    hide Sound, Keeps, FitAll, RowBook, LockOrder, Mirrors, RecordAll, StoreAll;
  }

  lemma RestartStep(e: Env, t: Tables, sel: Selection, updatesRead: bool)
    requires Stored(e, t) && Selects(t, sel)
    ensures Safe(e, System(t, Some(Started(e, t, sel, updatesRead))))
  {
    hide Anchored, Started, WithUpdates, Sound, RowBook;
    var p := Started(e, t, sel, updatesRead);
    RestartSafe(e, t, sel);
    if !updatesRead {
      UnreadRestart(e, t, sel);
      AnchoredEither(e, t, Started(e, t, sel, true), t.book, false);
    }
    assert Partial(p) && Anchored(e, t, Entire(t, p), t.book);
  }

  /** Every step keeps the system safe, and the database never loses a record it holds. */
  lemma StepSafe(e: Env, s: System, step: Step, s': System)
    requires StableUuids(e) && Safe(e, s) && Next(e, s, step, s')
    ensures Safe(e, s') && Keeps(s.tables.book, s'.tables.book)
  {
    KeepsItself(s.tables.book);
    hide Stored, Anchored, Keeps, Started, Selects, Accepts, Requested, Partial, Entire;
    match step
    case Request(op) => RequestStep(e, s, op, s');
    case Land => LandStep(e, s, s.process.value.failed, s');
    case LandUnheard => LandStep(e, s, true, s');
    case Fail => FailStep(e, s, s');
    case Restart(sel, read) => RestartStep(e, s.tables, sel, read);
    case _ =>
  }

  /** Sending a write leaves what completes the mirror as it was: a process without the updates writes none. */
  lemma SentEntire(t: Tables, p: Process, failed: bool)
    requires Partial(p) && p.queue != []
    ensures Partial(Shift(p, failed)) && Entire(t, Shift(p, failed)) == Shift(Entire(t, p), failed)
    ensures Entire(Store(t, p.queue[0]), Shift(p, failed)) == Shift(Entire(t, p), failed)
  {
  }

  lemma LandStep(e: Env, s: System, failed: bool, s': System)
    requires StableUuids(e) && Safe(e, s) && TakesWrite(s) && (s.process.value.failed ==> failed)
    requires s' == System(Store(s.tables, s.process.value.queue[0]), Some(Shift(s.process.value, failed)))
    ensures Safe(e, s') && Keeps(s.tables.book, s'.tables.book)
  {
    hide Anchored, Accepts, Sound, Keeps, RowBook, Store, Partial;
    var p, entire := s.process.value, Entire(s.tables, s.process.value);
    var base :| Anchored(e, s.tables, entire, base);
    SentEntire(s.tables, p, failed);
    LandSafe(e, s.tables, entire, base, failed);
    var base' := StoreRecord(base, p.queue[0]);
    AnchoredEncoded(e, s'.tables, Shift(entire, failed), base');
  }

  lemma FailStep(e: Env, s: System, s': System)
    requires Safe(e, s) && HasWrite(s) && s' == System(s.tables, Some(Shift(s.process.value, true)))
    ensures Safe(e, s')
  {
    hide Anchored, Stored, Partial;
    var p, entire := s.process.value, Entire(s.tables, s.process.value);
    var base :| Anchored(e, s.tables, entire, base);
    SentEntire(s.tables, p, true);
    FailSafe(e, s.tables, entire, base);
  }

  /**
   * Until a write has failed, the database refuses nothing: each queued write, in queue
   * order, satisfies every constraint modelled.
   */
  lemma NothingRefused(e: Env, s: System, k: nat)
    requires Safe(e, s) && HasWrite(s) && !s.process.value.failed && k < |s.process.value.queue|
    ensures Accepts(StoreAll(s.tables, s.process.value.queue[..k]).book, s.process.value.queue[k])
    ensures Sound(e, StoreAll(s.tables, s.process.value.queue[..k]).book)
  {
    var p := Entire(s.tables, s.process.value);
    var base :| Anchored(e, s.tables, p, base);
    QueueLands(e, base, p.queue, k);
    StoreAllBook(s.tables, p.queue[..k]);
  }

  // ── runs ────────────────────────────────────────────────────────────────

  /** `steps[i]` leads from `states[i]` to `states[i + 1]`, starting from sound, encoded tables and no process. */
  ghost predicate Run(e: Env, states: seq<System>, steps: seq<Step>) {
    && |states| == |steps| + 1
    && states[0].process.None? && Stored(e, states[0].tables)
    && forall i | 0 <= i < |steps| :: Next(e, states[i], steps[i], states[i + 1])
  }

  lemma {:induction false} RunSafe(e: Env, states: seq<System>, steps: seq<Step>, i: nat)
    requires StableUuids(e) && Run(e, states, steps) && i < |states|
    ensures Safe(e, states[i])
  {
    if i > 0 {
      RunSafe(e, states, steps, i - 1);
      StepSafe(e, states[i - 1], steps[i - 1], states[i]);
    }
  }

  lemma {:induction false} TablesOnlyGrow(e: Env, states: seq<System>, steps: seq<Step>, i: nat, j: nat)
    requires StableUuids(e) && Run(e, states, steps) && i <= j < |states|
    ensures Keeps(states[i].tables.book, states[j].tables.book)
  {
    hide Keeps, Safe, Next, Stored, Passes;
    if i == j {
      KeepsItself(states[i].tables.book);
    } else {
      TablesOnlyGrow(e, states, steps, i, j - 1);
      RunSafe(e, states, steps, j - 1);
      RunSteps(e, states, steps, j - 1);
      StepSafe(e, states[j - 1], steps[j - 1], states[j]);
      KeepsTransitive(states[i].tables.book, states[j - 1].tables.book, states[j].tables.book);
    }
  }

  /** What the process shows, completed with the updates on record if it did not read them. */
  function EntireOf(s: System): Ledger { if s.process.Some? then Entire(s.tables, s.process.value).mirror else EMPTY }

  /** Nothing is missing from a mirror but updates, and they only from one that did not read them. */
  lemma MissingOnlyUpdates(e: Env, s: System)
    requires Safe(e, s) && s.process.Some?
    ensures MirrorOf(s) == if s.process.value.thesisTable then EntireOf(s) else WithUpdates(EntireOf(s), map[])
  {
    hide Stored, Anchored;
  }

  lemma BarrierMirrors(e: Env, s: System)
    requires Safe(e, s) && Passes(s)
    ensures Mirrors(e, s.tables, EntireOf(s))
  {
  }

  /** The mirror, so completed, never shows less than the tables hold. */
  lemma MirrorAhead(e: Env, s: System)
    requires Safe(e, s) && s.process.Some?
    ensures Keeps(s.tables.book, RowBook(e, EntireOf(s).book))
  {
    hide Partial, Stored;
    var p := Entire(s.tables, s.process.value);
    var base :| Anchored(e, s.tables, p, base);
    QueueEndsSound(e, base, p);
    KeepsTransitive(s.tables.book, base, RowBook(e, p.mirror.book));
  }

  /**
   * Until something fails, the tables are only behind: with the whole queue stored they
   * show what the mirror shows, and after any part of it they are closed and
   * replayable.
   */
  lemma QueueCompletesTheTables(e: Env, s: System, k: nat)
    requires Safe(e, s) && s.process.Some? && !s.process.value.failed && k <= |s.process.value.queue|
    ensures Mirrors(e, StoreAll(s.tables, s.process.value.queue), EntireOf(s)) && LockOrder(EntireOf(s))
    ensures Sound(e, StoreAll(s.tables, s.process.value.queue[..k]).book)
  {
    hide Sound, FitAll, Keeps, Mirrors, LockOrder, Partial, Stored;
    var p := Entire(s.tables, s.process.value);
    var base :| Anchored(e, s.tables, p, base);
    QueueLands(e, base, p.queue, k);
    StoreAllBook(s.tables, p.queue[..k]);
  }

  /**
   * Write-behind, over every run: while nothing has failed, storing the pending
   * queue gives exactly the mirror's rows, storing any first part of it leaves
   * tables that hydrate in full, and hydrating after the whole of it rebuilds
   * the very mirror that queued it. A mirror that did not read the updates is
   * completed with those on record.
   */
  lemma WriteBehindSimulates(e: Env, states: seq<System>, steps: seq<Step>, i: nat, k: nat, sel: Selection)
    requires StableUuids(e) && Run(e, states, steps) && i < |states|
    requires states[i].process.Some? && !states[i].process.value.failed && k <= |states[i].process.value.queue|
    ensures var (t, p) := (states[i].tables, states[i].process.value);
            && Mirrors(e, StoreAll(t, p.queue), EntireOf(states[i]))
            && p.mirror == (if p.thesisTable then EntireOf(states[i]) else WithUpdates(EntireOf(states[i]), map[]))
            && (Selects(StoreAll(t, p.queue[..k]), sel) ==>
                  var h := Hydrate(e, StoreAll(t, p.queue[..k]), sel);
                  h.skippedCalls == h.skippedResponses == h.skippedResults == h.skippedUpdates == 0)
            && (Selects(StoreAll(t, p.queue), sel) ==>
                Hydrate(e, StoreAll(t, p.queue), sel) == Hydrated(Encoded(e, EntireOf(states[i])), 0, 0, 0, 0))
  {
    hide Run, Safe, Sound, Mirrors, LockOrder, StoreAll, StableUuids, EntireOf;
    RunSafe(e, states, steps, i);
    var p := states[i].process.value;
    MissingOnlyUpdates(e, states[i]);
    QueueCompletesTheTables(e, states[i], k);
    QueueCompletesTheTables(e, states[i], |p.queue|);
    assert p.queue[..|p.queue|] == p.queue;
    HydratesInFull(e, StoreAll(states[i].tables, p.queue[..k]), sel);
    HydratesBack(e, StoreAll(states[i].tables, p.queue), EntireOf(states[i]), sel);
  }

  lemma HydratesInFull(e: Env, t: Tables, sel: Selection)
    requires Sound(e, t.book)
    ensures Selects(t, sel) ==>
              var h := Hydrate(e, t, sel);
                  h.skippedCalls == h.skippedResponses == h.skippedResults == h.skippedUpdates == 0
  {
    hide Sound, Hydrate;
    if Selects(t, sel) { HydrateRebuilds(e, t, sel); }
  }

  lemma HydratesBack(e: Env, t: Tables, l: Ledger, sel: Selection)
    requires Sound(e, t.book) && Mirrors(e, t, l) && LockOrder(l)
    ensures Selects(t, sel) ==> Hydrate(e, t, sel) == Hydrated(Encoded(e, l), 0, 0, 0, 0)
  {
    hide Sound, Hydrate, Mirrors, LockOrder;
    if Selects(t, sel) { RoundTrip(e, t, l, sel); }
  }

  /** Once a write has failed, no barrier is passed until the process is replaced. */
  lemma {:induction false} FailureQuarantines(e: Env, states: seq<System>, steps: seq<Step>, i: nat, j: nat)
    requires Run(e, states, steps) && i <= j < |states|
    requires states[i].process.Some? && states[i].process.value.failed
    requires forall k | i <= k < j :: !steps[k].Crash?
    ensures states[j].process.Some? && states[j].process.value.failed
    ensures forall k | i <= k < j :: !steps[k].Barrier?
  {
    if i < j {
      FailureQuarantines(e, states, steps, i, j - 1);
      hide Hydrate, Perform, Selects, Timely, Store, Queued;
      assert Next(e, states[j - 1], steps[j - 1], states[j]);
    }
  }

  // ── what can be taken back, only on request ─────────────────────────────

  /** What a mirror shows and a later request may legitimately change. */
  datatype Fact =
    | Withdrawn(callId: Id, at: int, reason: Option<string>)
    | Shown(callId: Id)
    | Following(follower: Id, followee: Id)
    | NotFollowing(follower: Id, followee: Id)
    | CursorAt(name: string, cursor: Option<string>)

  predicate Says(l: Ledger, f: Fact) {
    match f
    case Withdrawn(id, at, reason) =>
        id in l.book.calls && l.book.calls[id].hiddenAt == Some(at) && l.book.calls[id].hiddenReason == reason
    case Shown(id) => id in l.book.calls && Live(l.book.calls[id])
    case Following(a, b) => (a, b) in l.follows
    case NotFollowing(a, b) => (a, b) !in l.follows
    case CursorAt(name, c) => name in l.cursors && l.cursors[name] == c
  }

  /** The ledger the tables hold, but for the order of the calls. */
  function Held(t: Tables): Ledger { Ledger([], t.book, FollowGraph(t), t.cursors) }

  /** The one request that asks for the opposite. */
  predicate TakesBack(step: Step, f: Fact) {
    step.Request? &&
    match f
    case Withdrawn(id, _, _) => step.op == Unhide(id)
    case Shown(id) => step.op.Hide? && step.op.callId == id
    case Following(a, b) => step.op == Op.Unfollow(a, b)
    case NotFollowing(a, b) => step.op == Op.Follow(a, b)
    case CursorAt(name, _) => step.op.Cursor? && step.op.name == name
  }

  /** The writes that would change it in the tables. */
  predicate Touches(w: Write, f: Fact) {
    match f
    case Withdrawn(id, _, _) => w.PatchCallRow? && w.callId == id
    case Shown(id) => w.PatchCallRow? && w.callId == id && w.hiddenAt.Some?
    case Following(a, b) => w == DeleteFollowRow(a, b) || w == DeleteLegacyFollowRow(a, b)
    case NotFollowing(a, b) => w == InsertFollowRow(a, b)
    case CursorAt(name, _) => w.UpsertCursorRow? && w.name == name
  }

  /** So in the tables and in the mirror, and no queued write would change that. */
  ghost predicate Stands(s: System, f: Fact) {
    && Says(Held(s.tables), f)
    && (s.process.Some? ==> Says(s.process.value.mirror, f) && forall w | w in s.process.value.queue :: !Touches(w, f))
  }

  lemma RequestLeaves(e: Env, l: Ledger, op: Op, f: Fact)
    requires Says(l, f) && !TakesBack(Request(op), f) && Perform(e, l, op).Ok?
    ensures Says(Perform(e, l, op).value, f)
    ensures forall w | w in Queued(e, l, op) :: !Touches(w, f)
  {
    hide CheckPrice, FirstLive, CheckResulting, Derive;
  }

  lemma WriteLeaves(t: Tables, w: Write, f: Fact)
    requires Says(Held(t), f) && !Touches(w, f)
    ensures Says(Held(Store(t, w)), f)
  {
  }

  lemma StepLeaves(e: Env, s: System, step: Step, s': System, f: Fact)
    requires Safe(e, s) && Next(e, s, step, s') && Stands(s, f) && !TakesBack(step, f)
    ensures Stands(s', f)
  {
    hide Safe, Hydrate, Perform, Queued, Timely, Accepts, Store, FollowGraph, Says, Touches, TakesBack, Entire;
    match step
    case Request(op) =>
      if Perform(e, s.process.value.mirror, op).Ok? { RequestLeaves(e, s.process.value.mirror, op, f); }
    case Land => WriteLeaves(s.tables, s.process.value.queue[0], f);
    case LandUnheard => WriteLeaves(s.tables, s.process.value.queue[0], f);
    case Restart(sel, read) =>
      SafeIsSound(e, s);
      HydrateRebuilds(e, s.tables, sel);
      HydrateUnread(e, s.tables, sel);
      RestartSays(s.tables, sel.calls, f);
    case _ =>
  }

  /** The order of the calls says nothing of this kind, nor do the updates. */
  lemma RestartSays(t: Tables, order: seq<Id>, f: Fact)
    ensures Says(Held(t), f) <==> Says(Ledger(order, t.book, FollowGraph(t), t.cursors), f)
    ensures Says(Held(t), f) <==> Says(Ledger(order, t.book.(updates := map[]), FollowGraph(t), t.cursors), f)
  {
  }

  lemma SafeIsSound(e: Env, s: System)
    requires Safe(e, s)
    ensures Sound(e, s.tables.book)
  {
  }

  lemma RunSteps(e: Env, states: seq<System>, steps: seq<Step>, i: nat)
    requires Run(e, states, steps) && i < |steps|
    ensures |states| == |steps| + 1 && Next(e, states[i], steps[i], states[i + 1])
    ensures steps[i].Barrier? ==> Passes(states[i])
  {
    hide Requested, Selects, Hydrate, Accepts;
  }

  lemma BarrierStands(e: Env, s: System, f: Fact)
    requires Safe(e, s) && Passes(s) && Says(s.process.value.mirror, f)
    ensures Stands(s, f)
  {
    BarrierMirrors(e, s);
    RowFields(e, EntireOf(s).book);
    hide Safe, RowBook, FollowGraph;
  }

  /**
   * An acknowledged withdrawal, restore, follow, unfollow or cursor stands,
   * through failures, crashes and restarts, until somebody asks for the opposite.
   */
  lemma {:induction false} AcknowledgedStands(e: Env, states: seq<System>, steps: seq<Step>, i: nat, j: nat, f: Fact)
    requires StableUuids(e) && Run(e, states, steps) && i < |steps| && steps[i].Barrier? && i <= j < |states|
    requires Says(MirrorOf(states[i]), f) && forall k | i <= k < j :: !TakesBack(steps[k], f)
    ensures Stands(states[j], f)
  {
    hide Stands, Safe, Says, Next, Stored, TakesBack;
    if i == j {
      RunSafe(e, states, steps, i);
      RunSteps(e, states, steps, i);
      BarrierStands(e, states[i], f);
    } else {
      AcknowledgedStands(e, states, steps, i, j - 1, f);
      RunSafe(e, states, steps, j - 1);
      RunSteps(e, states, steps, j - 1);
      StepLeaves(e, states[j - 1], steps[j - 1], states[j], f);
    }
  }

  lemma StandsIsSaid(s: System, f: Fact)
    requires Stands(s, f)
    ensures Says(Held(s.tables), f) && (s.process.Some? ==> Says(s.process.value.mirror, f))
  {
  }

  /** Whether the last restart before the j-th state read the updates table. */
  predicate LastRead(steps: seq<Step>, j: nat)
    requires j <= |steps|
  {
    j > 0 && if steps[j - 1].Restart? then steps[j - 1].updatesRead else LastRead(steps, j - 1)
  }

  lemma {:induction false} ReadAtTheLastRestart(e: Env, states: seq<System>, steps: seq<Step>, j: nat)
    requires Run(e, states, steps) && j < |states|
    ensures states[j].process.Some? ==> states[j].process.value.thesisTable == LastRead(steps, j)
  {
    if j > 0 {
      ReadAtTheLastRestart(e, states, steps, j - 1);
      RunSteps(e, states, steps, j - 1);
      hide Run, Hydrate, Perform, Selects, Timely, Store, Queued, Accepts, Entire, RefusalOf;
    }
  }

  /**
   * Acknowledged means durable. When a procedure passes its closing barrier,
   * the tables hold exactly what the mirror shows, with the updates on record if
   * that mirror did not read them. Whatever happens next, in any interleaving of
   * requests, writes, failures, crashes and restarts, the tables keep every call,
   * response, update and settled result of it, and so does every later mirror,
   * but for the updates if it did not read them; both keep every withdrawal,
   * restore, follow, unfollow and cursor nobody has since asked to change. A
   * later mirror shows the updates on record exactly when the last restart read
   * their table or there are none. Every later restart hydrates without skipping
   * a row, whether or not it reads the updates.
   */
  lemma AcknowledgedIsDurable(e: Env, states: seq<System>, steps: seq<Step>, i: nat, j: nat)
    requires StableUuids(e) && Run(e, states, steps) && i < |steps| && steps[i].Barrier? && i <= j < |states|
    ensures Mirrors(e, states[i].tables, EntireOf(states[i]))
    ensures Keeps(RowBook(e, EntireOf(states[i]).book), states[j].tables.book)
    ensures states[j].process.Some? ==>
              && Keeps(RowBook(e, EntireOf(states[i]).book), RowBook(e, EntireOf(states[j]).book))
              && MirrorOf(states[j])
                  == (if LastRead(steps, j) then EntireOf(states[j]) else WithUpdates(EntireOf(states[j]), map[]))
              && (UpdatesKept(states[j].tables.book.updates, MirrorOf(states[j]).book.updates) <==>
                    LastRead(steps, j) || states[j].tables.book.updates == map[])
    ensures forall f: Fact | Says(MirrorOf(states[i]), f) && (forall k | i <= k < j :: !TakesBack(steps[k], f)) ::
              Says(Held(states[j].tables), f) && (states[j].process.Some? ==> Says(MirrorOf(states[j]), f))
    ensures forall sel | Selects(states[j].tables, sel) ::
              var held := Held(states[j].tables).(order := sel.calls);
              && Hydrate(e, states[j].tables, sel) == Hydrated(held, 0, 0, 0, 0)
              && Hydrate(e, states[j].tables, Unread(sel)) == Hydrated(WithUpdates(held, map[]), 0, 0, 0, 0)
  {
    hide Says, Stands, TakesBack, Run, Safe, Keeps, RowBook, Mirrors, Hydrate, Stored, Next, EntireOf;
    RunSafe(e, states, steps, i);
    RunSafe(e, states, steps, j);
    TablesOnlyGrow(e, states, steps, i, j);
    RunSteps(e, states, steps, i);
    BarrierMirrors(e, states[i]);
    BarrierKeeps(e, states[i], states[j]);
    ReadAtTheLastRestart(e, states, steps, j);
    if states[j].process.Some? { ShownUpdates(e, states[j]); }
    forall f: Fact | Says(MirrorOf(states[i]), f) && (forall k | i <= k < j :: !TakesBack(steps[k], f))
      ensures Says(Held(states[j].tables), f) && (states[j].process.Some? ==> Says(MirrorOf(states[j]), f))
    {
      AcknowledgedStands(e, states, steps, i, j, f);
      StandsIsSaid(states[j], f);
    }
    SafeIsSound(e, states[j]);
    forall sel | Selects(states[j].tables, sel)
      ensures Hydrate(e, states[j].tables, sel) == Hydrated(Held(states[j].tables).(order := sel.calls), 0, 0, 0, 0)
      ensures Hydrate(e, states[j].tables, Unread(sel))
              == Hydrated(WithUpdates(Held(states[j].tables).(order := sel.calls), map[]), 0, 0, 0, 0)
    {
      HydrateRebuilds(e, states[j].tables, sel);
      HydrateUnread(e, states[j].tables, sel);
    }
  }

  /** A mirror shows the updates on record exactly when it read them or there are none. */
  lemma ShownUpdates(e: Env, s: System)
    requires Safe(e, s) && s.process.Some?
    ensures MirrorOf(s) == if s.process.value.thesisTable then EntireOf(s) else WithUpdates(EntireOf(s), map[])
    ensures UpdatesKept(s.tables.book.updates, MirrorOf(s).book.updates) <==>
        s.process.value.thesisTable || s.tables.book.updates == map[]
  {
    MissingOnlyUpdates(e, s);
    MirrorAhead(e, s);
    hide Safe, CallsKept, ResponsesKept, ResultsKept;
    if !s.process.value.thesisTable && s.tables.book.updates != map[] {
      var id :| id in s.tables.book.updates;
    }
  }

  /** What the tables mirrored at a barrier is in all later tables, and so in all later mirrors. */
  lemma BarrierKeeps(e: Env, s: System, s': System)
    requires Safe(e, s') && Mirrors(e, s.tables, EntireOf(s)) && Keeps(s.tables.book, s'.tables.book)
    ensures Keeps(RowBook(e, EntireOf(s).book), s'.tables.book)
    ensures s'.process.Some? ==> Keeps(RowBook(e, EntireOf(s).book), RowBook(e, EntireOf(s').book))
  {
    hide Safe, Keeps, RowBook;
    if s'.process.Some? {
      MirrorAhead(e, s');
      KeepsTransitive(s.tables.book, s'.tables.book, RowBook(e, EntireOf(s').book));
    }
  }

  /**
   * An acknowledged update that a later process does not show: the tables hold
   * it, and the restart before could not read them. Every call, response and
   * result is shown all the same.
   */
  lemma UnreadUpdateIsNotShown(e: Env, s: System, sel: Selection, s': System, updateId: Id)
    requires Safe(e, s) && Next(e, s, Restart(sel, false), s') && updateId in s.tables.book.updates
    ensures updateId in s'.tables.book.updates && updateId !in MirrorOf(s').book.updates
    ensures !Keeps(s'.tables.book, MirrorOf(s').book)
    ensures MirrorOf(s').book == s'.tables.book.(updates := map[])
  {
    hide Safe, Hydrate;
    SafeIsSound(e, s);
    HydrateUnread(e, s.tables, sel);
  }

  // ── one call, one update, and a restart that cannot read it ─────────────

  function OneUpdate(): Tables {
    var u := ThesisUpdate("u", "a", "ada", "still true", 2);
    Tables(Book(map["a" := PlainCall("a", 1)], map[], map[], map["u" := u]), {}, {}, map[])
  }

  lemma OneUpdateStored(e: Env)
    ensures Stored(e, OneUpdate())
  {
    var empty, a, u := EMPTY.book, PlainCall("a", 1), OneUpdate().book.updates["u"];
    var one := empty.(calls := empty.calls["a" := a]);
    EmptySound(e);
    CallLands(e, empty, a);
    TrimmedAlready("still true");
    assert Thread(one.updates, "a") == {};
    hide Sound, Trim;
    UpdateLands(e, one, u);
    assert one.(updates := one.updates["u" := u]) == OneUpdate().book;
    RowFields(e, OneUpdate().book);
  }

  lemma EmptySound(e: Env)
    ensures Sound(e, EMPTY.book)
  {
    assert forall callId :: Thread(map[], callId) == {};
  }

  lemma TrimmedAlready(s: string)
    requires s != "" && !IsSpace(s[0]) && !IsSpace(s[|s| - 1])
    ensures Trim(s) == s
  {
  }

  /**
   * Nothing more is needed than sound tables that hold an update: this restart is a
   * step, and its mirror lacks the update.
   */
  lemma AnUpdateGoesMissing(e: Env)
    ensures var t, sel := OneUpdate(), Selection(["a"], [], [], ["u"]);
            Selects(t, sel) &&
            var s' := System(t, Some(Started(e, t, sel, false)));
            && Safe(e, System(t, None)) && Next(e, System(t, None), Restart(sel, false), s')
            && "u" in s'.tables.book.updates && "u" !in MirrorOf(s').book.updates
  {
    var t, sel := OneUpdate(), Selection(["a"], [], [], ["u"]);
    OneUpdateStored(e);
    hide Stored, Hydrate, Started;
    UnreadUpdateIsNotShown(e, System(t, None), sel, System(t, Some(Started(e, t, sel, false))), "u");
  }
}
