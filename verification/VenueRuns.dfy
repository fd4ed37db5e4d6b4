/**
 * The venue and the machine together: a run of the durability machine during
 * which the venue publishes resolutions and results are written from its record
 * as it then stands, in any interleaving with requests, lost writes, crashes
 * and restarts. The main result is that every settled result, in the tables and
 * in every mirror, agrees with the venue throughout, so that no pass begun at
 * any point is refused.
 */
module VenueRuns {
  import opened Vocabulary
  import opened Ledgers
  import opened DurableTables
  import opened WriteBehind
  import opened Hydration
  import opened Durability
  import opened Markets
  import opened ResolutionSync

  /** `venues[i]` is the venue's record at the i-th state: sound, and only ever added to. */
  ghost predicate Publishes(venues: seq<Venue>) {
    && (forall i | 0 <= i < |venues| :: VenueSound(venues[i]))
    && forall i | 0 < i < |venues| :: Extends(venues[i - 1], venues[i])
  }

  /**
   * A result is asked for only by the synchroniser or a lock: by the service, from the
   * venue's record of the moment.
   */
  predicate FromTheVenue(v: Venue, s: System, step: Step) {
    step.Request? && step.op.SetResult? ==> SyncOp(v, MirrorOf(s).book.calls, step.op)
  }

  ghost predicate VenueRun(e: Env, venues: seq<Venue>, states: seq<System>, steps: seq<Step>) {
    && Run(e, states, steps) && |venues| == |states| && Publishes(venues)
    && forall i | 0 <= i < |steps| :: FromTheVenue(venues[i], states[i], steps[i])
  }

  /** Settled results agree with the venue, in the tables and in the mirror. */
  ghost predicate Agrees(v: Venue, s: System) {
    Consistent(v, Held(s.tables)) && (s.process.Some? ==> Consistent(v, s.process.value.mirror))
  }

  lemma MirrorTidy(e: Env, s: System)
    requires Safe(e, s) && s.process.Some?
    ensures Tidy(s.process.value.mirror) && Sound(e, RowBook(e, EntireOf(s).book)) && LockOrder(EntireOf(s))
  {
    hide Partial, Stored, Sound;
    var p := Entire(s.tables, s.process.value);
    var base :| Anchored(e, s.tables, p, base);
    QueueEndsSound(e, base, p);
    hide FitAll, RecordAll, Mirrors;
    RowsTidy(e, p.mirror, s.process.value.mirror);
  }

  lemma RowsTidy(e: Env, l: Ledger, shown: Ledger)
    requires Sound(e, RowBook(e, l.book)) && LockOrder(l)
    requires shown.order == l.order && shown.book.calls == l.book.calls && shown.book.results == l.book.results
    ensures Tidy(shown)
  {
    RowFields(e, l.book);
    var rows := RowBook(e, l.book);
    hide RowBook, CallsReplayable, UpdatesReplayable, Lineage, OneLive, ResponsesSound, ThreadsSound;
    assert forall id | id in rows.calls :: CallSound(e, rows.calls, id);
    forall id | id in l.book.results
        ensures l.book.results[id].callId == id && ResultSound(l.book.calls, l.book.results[id]) {
      assert ResultSound(rows.calls, l.book.results[id]);
    }
  }

  /** A mutation that is no result moves no result, and of the calls nothing an outcome depends on. */
  lemma OtherMutationAgrees(e: Env, v: Venue, l: Ledger, op: Op)
    requires Sound(e, RowBook(e, l.book)) && LockOrder(l) && Timely(l, op) && Perform(e, l, op).Ok? && !op.SetResult?
    requires Consistent(v, l)
    ensures Consistent(v, Perform(e, l, op).value)
  {
    var l' := Perform(e, l, op).value;
    MutationQueues(e, l, op);
    OtherOpsKeepResults(e, l, op);
    var rows, ws := RowBook(e, l.book), Queued(e, l, op);
    assert ws[..|ws|] == ws;
    QueueLands(e, rows, ws, |ws|);
    hide Perform, Queued, Timely, LockOrder, FitAll, RecordAll;
    RowsAgree(e, v, l, l');
  }

  lemma RowsAgree(e: Env, v: Venue, l: Ledger, l': Ledger)
    requires Consistent(v, l) && l'.book.results == l.book.results
    requires Sound(e, RowBook(e, l.book)) && Keeps(RowBook(e, l.book), RowBook(e, l'.book))
    ensures Consistent(v, l')
  {
    RowFields(e, l.book);
    RowFields(e, l'.book);
    var rows, rows' := RowBook(e, l.book), RowBook(e, l'.book);
    hide RowBook, CallsReplayable, UpdatesReplayable, Lineage, OneLive, ResponsesSound, ThreadsSound, CallsSound;
    forall id | id in l'.book.calls && IsSettled(l'.book.results, id)
        ensures Derived(v, l'.book.calls[id], l'.book.results[id]) {
      assert ResultSound(rows.calls, rows.results[id]);
      FrozenSame(rows.calls[id], rows'.calls[id]);
    }
  }

  lemma SyncAgrees(e: Env, v: Venue, l: Ledger, op: Op)
    requires Tidy(l) && Consistent(v, l) && SyncOp(v, l.book.calls, op) && Perform(e, l, op).Ok?
    ensures Consistent(v, Perform(e, l, op).value)
  {
    assert Progressed(v, l, l);
    hide Perform, SyncOp;
    StepProgresses(e, v, l, l, op);
    ProgressConsistent(v, l, Perform(e, l, op).value);
  }

  lemma RequestAgrees(e: Env, v: Venue, s: System, op: Op, s': System)
    requires Safe(e, s) && s.process.Some? && Requested(e, s, op, s') && Agrees(v, s) && FromTheVenue(v, s, Request(op))
    ensures s'.process.Some? && Consistent(v, s'.process.value.mirror)
  {
    hide Safe, Timely, Perform, Queued, Consistent, Tidy, Sound, RefusalOf, SyncOp, Partial;
    var p := s.process.value;
    if RefusalOf(e, p.thesisTable, p.mirror, op).None? {
      SafeIsPartial(e, s);
      MirrorTidy(e, s);
      PerformedEntire(e, s.tables, p, op);
      if op.SetResult? {
        SyncAgrees(e, v, p.mirror, op);
      } else {
        SameAnswers(v, p.mirror, EntireOf(s));
        OtherMutationAgrees(e, v, EntireOf(s), op);
        SameAnswers(v, s'.process.value.mirror, Entire(s.tables, s'.process.value).mirror);
      }
    }
  }

  lemma SafeIsPartial(e: Env, s: System)
    requires Safe(e, s) && s.process.Some?
    ensures Partial(s.process.value)
  {
  }

  /** One step, with the venue's record of the moment. */
  lemma StepAgrees(e: Env, v: Venue, s: System, step: Step, s': System)
    requires StableUuids(e) && Safe(e, s) && Next(e, s, step, s') && Agrees(v, s) && FromTheVenue(v, s, step)
    ensures Agrees(v, s')
  {
    hide Safe, Consistent, StableUuids, Requested, Started, Accepts, FromTheVenue;
    StepSafe(e, s, step, s');
    match step {
      case Request(op) => RequestAgrees(e, v, s, op, s');
      case Restart(sel, read) =>
        SafeIsSound(e, s);
        StartedTidy(e, s.tables, sel, read);
        SameAnswers(v, Held(s.tables), Started(e, s.tables, sel, read).mirror);
      case _ =>
    }
    if s'.process.Some? { TablesConsistent(e, v, s'); }
  }

  /** What agreed with the venue's record agrees with all it goes on to publish. */
  lemma AgreesWithMore(v: Venue, v': Venue, s: System)
    requires Extends(v, v') && Agrees(v, s)
    ensures Agrees(v', s)
  {
    hide Consistent;
    SettledUnderBoth(v, v', Held(s.tables));
    if s.process.Some? { SettledUnderBoth(v, v', s.process.value.mirror); }
  }

  lemma {:induction false} RunAgrees(e: Env, venues: seq<Venue>, states: seq<System>, steps: seq<Step>, i: nat)
    requires StableUuids(e) && VenueRun(e, venues, states, steps) && Consistent(venues[0], Held(states[0].tables))
        && i < |states|
    ensures Agrees(venues[i], states[i])
  {
    hide Consistent, Next, Stored, Safe, FromTheVenue, VenueSound, StableUuids;
    if i > 0 {
      RunAgrees(e, venues, states, steps, i - 1);
      RunSafe(e, states, steps, i - 1);
      hide Agrees;
      assert Next(e, states[i - 1], steps[i - 1], states[i - 1 + 1]);
      StepAgrees(e, venues[i - 1], states[i - 1], steps[i - 1], states[i]);
      AgreesWithMore(venues[i - 1], venues[i], states[i]);
    }
  }

  /**
   * Agreement with the venue, over every run. Whatever is published, requested,
   * lost and restarted in between, every settled result in the tables and in the
   * mirror is what the venue's record derives by then, and the evidence for any
   * call is one the mirror accepts: no pass is ever refused.
   */
  lemma AgreementLasts(e: Env, venues: seq<Venue>, states: seq<System>, steps: seq<Step>, i: nat)
    requires StableUuids(e) && VenueRun(e, venues, states, steps) && Consistent(venues[0], Held(states[0].tables))
        && i < |states|
    ensures Consistent(venues[i], Held(states[i].tables))
    ensures states[i].process.Some? ==>
              var l := MirrorOf(states[i]);
              && Tidy(l) && Consistent(venues[i], l)
              && forall id, at | id in l.book.calls ::
                  WriteResult(l, id, GetResolution(venues[i], l.book.calls[id].marketId), at, SERVICE).Ok?
  {
    hide Consistent, Tidy, Run, Safe, Sound, RowBook, WriteResult;
    RunAgrees(e, venues, states, steps, i);
    RunSafe(e, states, steps, i);
    if states[i].process.Some? {
      MirrorTidy(e, states[i]);
      var l := MirrorOf(states[i]);
      assert VenueSound(venues[i]);
      forall id, at | id in l.book.calls
        ensures WriteResult(l, id, GetResolution(venues[i], l.book.calls[id].marketId), at, SERVICE).Ok?
      {
        NeverRefused(venues[i], l, id, at);
      }
    }
  }

  /**
   * An acknowledged settled result is final: in every later state the tables and
   * the mirror hold that very row, and it is still what the venue's record derives.
   */
  lemma SettledIsFinal(e: Env, venues: seq<Venue>, states: seq<System>, steps: seq<Step>, i: nat, j: nat, id: Id)
    requires StableUuids(e) && VenueRun(e, venues, states, steps) && Consistent(venues[0], Held(states[0].tables))
    requires i < |steps| && steps[i].Barrier? && i <= j < |states|
    requires IsSettled(MirrorOf(states[i]).book.results, id)
    ensures var row, b := MirrorOf(states[i]).book.results[id], states[j].tables.book;
            && id in b.results && b.results[id] == row && id in b.calls && Derived(venues[j], b.calls[id], row)
            && (states[j].process.Some? ==>
                id in MirrorOf(states[j]).book.results && MirrorOf(states[j]).book.results[id] == row)
  {
    hide Run, Safe, Mirrors, Hydrate, Derived, Says, TakesBack, Keeps, UpdatesKept, Sound, RowBook, StableUuids,
        Selects, Unread;
    AgreementLasts(e, venues, states, steps, j);
    AcknowledgedIsDurable(e, states, steps, i, j);
    RunSafe(e, states, steps, j);
    SafeIsSound(e, states[j]);
    KeptRow(e, EntireOf(states[i]).book, states[j].tables.book, id);
    ResultHasCall(e, states[j].tables.book, id);
    if states[j].process.Some? {
      KeptRow(e, EntireOf(states[i]).book, RowBook(e, EntireOf(states[j]).book), id);
      RowFields(e, EntireOf(states[j]).book);
    }
  }

  lemma KeptRow(e: Env, b: Book, later: Book, id: Id)
    requires Keeps(RowBook(e, b), later) && IsSettled(b.results, id)
    ensures id in later.results && later.results[id] == b.results[id]
  {
  }

  lemma ResultHasCall(e: Env, b: Book, id: Id)
    requires Sound(e, b)
    ensures id in b.results ==> id in b.calls
  {
    hide CallsReplayable, UpdatesReplayable, Lineage, OneLive, ResponsesSound, ThreadsSound, CallsSound;
    if id in b.results { assert ResultSound(b.calls, b.results[id]); }
  }
}
