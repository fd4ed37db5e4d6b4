/**
 * Venue evidence in, call results out: the synchroniser's two passes over the
 * store. The main results are that one completed pass leaves every call with
 * the result its market's evidence derives, whatever the cursor, the page size
 * or the page cap, and that a pass stopped anywhere and run again ends the same.
 */
module ResolutionSync {
  import opened Vocabulary
  import opened Ledgers
  import opened DurableTables
  import opened WriteBehind
  import opened Hydration
  import opened Durability
  import opened CallsStores
  import opened Markets
  import opened Sorting

  const RESOLUTION_CURSOR := "call_results:venue_resolutions"

  // ── the venue's record ──────────────────────────────────────────────────

  ghost predicate VenueSound(v: Venue) { forall m | m in v :: v[m].marketId == m }

  /** The venue only ever adds resolutions. */
  ghost predicate Extends(v: Venue, v': Venue) { forall m | m in v :: m in v' && v'[m] == v[m] }

  predicate NoLater(a: Evidence, b: Evidence) {
    a.recordedAt < b.recordedAt || (a.recordedAt == b.recordedAt && StringAtMost(a.id, b.id))
  }

  /** The resolutions of the listed markets, in listing order. */
  function Published(v: Venue, markets: seq<Id>): (r: seq<Evidence>)
    ensures forall ev :: ev in r <==> exists m :: m in markets && m in v && v[m] == ev
  {
    if markets == [] then []
    else
      assert markets == [markets[0]] + markets[1..];
      (if markets[0] in v then [v[markets[0]]] else []) + Published(v, markets[1..])
  }

  /** Everything recorded at or after `since`, oldest first. */
  function ResolutionsSince(v: Venue, markets: seq<Id>, since: int): seq<Evidence> {
    Sort(NoLater, Filter(Published(v, markets), (ev: Evidence) => ev.recordedAt >= since))
  }

  /**
   * The tail misses no listed resolution from the watermark on, one recorded in
   * the watermark's own millisecond included, and comes oldest first.
   */
  lemma TailIsComplete(v: Venue, markets: seq<Id>, since: int)
    ensures var tail := ResolutionsSince(v, markets, since);
            && Sorted(NoLater, tail)
            && forall ev :: ev in tail <==> ev.recordedAt >= since && exists m :: m in markets && m in v && v[m] == ev
  {
    hide Filter, Published, Sort, TotalOrder, NoLater;
    var picked := Filter(Published(v, markets), (ev: Evidence) => ev.recordedAt >= since);
    SameElements(ResolutionsSince(v, markets, since), picked);
    NoLaterTotal();
    SortSorts(NoLater, picked);
  }

  lemma NoLaterTotal()
    ensures TotalOrder(NoLater)
  {
    StringsTotal();
    hide StringAtMost;
  }

  // ── what a pass writes ──────────────────────────────────────────────────

  /** The writes of a pass: results derived from the venue's own record, and the watermark. */
  predicate SyncOp(v: Venue, calls: map<Id, Call>, op: Op) {
    || (op.SetResult? && op.callId in calls && op.actor == SERVICE
        && op.evidence == GetResolution(v, calls[op.callId].marketId))
    || (op.Cursor? && op.name == RESOLUTION_CURSOR)
  }

  /** `steps` are writes of a pass over this venue, and lead from `l0` to `l`. */
  ghost predicate Ran(e: Env, v: Venue, l0: Ledger, steps: seq<Op>, l: Ledger) {
    (forall op | op in steps :: SyncOp(v, l0.book.calls, op)) && PerformAll(e, l0, steps) == Ok(l)
  }

  ghost predicate Tidy(l: Ledger) {
    && Listed(l) && ResultsSound(l.book.calls, l.book.results)
    && forall id | id in l.book.calls :: l.book.calls[id].id == id
  }

  predicate IsSettled(results: map<Id, CallResult>, id: Id) { id in results && results[id].outcome != PENDING }

  /** What the venue's evidence makes of a call. */
  ghost predicate Derived(v: Venue, c: Call, r: CallResult) {
    SameDerivation(r, Derive(c, GetResolution(v, c.marketId), 0))
  }

  /** Every settled result is the one the venue's evidence derives. */
  ghost predicate Consistent(v: Venue, l: Ledger) {
    forall id | id in l.book.calls && IsSettled(l.book.results, id) :: Derived(v, l.book.calls[id], l.book.results[id])
  }

  /** Every call has the result its market's current evidence derives. */
  ghost predicate Converged(v: Venue, l: Ledger) {
    forall id | id in l.book.calls :: id in l.book.results && Derived(v, l.book.calls[id], l.book.results[id])
  }

  /**
   * Nothing moved but results and the watermark, and each result is as it was or as the
   * venue derives it; a settled one is as it was.
   */
  ghost predicate Progressed(v: Venue, l0: Ledger, l: Ledger) {
    && l.order == l0.order && l.follows == l0.follows
    && l.book == l0.book.(results := l.book.results)
    && l.cursors - {RESOLUTION_CURSOR} == l0.cursors - {RESOLUTION_CURSOR}
    && ResultsKept(l0.book.results, l.book.results)
    && forall id | id in l.book.results ::
         (id in l0.book.results && l.book.results[id] == l0.book.results[id])
         || (id in l0.book.calls && Derived(v, l0.book.calls[id], l.book.results[id]))
  }

  lemma StepProgresses(e: Env, v: Venue, l0: Ledger, l: Ledger, op: Op)
    requires Tidy(l0) && Progressed(v, l0, l) && SyncOp(v, l0.book.calls, op) && Perform(e, l, op).Ok?
    ensures Progressed(v, l0, Perform(e, l, op).value)
  {
  }

  lemma {:induction false} RunProgresses(e: Env, v: Venue, l0: Ledger, steps: seq<Op>, l: Ledger)
    requires Tidy(l0) && Ran(e, v, l0, steps, l)
    ensures Progressed(v, l0, l)
  {
    if steps != [] {
      var before := steps[..|steps| - 1];
      assert steps == before + [steps[|steps| - 1]];
      PerformLast(e, l0, before, steps[|steps| - 1]);
      hide Progressed, SyncOp, Perform, PerformAll, Tidy;
      var l' := PerformAll(e, l0, before).value;
      RunProgresses(e, v, l0, before, l');
      StepProgresses(e, v, l0, l', steps[|steps| - 1]);
    }
  }

  lemma RanMore(e: Env, v: Venue, l0: Ledger, steps: seq<Op>, l: Ledger, op: Op)
    requires Tidy(l0) && Ran(e, v, l0, steps, l) && SyncOp(v, l0.book.calls, op) && Perform(e, l, op).Ok?
    ensures Ran(e, v, l0, steps + [op], Perform(e, l, op).value) && Progressed(v, l0, Perform(e, l, op).value)
  {
    RunProgresses(e, v, l0, steps, l);
    StepProgresses(e, v, l0, l, op);
    PerformLast(e, l0, steps, op);
  }

  lemma ProgressTidy(v: Venue, l0: Ledger, l: Ledger)
    requires Tidy(l0) && Progressed(v, l0, l)
    ensures Tidy(l)
  {
  }

  lemma ProgressConsistent(v: Venue, l0: Ledger, l: Ledger)
    requires Consistent(v, l0) && Progressed(v, l0, l)
    ensures Consistent(v, l)
  {
  }

  /** Against consistent results the venue's evidence is never refused. */
  lemma NeverRefused(v: Venue, l: Ledger, callId: Id, at: int)
    requires Tidy(l) && VenueSound(v) && Consistent(v, l) && callId in l.book.calls
    ensures WriteResult(l, callId, GetResolution(v, l.book.calls[callId].marketId), at, SERVICE).Ok?
  {
  }

  // ── convergence ─────────────────────────────────────────────────────────

  /** A call is done when it has a result, and that result is settled already or is what the venue derives. */
  ghost predicate Done(v: Venue, l0: Ledger, l: Ledger, id: Id)
    requires id in l.book.calls
  {
    id in l.book.results && (IsSettled(l0.book.results, id) || Derived(v, l.book.calls[id], l.book.results[id]))
  }

  lemma AllDoneConverges(v: Venue, l0: Ledger, l: Ledger)
    requires Consistent(v, l0) && Progressed(v, l0, l) && forall id | id in l.book.calls :: Done(v, l0, l, id)
    ensures Converged(v, l)
  {
    ProgressConsistent(v, l0, l);
  }

  /**
   * A run of sync writes from a consistent store can be stopped after any of them: what
   * it leaves is consistent, and no settled result moved.
   */
  lemma PrefixIsConsistent(e: Env, v: Venue, l0: Ledger, steps: seq<Op>, l: Ledger, k: nat)
    requires Tidy(l0) && Consistent(v, l0) && Ran(e, v, l0, steps, l) && k <= |steps|
    ensures PerformAll(e, l0, steps[..k]).Ok?
    ensures var stopped := PerformAll(e, l0, steps[..k]).value;
            Tidy(stopped) && Consistent(v, stopped) && Progressed(v, l0, stopped)
  {
    PrefixRuns(e, l0, steps, k);
    var stopped := PerformAll(e, l0, steps[..k]).value;
    RunProgresses(e, v, l0, steps[..k], stopped);
    ProgressTidy(v, l0, stopped);
    ProgressConsistent(v, l0, stopped);
  }

  lemma {:induction false} PrefixRuns(e: Env, l0: Ledger, steps: seq<Op>, k: nat)
    requires PerformAll(e, l0, steps).Ok? && k <= |steps|
    ensures PerformAll(e, l0, steps[..k]).Ok?
  {
    if k == |steps| {
      assert steps[..k] == steps;
    } else {
      assert steps[..|steps| - 1][..k] == steps[..k];
      PrefixRuns(e, l0, steps[..|steps| - 1], k);
    }
  }

  /** The same results, but for the instants they were derived at. */
  ghost predicate SameOutcomes(a: map<Id, CallResult>, b: map<Id, CallResult>) {
    a.Keys == b.Keys && forall id | id in a :: SameDerivation(a[id], b[id])
  }

  lemma ConvergedResults(v: Venue, a: Ledger, b: Ledger)
    requires Tidy(a) && Tidy(b) && Converged(v, a) && Converged(v, b) && a.book.calls == b.book.calls
    ensures SameOutcomes(a.book.results, b.book.results)
  {
  }

  lemma ResumedTidy(v: Venue, stopped: Ledger, resumed: Ledger)
    requires Tidy(stopped) && Consistent(v, stopped) && resumed == stopped.(cursors := resumed.cursors)
    ensures Tidy(resumed) && Consistent(v, resumed)
  {
  }

  /** A completed pass from consistent results converges. */
  lemma CompletedPassConverges(e: Env, v: Venue, l0: Ledger, steps: seq<Op>, l: Ledger)
    requires Tidy(l0) && Consistent(v, l0) && Ran(e, v, l0, steps, l) && forall id | id in l.book.calls ::
        Done(v, l0, l, id)
    ensures Tidy(l) && Converged(v, l) && Progressed(v, l0, l)
  {
    hide PerformAll, SyncOp, Tidy, Consistent, Converged, Done, Ran, Progressed;
    RunProgresses(e, v, l0, steps, l);
    ProgressTidy(v, l0, l);
    AllDoneConverges(v, l0, l);
  }

  /**
   * Crash confluence. A pass stopped after any number of its writes, then run
   * to completion again from whatever watermark survived, ends with the same
   * outcomes as one that was never stopped; what was settled before the stop is
   * not touched again, its instant of derivation included. Of either pass only
   * what `RunOnce` gives is used: its writes, and that it visited every call.
   */
  lemma CrashConfluence(
      e: Env, v: Venue, l0: Ledger, steps: seq<Op>, straight: Ledger, k: nat, resumed: Ledger, rerun: seq<Op>,
          end: Ledger)
    requires Tidy(l0) && Consistent(v, l0)
    requires Ran(e, v, l0, steps, straight) && forall id | id in straight.book.calls :: Done(v, l0, straight, id)
    requires k <= |steps| && PerformAll(e, l0, steps[..k]).Ok?
    requires resumed == PerformAll(e, l0, steps[..k]).value.(cursors := resumed.cursors)
    requires Ran(e, v, resumed, rerun, end) && forall id | id in end.book.calls :: Done(v, resumed, end, id)
    ensures Converged(v, end) && SameOutcomes(straight.book.results, end.book.results)
    ensures forall id | IsSettled(resumed.book.results, id) ::
        id in end.book.results && end.book.results[id] == resumed.book.results[id]
    ensures end.book.(results := map[]) == l0.book.(results := map[])
  {
    hide PerformAll, SyncOp, Tidy, Consistent, Converged, SameOutcomes, Done, Ran;
    var stopped := PerformAll(e, l0, steps[..k]).value;
    PrefixIsConsistent(e, v, l0, steps, straight, k);
    ResumedTidy(v, stopped, resumed);
    CompletedPassConverges(e, v, l0, steps, straight);
    CompletedPassConverges(e, v, resumed, rerun, end);
    ConvergedResults(v, straight, end);
  }

  lemma ConvergedWriteIsIdle(e: Env, v: Venue, l: Ledger, op: Op)
    requires Tidy(l) && VenueSound(v) && Converged(v, l) && SyncOp(v, l.book.calls, op)
    ensures Perform(e, l, op).Ok? && Perform(e, l, op).value.book == l.book && Perform(e, l, op).value.order == l.order
    ensures Queued(e, l, op) == if op.Cursor? then [UpsertCursorRow(op.name, op.cursor)] else []
  {
  }

  /** Once converged, further sync writes change no record, `derivedAt` included. */
  lemma {:induction false} SecondPassChangesNothing(e: Env, v: Venue, l: Ledger, steps: seq<Op>, l': Ledger)
    requires Tidy(l) && VenueSound(v) && Converged(v, l) && Ran(e, v, l, steps, l')
    ensures l'.book == l.book && l'.order == l.order
  {
    if steps != [] {
      var before := steps[..|steps| - 1];
      assert steps == before + [steps[|steps| - 1]];
      PerformLast(e, l, before, steps[|steps| - 1]);
      hide SyncOp, Perform, Tidy, Converged, PerformAll;
      var mid := PerformAll(e, l, before).value;
      SecondPassChangesNothing(e, v, l, before, mid);
      CarryOver(v, l, mid);
      ConvergedWriteIsIdle(e, v, mid, steps[|steps| - 1]);
    }
  }

  lemma CarryOver(v: Venue, l: Ledger, l': Ledger)
    requires Tidy(l) && Converged(v, l) && l'.book == l.book && l'.order == l.order
    ensures Tidy(l') && Converged(v, l')
  {
  }

  // ── who won ─────────────────────────────────────────────────────────────

  /** The calls on a market that are on this side of it. */
  ghost function SideOn(l: Ledger, marketId: Id, side: Side): set<Id> {
    set id | id in l.book.calls && l.book.calls[id].marketId == marketId && l.book.calls[id].side == side
  }

  /** The calls on a market that came to this. */
  ghost function CameTo(l: Ledger, marketId: Id, o: Outcome): set<Id> {
    set id | id in l.book.calls && l.book.calls[id].marketId == marketId && id in l.book.results
             && l.book.results[id].outcome == o
  }

  /**
   * The correct calls on a market are exactly those on the side it went to, and the
   * incorrect ones those on the other; on a void market all are void, and on one without
   * a resolution all are pending.
   */
  ghost predicate MarketJudged(v: Venue, l: Ledger, marketId: Id) {
    var yes, no := SideOn(l, marketId, YES), SideOn(l, marketId, NO);
    if marketId !in v then CameTo(l, marketId, PENDING) == yes + no
    else match v[marketId].resolution
      case FOR_YES => CameTo(l, marketId, CORRECT) == yes && CameTo(l, marketId, INCORRECT) == no
      case FOR_NO => CameTo(l, marketId, CORRECT) == no && CameTo(l, marketId, INCORRECT) == yes
      case VOID => CameTo(l, marketId, VOIDED) == yes + no
  }

  /** Once converged, every market's calls are judged by who won it. */
  lemma ConvergedIsJudged(v: Venue, l: Ledger, marketId: Id)
    requires Converged(v, l)
    ensures MarketJudged(v, l, marketId)
  {
  }

  // ── what keeps results consistent between passes ────────────────────────

  /** New resolutions, and every mutation but a result, leave consistent results consistent. */
  lemma ConsistencyLasts(e: Env, v: Venue, v': Venue, l: Ledger, op: Op)
    requires Inv(e, l) && VenueSound(v') && Extends(v, v') && Consistent(v, l)
    ensures Consistent(v', l)
    ensures Proper(l, op) && Perform(e, l, op).Ok? && (op.SetResult? ==> SyncOp(v', l.book.calls, op)) ==>
        Consistent(v', Perform(e, l, op).value)
  {
    SettledUnderBoth(v, v', l);
    if Proper(l, op) && Perform(e, l, op).Ok? && (op.SetResult? ==> SyncOp(v', l.book.calls, op)) {
      InvTidy(e, v', l);
      if op.SetResult? {
        StepProgresses(e, v', l, l, op);
        ProgressConsistent(v', l, Perform(e, l, op).value);
      } else {
        PerformKeeps(e, l, op);
        OtherOpsKeepResults(e, l, op);
        var l' := Perform(e, l, op).value;
        forall id | id in l'.book.calls && IsSettled(l'.book.results, id)
            ensures Derived(v', l'.book.calls[id], l'.book.results[id]) {
          assert id in l.book.calls by { assert ResultSound(l.book.calls, l.book.results[id]); }
          FrozenSame(l.book.calls[id], l'.book.calls[id]);
        }
      }
    }
  }

  lemma SettledUnderBoth(v: Venue, v': Venue, l: Ledger)
    requires Extends(v, v') && Consistent(v, l)
    ensures Consistent(v', l)
  {
  }

  lemma InvTidy(e: Env, v: Venue, l: Ledger)
    requires Inv(e, l)
    ensures Tidy(l) && Progressed(v, l, l)
  {
    assert forall id | id in l.book.calls :: CallSound(e, l.book.calls, id);
  }

  lemma OtherOpsKeepResults(e: Env, l: Ledger, op: Op)
    requires Perform(e, l, op).Ok? && !op.SetResult?
    ensures Perform(e, l, op).value.book.results == l.book.results
  {
  }

  /** What later history kept is as consistent as that history. */
  lemma KeptIsConsistent(e: Env, v: Venue, b: Book, later: Ledger)
    requires Keeps(b, later.book) && Consistent(v, later)
    ensures Consistent(v, Ledger([], b, {}, map[]))
  {
    forall id | id in b.calls && IsSettled(b.results, id) ensures Derived(v, b.calls[id], b.results[id]) {
      FrozenSame(b.calls[id], later.book.calls[id]);
    }
  }

  /**
   * A process lost at any point, mid-pass or not, hydrates to consistent results, ready
   * for the next pass to converge, whether or not the updates are read.
   */
  lemma CrashKeepsConsistent(e: Env, v: Venue, s: System, sel: Selection, updatesRead: bool)
    requires Safe(e, s) && s.process.Some? && Selects(s.tables, sel) && Consistent(v, s.process.value.mirror)
    ensures var l := Started(e, s.tables, sel, updatesRead).mirror; Tidy(l) && Consistent(v, l)
  {
    hide Safe, Consistent, Tidy, Started, Keeps, Sound;
    SafeIsSound(e, s);
    TablesConsistent(e, v, s);
    StartedTidy(e, s.tables, sel, updatesRead);
    SameAnswers(v, Held(s.tables), Started(e, s.tables, sel, updatesRead).mirror);
  }

  /** The tables agree with the venue as far as the mirror does. */
  lemma TablesConsistent(e: Env, v: Venue, s: System)
    requires Safe(e, s) && s.process.Some? && Consistent(v, s.process.value.mirror)
    ensures Consistent(v, Held(s.tables))
  {
    hide Safe, Consistent, Keeps;
    MissingOnlyUpdates(e, s);
    SafeIsSound(e, s);
    MirrorAhead(e, s);
    SameAnswers(v, s.process.value.mirror, EntireOf(s));
    EncodedConsistent(e, v, EntireOf(s));
    KeptIsConsistent(e, v, s.tables.book, Encoded(e, EntireOf(s)));
    SameAnswers(v, Ledger([], s.tables.book, {}, map[]), Held(s.tables));
  }

  /** Agreement with the venue is about calls and results alone. */
  lemma SameAnswers(v: Venue, l: Ledger, l': Ledger)
    requires l'.book.calls == l.book.calls && l'.book.results == l.book.results
    ensures Consistent(v, l) <==> Consistent(v, l')
  {
  }

  lemma StartedTidy(e: Env, t: Tables, sel: Selection, updatesRead: bool)
    requires Sound(e, t.book) && Selects(t, sel)
    ensures var l := Started(e, t, sel, updatesRead).mirror;
            Tidy(l) && l.order == sel.calls && l.book.calls == t.book.calls && l.book.results == t.book.results
  {
    HydrateRebuilds(e, t, sel);
    HydrateUnread(e, t, sel);
    hide Hydrate, Sound, Tidy;
    ListedTidy(e, t.book, Started(e, t, sel, updatesRead).mirror);
  }

  lemma ListedTidy(e: Env, b: Book, l: Ledger)
    requires Sound(e, b) && l.book.calls == b.calls && l.book.results == b.results && SelectsByLock(l.order, b.calls)
    ensures Tidy(l)
  {
    hide CallsReplayable, UpdatesReplayable, Lineage, OneLive, ResponsesSound, ThreadsSound;
    assert forall id | id in b.calls :: CallSound(e, b.calls, id);
    hide CallSound, ResultsSound;
  }

  lemma EncodedConsistent(e: Env, v: Venue, l: Ledger)
    requires Consistent(v, l)
    ensures Consistent(v, Encoded(e, l))
  {
  }

  // ── the pass itself ─────────────────────────────────────────────────────

  datatype Report = Report(
    resolutionsSeen: nat, resultsSettled: nat, resultsUnchanged: nat, stillPending: nat, resultsMaterialised: nat,
    pages: nat, cursor: Option<string>)

  /** How an instant is written into the cursor, and what is read back; None when it is not a finite number. */
  datatype Numerals = Numerals(spell: int -> string, read: string -> Option<int>)

  /** The calls settled since `l0`. */
  ghost function NewlySettled(l0: Ledger, l: Ledger): set<Id> {
    set id | id in l.book.results && IsSettled(l.book.results, id) && !IsSettled(l0.book.results, id)
  }

  /** The call has the result its market's evidence derives. */
  ghost predicate HasOutcome(v: Venue, l: Ledger, id: Id) {
    id in l.book.calls && id in l.book.results && Derived(v, l.book.calls[id], l.book.results[id])
  }

  /**
   * Exactly these calls were derived again: each has its outcome now, one that had it
   * already keeps its row, and no other row moved.
   */
  ghost predicate DerivedFor(v: Venue, l: Ledger, l': Ledger, ids: set<Id>) {
    && l'.order == l.order && l'.book.calls == l.book.calls
    && (forall id | id in ids ::
        HasOutcome(v, l', id) && (HasOutcome(v, l, id) ==> l'.book.results[id] == l.book.results[id]))
    && (forall id | id !in ids :: SameRow(l.book.results, l'.book.results, id))
  }

  ghost predicate SameRow(results: map<Id, CallResult>, results': map<Id, CallResult>, id: Id) {
    (id in results' <==> id in results) && (id in results ==> results'[id] == results[id])
  }

  ghost function CallsOn(l: Ledger, markets: set<Id>): set<Id> {
    set id | id in l.book.calls && l.book.calls[id].marketId in markets
  }

  ghost function MarketsOf(evidence: seq<Evidence>): set<Id> { set ev | ev in evidence :: ev.marketId }

  /** Those of the calls whose outcome stands already. */
  ghost function Standing(v: Venue, l: Ledger, ids: set<Id>): set<Id> { set id | id in ids && HasOutcome(v, l, id) }

  ghost function UnsettledIn(l: Ledger, ids: seq<Id>): set<Id> { set id | id in ids && !IsSettled(l.book.results, id) }

  /**
   * How often applying the evidence in turn finds an outcome that stands: from before,
   * or from evidence on the same market.
   */
  ghost function FoundStanding(v: Venue, l: Ledger, evidence: seq<Evidence>): nat {
    if evidence == [] then 0
    else
      var before, on := evidence[..|evidence| - 1], CallsOn(l, {evidence[|evidence| - 1].marketId});
      FoundStanding(v, l, before) + |Standing(v, l, on) + on * CallsOn(l, MarketsOf(before))|
  }

  /** The watermark pass has applied this evidence and nothing else. */
  ghost predicate Applied(v: Venue, l0: Ledger, l: Ledger, evidence: seq<Evidence>, report: Report) {
    DerivedFor(v, l0, l, CallsOn(l0, MarketsOf(evidence))) && report.resultsUnchanged == FoundStanding(v, l0, evidence)
  }

  ghost function PendingIds(results: map<Id, CallResult>, ids: seq<Id>): set<Id> {
    set id | id in ids && id in results && results[id].outcome == PENDING
  }

  ghost function PendingAmong(l: Ledger, ids: seq<Id>): set<Id> { PendingIds(l.book.results, ids) }

  ghost function WithoutRow(l: Ledger, ids: seq<Id>): set<Id> { set id | id in ids && id !in l.book.results }

  /** A pass so far: it began at `l0`, and its counters say what it has done since. */
  ghost predicate Counted(l0: Ledger, l: Ledger, report: Report, settled: set<Id>) {
    settled == NewlySettled(l0, l) && report.resultsSettled == |settled|
  }

  lemma WriteForm(v: Venue, l: Ledger, callId: Id, at: int)
    requires Tidy(l) && VenueSound(v) && callId in l.book.calls
    requires WriteResult(l, callId, GetResolution(v, l.book.calls[callId].marketId), at, SERVICE).Ok?
    ensures var next := Derive(l.book.calls[callId], GetResolution(v, l.book.calls[callId].marketId), at);
            var (l', changed) :=
                WriteResult(l, callId, GetResolution(v, l.book.calls[callId].marketId), at, SERVICE).value;
            && (changed <==> !HasOutcome(v, l, callId))
            && if changed
                then !IsSettled(l.book.results,
                callId) && l' == l.(book := l.book.(results := l.book.results[callId := next]))
               else l' == l && callId in l.book.results && SameDerivation(l.book.results[callId], next)
  {
  }

  lemma NothingDerived(v: Venue, l: Ledger)
    ensures DerivedFor(v, l, l, {})
  {
  }

  lemma DerivedBoth(v: Venue, l: Ledger, mid: Ledger, l': Ledger, first: set<Id>, second: set<Id>)
    requires DerivedFor(v, l, mid, first) && DerivedFor(v, mid, l', second)
    ensures DerivedFor(v, l, l', first + second)
  {
    hide Derived;
    forall id | id in first + second
      ensures HasOutcome(v, l', id) && (HasOutcome(v, l, id) ==> l'.book.results[id] == l.book.results[id])
    {
      if id !in second { assert SameRow(mid.book.results, l'.book.results, id); }
      if id !in first { assert SameRow(l.book.results, mid.book.results, id); }
    }
    forall id | id !in first + second ensures SameRow(l.book.results, l'.book.results, id) {
      assert SameRow(l.book.results, mid.book.results, id) && SameRow(mid.book.results, l'.book.results, id);
    }
  }

  lemma OneDerived(v: Venue, l: Ledger, l': Ledger, row: CallResult)
    requires row.callId in l.book.calls && Derived(v, l.book.calls[row.callId], row)
    requires l'.order == l.order && l'.book.calls == l.book.calls
        && l'.book.results == l.book.results[row.callId := row]
    requires HasOutcome(v, l, row.callId) ==> l.book.results[row.callId] == row
    ensures DerivedFor(v, l, l', {row.callId})
  {
    hide Derived;
  }

  /** What stands after some calls were derived: those, and whatever stood before. */
  lemma StandsAfter(v: Venue, l: Ledger, l': Ledger, ids: set<Id>, id: Id)
    requires DerivedFor(v, l, l', ids)
    ensures HasOutcome(v, l', id) <==> id in ids || HasOutcome(v, l, id)
  {
    hide Derived;
    if id !in ids { assert SameRow(l.book.results, l'.book.results, id); }
  }

  /** A loop over some calls has derived these, and counted those among them that stood. */
  ghost predicate Visited(v: Venue, was: Ledger, l: Ledger, ids: set<Id>, idle0: nat, idle: nat) {
    DerivedFor(v, was, l, ids) && idle == idle0 + |Standing(v, was, ids)|
  }

  lemma VisitStarts(v: Venue, l: Ledger, idle: nat)
    ensures Visited(v, l, l, {}, idle, idle)
  {
    assert Standing(v, l, {}) == {};
  }

  lemma StandingOneMore(v: Venue, l: Ledger, ids: set<Id>, id: Id)
    requires id !in ids
    ensures |Standing(v, l, ids + {id})| == |Standing(v, l, ids)| + (if HasOutcome(v, l, id) then 1 else 0)
  {
    hide HasOutcome;
    assert Standing(v, l, ids + {id}) == Standing(v, l, ids) + (if HasOutcome(v, l, id) then {id} else {});
  }

  /** One more call of the loop derived: it stood before the loop exactly if the write changed nothing. */
  lemma VisitOne(v: Venue, was: Ledger, l: Ledger, l': Ledger, ids: set<Id>, idle0: nat, idle: nat, row: CallResult,
      changed: bool)
    requires Visited(v, was, l, ids, idle0, idle) && row.callId !in ids
    requires row.callId in l.book.calls && Derived(v, l.book.calls[row.callId], row)
    requires l'.order == l.order && l'.book.calls == l.book.calls
        && l'.book.results == l.book.results[row.callId := row]
    requires changed <==> !HasOutcome(v, l, row.callId)
    requires !changed ==> row.callId in l.book.results && l.book.results[row.callId] == row
    ensures Visited(v, was, l', ids + {row.callId}, idle0, if changed then idle else idle + 1)
  {
    OneDerived(v, l, l', row);
    StandsAfter(v, was, l, ids, row.callId);
    hide DerivedFor, HasOutcome, Standing;
    DerivedBoth(v, was, l, l', ids, {row.callId});
    StandingOneMore(v, was, ids, row.callId);
  }

  lemma CallsOnNext(l: Ledger, evidence: seq<Evidence>, next: Evidence)
    ensures CallsOn(l, MarketsOf(evidence + [next])) == CallsOn(l, MarketsOf(evidence)) + CallsOn(l, {next.marketId})
  {
    assert MarketsOf(evidence + [next]) == MarketsOf(evidence) + {next.marketId};
  }

  lemma StandingAfter(v: Venue, l: Ledger, l': Ledger, before: set<Id>, on: set<Id>)
    requires DerivedFor(v, l, l', before)
    ensures Standing(v, l', on) == Standing(v, l, on) + on * before
  {
    hide DerivedFor, HasOutcome;
    forall id ensures id in Standing(v, l', on) <==> id in Standing(v, l, on) + on * before {
      StandsAfter(v, l, l', before, id);
    }
  }

  lemma FoundNext(v: Venue, l: Ledger, evidence: seq<Evidence>, next: Evidence)
    ensures var on := CallsOn(l, {next.marketId});
            FoundStanding(v, l, evidence + [next]) == FoundStanding(v, l, evidence) + |Standing(v, l, on)
                + on * CallsOn(l, MarketsOf(evidence))|
  {
    hide Standing, CallsOn, MarketsOf;
    assert (evidence + [next])[..|evidence|] == evidence;
  }

  lemma AppliedNext(
      v: Venue, l0: Ledger, l: Ledger, l': Ledger, evidence: seq<Evidence>, next: Evidence, was: Report, seen: Report,
          report: Report)
    requires Applied(v, l0, l, evidence, was) && seen == was.(resolutionsSeen := was.resolutionsSeen + 1)
    requires EvidenceApplied(v, l, l', next.marketId, seen, report)
    ensures Applied(v, l0, l', evidence + [next], report)
    ensures ReadMore(was, report, 1)
  {
    var before, on := CallsOn(l0, MarketsOf(evidence)), CallsOn(l0, {next.marketId});
    assert CallsOn(l, {next.marketId}) == on by { hide HasOutcome, SameRow, MarketsOf; }
    hide DerivedFor, HasOutcome, CallsOn, MarketsOf, Standing, FoundStanding;
    DerivedBoth(v, l0, l, l', before, on);
    CallsOnNext(l0, evidence, next);
    StandingAfter(v, l0, l, before, on);
    FoundNext(v, l0, evidence, next);
  }

  lemma NewlySettledGrows(l0: Ledger, l: Ledger, l': Ledger, r: CallResult)
    requires ResultsKept(l0.book.results, l.book.results) && l'.book.results == l.book.results[r.callId := r]
    ensures !IsSettled(l.book.results, r.callId) ==>
              && !IsSettled(l0.book.results, r.callId) && r.callId !in NewlySettled(l0, l)
              && NewlySettled(l0, l') == NewlySettled(l0, l) + (if r.outcome != PENDING then {r.callId} else {})
    ensures r.callId in l.book.results && l.book.results[r.callId] == r ==> NewlySettled(l0, l') == NewlySettled(l0, l)
  {
  }

  lemma Conflict(v: Venue, l0: Ledger, l: Ledger, callId: Id, at: int)
    requires Tidy(l0) && Progressed(v, l0, l) && VenueSound(v) && callId in l.book.calls
    requires WriteResult(l, callId, GetResolution(v, l.book.calls[callId].marketId), at, SERVICE).Err?
    ensures !Consistent(v, l0)
  {
    if Consistent(v, l0) {
      ProgressTidy(v, l0, l);
      ProgressConsistent(v, l0, l);
      NeverRefused(v, l, callId, at);
    }
  }

  /** The first `n` of them, or all if there are fewer. */
  function UpTo(tail: seq<Evidence>, n: nat): seq<Evidence> { if n <= |tail| then tail[..n] else tail }

  function PageAt(tail: seq<Evidence>, i: nat, pageSize: nat): (batch: seq<Evidence>)
    requires i < |tail| && pageSize > 0
    ensures batch != []
  {
    tail[i..if i + pageSize <= |tail| then i + pageSize else |tail|]
  }

  lemma PageFollows(tail: seq<Evidence>, i: nat, pageSize: nat)
    requires i < |tail| && pageSize > 0
    ensures UpTo(tail, i) + PageAt(tail, i, pageSize) == UpTo(tail, i + pageSize)
    ensures forall ev | ev in PageAt(tail, i, pageSize) :: ev in tail
  {
    var end := if i + pageSize <= |tail| then i + pageSize else |tail|;
    assert tail[..i] + tail[i..end] == tail[..end];
  }

  function PagesEnd(pages: nat, pageSize: nat): nat { pages * pageSize }

  /** Whole pages of the tail have been consumed, and the watermark stands at the last resolution of the last one. */
  ghost predicate Consumed(
      tail: seq<Evidence>, n: Numerals, pageSize: nat, cursors0: map<string, Option<string>>,
          cursors: map<string, Option<string>>, pages: nat, seen: nat)
  {
    && seen == (if PagesEnd(pages, pageSize) <= |tail| then PagesEnd(pages, pageSize) else |tail|)
    && cursors == (if seen == 0 then cursors0
        else cursors0[RESOLUTION_CURSOR := Some(n.spell(tail[seen - 1].recordedAt))])
  }

  /** So many more resolutions have been read; of the other counters only those of results moved. */
  ghost predicate ReadMore(before: Report, after: Report, n: nat) {
    after == before.(resultsSettled := after.resultsSettled, resultsUnchanged := after.resultsUnchanged,
        resolutionsSeen := before.resolutionsSeen + n)
  }

  ghost predicate Walked(
      tail: seq<Evidence>, n: Numerals, pageSize: nat, cursors0: map<string, Option<string>>,
          cursors: map<string, Option<string>>, report: Report)
  {
    && report.stillPending == report.resultsMaterialised == 0
    && Consumed(tail, n, pageSize, cursors0, cursors, report.pages, report.resolutionsSeen)
  }

  lemma WalkStarts(e: Env, v: Venue, l: Ledger, tail: seq<Evidence>, n: Numerals, pageSize: nat)
    ensures Ran(e, v, l, [], l) && Progressed(v, l, l)
        && Applied(v, l, l, UpTo(tail, 0), Report(0, 0, 0, 0, 0, 0, None))
    ensures var report := Report(0, 0, 0, 0, 0, 0, None);
            Counted(l, l, report, {}) && Walked(tail, n, pageSize, l.cursors, l.cursors, report)
                && PagesEnd(0, pageSize) == 0
  {
    assert NewlySettled(l, l) == {};
    NothingDerived(v, l);
    assert CallsOn(l, MarketsOf([])) == {};
    assert UpTo(tail, 0) == [];
  }

  lemma AppliedFrame(v: Venue, l0: Ledger, l: Ledger, l': Ledger, evidence: seq<Evidence>, report: Report,
      report': Report)
    requires Applied(v, l0, l, evidence, report)
    requires l'.order == l.order && l'.book == l.book && report'.resultsUnchanged == report.resultsUnchanged
    ensures Applied(v, l0, l', evidence, report')
  {
    hide Derived, CallsOn, MarketsOf, FoundStanding;
  }

  lemma PageWalked(
      tail: seq<Evidence>, n: Numerals, pageSize: nat, cursors0: map<string, Option<string>>,
          cursors: map<string, Option<string>>,
      before: Report, after: Report)
    requires Walked(tail, n, pageSize, cursors0, cursors, before) && PagesEnd(before.pages, pageSize) < |tail|
        && pageSize > 0
    requires ReadMore(before.(pages := before.pages + 1), after,
        |PageAt(tail, PagesEnd(before.pages, pageSize), pageSize)|)
    ensures after.pages == before.pages + 1
    ensures PagesEnd(after.pages, pageSize) == PagesEnd(before.pages, pageSize) + pageSize
    ensures var batch := PageAt(tail, PagesEnd(before.pages, pageSize), pageSize);
            Walked(tail, n, pageSize, cursors0,
                cursors[RESOLUTION_CURSOR := Some(n.spell(batch[|batch| - 1].recordedAt))], after)
  {
    assert (before.pages + 1) * pageSize == before.pages * pageSize + pageSize;
    hide PagesEnd;
  }

  lemma WalkEnds(
      tail: seq<Evidence>, n: Numerals, pageSize: nat, cursors0: map<string, Option<string>>,
          cursors: map<string, Option<string>>, report: Report)
    requires Walked(tail, n, pageSize, cursors0, cursors, report)
    ensures PagesEnd(report.pages, pageSize) >= |tail| ==> report.resolutionsSeen == |tail|
    ensures report.resolutionsSeen <= |tail|
        && tail[..report.resolutionsSeen] == UpTo(tail, PagesEnd(report.pages, pageSize))
  {
  }

  /** Where a watermark says the next pass begins: the start of everything when it cannot be read. */
  function CursorIn(cursors: map<string, Option<string>>, n: Numerals): int {
    if RESOLUTION_CURSOR !in cursors || cursors[RESOLUTION_CURSOR].None? then 0
    else
      var read := n.read(cursors[RESOLUTION_CURSOR].value);
      if read.Some? && read.value >= 0 then read.value else 0
  }

  /** A number is read as it was spelled. */
  ghost predicate ReadsBack(n: Numerals) { forall k :: n.read(n.spell(k)) == Some(k) }

  /** The next pass begins at the last resolution this one has seen, or where this one began. */
  lemma NextBegins(
      v: Venue, markets: seq<Id>, since: int, n: Numerals, pageSize: nat, cursors0: map<string, Option<string>>,
          cursors: map<string, Option<string>>, pages: nat, seen: nat)
    requires ReadsBack(n) && since == CursorIn(cursors0, n)
    requires Consumed(ResolutionsSince(v, markets, since), n, pageSize, cursors0, cursors, pages, seen)
    ensures seen <= |ResolutionsSince(v, markets, since)|
    ensures CursorIn(cursors, n)
        == if seen == 0 then since else ResolutionsSince(v, markets, since)[seen - 1].recordedAt
  {
    TailIsComplete(v, markets, since);
    var tail := ResolutionsSince(v, markets, since);
    hide ResolutionsSince, PagesEnd;
    if seen > 0 { assert tail[seen - 1] in tail; }
  }

  class ResolutionSync {
    const store: InMemoryCallsStore
    const maxPages: nat
    const pageSize: nat

    constructor (store: InMemoryCallsStore, maxPages: nat, pageSize: nat)
      requires pageSize > 0
      ensures this.store == store && this.maxPages == maxPages && this.pageSize == pageSize
    {
      this.store, this.maxPages, this.pageSize := store, maxPages, pageSize;
    }

    function CursorAt(n: Numerals): int
      reads store
    {
      CursorIn(store.cursors, n)
    }

    method ResetCursor()
      modifies store
      ensures store.Contents() == Ledgers.SetCursor(old(store.Contents()), RESOLUTION_CURSOR, None)
      ensures forall n :: CursorAt(n) == 0
    {
      store.SetCursor(RESOLUTION_CURSOR, None);
    }

    /** One derivation: written, found to stand already, or refused because a settled result says otherwise. */
    method Settle(ghost e: Env, ghost v: Venue, ghost l0: Ledger, ghost steps: seq<Op>, callId: Id,
        evidence: Option<Evidence>)
      returns (r: Result<(CallResult, bool)>, ghost steps': seq<Op>)
      requires VenueSound(v) && callId in store.calls && evidence == GetResolution(v, store.calls[callId].marketId)
      requires Tidy(l0) && Ran(e, v, l0, steps, store.Contents()) && Progressed(v, l0, store.Contents())
      modifies store
      ensures Ran(e, v, l0, steps', store.Contents()) && Progressed(v, l0, store.Contents())
      ensures store.cursors == old(store.cursors) && store.order == old(store.order) && store.calls == old(store.calls)
      ensures r.Ok? ==>
                var (row, changed) := r.value;
                && row.callId == callId && Derived(v, store.calls[callId], row)
                    && store.results == old(store.results)[callId := row]
                && (changed <==> !HasOutcome(v, old(store.Contents()), callId))
                && (if changed then !IsSettled(old(store.results), callId)
                    else callId in old(store.results) && old(store.results)[callId] == row)
      ensures r.Err? ==> !Consistent(v, l0)
    {
      ghost var before := store.Contents();
      ProgressTidy(v, l0, before);
      var at: int := *;   // the clock
      r := store.WriteResult(callId, evidence, at, SERVICE);
      steps' := steps;
      if r.Err? {
        Conflict(v, l0, before, callId, at);
      } else {
        steps' := steps + [SetResult(callId, evidence, at, SERVICE)];
        RanMore(e, v, l0, steps, before, SetResult(callId, evidence, at, SERVICE));
        WriteForm(v, before, callId, at);
        hide Ran, Progressed, Ledgers.WriteResult, Tidy, HasOutcome;
        assert store.results == before.book.results[callId := r.value.0];
      }
    }

    /** Derive every call on the resolved market from this evidence, and nothing else. */
    method ApplyEvidence(
        ghost e: Env, ghost v: Venue, ghost l0: Ledger, ghost steps: seq<Op>, evidence: Evidence, report: Report,
            settled: set<Id>)
      returns (r: Result<(Report, set<Id>)>, ghost steps': seq<Op>)
      requires VenueSound(v) && GetResolution(v, evidence.marketId) == Some(evidence)
      requires Tidy(l0) && Ran(e, v, l0, steps, store.Contents()) && Progressed(v, l0, store.Contents())
      requires Counted(l0, store.Contents(), report, settled)
      modifies store
      ensures Ran(e, v, l0, steps', store.Contents()) && Progressed(v, l0, store.Contents())
      ensures r.Ok? ==>
                && EvidenceApplied(v, old(store.Contents()), store.Contents(), evidence.marketId, report, r.value.0)
                && Counted(l0, store.Contents(), r.value.0, r.value.1)
      ensures r.Err? ==> !Consistent(v, l0)
      ensures store.cursors == old(store.cursors)
    {
      ghost var was := store.Contents();
      var counted, done := report, settled;
      steps' := steps;
      var ids := store.order;
      ProgressTidy(v, l0, was);
      ApplyingStarts(v, was, evidence.marketId, report);
      hide Ran, Derived, Applying, HasOutcome, Progressed, Counted, Tidy, Consistent, EvidenceApplied;
      for i := 0 to |ids|
        invariant store.order == ids && store.calls == was.book.calls && store.cursors == old(store.cursors)
        invariant Ran(e, v, l0, steps', store.Contents()) && Progressed(v, l0, store.Contents())
        invariant Counted(l0, store.Contents(), counted, done)
        invariant Applying(v, was, store.Contents(), i, evidence.marketId, report, counted)
      {
        ghost var before, counting, did := store.Contents(), counted, done;
        ApplyingNext(v, was, before, i, evidence.marketId, report, counted);
        if store.calls[ids[i]].marketId == evidence.marketId {
          var written;
          written, steps' := Settle(e, v, l0, steps', ids[i], Some(evidence));
          if written.Err? { return Err(written.code), steps'; }
          var (row, changed) := written.value;
          if changed {
            if row.outcome != PENDING && ids[i] !in done {
              counted := counted.(resultsSettled := counted.resultsSettled + 1);
              done := done + {ids[i]};
            }
          } else {
            counted := counted.(resultsUnchanged := counted.resultsUnchanged + 1);
          }
          ApplyingOne(v, was, before, store.Contents(), i, evidence.marketId, report, counting, counted, row, changed);
          SettledOne(v, l0, before, store.Contents(), counting, counted, row, changed, did);
          assert done == if changed && row.outcome != PENDING then did + {ids[i]} else did;
        }
      }
      ApplyingEnds(v, was, store.Contents(), evidence.marketId, report, counted);
      return Ok((counted, done)), steps';
    }

    /** One page of the tail, evidence by evidence. */
    method ApplyPage(
        ghost e: Env, ghost v: Venue, ghost l0: Ledger, ghost steps: seq<Op>, ghost earlier: seq<Evidence>,
            batch: seq<Evidence>,
        report: Report, settled: set<Id>)
      returns (r: Result<(Report, set<Id>)>, ghost steps': seq<Op>)
      requires VenueSound(v) && forall ev | ev in batch :: GetResolution(v, ev.marketId) == Some(ev)
      requires Tidy(l0) && Ran(e, v, l0, steps, store.Contents()) && Progressed(v, l0, store.Contents())
      requires Counted(l0, store.Contents(), report, settled) && Applied(v, l0, store.Contents(), earlier, report)
      modifies store
      ensures Ran(e, v, l0, steps', store.Contents()) && Progressed(v, l0, store.Contents())
      ensures r.Ok? ==> Counted(l0, store.Contents(), r.value.0, r.value.1)
                        && Applied(v, l0, store.Contents(), earlier + batch, r.value.0)
                        && ReadMore(report, r.value.0, |batch|)
      ensures r.Err? ==> !Consistent(v, l0)
      ensures store.cursors == old(store.cursors)
    {
      hide Ran, Progressed, Counted, Tidy, Consistent, EvidenceApplied, Applied;
      var counted, done := report, settled;
      steps' := steps;
      assert earlier + batch[..0] == earlier;
      for i := 0 to |batch|
        invariant Ran(e, v, l0, steps', store.Contents()) && Progressed(v, l0, store.Contents())
        invariant Counted(l0, store.Contents(), counted, done) && store.cursors == old(store.cursors)
        invariant Applied(v, l0, store.Contents(), earlier + batch[..i], counted)
        invariant ReadMore(report, counted, i)
      {
        assert batch[i] in batch;
        ghost var before, was := store.Contents(), counted;
        CountedFrame(l0, before, counted, counted.(resolutionsSeen := counted.resolutionsSeen + 1), done);
        counted := counted.(resolutionsSeen := counted.resolutionsSeen + 1);
        ghost var seen := counted;
        var applied;
        applied, steps' := ApplyEvidence(e, v, l0, steps', batch[i], counted, done);
        if applied.Err? { return Err(applied.code), steps'; }
        counted, done := applied.value.0, applied.value.1;
        AppliedNext(v, l0, before, store.Contents(), earlier + batch[..i], batch[i], was, seen, counted);
        assert earlier + batch[..i + 1] == (earlier + batch[..i]) + [batch[i]];
      }
      assert batch[..|batch|] == batch;
      return Ok((counted, done)), steps';
    }

    /** The next page: its evidence, then the watermark. */
    method TakePage(
        ghost e: Env, ghost v: Venue, ghost l0: Ledger, ghost steps: seq<Op>, tail: seq<Evidence>, n: Numerals,
        ghost cursors0: map<string, Option<string>>, report: Report, settled: set<Id>)
      returns (r: Result<(Report, set<Id>)>, ghost steps': seq<Op>)
      requires VenueSound(v) && forall ev | ev in tail :: GetResolution(v, ev.marketId) == Some(ev)
      requires Tidy(l0) && Ran(e, v, l0, steps, store.Contents()) && Progressed(v, l0, store.Contents())
      requires Counted(l0, store.Contents(), report, settled)
          && Walked(tail, n, pageSize, cursors0, store.cursors, report)
      requires pageSize > 0 && PagesEnd(report.pages, pageSize) < |tail|
      requires Applied(v, l0, store.Contents(), UpTo(tail, PagesEnd(report.pages, pageSize)), report)
      modifies store
      ensures Ran(e, v, l0, steps', store.Contents()) && Progressed(v, l0, store.Contents())
      ensures r.Ok? ==>
                && Counted(l0, store.Contents(), r.value.0, r.value.1)
                && Walked(tail, n, pageSize, cursors0, store.cursors, r.value.0)
                && r.value.0.pages == report.pages + 1
                && PagesEnd(r.value.0.pages, pageSize) == PagesEnd(report.pages, pageSize) + pageSize
                && Applied(v, l0, store.Contents(), UpTo(tail, PagesEnd(r.value.0.pages, pageSize)), r.value.0)
      ensures r.Err? ==> !Consistent(v, l0)
    {
      hide Ran, Progressed, Counted, Tidy, Consistent, Walked, PagesEnd, Applied, ReadMore;
      var i := PagesEnd(report.pages, pageSize);
      var batch := PageAt(tail, i, pageSize);
      PageFollows(tail, i, pageSize);
      hide UpTo, PageAt;
      ghost var cursors := store.cursors;
      var paged := report.(pages := report.pages + 1);
      CountedFrame(l0, store.Contents(), report, paged, settled);
      AppliedFrame(v, l0, store.Contents(), store.Contents(), UpTo(tail, i), report, paged);
      var applied;
      applied, steps' := ApplyPage(e, v, l0, steps, UpTo(tail, i), batch, paged, settled);
      if applied.Err? { return Err(applied.code), steps'; }
      PageWalked(tail, n, pageSize, cursors0, cursors, report, applied.value.0);
      ghost var before := store.Contents();
      steps' := MoveWatermark(e, v, l0, steps', n.spell(batch[|batch| - 1].recordedAt), applied.value.0,
          applied.value.1);
      AppliedFrame(v, l0, before, store.Contents(), UpTo(tail, i + pageSize), applied.value.0, applied.value.0);
      r := applied;
    }

    /** Pass 1: new venue evidence from the watermark on, oldest first, with the watermark moved after every page. */
    method WalkTail(ghost e: Env, v: Venue, markets: seq<Id>, n: Numerals)
      returns (r: Result<(Report, set<Id>)>, ghost steps: seq<Op>)
      requires VenueSound(v) && Tidy(store.Contents()) && pageSize > 0
      modifies store
      ensures Ran(e, v, old(store.Contents()), steps, store.Contents())
          && Progressed(v, old(store.Contents()), store.Contents())
      ensures r.Ok? ==>
                var (report, settled), tail := r.value, ResolutionsSince(v, markets, old(CursorAt(n)));
                && Counted(old(store.Contents()), store.Contents(), report, settled)
                && Walked(tail, n, pageSize, old(store.cursors), store.cursors, report)
                && report.pages <= maxPages && (report.pages == maxPages || report.resolutionsSeen == |tail|)
                && report.resolutionsSeen <= |tail|
                    && Applied(v, old(store.Contents()), store.Contents(), tail[..report.resolutionsSeen], report)
      ensures r.Err? ==> !Consistent(v, old(store.Contents()))
    {
      ghost var l0 := store.Contents();
      steps := [];
      var report, settled := Report(0, 0, 0, 0, 0, 0, None), {};
      var tail := ResolutionsSince(v, markets, CursorAt(n));
      TailEvidence(v, markets, CursorAt(n));
      WalkStarts(e, v, l0, tail, n, pageSize);
      hide Ran, Progressed, Counted, Tidy, Consistent, ResolutionsSince, Walked, PagesEnd, Applied;
      var i := 0;
      while i < |tail| && report.pages < maxPages
        invariant i == PagesEnd(report.pages, pageSize) && report.pages <= maxPages
        invariant Walked(tail, n, pageSize, l0.cursors, store.cursors, report)
        invariant Ran(e, v, l0, steps, store.Contents()) && Progressed(v, l0, store.Contents())
        invariant Counted(l0, store.Contents(), report, settled)
            && Applied(v, l0, store.Contents(), UpTo(tail, i), report)
        decreases maxPages - report.pages
      {
        var paged;
        paged, steps := TakePage(e, v, l0, steps, tail, n, l0.cursors, report, settled);
        if paged.Err? { return Err(paged.code), steps; }
        report, settled := paged.value.0, paged.value.1;
        i := i + pageSize;
      }
      WalkEnds(tail, n, pageSize, l0.cursors, store.cursors, report);
      return Ok((report, settled)), steps;
    }

    /** Persisted after every page, so a crash resumes at the next one. */
    method MoveWatermark(
        ghost e: Env, ghost v: Venue, ghost l0: Ledger, ghost steps: seq<Op>, cursor: string, ghost report: Report,
            ghost settled: set<Id>)
      returns (ghost steps': seq<Op>)
      requires Tidy(l0) && Ran(e, v, l0, steps, store.Contents()) && Progressed(v, l0, store.Contents())
      requires Counted(l0, store.Contents(), report, settled)
      modifies store
      ensures Ran(e, v, l0, steps', store.Contents()) && Progressed(v, l0, store.Contents())
      ensures Counted(l0, store.Contents(), report, settled)
      ensures store.cursors == old(store.cursors)[RESOLUTION_CURSOR := Some(cursor)]
      ensures store.Contents().book == old(store.Contents().book) && store.order == old(store.order)
    {
      ghost var op := Cursor(RESOLUTION_CURSOR, Some(cursor));
      RanMore(e, v, l0, steps, store.Contents(), op);
      steps' := steps + [op];
      store.SetCursor(RESOLUTION_CURSOR, Some(cursor));
    }

    /**
     * Pass 2: every call still without a settled result is derived again from
     * the venue's own record, whatever the watermark says.
     */
    method Sweep(ghost e: Env, v: Venue, ghost l0: Ledger, ghost steps: seq<Op>, report: Report, settled: set<Id>)
      returns (r: Result<Report>, ghost steps': seq<Op>)
      requires VenueSound(v)
      requires Tidy(l0) && Ran(e, v, l0, steps, store.Contents()) && Progressed(v, l0, store.Contents())
      requires Counted(l0, store.Contents(), report, settled) && report.stillPending == report.resultsMaterialised == 0
      modifies store
      ensures Ran(e, v, l0, steps', store.Contents()) && Progressed(v, l0, store.Contents())
          && store.cursors == old(store.cursors)
      ensures r.Ok? ==>
                && (forall id | id in store.calls :: Done(v, l0, store.Contents(), id))
                && r.value.resultsSettled == |NewlySettled(l0, store.Contents())|
                && r.value.stillPending == |PendingAmong(store.Contents(), store.order)|
                && r.value.resultsMaterialised == |WithoutRow(old(store.Contents()), store.order)|
                && DerivedFor(v, old(store.Contents()), store.Contents(),
                    UnsettledIn(old(store.Contents()), store.order))
                && r.value.resultsUnchanged
                   == report.resultsUnchanged
                       + |Standing(v, old(store.Contents()), UnsettledIn(old(store.Contents()), store.order))|
                && r.value.pages == report.pages && r.value.resolutionsSeen == report.resolutionsSeen
      ensures r.Err? ==> !Consistent(v, l0)
    {
      ghost var swept := store.Contents();
      var counted, done := report, settled;
      steps' := steps;
      var ids := store.order;
      SweepStarts(v, l0, swept, report);
      hide Ran, Progressed, Counted, Tidy, Consistent, Swept, Tallied, Derived, Listed, HasOutcome, DerivedFor,
          Standing, UnsettledIn;
      for i := 0 to |ids|
        invariant store.order == ids && store.cursors == old(store.cursors)
        invariant Ran(e, v, l0, steps', store.Contents()) && Progressed(v, l0, store.Contents())
        invariant Counted(l0, store.Contents(), counted, done)
        invariant Swept(v, swept, store.Contents(), i, report, counted) && Tallied(swept, store.Contents(), i, counted)
        invariant counted.pages == report.pages && counted.resolutionsSeen == report.resolutionsSeen
      {
        ghost var before := store.Contents();
        InListing(v, l0, before, ids, i);
        if ids[i] in store.results && store.results[ids[i]].outcome != PENDING {
          SweptPast(v, l0, swept, before, i, report, counted);
          continue;
        }
        var unseen := ids[i] !in store.results;
        var written;
        written, steps' := Settle(e, v, l0, steps', ids[i], GetResolution(v, store.calls[ids[i]].marketId));
        if written.Err? { return Err(written.code), steps'; }
        var was := counted;
        var (row, changed) := written.value;
        if unseen { counted := counted.(resultsMaterialised := counted.resultsMaterialised + 1); }
        if changed && row.outcome != PENDING {
          if ids[i] !in done {
            counted := counted.(resultsSettled := counted.resultsSettled + 1);
          }
        } else if !changed {
          counted := counted.(resultsUnchanged := counted.resultsUnchanged + 1);
        }
        if row.outcome == PENDING { counted := counted.(stillPending := counted.stillPending + 1); }
        SweptOne(v, l0, swept, before, store.Contents(), i, report, was, counted, row, changed);
        SettledOne(v, l0, before, store.Contents(), was, counted, row, changed, done);
        if changed && row.outcome != PENDING { done := done + {ids[i]}; }
      }
      SweepEnds(v, l0, swept, store.Contents(), report, counted, done);
      return Ok(counted), steps';
    }

    /**
     * One synchroniser pass. It is refused only when a result already settled
     * contradicts the venue's record. From consistent results it is never
     * refused, and every call ends with the result its market's current
     * evidence derives; once that is so, a further pass changes no record.
     */
    method RunOnce(ghost e: Env, v: Venue, markets: seq<Id>, n: Numerals)
        returns (r: Result<Report>, ghost steps: seq<Op>)
      requires VenueSound(v) && Tidy(store.Contents()) && pageSize > 0
      modifies store
      ensures Ran(e, v, old(store.Contents()), steps, store.Contents())
      ensures Progressed(v, old(store.Contents()), store.Contents())
      ensures Consistent(v, old(store.Contents())) ==> r.Ok? && Converged(v, store.Contents())
      ensures Consistent(v, old(store.Contents())) ==> forall m :: MarketJudged(v, store.Contents(), m)
      ensures Converged(v, old(store.Contents())) ==> store.Contents().book == old(store.Contents().book)
      ensures r.Ok? ==>
                var tail := ResolutionsSince(v, markets, old(CursorAt(n)));
                && (forall id | id in store.calls :: Done(v, old(store.Contents()), store.Contents(), id))
                && r.value.resultsSettled == |NewlySettled(old(store.Contents()), store.Contents())|
                && r.value.stillPending == |PendingAmong(store.Contents(), store.order)|
                && r.value.pages <= maxPages && (r.value.pages == maxPages || r.value.resolutionsSeen == |tail|)
                && r.value.resolutionsSeen <= |tail|
                && PassReport(v, old(store.Contents()), store.Contents(), tail[..r.value.resolutionsSeen], r.value)
                && Consumed(tail, n, pageSize, old(store.cursors), store.cursors, r.value.pages,
                    r.value.resolutionsSeen)
                && (ReadsBack(n) ==>
                      CursorAt(n) == if r.value.resolutionsSeen == 0 then old(CursorAt(n))
                                     else tail[r.value.resolutionsSeen - 1].recordedAt)
                && r.value.cursor
                    == (if RESOLUTION_CURSOR in store.cursors then store.cursors[RESOLUTION_CURSOR] else None)
    {
      hide Ran, Progressed, Counted, Tidy, Consistent, Converged, Done, ResolutionsSince, PagesEnd, NewlySettled,
          PendingAmong, Consumed;
      hide Applied, DerivedFor, UnsettledIn, WithoutRow, Standing, PassReport, MarketJudged;
      ghost var l0 := store.Contents();
      var walked;
      walked, steps := WalkTail(e, v, markets, n);
      if walked.Err? {
        PassEnds(e, v, l0, steps, store.Contents());
        return Err(walked.code), steps;
      }
      var (report, settled) := walked.value;
      ghost var between := store.Contents();
      var swept;
      swept, steps := Sweep(e, v, l0, steps, report, settled);
      PassEnds(e, v, l0, steps, store.Contents());
      if Converged(v, store.Contents()) {
        forall m ensures MarketJudged(v, store.Contents(), m) { ConvergedIsJudged(v, store.Contents(), m); }
      }
      if swept.Err? { return Err(swept.code), steps; }
      ghost var seen := ResolutionsSince(v, markets, old(CursorAt(n)))[..report.resolutionsSeen];
      TailEvidence(v, markets, old(CursorAt(n)));
      var counted :=
          swept.value.(cursor := if RESOLUTION_CURSOR in store.cursors then store.cursors[RESOLUTION_CURSOR] else None);
      PassReported(v, l0, between, store.Contents(), seen, report, counted);
      if ReadsBack(n) {
        NextBegins(v, markets, old(CursorAt(n)), n, pageSize, l0.cursors, store.cursors, report.pages,
            report.resolutionsSeen);
      }
      hide CursorIn, ReadsBack;
      r := Ok(counted);
    }
  }

  ghost function OnMarket(l: Ledger, ids: seq<Id>, marketId: Id): set<Id> {
    set id | id in ids && id in l.book.calls && l.book.calls[id].marketId == marketId
  }

  /**
   * One piece of evidence has been applied to every call on its market: each is
   * derived, and those that stood were counted.
   */
  ghost predicate EvidenceApplied(v: Venue, l: Ledger, l': Ledger, marketId: Id, report: Report, report': Report) {
    && DerivedFor(v, l, l', CallsOn(l, {marketId}))
    && report'.resultsUnchanged == report.resultsUnchanged + |Standing(v, l, CallsOn(l, {marketId}))|
    && report' == report.(resultsSettled := report'.resultsSettled, resultsUnchanged := report'.resultsUnchanged)
  }

  /** As far as the first `i` calls go. */
  ghost predicate Applying(v: Venue, was: Ledger, l: Ledger, i: nat, marketId: Id, report: Report, report': Report) {
    && i <= |was.order|
    && Visited(v, was, l, OnMarket(was, was.order[..i], marketId), report.resultsUnchanged, report'.resultsUnchanged)
    && report' == report.(resultsSettled := report'.resultsSettled, resultsUnchanged := report'.resultsUnchanged)
  }

  lemma ApplyingStarts(v: Venue, l: Ledger, marketId: Id, report: Report)
    ensures Applying(v, l, l, 0, marketId, report, report)
  {
    VisitStarts(v, l, report.resultsUnchanged);
    assert OnMarket(l, l.order[..0], marketId) == {};
  }

  /** A call on another market is passed over. */
  lemma ApplyingNext(v: Venue, was: Ledger, l: Ledger, i: nat, marketId: Id, report: Report, counted: Report)
    requires Tidy(was) && Applying(v, was, l, i, marketId, report, counted) && i < |was.order|
    ensures was.order[i] in was.book.calls
    ensures was.book.calls[was.order[i]].marketId != marketId ==> Applying(v, was, l, i + 1, marketId, report, counted)
  {
    OnMarketNext(was, i, marketId);
    hide OnMarket, Visited, Tidy;
  }

  lemma ApplyingOne(
      v: Venue, was: Ledger, l: Ledger, l': Ledger, i: nat, marketId: Id, report: Report, counting: Report,
          counted: Report, row: CallResult, changed: bool)
    requires Tidy(was) && Applying(v, was, l, i, marketId, report, counting) && i < |was.order|
        && row.callId == was.order[i]
    requires row.callId in was.book.calls && was.book.calls[row.callId].marketId == marketId
        && Derived(v, was.book.calls[row.callId], row)
    requires l.book.calls == was.book.calls
    requires l'.order == l.order && l'.book.calls == l.book.calls
        && l'.book.results == l.book.results[row.callId := row]
    requires changed <==> !HasOutcome(v, l, row.callId)
    requires !changed ==> row.callId in l.book.results && l.book.results[row.callId] == row
    requires counted.resultsUnchanged == if changed then counting.resultsUnchanged else counting.resultsUnchanged + 1
    requires counted
        == counting.(resultsSettled := counted.resultsSettled, resultsUnchanged := counted.resultsUnchanged)
    ensures Applying(v, was, l', i + 1, marketId, report, counted)
  {
    hide HasOutcome, OnMarket, Visited, Tidy, Derived;
    OnMarketNext(was, i, marketId);
    VisitOne(v, was, l, l', OnMarket(was, was.order[..i], marketId), report.resultsUnchanged, counting.resultsUnchanged,
        row, changed);
  }

  lemma ApplyingEnds(v: Venue, was: Ledger, l: Ledger, marketId: Id, report: Report, counted: Report)
    requires Tidy(was) && Applying(v, was, l, |was.order|, marketId, report, counted)
    ensures EvidenceApplied(v, was, l, marketId, report, counted)
  {
    OnMarketAll(was, marketId);
    hide OnMarket, Tidy, CallsOn, DerivedFor;
  }

  lemma OnMarketNext(l: Ledger, i: nat, marketId: Id)
    requires Tidy(l) && i < |l.order|
    ensures l.order[i] in l.book.calls && l.order[i] !in OnMarket(l, l.order[..i], marketId)
    ensures OnMarket(l, l.order[..i + 1], marketId)
            == if l.book.calls[l.order[i]].marketId == marketId then OnMarket(l, l.order[..i], marketId) + {l.order[i]}
               else OnMarket(l, l.order[..i], marketId)
  {
    assert l.order[..i + 1] == l.order[..i] + [l.order[i]];
    assert l.order[i] in l.order;
  }

  lemma OnMarketAll(l: Ledger, marketId: Id)
    requires Tidy(l)
    ensures OnMarket(l, l.order[..|l.order|], marketId) == CallsOn(l, {marketId})
  {
    assert l.order[..|l.order|] == l.order;
  }

  /**
   * What a whole pass did: it derived the calls on the markets of this evidence
   * and those that had no settled result, and moved no other row. It found
   * standing what the evidence found and what was and stays pending, and gave a
   * first row to those without one that the evidence had not reached.
   */
  ghost predicate PassReport(v: Venue, l0: Ledger, l: Ledger, seen: seq<Evidence>, report: Report) {
    && DerivedFor(v, l0, l, CallsOn(l0, MarketsOf(seen)) + UnsettledIn(l0, l0.order))
    && report.resultsUnchanged == FoundStanding(v, l0, seen) + |Standing(v, l0, UnsettledIn(l0, l0.order))|
    && report.resultsMaterialised == |WithoutRow(l0, l0.order) - CallsOn(l0, MarketsOf(seen))|
  }

  /** Away from the markets of the evidence nothing has moved; on them everything is settled. */
  lemma BetweenPasses(v: Venue, l0: Ledger, between: Ledger, seen: seq<Evidence>, id: Id)
    requires DerivedFor(v, l0, between, CallsOn(l0, MarketsOf(seen)))
    requires forall ev | ev in seen :: GetResolution(v, ev.marketId) == Some(ev)
    ensures id in CallsOn(l0, MarketsOf(seen)) ==> IsSettled(between.book.results, id)
    ensures id !in CallsOn(l0, MarketsOf(seen)) ==> SameRow(l0.book.results, between.book.results, id)
  {
    if id in CallsOn(l0, MarketsOf(seen)) { assert HasOutcome(v, between, id); }
  }

  lemma BetweenSets(v: Venue, l0: Ledger, between: Ledger, seen: seq<Evidence>)
    requires DerivedFor(v, l0, between, CallsOn(l0, MarketsOf(seen)))
    requires forall ev | ev in seen :: GetResolution(v, ev.marketId) == Some(ev)
    ensures UnsettledIn(between, l0.order) == UnsettledIn(l0, l0.order) - CallsOn(l0, MarketsOf(seen))
    ensures WithoutRow(between, l0.order) == WithoutRow(l0, l0.order) - CallsOn(l0, MarketsOf(seen))
  {
    hide DerivedFor, CallsOn, MarketsOf;
    forall id
      ensures id in UnsettledIn(between, l0.order) <==> id in UnsettledIn(l0, l0.order) - CallsOn(l0, MarketsOf(seen))
      ensures id in WithoutRow(between, l0.order) <==> id in WithoutRow(l0, l0.order) - CallsOn(l0, MarketsOf(seen))
    {
      BetweenPasses(v, l0, between, seen, id);
    }
  }

  /** A call that is unsettled although its outcome stands waits on a market without evidence. */
  lemma WaitingStands(v: Venue, l0: Ledger, between: Ledger, seen: seq<Evidence>)
    requires DerivedFor(v, l0, between, CallsOn(l0, MarketsOf(seen)))
    requires forall ev | ev in seen :: GetResolution(v, ev.marketId) == Some(ev)
    ensures Standing(v, between, UnsettledIn(between, l0.order)) == Standing(v, l0, UnsettledIn(l0, l0.order))
  {
    BetweenSets(v, l0, between, seen);
    var on := CallsOn(l0, MarketsOf(seen));
    forall id
      ensures id in Standing(v, between, UnsettledIn(between, l0.order)) <==>
          id in Standing(v, l0, UnsettledIn(l0, l0.order))
    {
      StandsAfter(v, l0, between, on, id);
      if id in on && HasOutcome(v, l0, id) { SettledByEvidence(v, l0, seen, id); }
    }
  }

  lemma SettledByEvidence(v: Venue, l0: Ledger, seen: seq<Evidence>, id: Id)
    requires id in CallsOn(l0, MarketsOf(seen)) && HasOutcome(v, l0, id)
    requires forall ev | ev in seen :: GetResolution(v, ev.marketId) == Some(ev)
    ensures IsSettled(l0.book.results, id)
  {
  }

  lemma UnionOfRest(a: set<Id>, b: set<Id>)
    ensures a + (b - a) == a + b
  {
  }

  lemma PassReported(v: Venue, l0: Ledger, between: Ledger, l: Ledger, seen: seq<Evidence>, walked: Report,
      report: Report)
    requires Applied(v, l0, between, seen, walked)
    requires forall ev | ev in seen :: GetResolution(v, ev.marketId) == Some(ev)
    requires DerivedFor(v, between, l, UnsettledIn(between, l.order))
    requires report.resultsUnchanged == walked.resultsUnchanged + |Standing(v, between, UnsettledIn(between, l.order))|
    requires report.resultsMaterialised == |WithoutRow(between, l.order)|
    ensures PassReport(v, l0, l, seen, report)
  {
    var on := CallsOn(l0, MarketsOf(seen));
    assert l.order == between.order == l0.order by { hide CallsOn, MarketsOf, UnsettledIn, HasOutcome, SameRow; }
    hide DerivedFor, CallsOn, MarketsOf, Standing, UnsettledIn, WithoutRow, FoundStanding, HasOutcome;
    BetweenSets(v, l0, between, seen);
    WaitingStands(v, l0, between, seen);
    DerivedBoth(v, l0, between, l, on, UnsettledIn(between, l.order));
    UnionOfRest(on, UnsettledIn(l0, l0.order));
  }

  lemma CountedFrame(l0: Ledger, l: Ledger, report: Report, report': Report, settled: set<Id>)
    requires Counted(l0, l, report, settled) && report'.resultsSettled == report.resultsSettled
    ensures Counted(l0, l, report', settled)
  {
  }

  lemma TailEvidence(v: Venue, markets: seq<Id>, since: int)
    requires VenueSound(v)
    ensures forall ev | ev in ResolutionsSince(v, markets, since) :: GetResolution(v, ev.marketId) == Some(ev)
  {
    TailIsComplete(v, markets, since);
  }

  /** The sweep has derived those of the first `i` calls that were unsettled when it began. */
  ghost predicate Swept(v: Venue, swept: Ledger, l: Ledger, i: nat, report: Report, report': Report) {
    && i <= |swept.order|
    && Visited(v, swept, l, UnsettledIn(swept, swept.order[..i]), report.resultsUnchanged, report'.resultsUnchanged)
  }

  /** The counters say how many of the first `i` calls are pending, and how many had no row when the sweep began. */
  ghost predicate Tallied(swept: Ledger, l: Ledger, i: nat, report: Report) {
    && i <= |swept.order| && l.order == swept.order
    && (forall k | i <= k < |l.order| :: l.order[k] in l.book.results <==> l.order[k] in swept.book.results)
    && report.stillPending == |PendingAmong(l, l.order[..i])|
    && report.resultsMaterialised == |WithoutRow(swept, l.order[..i])|
  }

  lemma SweepStarts(v: Venue, l0: Ledger, l: Ledger, report: Report)
    requires report.stillPending == report.resultsMaterialised == 0
    ensures Swept(v, l, l, 0, report, report) && Tallied(l, l, 0, report)
  {
    VisitStarts(v, l, report.resultsUnchanged);
    assert UnsettledIn(l, l.order[..0]) == {};
  }

  lemma InListing(v: Venue, l0: Ledger, l: Ledger, ids: seq<Id>, i: nat)
    requires Tidy(l0) && Progressed(v, l0, l) && l.order == ids && i < |ids|
    ensures ids[i] in l.book.calls && Listed(l)
  {
    assert ids[i] in l0.order;
  }

  lemma PendingGrows(results: map<Id, CallResult>, ids: seq<Id>, row: CallResult)
    requires row.callId !in ids
    ensures PendingIds(results[row.callId := row], ids + [row.callId]) == PendingIds(results, ids)
        + (if row.outcome == PENDING then {row.callId} else {})
  {
    var results' := results[row.callId := row];
    forall id ensures id in PendingIds(results', ids + [row.callId]) <==>
        id in PendingIds(results, ids) || (id == row.callId && row.outcome == PENDING) {
      assert id in ids + [row.callId] <==> id in ids || id == row.callId;
    }
  }

  lemma PendingNext(l: Ledger, l': Ledger, i: nat, row: CallResult)
    requires Listed(l) && i < |l.order| && l'.order == l.order && row.callId == l.order[i]
    requires l'.book.results == l.book.results[row.callId := row]
    ensures |PendingAmong(l', l'.order[..i + 1])| == |PendingAmong(l, l.order[..i])|
        + (if row.outcome == PENDING then 1 else 0)
  {
    var id := l.order[i];
    assert l.order[..i + 1] == l.order[..i] + [id] && id !in l.order[..i];
    PendingGrows(l.book.results, l.order[..i], row);
    assert id !in PendingIds(l.book.results, l.order[..i]);
    hide PendingIds;
  }

  lemma WithoutRowNext(l: Ledger, i: nat)
    requires Listed(l) && i < |l.order|
    ensures |WithoutRow(l, l.order[..i + 1])| == |WithoutRow(l, l.order[..i])|
        + (if l.order[i] !in l.book.results then 1 else 0)
  {
    var id := l.order[i];
    assert l.order[..i + 1] == l.order[..i] + [id] && id !in l.order[..i];
    assert WithoutRow(l, l.order[..i + 1]) == WithoutRow(l, l.order[..i])
        + (if id !in l.book.results then {id} else {});
  }

  lemma TalliedOne(swept: Ledger, l: Ledger, l': Ledger, i: nat, was: Report, report: Report, row: CallResult)
    requires Listed(l) && Listed(swept) && Tallied(swept, l, i, was) && i < |l.order|
    requires row.callId == l.order[i] && l'.order == l.order && l'.book.results == l.book.results[row.callId := row]
    requires report.stillPending == was.stillPending + (if row.outcome == PENDING then 1 else 0)
    requires report.resultsMaterialised == was.resultsMaterialised + (if row.callId !in l.book.results then 1 else 0)
    ensures Tallied(swept, l', i + 1, report)
  {
    PendingNext(l, l', i, row);
    WithoutRowNext(swept, i);
    hide PendingAmong, WithoutRow;
  }

  lemma UnsettledNext(l: Ledger, i: nat)
    requires Listed(l) && i < |l.order|
    ensures l.order[i] !in UnsettledIn(l, l.order[..i])
    ensures UnsettledIn(l, l.order[..i + 1])
            == if IsSettled(l.book.results, l.order[i]) then UnsettledIn(l, l.order[..i])
                else UnsettledIn(l, l.order[..i]) + {l.order[i]}
  {
    assert l.order[..i + 1] == l.order[..i] + [l.order[i]];
  }

  /** What the sweep has not come to yet is as it was. */
  lemma NotYetSwept(v: Venue, swept: Ledger, l: Ledger, i: nat, report: Report, report': Report)
    requires Listed(swept) && Swept(v, swept, l, i, report, report') && i < |swept.order|
    ensures l.order == swept.order && l.book.calls == swept.book.calls
        && SameRow(swept.book.results, l.book.results, swept.order[i])
  {
    UnsettledNext(swept, i);
    hide UnsettledIn, HasOutcome;
  }

  /** A call with a settled result needs nothing: it was settled before the sweep came to it. */
  lemma SweptPast(v: Venue, l0: Ledger, swept: Ledger, l: Ledger, i: nat, report: Report, counted: Report)
    requires Tidy(l0) && Progressed(v, l0, l) && Progressed(v, l0, swept)
    requires Swept(v, swept, l, i, report, counted) && Tallied(swept, l, i, counted) && i < |l.order|
    requires IsSettled(l.book.results, l.order[i])
    ensures Swept(v, swept, l, i + 1, report, counted) && Tallied(swept, l, i + 1, counted)
  {
    InListing(v, l0, l, l.order, i);
    InListing(v, l0, swept, swept.order, i);
    RowDerived(v, l0, l, l.order[i]);
    hide Tidy, Progressed, Listed, Derived, Visited, UnsettledIn;
    NotYetSwept(v, swept, l, i, report, counted);
    UnsettledNext(swept, i);
    hide Tallied;
    var row := l.book.results[l.order[i]];
    SameWrite(l.book.results, l.order[i]);
    TalliedOne(swept, l, l, i, counted, counted, row);
  }

  lemma SameWrite<V>(table: map<Id, V>, id: Id)
    requires id in table
    ensures table[id := table[id]] == table
  {
  }

  lemma RowDerived(v: Venue, l0: Ledger, l: Ledger, id: Id)
    requires Tidy(l0) && Progressed(v, l0, l) && id in l.book.calls && IsSettled(l.book.results, id)
    ensures l.book.results[id].callId == id
    ensures IsSettled(l0.book.results, id) || Derived(v, l.book.calls[id], l.book.results[id])
  {
    ProgressTidy(v, l0, l);
  }

  lemma SweptOne(
      v: Venue, l0: Ledger, swept: Ledger, l: Ledger, l': Ledger, i: nat, report: Report, was: Report, counted: Report,
      row: CallResult, changed: bool)
    requires Tidy(l0) && Progressed(v, l0, l) && Progressed(v, l0, swept)
    requires Swept(v, swept, l, i, report, was) && Tallied(swept, l, i, was) && i < |l.order|
        && l.order[i] in l.book.calls
    requires row.callId == l.order[i] && Derived(v, l.book.calls[l.order[i]], row)
        && !IsSettled(l.book.results, row.callId)
    requires l'.order == l.order && l'.book.calls == l.book.calls
        && l'.book.results == l.book.results[row.callId := row]
    requires changed <==> !HasOutcome(v, l, row.callId)
    requires !changed ==> row.callId in l.book.results && l.book.results[row.callId] == row
    requires counted.stillPending == was.stillPending + (if row.outcome == PENDING then 1 else 0)
    requires counted.resultsMaterialised == was.resultsMaterialised + (if row.callId !in l.book.results then 1 else 0)
    requires counted.resultsUnchanged == if changed then was.resultsUnchanged else was.resultsUnchanged + 1
    ensures Swept(v, swept, l', i + 1, report, counted) && Tallied(swept, l', i + 1, counted)
  {
    InListing(v, l0, l, l.order, i);
    InListing(v, l0, swept, swept.order, i);
    hide Tidy, Progressed, Listed, Derived, Visited, UnsettledIn, HasOutcome, Tallied;
    NotYetSwept(v, swept, l, i, report, was);
    UnsettledNext(swept, i);
    TalliedOne(swept, l, l', i, was, counted, row);
    VisitOne(v, swept, l, l', UnsettledIn(swept, swept.order[..i]), report.resultsUnchanged, was.resultsUnchanged, row,
        changed);
  }

  lemma SweepEnds(v: Venue, l0: Ledger, swept: Ledger, l: Ledger, report: Report, counted: Report, settled: set<Id>)
    requires Tidy(l0) && Progressed(v, l0, l) && Progressed(v, l0, swept)
    requires Swept(v, swept, l, |swept.order|, report, counted) && Tallied(swept, l, |swept.order|, counted)
    requires Counted(l0, l, counted, settled)
    ensures DerivedFor(v, swept, l, UnsettledIn(swept, l.order))
    ensures counted.resultsUnchanged == report.resultsUnchanged + |Standing(v, swept, UnsettledIn(swept, l.order))|
    ensures forall id | id in l.book.calls :: Done(v, l0, l, id)
    ensures counted.resultsSettled == |NewlySettled(l0, l)|
    ensures counted.stillPending == |PendingAmong(l, l.order)|
        && counted.resultsMaterialised == |WithoutRow(swept, l.order)|
  {
    assert l.order[..|l.order|] == l.order && swept.order[..|swept.order|] == swept.order;
    hide Done, PendingAmong, WithoutRow, NewlySettled, Standing;
    forall id | id in l.book.calls ensures Done(v, l0, l, id) { SweptIsDone(v, l0, swept, l, id); }
  }

  lemma SweptIsDone(v: Venue, l0: Ledger, swept: Ledger, l: Ledger, id: Id)
    requires Tidy(l0) && Progressed(v, l0, l) && Progressed(v, l0, swept) && id in l.book.calls
    requires DerivedFor(v, swept, l, UnsettledIn(swept, l.order))
    ensures Done(v, l0, l, id)
  {
    hide Derived;
    assert id in l.order by { assert id in l0.order; }
    if id !in UnsettledIn(swept, l.order) {
      assert SameRow(swept.book.results, l.book.results, id);
    }
  }

  /** A write adds to the newly settled calls exactly when it changed the row and settled it. */
  lemma SettledOne(
      v: Venue, l0: Ledger, l: Ledger, l': Ledger, was: Report, report: Report, row: CallResult, changed: bool,
          settled: set<Id>)
    requires Progressed(v, l0, l) && Counted(l0, l, was, settled)
        && l'.book.results == l.book.results[row.callId := row]
    requires if changed then !IsSettled(l.book.results, row.callId)
        else row.callId in l.book.results && l.book.results[row.callId] == row
    requires report.resultsSettled == was.resultsSettled + (if changed && row.outcome != PENDING
        && row.callId !in settled then 1 else 0)
    ensures Counted(l0, l', report, if changed && row.outcome != PENDING then settled + {row.callId} else settled)
  {
    NewlySettledGrows(l0, l, l', row);
  }

  /** Where a pass that was not refused ends, and where one from a converged store does. */
  lemma PassEnds(e: Env, v: Venue, l0: Ledger, steps: seq<Op>, l: Ledger)
    requires VenueSound(v) && Tidy(l0) && Ran(e, v, l0, steps, l) && Progressed(v, l0, l)
    ensures Consistent(v, l0) && (forall id | id in l.book.calls :: Done(v, l0, l, id)) ==> Converged(v, l)
    ensures Converged(v, l0) ==> l.book == l0.book && Consistent(v, l0)
  {
    hide Ran, Progressed, Tidy;
    if Consistent(v, l0) && forall id | id in l.book.calls :: Done(v, l0, l, id) { AllDoneConverges(v, l0, l); }
    if Converged(v, l0) { SecondPassChangesNothing(e, v, l0, steps, l); }
  }
}
