/**
 * Hydration: rebuilding the mirror from the tables by replaying every row
 * through the mirror's own rules. The main results are the exact condition
 * under which the replay of the calls skips nothing, and that sound tables
 * come back as exactly the mirror that wrote them.
 */
module Hydration {
  import opened Vocabulary
  import opened Ledgers
  import opened DurableTables
  import opened WriteBehind
  import Sorting

  /** A replay so far: the mirror, and the rows it could not accept. */
  datatype Replay = Replay(ledger: Ledger, skipped: nat)

  function Take(r: Replay, step: Result<Ledger>): Replay {
    if step.Ok? then r.(ledger := step.value) else r.(skipped := r.skipped + 1)
  }

  // ── calls ───────────────────────────────────────────────────────────────

  /** A call was locked visible; a withdrawn one was withdrawn afterwards, at its own recorded instant. */
  function ReplayCall(e: Env, l: Ledger, row: Call): Result<Ledger> {
    var inserted :- InsertCall(e, l, Frozen(row));
    if row.hiddenAt.Some? then AttemptCallUpdate(inserted, row.id, HidePatch(row.hiddenAt, row.hiddenReason))
        else Ok(inserted)
  }

  function ReplayCalls(e: Env, l: Ledger, rows: seq<Call>): Replay {
    if rows == [] then Replay(l, 0)
    else
      var before := ReplayCalls(e, l, rows[..|rows| - 1]);
      Take(before, ReplayCall(e, before.ledger, rows[|rows| - 1]))
  }

  /** How many of the rows were replayed and then withdrawn again. */
  function HiddenReplayed(e: Env, l: Ledger, rows: seq<Call>): nat {
    if rows == [] then 0
    else
      var before, row := rows[..|rows| - 1], rows[|rows| - 1];
      HiddenReplayed(e, l, before)
      + if row.hiddenAt.Some? && ReplayCall(e, ReplayCalls(e, l, before).ledger, row).Ok? then 1 else 0
  }

  /** A row that cannot be read at all: its stamped price fails its schema. */
  predicate Malformed(e: Env, row: Call) { row.entryPrice.Some? && !e.wellFormedPrice(row.entryPrice.value) }

  predicate Readable(e: Env, rows: seq<Call>) { forall i | 0 <= i < |rows| :: !Malformed(e, rows[i]) }

  lemma CallsUnroll(e: Env, l: Ledger, rows: seq<Call>, n: nat)
    requires 0 < n <= |rows|
    ensures HiddenReplayed(e, l, rows[..n])
            == HiddenReplayed(e, l, rows[..n - 1])
               + if rows[n - 1].hiddenAt.Some?
                   && ReplayCall(e, ReplayCalls(e, l, rows[..n - 1]).ledger, rows[n - 1]).Ok? then 1 else 0
    ensures ReplayCalls(e, l, rows[..n]) ==
            var before := ReplayCalls(e, l, rows[..n - 1]); Take(before, ReplayCall(e, before.ledger, rows[n - 1]))
  {
    hide ReplayCall;
    assert rows[..n][..n - 1] == rows[..n - 1];
  }

  /** What a stored row replays to. A reason without a withdrawal is dropped. */
  function Replayed(row: Call): Call { if Live(row) then Frozen(row) else row }

  /**
   * The rows before this one admit it: its parent is among them, and no live call by
   * the same person on its market is.
   */
  ghost predicate Admitted(e: Env, rows: seq<Call>, i: nat)
    requires i < |rows|
  {
    var row := rows[i];
    && PriceSound(e, row)
    && (forall j | 0 <= j < i :: rows[j].id != row.id)
    && (forall j | 0 <= j < i :: !LiveOn(rows[j], row.userId, row.marketId))
    && (row.parentCallId.Some? ==>
        exists j :: 0 <= j < i && rows[j].id == row.parentCallId.value && rows[j].marketId == row.marketId)
  }

  ghost predicate AllAdmitted(e: Env, rows: seq<Call>) { forall i | 0 <= i < |rows| :: Admitted(e, rows, i) }

  /** The mirror holds exactly these rows, in this order. */
  ghost predicate Holds(l: Ledger, rows: seq<Call>) {
    && |l.order| == |rows|
    && (forall i | 0 <= i < |rows| ::
        l.order[i] == rows[i].id && rows[i].id in l.book.calls && l.book.calls[rows[i].id] == Replayed(rows[i]))
    && (forall id | id in l.book.calls :: exists i :: 0 <= i < |rows| && rows[i].id == id)
  }

  lemma InsertAccepts(e: Env, l: Ledger, rec: Call)
    requires Live(rec)
    ensures InsertCall(e, l, rec).Ok? <==>
              && PriceSound(e, rec) && rec.id !in l.book.calls
                  && LiveCallByUserOnMarket(l, rec.userId, rec.marketId).None?
              && (rec.parentCallId.Some? ==>
                  rec.parentCallId.value in l.book.calls
                  && l.book.calls[rec.parentCallId.value].marketId == rec.marketId)
  {
  }

  lemma HeldId(l: Ledger, rows: seq<Call>, id: Id, marketId: Id)
    requires Holds(l, rows)
    ensures id in l.book.calls <==> exists j :: 0 <= j < |rows| && rows[j].id == id
    ensures id in l.book.calls && l.book.calls[id].marketId == marketId <==>
              exists j :: 0 <= j < |rows| && rows[j].id == id && rows[j].marketId == marketId
  {
    if id in l.book.calls {
      var j :| 0 <= j < |rows| && rows[j].id == id;
      assert rows[j].marketId == l.book.calls[id].marketId;
    }
  }

  /** Stated of the list of rows before it rather than of a position. */
  lemma AdmittedLast(e: Env, rows: seq<Call>, row: Call)
    ensures Admitted(e, rows + [row], |rows|) <==>
              && PriceSound(e, row)
              && !(exists j :: 0 <= j < |rows| && rows[j].id == row.id)
              && !(exists j :: 0 <= j < |rows| && LiveOn(rows[j], row.userId, row.marketId))
              && (row.parentCallId.Some? ==>
                  exists j ::
                    0 <= j < |rows| && rows[j].id == row.parentCallId.value && rows[j].marketId == row.marketId)
  {
    var all := rows + [row];
    assert forall j | 0 <= j < |rows| :: all[j] == rows[j];
    if row.parentCallId.Some? {
      var parent := row.parentCallId.value;
      assert (exists j :: 0 <= j < |rows| && rows[j].id == parent && rows[j].marketId == row.marketId) <==>
             (exists j :: 0 <= j < |rows| && all[j].id == parent && all[j].marketId == row.marketId);
    }
    assert (exists j :: 0 <= j < |rows| && rows[j].id == row.id) <==>
        (exists j :: 0 <= j < |rows| && all[j].id == row.id);
    assert (exists j :: 0 <= j < |rows| && LiveOn(rows[j], row.userId, row.marketId)) <==>
           (exists j :: 0 <= j < |rows| && LiveOn(all[j], row.userId, row.marketId));
  }

  lemma ReplayOne(e: Env, l: Ledger, rows: seq<Call>, row: Call)
    requires Holds(l, rows)
    ensures ReplayCall(e, l, row).Ok? <==> Admitted(e, rows + [row], |rows|)
    ensures ReplayCall(e, l, row).Ok? ==> Holds(ReplayCall(e, l, row).value, rows + [row])
    ensures ReplayCall(e, l, row).Ok? ==> OnlyCalls(l, ReplayCall(e, l, row).value)
  {
    assert PriceSound(e, Frozen(row)) <==> PriceSound(e, row);
    InsertAccepts(e, l, Frozen(row));
    HeldId(l, rows, row.id, row.marketId);
    if row.parentCallId.Some? { HeldId(l, rows, row.parentCallId.value, row.marketId); }
    OneLiveAmong(l, rows, row);
    AdmittedLast(e, rows, row);
    assert ReplayCall(e, l, row).Ok? <==> InsertCall(e, l, Frozen(row)).Ok? by { ReplayStores(e, l, row); }
    if ReplayCall(e, l, row).Ok? {
      ReplayStores(e, l, row);
      hide InsertCall, PriceSound, Admitted;
      ReplayedHolds(e, l, rows, row);
    }
  }

  /** The two ledgers differ in their calls alone. */
  ghost predicate OnlyCalls(l: Ledger, l': Ledger) {
    l'.book == l.book.(calls := l'.book.calls) && l'.follows == l.follows && l'.cursors == l.cursors
  }

  lemma ReplayStores(e: Env, l: Ledger, row: Call)
    ensures ReplayCall(e, l, row).Ok? <==> InsertCall(e, l, Frozen(row)).Ok?
    ensures ReplayCall(e, l, row).Ok? ==>
              var l' := ReplayCall(e, l, row).value;
              l' == l.(order := l.order + [row.id], book := l.book.(calls := l.book.calls[row.id := Replayed(row)]))
                  && row.id !in l.book.calls
  {
    hide CheckPrice, FirstLive;
  }

  lemma OneLiveAmong(l: Ledger, rows: seq<Call>, row: Call)
    requires Holds(l, rows)
    ensures LiveCallByUserOnMarket(l, row.userId, row.marketId).Some? <==>
        exists j :: 0 <= j < |rows| && LiveOn(rows[j], row.userId, row.marketId)
  {
    var found := LiveCallByUserOnMarket(l, row.userId, row.marketId);
    if found.Some? {
      var j :| 0 <= j < |rows| && rows[j].id == found.value;
      assert LiveOn(rows[j], row.userId, row.marketId);
    } else {
      forall j | 0 <= j < |rows| ensures !LiveOn(rows[j], row.userId, row.marketId) {
        assert l.order[j] in l.order;
        assert !LiveOn(l.book.calls[rows[j].id], row.userId, row.marketId);
      }
    }
  }

  lemma ReplayedHolds(e: Env, l: Ledger, rows: seq<Call>, row: Call)
    requires Holds(l, rows) && ReplayCall(e, l, row).Ok?
    ensures Holds(ReplayCall(e, l, row).value, rows + [row])
  {
    hide ReplayCall, Replayed, Holds;
    ReplayStores(e, l, row);
    HoldsOneMore(l, ReplayCall(e, l, row).value, rows, row);
  }

  lemma HoldsOneMore(l: Ledger, l': Ledger, rows: seq<Call>, row: Call)
    requires Holds(l, rows) && row.id !in l.book.calls
    requires l'.order == l.order + [row.id] && l'.book.calls == l.book.calls[row.id := Replayed(row)]
    ensures Holds(l', rows + [row])
  {
    hide Replayed;
    var all := rows + [row];
    forall id | id in l'.book.calls ensures exists i :: 0 <= i < |all| && all[i].id == id {
      if id == row.id {
        assert all[|rows|].id == id;
      } else {
        var i :| 0 <= i < |rows| && rows[i].id == id;
        assert all[i].id == id;
      }
    }
    forall i | 0 <= i < |all| ensures all[i].id in l'.book.calls && l'.book.calls[all[i].id] == Replayed(all[i]) {
      if i < |rows| { assert all[i] == rows[i]; }
    }
  }

  /**
   * Replaying a list of call rows skips none of them exactly when, in the
   * order they are replayed, every parent precedes its child on the same
   * market, no live call precedes another by the same person on the same
   * market, no id repeats, and every stamped price was usable at its lock. Then
   * they can all be read, too: no row stops the hydration.
   */
  lemma {:induction false} CallReplayTotalIff(e: Env, l: Ledger, rows: seq<Call>)
    requires l.order == [] && l.book.calls == map[]
    ensures ReplayCalls(e, l, rows).skipped == 0 <==> AllAdmitted(e, rows)
    ensures AllAdmitted(e, rows) ==> Readable(e, rows)
    ensures AllAdmitted(e, rows) ==>
        Holds(ReplayCalls(e, l, rows).ledger, rows) && OnlyCalls(l, ReplayCalls(e, l, rows).ledger)
  {
    if rows != [] {
      var n := |rows| - 1;
      var before := rows[..n];
      CallReplayTotalIff(e, l, before);
      assert before + [rows[n]] == rows;
      AllAdmittedSplit(e, before, rows[n]);
      hide Admitted, AllAdmitted, ReplayCall, Holds;
      if AllAdmitted(e, rows) { AdmittedReadable(e, rows); }
      if AllAdmitted(e, before) { ReplayOne(e, ReplayCalls(e, l, before).ledger, before, rows[n]); }
    }
  }

  lemma AdmittedReadable(e: Env, rows: seq<Call>)
    requires AllAdmitted(e, rows)
    ensures Readable(e, rows)
  {
    forall i | 0 <= i < |rows| ensures !Malformed(e, rows[i]) { assert Admitted(e, rows, i); }
  }

  lemma AllAdmittedSplit(e: Env, before: seq<Call>, last: Call)
    ensures AllAdmitted(e, before + [last]) <==> AllAdmitted(e, before) && Admitted(e, before + [last], |before|)
  {
    var rows := before + [last];
    forall i | 0 <= i < |before| ensures Admitted(e, before, i) <==> Admitted(e, rows, i) {
      AdmittedPrefix(e, before, last, i);
    }
    hide Admitted;
    if AllAdmitted(e, before) && Admitted(e, rows, |before|) {
      assert forall i | 0 <= i < |rows| :: Admitted(e, rows, i);
    }
  }

  lemma AdmittedPrefix(e: Env, before: seq<Call>, last: Call, i: nat)
    requires i < |before|
    ensures Admitted(e, before, i) <==> Admitted(e, before + [last], i)
  {
    var rows := before + [last];
    assert forall j | 0 <= j <= i :: before[j] == rows[j];
    if before[i].parentCallId.Some? {
      var parent, market := before[i].parentCallId.value, before[i].marketId;
      assert (exists j :: 0 <= j < i && before[j].id == parent && before[j].marketId == market) <==>
             (exists j :: 0 <= j < i && rows[j].id == parent && rows[j].marketId == market);
    }
  }

  // ── listings of a table ─────────────────────────────────────────────────

  /** Every key of the table, once each: what an unfiltered select returns. */
  ghost predicate Lists<V>(ids: seq<Id>, table: map<Id, V>) {
    && (forall id :: id in ids <==> id in table)
    && (forall i, j | 0 <= i < j < |ids| :: ids[i] != ids[j])
  }

  function RowsOf<V>(table: map<Id, V>, ids: seq<Id>): (rows: seq<V>)
    requires forall id | id in ids :: id in table
    ensures |rows| == |ids| && forall i | 0 <= i < |ids| :: rows[i] == table[ids[i]]
  {
    seq(|ids|, i requires 0 <= i < |ids| => assert ids[i] in ids; table[ids[i]])
  }

  /** `order by locked_at asc, ...`: whatever breaks ties, the locks do not decrease. */
  ghost predicate SelectsByLock(ids: seq<Id>, calls: map<Id, Call>) {
    Lists(ids, calls) && forall i, j | 0 <= i < j < |ids| ::
        ids[i] in calls && ids[j] in calls && calls[ids[i]].lockedAt <= calls[ids[j]].lockedAt
  }

  function Restrict<V>(table: map<Id, V>, ids: seq<Id>): map<Id, V> { map id | id in table && id in ids :: table[id] }

  ghost predicate Part<V>(table: map<Id, V>, fewer: map<Id, V>) {
    forall id | id in fewer :: id in table && fewer[id] == table[id]
  }

  lemma RestrictGrows<V>(table: map<Id, V>, ids: seq<Id>, n: nat)
    requires Lists(ids, table) && n < |ids|
    ensures ids[n] in table && ids[n] !in Restrict(table, ids[..n])
    ensures Restrict(table, ids[..n + 1]) == Restrict(table, ids[..n])[ids[n] := table[ids[n]]]
    ensures Part(table, Restrict(table, ids[..n]))
  {
    assert ids[n] in ids;
    assert ids[..n + 1] == ids[..n] + [ids[n]];
  }

  lemma RestrictAll<V>(table: map<Id, V>, ids: seq<Id>)
    requires Lists(ids, table)
    ensures Restrict(table, ids[..|ids|]) == table
  {
    assert ids[..|ids|] == ids;
  }

  // ── responses, results and updates, each in whatever order they are read ─

  function ReplayResponses(l: Ledger, rows: seq<Response>): Replay {
    if rows == [] then Replay(l, 0)
    else
      var before := ReplayResponses(l, rows[..|rows| - 1]);
      Take(before, InsertResponse(before.ledger, rows[|rows| - 1]))
  }

  /** The evidence a stored result row cites, or none. */
  function EvidenceOf(row: CallResult, marketId: Id): Option<Evidence> {
    if row.marketResolutionId.None? || row.resolution.None? || row.resolvedAt.None? then None
    else Some(Evidence(row.marketResolutionId.value, marketId, row.resolution.value, row.resolvedAt.value,
        row.derivedAt))
  }

  /** Derived again from the evidence the row cites, never imported. */
  function ReplayResult(l: Ledger, row: CallResult): Result<Ledger> {
    if row.callId !in l.book.calls then Err(CALL_NOT_FOUND)
    else
      var r :- WriteResult(l, row.callId, EvidenceOf(row, l.book.calls[row.callId].marketId), row.derivedAt, SERVICE);
      Ok(r.0)
  }

  function ReplayResults(l: Ledger, rows: seq<CallResult>): Replay {
    if rows == [] then Replay(l, 0)
    else
      var before := ReplayResults(l, rows[..|rows| - 1]);
      Take(before, ReplayResult(before.ledger, rows[|rows| - 1]))
  }

  function ReplayUpdates(l: Ledger, rows: seq<ThesisUpdate>): Replay {
    if rows == [] then Replay(l, 0)
    else
      var before := ReplayUpdates(l, rows[..|rows| - 1]);
      Take(before, InsertThesisUpdate(before.ledger, rows[|rows| - 1]))
  }

  lemma ResponsesUnroll(l: Ledger, rows: seq<Response>, n: nat)
    requires 0 < n <= |rows|
    ensures ReplayResponses(l, rows[..n]) ==
            var before := ReplayResponses(l, rows[..n - 1]); Take(before, InsertResponse(before.ledger, rows[n - 1]))
  {
    hide InsertResponse;
    assert rows[..n][..n - 1] == rows[..n - 1];
  }

  lemma ResponseReplays(l: Ledger, responses: map<Id, Response>, fewer: map<Id, Response>, id: Id)
    requires ResponsesSound(l.book.calls, responses) && l.book.responses == fewer
    requires Part(responses, fewer) && id in responses && id !in fewer
    ensures InsertResponse(l, responses[id]) == Ok(l.(book := l.book.(responses := fewer[id := responses[id]])))
  {
    var r := responses[id];
    assert ResponseSound(l.book.calls, r) && r.id == id;
    assert !HasResponse(fewer, r.actorUserId, r.targetCallId, r.kind);
  }

  lemma {:induction false} ResponsesReplay(l: Ledger, responses: map<Id, Response>, ids: seq<Id>, n: nat)
    requires ResponsesSound(l.book.calls, responses) && l.book.responses == map[]
    requires Lists(ids, responses) && n <= |ids|
    ensures ReplayResponses(l, RowsOf(responses, ids)[..n])
        == Replay(l.(book := l.book.(responses := Restrict(responses, ids[..n]))), 0)
  {
    hide ResponsesSound, InsertResponse, Part;
    if n == 0 {
      assert Restrict(responses, ids[..0]) == map[];
    } else {
      hide ReplayResponses, Restrict;
      ResponsesReplay(l, responses, ids, n - 1);
      RestrictGrows(responses, ids, n - 1);
      ResponsesUnroll(l, RowsOf(responses, ids), n);
      var fewer := Restrict(responses, ids[..n - 1]);
      ResponseReplays(l.(book := l.book.(responses := fewer)), responses, fewer, ids[n - 1]);
    }
  }

  lemma ResultReplays(l: Ledger, row: CallResult)
    requires ResultSound(l.book.calls, row) && row.callId !in l.book.results
        && l.book.calls[row.callId].id == row.callId
    ensures ReplayResult(l, row) == Ok(l.(book := l.book.(results := l.book.results[row.callId := row])))
  {
    var call := l.book.calls[row.callId];
    assert Derive(call, EvidenceOf(row, call.marketId), row.derivedAt) == row;
  }

  lemma ResultsUnroll(l: Ledger, rows: seq<CallResult>, n: nat)
    requires 0 < n <= |rows|
    ensures ReplayResults(l, rows[..n]) ==
            var before := ReplayResults(l, rows[..n - 1]); Take(before, ReplayResult(before.ledger, rows[n - 1]))
  {
    hide ReplayResult;
    assert rows[..n][..n - 1] == rows[..n - 1];
  }

  lemma {:induction false} ResultsReplay(l: Ledger, results: map<Id, CallResult>, ids: seq<Id>, n: nat)
    requires ResultsSound(l.book.calls, results) && l.book.results == map[]
    requires forall id | id in l.book.calls :: l.book.calls[id].id == id
    requires Lists(ids, results) && n <= |ids|
    ensures ReplayResults(l, RowsOf(results, ids)[..n])
        == Replay(l.(book := l.book.(results := Restrict(results, ids[..n]))), 0)
  {
    if n == 0 {
      assert Restrict(results, ids[..0]) == map[];
    } else {
      hide ReplayResult;
      ResultsReplay(l, results, ids, n - 1);
      RestrictGrows(results, ids, n - 1);
      ResultsUnroll(l, RowsOf(results, ids), n);
      hide ReplayResults;
      assert ResultSound(l.book.calls, results[ids[n - 1]]) && results[ids[n - 1]].callId == ids[n - 1];
      ResultReplays(l.(book := l.book.(results := Restrict(results, ids[..n - 1]))), results[ids[n - 1]]);
    }
  }

  lemma ThreadRoom(updates: map<Id, ThesisUpdate>, fewer: map<Id, ThesisUpdate>, id: Id)
    requires Part(updates, fewer) && id in updates && id !in fewer
    ensures |Thread(fewer, updates[id].callId)| < |Thread(updates, updates[id].callId)|
  {
    var callId := updates[id].callId;
    assert Thread(fewer, callId) + {id} <= Thread(updates, callId);
    Sorting.SubsetSize(Thread(fewer, callId) + {id}, Thread(updates, callId));
  }

  lemma UpdateReplays(l: Ledger, updates: map<Id, ThesisUpdate>, fewer: map<Id, ThesisUpdate>, id: Id)
    requires ThreadsSound(l.book.calls, updates) && UpdatesReplayable(l.book.calls, updates) && l.book.updates == fewer
    requires Part(updates, fewer) && id in updates && id !in fewer
    ensures InsertThesisUpdate(l, updates[id]) == Ok(l.(book := l.book.(updates := fewer[id := updates[id]])))
  {
    var u := updates[id];
    assert UpdateSound(l.book.calls, u) && u.id == id && UpdateReplayable(l.book.calls, u);
    assert u.(body := Trim(u.body)) == u;
    ThreadRoom(updates, fewer, id);
  }

  lemma UpdatesUnroll(l: Ledger, rows: seq<ThesisUpdate>, n: nat)
    requires 0 < n <= |rows|
    ensures ReplayUpdates(l, rows[..n]) ==
            var before := ReplayUpdates(l, rows[..n - 1]); Take(before, InsertThesisUpdate(before.ledger, rows[n - 1]))
  {
    hide InsertThesisUpdate;
    assert rows[..n][..n - 1] == rows[..n - 1];
  }

  lemma {:induction false} UpdatesReplay(l: Ledger, updates: map<Id, ThesisUpdate>, ids: seq<Id>, n: nat)
    requires ThreadsSound(l.book.calls, updates) && UpdatesReplayable(l.book.calls, updates) && l.book.updates == map[]
    requires Lists(ids, updates) && n <= |ids|
    ensures ReplayUpdates(l, RowsOf(updates, ids)[..n])
        == Replay(l.(book := l.book.(updates := Restrict(updates, ids[..n]))), 0)
  {
    hide ThreadsSound, UpdatesReplayable, InsertThesisUpdate, Part;
    if n == 0 {
      assert Restrict(updates, ids[..0]) == map[];
    } else {
      hide ReplayUpdates, Restrict;
      UpdatesReplay(l, updates, ids, n - 1);
      RestrictGrows(updates, ids, n - 1);
      UpdatesUnroll(l, RowsOf(updates, ids), n);
      var fewer := Restrict(updates, ids[..n - 1]);
      UpdateReplays(l.(book := l.book.(updates := fewer)), updates, fewer, ids[n - 1]);
    }
  }

  // ── the whole hydration ─────────────────────────────────────────────────

  /** The row order each select came back in. */
  datatype Selection = Selection(calls: seq<Id>, responses: seq<Id>, results: seq<Id>, updates: seq<Id>)

  ghost predicate Selects(t: Tables, s: Selection) {
    && SelectsByLock(s.calls, t.book.calls) && Lists(s.responses, t.book.responses)
    && Lists(s.results, t.book.results) && Lists(s.updates, t.book.updates)
  }

  datatype Hydrated = Hydrated(ledger: Ledger, skippedCalls: nat, skippedResponses: nat, skippedResults: nat,
      skippedUpdates: nat)

  function HydrateRows(e: Env, follows: set<(Id, Id)>, cursors: map<string, Option<string>>,
                       calls: seq<Call>, responses: seq<Response>, results: seq<CallResult>,
                           updates: seq<ThesisUpdate>): Hydrated {
    var c := ReplayCalls(e, EMPTY.(follows := follows), calls);
    var r := ReplayResponses(c.ledger, responses);
    var s := ReplayResults(r.ledger, results);
    var u := ReplayUpdates(s.ledger, updates);
    Hydrated(u.ledger.(cursors := cursors), c.skipped, r.skipped, s.skipped, u.skipped)
  }

  function Hydrate(e: Env, t: Tables, s: Selection): Hydrated
    requires (forall id | id in s.calls :: id in t.book.calls)
        && (forall id | id in s.responses :: id in t.book.responses)
    requires (forall id | id in s.results :: id in t.book.results)
        && (forall id | id in s.updates :: id in t.book.updates)
  {
    HydrateRows(e, FollowGraph(t), t.cursors, RowsOf(t.book.calls, s.calls), RowsOf(t.book.responses, s.responses),
                RowsOf(t.book.results, s.results), RowsOf(t.book.updates, s.updates))
  }

  /** Sound tables replay in full: every parent and every earlier withdrawal comes first. */
  lemma SoundAdmitted(e: Env, b: Book, ids: seq<Id>)
    requires Sound(e, b) && SelectsByLock(ids, b.calls)
    ensures AllAdmitted(e, RowsOf(b.calls, ids))
  {
    var rows := RowsOf(b.calls, ids);
    forall i | 0 <= i < |rows| ensures Admitted(e, rows, i) { RowAdmitted(e, b, ids, i); }
  }

  lemma RowAdmitted(e: Env, b: Book, ids: seq<Id>, i: nat)
    requires Sound(e, b) && SelectsByLock(ids, b.calls) && i < |ids|
    ensures Admitted(e, RowsOf(b.calls, ids), i)
  {
    hide ResponsesSound, ResultsSound, ThreadsSound, UpdatesReplayable, Lineage;
    var rows := RowsOf(b.calls, ids);
    var row := rows[i];
    assert ids[i] in ids && CallSound(e, b.calls, ids[i]);
    forall j | 0 <= j < i ensures rows[j].id != row.id && !LiveOn(rows[j], row.userId, row.marketId) {
      assert ids[j] in ids && CallSound(e, b.calls, ids[j]);
    }
    if row.parentCallId.Some? {
      var j :| 0 <= j < |ids| && ids[j] == row.parentCallId.value;
      assert CallSound(e, b.calls, ids[j]);
      assert rows[j].lockedAt < row.lockedAt;
    }
  }

  lemma RowReplaysToItself(e: Env, b: Book, id: Id)
    requires Sound(e, b) && id in b.calls
    ensures b.calls[id].id == id && Replayed(b.calls[id]) == b.calls[id]
  {
    assert CallSound(e, b.calls, id);
  }

  lemma HeldRows(e: Env, b: Book, ids: seq<Id>)
    requires Sound(e, b) && Lists(ids, b.calls)
    ensures var rows := RowsOf(b.calls, ids);
        forall i | 0 <= i < |ids| :: rows[i].id == ids[i] && Replayed(rows[i]) == b.calls[ids[i]]
  {
    hide Sound, Replayed, RowsOf;
    forall i | 0 <= i < |ids|
        ensures RowsOf(b.calls, ids)[i].id == ids[i] && Replayed(RowsOf(b.calls, ids)[i]) == b.calls[ids[i]] {
      assert ids[i] in ids;
      RowReplaysToItself(e, b, ids[i]);
    }
  }

  lemma HeldCalls(e: Env, b: Book, ids: seq<Id>, l: Ledger)
    requires Sound(e, b) && Lists(ids, b.calls) && Holds(l, RowsOf(b.calls, ids))
    ensures l.order == ids && l.book.calls == b.calls
  {
    hide Sound, Replayed, RowsOf;
    var rows := RowsOf(b.calls, ids);
    HeldRows(e, b, ids);
    forall id ensures id in l.book.calls <==> id in b.calls {
      if id in b.calls {
        var i :| 0 <= i < |ids| && ids[i] == id;
        assert rows[i].id == id;
      }
      if id in l.book.calls {
        var i :| 0 <= i < |rows| && rows[i].id == id;
        assert ids[i] in ids;
      }
    }
    forall id | id in b.calls ensures l.book.calls[id] == b.calls[id] {
      var i :| 0 <= i < |ids| && ids[i] == id;
      assert rows[i].id == id;
    }
  }

  /** Sound tables hydrate with no row unreadable and none skipped, and the mirror then holds exactly their records. */
  lemma HydrateRebuilds(e: Env, t: Tables, s: Selection)
    requires Sound(e, t.book) && Selects(t, s)
    ensures Readable(e, RowsOf(t.book.calls, s.calls))
    ensures Hydrate(e, t, s) == Hydrated(Ledger(s.calls, t.book, FollowGraph(t), t.cursors), 0, 0, 0, 0)
    ensures forall a, b :: (a, b) in Hydrate(e, t, s).ledger.follows <==>
        a != b && ((a, b) in t.personFollows || (a, b) in t.legacyFollows)
  {
    var start := EMPTY.(follows := FollowGraph(t));
    var calls := RowsOf(t.book.calls, s.calls);
    SoundAdmitted(e, t.book, s.calls);
    CallReplayTotalIff(e, start, calls);
    var c := ReplayCalls(e, start, calls).ledger;
    assert c.book == Book(c.book.calls, map[], map[], map[]);
    HeldCalls(e, t.book, s.calls, c);
    assert forall id | id in c.book.calls :: c.book.calls[id].id == id by {
      assert forall id | id in t.book.calls :: CallSound(e, t.book.calls, id);
    }
    HydrateAnswers(e, t, s, c);
  }

  /** What a hydration selects when the updates table cannot be read. */
  function Unread(s: Selection): Selection { s.(updates := []) }

  lemma SoundWithoutUpdates(e: Env, b: Book)
    requires Sound(e, b)
    ensures Sound(e, b.(updates := map[]))
  {
    hide CallsSound, OneLive, ResponsesSound, ResultsSound, CallsReplayable, Lineage;
    assert forall callId :: Thread(map[], callId) == {};
  }

  /** With the updates table unread, sound tables hydrate just the same but for the updates: there are none. */
  lemma HydrateUnread(e: Env, t: Tables, s: Selection)
    requires Sound(e, t.book) && Selects(t, s)
    ensures Hydrate(e, t, Unread(s))
            == Hydrated(Ledger(s.calls, t.book.(updates := map[]), FollowGraph(t), t.cursors), 0, 0, 0, 0)
  {
    var t' := t.(book := t.book.(updates := map[]));
    SoundWithoutUpdates(e, t.book);
    assert Selects(t', Unread(s));
    hide Sound, FollowGraph;
    HydrateRebuilds(e, t', Unread(s));
    assert RowsOf(t.book.updates, []) == RowsOf(t'.book.updates, []) == [];
    SameGraph(t, t');
    hide RowsOf, HydrateRows, Selects;
  }

  lemma SameGraph(t: Tables, t': Tables)
    requires t'.personFollows == t.personFollows && t'.legacyFollows == t.legacyFollows
    ensures FollowGraph(t') == FollowGraph(t)
  {
  }

  lemma HydrateAnswers(e: Env, t: Tables, s: Selection, c: Ledger)
    requires Sound(e, t.book) && Selects(t, s)
    requires c.book == Book(t.book.calls, map[], map[], map[]) && forall id | id in c.book.calls ::
        c.book.calls[id].id == id
    ensures ReplayResponses(c, RowsOf(t.book.responses, s.responses)).skipped == 0
    ensures var r := ReplayResponses(c, RowsOf(t.book.responses, s.responses)).ledger;
            && ReplayResults(r, RowsOf(t.book.results, s.results)).skipped == 0
            && var s' := ReplayResults(r, RowsOf(t.book.results, s.results)).ledger;
            ReplayUpdates(s', RowsOf(t.book.updates, s.updates)) == Replay(c.(book := t.book), 0)
  {
    hide CallsSound, OneLive, ResponsesSound, ResultsSound, ThreadsSound, UpdatesReplayable, CallsReplayable, Lineage,
        SelectsByLock;
    var responses, results, updates := RowsOf(t.book.responses, s.responses), RowsOf(t.book.results, s.results),
        RowsOf(t.book.updates, s.updates);
    assert responses[..|s.responses|] == responses && results[..|s.results|] == results
        && updates[..|s.updates|] == updates;
    ResponsesReplay(c, t.book.responses, s.responses, |s.responses|);
    RestrictAll(t.book.responses, s.responses);
    var r := ReplayResponses(c, responses).ledger;
    ResultsReplay(r, t.book.results, s.results, |s.results|);
    RestrictAll(t.book.results, s.results);
    var s' := ReplayResults(r, results).ledger;
    UpdatesReplay(s', t.book.updates, s.updates, |s.updates|);
    RestrictAll(t.book.updates, s.updates);
  }

  /** The mirror as the tables spell it: every snapshot handle replaced by its UUID, nothing else changed. */
  function Encoded(e: Env, l: Ledger): Ledger { l.(book := RowBook(e, l.book)) }

  ghost predicate ByLock(ids: seq<Id>, calls: map<Id, Call>) {
    Lists(ids, calls) && forall i, j | 0 <= i < j < |ids| ::
        ids[i] in calls && ids[j] in calls && calls[ids[i]].lockedAt < calls[ids[j]].lockedAt
  }

  lemma FirstByLock(calls: map<Id, Call>, a: seq<Id>, b: seq<Id>)
    requires ByLock(a, calls) && ByLock(b, calls) && a != []
    ensures b != [] && a[0] == b[0]
  {
    assert a[0] in a && a[0] in b;
    var k :| 0 <= k < |b| && b[k] == a[0];
    assert b[0] in b && b[0] in a;
    var m :| 0 <= m < |a| && a[m] == b[0];
  }

  /** Only one listing of the calls goes by strictly increasing locks. */
  lemma {:induction false} OneLockOrder(calls: map<Id, Call>, a: seq<Id>, b: seq<Id>)
    requires ByLock(a, calls) && ByLock(b, calls)
    ensures a == b
    decreases |a|
  {
    hide ByLock;
    if a == [] {
      if b != [] { FirstByLock(calls, b, a); }
    } else {
      FirstByLock(calls, a, b);
      ByLockTail(calls, a);
      ByLockTail(calls, b);
      OneLockOrder(calls - {a[0]}, a[1..], b[1..]);
      FromHeadAndTail(a, b);
    }
  }

  lemma FromHeadAndTail(a: seq<Id>, b: seq<Id>)
    requires a != [] && b != [] && a[0] == b[0] && a[1..] == b[1..]
    ensures a == b
  {
    assert a == [a[0]] + a[1..] && b == [b[0]] + b[1..];
  }

  lemma ByLockTail(calls: map<Id, Call>, a: seq<Id>)
    requires ByLock(a, calls) && a != []
    ensures ByLock(a[1..], calls - {a[0]})
  {
    ListsTail(calls, a);
  }

  lemma ListsTail(calls: map<Id, Call>, a: seq<Id>)
    requires Lists(a, calls) && a != []
    ensures Lists(a[1..], calls - {a[0]})
  {
    forall id | id in calls && id != a[0] ensures id in a[1..] {
      assert id in a;
      var k :| 0 <= k < |a| && a[k] == id;
      assert a[1..][k - 1] == id;
    }
  }

  /** Everything is as it was, but that a snapshot handle is spelled as its UUID. */
  ghost predicate Restored(e: Env, l: Ledger, l': Ledger) {
    && l'.order == l.order && l'.follows == l.follows && l'.cursors == l.cursors
    && l'.book.responses == l.book.responses && l'.book.results == l.book.results && l'.book.updates == l.book.updates
    && l'.book.calls.Keys == l.book.calls.Keys
    && forall id | id in l.book.calls ::
         var was, now := l.book.calls[id], l'.book.calls[id];
         && now.(snapshotId := was.snapshotId) == was
         && (if was.snapshotId.None? then now.snapshotId.None?
             else now.snapshotId == Some(e.snapshotUuid(was.snapshotId.value)))
  }

  lemma EncodedRestores(e: Env, l: Ledger)
    ensures Restored(e, l, Encoded(e, l))
  {
  }

  /**
   * The round trip: from tables that mirror a ledger, hydration rebuilds that
   * ledger, call order, follows and cursors included, with nothing skipped.
   */
  lemma RoundTrip(e: Env, t: Tables, l: Ledger, s: Selection)
    requires Mirrors(e, t, l) && Sound(e, t.book) && LockOrder(l) && Selects(t, s)
    ensures Hydrate(e, t, s) == Hydrated(Encoded(e, l), 0, 0, 0, 0)
    ensures Restored(e, l, Hydrate(e, t, s).ledger)
  {
    HydrateRebuilds(e, t, s);
    SelectedByLock(e, t.book, s.calls);
    MirrorByLock(e, t, l);
    EncodedRestores(e, l);
    hide Restored;
    hide Sound, Hydrate, RowBook, LockOrder;
    OneLockOrder(t.book.calls, s.calls, l.order);
  }

  lemma SelectedByLock(e: Env, b: Book, ids: seq<Id>)
    requires Sound(e, b) && SelectsByLock(ids, b.calls)
    ensures ByLock(ids, b.calls)
  {
    hide Core, UpdatesReplayable, Lineage;
    forall i, j | 0 <= i < j < |ids| ensures b.calls[ids[i]].lockedAt < b.calls[ids[j]].lockedAt {
      assert ids[i] in ids && ids[j] in ids;
    }
  }

  lemma MirrorByLock(e: Env, t: Tables, l: Ledger)
    requires Mirrors(e, t, l) && LockOrder(l)
    ensures ByLock(l.order, t.book.calls)
  {
    RowFields(e, l.book);
    hide RowBook;
  }

  // ── what keeps the calls replayable ─────────────────────────────────────

  function Shown(calls: map<Id, Call>, callId: Id): map<Id, Call>
    requires callId in calls
  {
    calls[callId := calls[callId].(hiddenAt := None, hiddenReason := None)]
  }

  /**
   * Showing a withdrawn call again keeps the calls replayable exactly when the
   * same person has locked nothing later on the same market.
   */
  lemma ShowKeepsReplayableIff(calls: map<Id, Call>, callId: Id)
    requires CallsReplayable(calls) && callId in calls
    ensures CallsReplayable(Shown(calls, callId)) <==> forall id | id in calls :: !Superseded(calls[callId], calls[id])
  {
    var calls' := Shown(calls, callId);
    if id :| id in calls && Superseded(calls[callId], calls[id]) {
      assert Superseded(calls'[callId], calls'[id]) && Live(calls'[callId]);
    } else {
      ReplayablePatched(calls, callId, None, None);
    }
  }

  /**
   * Withdrawing any call, at any instant, keeps them replayable; so does a new lock by
   * someone with nothing live on the market.
   */
  lemma LockAndWithdrawKeepReplayable(e: Env, calls: map<Id, Call>, callId: Id, at: int, reason: Option<string>,
      row: Call)
    requires CallsReplayable(calls)
    ensures callId in calls ==>
        CallsReplayable(calls[callId := calls[callId].(hiddenAt := Some(at), hiddenReason := reason)])
    ensures row.id !in calls && NoOtherLive(calls, row) && row.parentCallId != Some(row.id) &&
            (forall id | id in calls :: calls[id].lockedAt < row.lockedAt && calls[id].parentCallId != Some(row.id)) ==>
              CallsReplayable(calls[row.id := row])
  {
    if callId in calls { ReplayablePatched(calls, callId, Some(at), reason); }
    if row.id !in calls && NoOtherLive(calls, row) && row.parentCallId != Some(row.id) &&
       forall id | id in calls :: calls[id].lockedAt < row.lockedAt && calls[id].parentCallId != Some(row.id) {
      ReplayableGrows(calls, row);
    }
  }

  // ── a restored call that costs a later one its row ──────────────────────

  function PlainCall(id: Id, lockedAt: int): Call {
    Call(id, "ada", "m", YES, None, None, None, None, None, PUBLIC, lockedAt, lockedAt, None, NONE, None, None)
  }

  function TwoCalls(a: Call, b: Call): Ledger {
    EMPTY.(order := [a.id, b.id], book := EMPTY.book.(calls := map[a.id := a, b.id := b]))
  }

  /** Two money calls by one person on one market, each made and expired in turn. */
  function ExpiredTwice(): seq<Op> {
    [AddCall(PlainCall("a", 1)), Hide("a", Some(EXPIRED_REASON), 2)] + [AddCall(PlainCall("b", 3))]
        + [Hide("b", Some(EXPIRED_REASON), 4)]
  }

  function OneCall(a: Call): Ledger { EMPTY.(order := [a.id], book := EMPTY.book.(calls := map[a.id := a])) }

  function Expired(c: Call, at: int): Call { c.(hiddenAt := Some(at), hiddenReason := Some(EXPIRED_REASON)) }

  lemma FirstMadeAndExpired(e: Env)
    ensures InsertCall(e, EMPTY, PlainCall("a", 1)) == Ok(OneCall(PlainCall("a", 1)))
    ensures HideCall(OneCall(PlainCall("a", 1)), "a", Some(EXPIRED_REASON), 2)
        == Ok(OneCall(Expired(PlainCall("a", 1), 2)))
  {
    var a := PlainCall("a", 1);
    assert [] + ["a"] == ["a"] && EMPTY.book.calls["a" := a] == map["a" := a];
    assert map["a" := a]["a" := Expired(a, 2)] == map["a" := Expired(a, 2)];
  }

  lemma SecondMadeAndExpired(e: Env)
    ensures var a, b := Expired(PlainCall("a", 1), 2), PlainCall("b", 3);
            && InsertCall(e, OneCall(a), b) == Ok(TwoCalls(a, b))
            && HideCall(TwoCalls(a, b), "b", Some(EXPIRED_REASON), 4) == Ok(TwoCalls(a, Expired(b, 4)))
  {
    var a, b := Expired(PlainCall("a", 1), 2), PlainCall("b", 3);
    assert ["a"] + ["b"] == ["a", "b"] && map["a" := a]["b" := b] == map["a" := a, "b" := b];
    assert map["a" := a, "b" := b]["b" := Expired(b, 4)] == map["a" := a, "b" := Expired(b, 4)];
  }

  lemma ExpiredTwiceLeaves(e: Env)
    ensures PerformAll(e, EMPTY, ExpiredTwice())
        == Ok(TwoCalls(Expired(PlainCall("a", 1), 2), Expired(PlainCall("b", 3), 4)))
  {
    hide InsertCall, HideCall, PlainCall, OneCall, TwoCalls, Expired;
    var a, b, reason := PlainCall("a", 1), PlainCall("b", 3), Some(EXPIRED_REASON);
    FirstMadeAndExpired(e);
    SecondMadeAndExpired(e);
    assert PerformAll(e, EMPTY, []) == Ok(EMPTY);
    hide PerformAll;
    PerformLast(e, EMPTY, [], AddCall(a));
    assert [] + [AddCall(a)] == [AddCall(a)];
    PerformLast(e, EMPTY, [AddCall(a)], Hide("a", reason, 2));
    assert [AddCall(a)] + [Hide("a", reason, 2)] == [AddCall(a), Hide("a", reason, 2)];
    PerformLast(e, EMPTY, [AddCall(a), Hide("a", reason, 2)], AddCall(b));
    PerformLast(e, EMPTY, [AddCall(a), Hide("a", reason, 2)] + [AddCall(b)], Hide("b", reason, 4));
  }

  /**
   * Showing the first again is accepted while nothing else is live, and keeps
   * the ledger invariant; yet the rows it leaves do not all replay: the second
   * call is skipped, because the first is live when its turn comes.
   */
  lemma RestoreCanCostALaterRow(e: Env)
    ensures var before := PerformAll(e, EMPTY, ExpiredTwice());
            && before.Ok? && "a" in before.value.book.calls
                && before.value.book.calls["a"].hiddenReason == Some(EXPIRED_REASON)
            && LiveCallByUserOnMarket(before.value, "ada", "m").None?
            && var after := UnhideCall(before.value, "a");
               && after.Ok? && after.value.book.calls.Keys == {"a", "b"}
               && ReplayCalls(e, EMPTY, [after.value.book.calls["a"], after.value.book.calls["b"]]).skipped == 1
  {
    ExpiredTwiceLeaves(e);
    var before := PerformAll(e, EMPTY, ExpiredTwice()).value;
    var a, b := PlainCall("a", 1), Expired(PlainCall("b", 3), 4);
    assert before.book.calls["a" := a] == map["a" := a, "b" := b];
    assert UnhideCall(before, "a") == Ok(TwoCalls(a, b));
    assert LiveCallByUserOnMarket(before, "ada", "m").None?;
    hide InsertCall, PlainCall, FirstLive;
    SecondIsSkipped(e);
  }

  lemma FirstReplays(e: Env)
    ensures ReplayCall(e, EMPTY, PlainCall("a", 1)) == Ok(OneCall(PlainCall("a", 1)))
  {
    var a := PlainCall("a", 1);
    assert [] + ["a"] == ["a"] && EMPTY.book.calls["a" := a] == map["a" := a];
  }

  /** The first is live when the second's turn comes. */
  lemma SecondIsRefused(e: Env)
    ensures ReplayCall(e, OneCall(PlainCall("a", 1)), Expired(PlainCall("b", 3), 4)).Err?
  {
    hide CheckPrice;
    assert LiveCallByUserOnMarket(OneCall(PlainCall("a", 1)), "ada", "m").Some?;
  }

  lemma SecondIsSkipped(e: Env)
    ensures ReplayCalls(e, EMPTY, [PlainCall("a", 1), Expired(PlainCall("b", 3), 4)]).skipped == 1
  {
    hide ReplayCall, PlainCall, Expired, OneCall;
    var a, b := PlainCall("a", 1), Expired(PlainCall("b", 3), 4);
    FirstReplays(e);
    SecondIsRefused(e);
    assert [a, b][..1] == [a] && [a][..0] == [];
    assert ReplayCalls(e, EMPTY, [a]) == Replay(OneCall(a), 0);
  }
}
