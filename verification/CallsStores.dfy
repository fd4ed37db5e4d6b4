/**
 * The two calls stores as objects: the in-memory mirror, and the store that also queues
 * every change for the database.
 */
module CallsStores {
  import opened Vocabulary
  import opened Ledgers
  import opened DurableTables
  import opened WriteBehind
  import opened Hydration

  class InMemoryCallsStore {
    var order: seq<Id>
    var calls: map<Id, Call>
    var responses: map<Id, Response>
    var results: map<Id, CallResult>
    var updates: map<Id, ThesisUpdate>
    var follows: set<(Id, Id)>
    var cursors: map<string, Option<string>>

    function Contents(): Ledger
      reads this
    {
      Ledger(order, Book(calls, responses, results, updates), follows, cursors)
    }

    constructor ()
      ensures Contents() == EMPTY
    {
      order, calls, responses, results, updates, follows, cursors := [], map[], map[], map[], map[], {}, map[];
    }

    method Follow(a: Id, b: Id)
      modifies this
      ensures Contents() == FollowPerson(old(Contents()), a, b)
    {
      if a == b { return; }
      follows := follows + {(a, b)};
    }

    method Unfollow(a: Id, b: Id)
      modifies this
      ensures Contents() == UnfollowPerson(old(Contents()), a, b)
    {
      follows := follows - {(a, b)};
    }

    method SetCursor(name: string, cursor: Option<string>)
      modifies this
      ensures Contents() == Ledgers.SetCursor(old(Contents()), name, cursor)
    {
      cursors := cursors[name := cursor];
    }

    method InsertCall(e: Env, rec: Call) returns (r: Result<Call>)
      modifies this
      ensures match Ledgers.InsertCall(e, old(Contents()), rec)
              case Ok(l) => r == Ok(rec) && Contents() == l
              case Err(code) => r == Err(code) && Contents() == old(Contents())
    {
      var _ :- CheckPrice(e, rec);
      if rec.id in calls { return Err(CALL_INVALID); }
      if rec.hiddenAt.Some? { return Err(CALL_INVALID); }
      var existing := LiveCallByUserOnMarket(Contents(), rec.userId, rec.marketId);
      if existing.Some? { return Err(CALL_ALREADY_MADE); }
      if rec.parentCallId.Some? {
        if rec.parentCallId.value !in calls { return Err(CALL_NOT_FOUND); }
        if calls[rec.parentCallId.value].marketId != rec.marketId { return Err(CALL_PARENT_MISMATCH); }
      }
      calls := calls[rec.id := rec];
      order := order + [rec.id];
      return Ok(rec);
    }

    method AttemptCallUpdate(callId: Id, patch: CallPatch) returns (r: Result<Call>)
      modifies this
      ensures match Ledgers.AttemptCallUpdate(old(Contents()), callId, patch)
              case Ok(l) => callId in l.book.calls && r == Ok(l.book.calls[callId]) && Contents() == l
              case Err(code) => r == Err(code) && Contents() == old(Contents())
    {
      if callId !in calls { return Err(CALL_NOT_FOUND); }
      if patch.frozenColumns != {} { return Err(CALL_IMMUTABLE); }
      var updated := calls[callId];
      if patch.hiddenAt.Some? { updated := updated.(hiddenAt := patch.hiddenAt.value); }
      if patch.hiddenReason.Some? { updated := updated.(hiddenReason := patch.hiddenReason.value); }
      calls := calls[callId := updated];
      return Ok(updated);
    }

    method HideCall(callId: Id, reason: Option<string>, now: int) returns (r: Result<Call>)
      modifies this
      ensures match Ledgers.HideCall(old(Contents()), callId, reason, now)
              case Ok(l) => callId in l.book.calls && r == Ok(l.book.calls[callId]) && Contents() == l
              case Err(code) => r == Err(code) && Contents() == old(Contents())
    {
      if callId !in calls { return Err(CALL_NOT_FOUND); }
      if calls[callId].hiddenAt.Some? { return Ok(calls[callId]); }
      r := AttemptCallUpdate(callId, HidePatch(Some(now), reason));
    }

    method UnhideCall(callId: Id) returns (r: Result<Call>)
      modifies this
      ensures match Ledgers.UnhideCall(old(Contents()), callId)
              case Ok(l) => callId in l.book.calls && r == Ok(l.book.calls[callId]) && Contents() == l
              case Err(code) => r == Err(code) && Contents() == old(Contents())
    {
      r := AttemptCallUpdate(callId, HidePatch(None, None));
    }

    method InsertResponse(rec: Response) returns (r: Result<Response>)
      modifies this
      ensures match Ledgers.InsertResponse(old(Contents()), rec)
              case Ok(l) => r == Ok(rec) && Contents() == l
              case Err(code) => r == Err(code) && Contents() == old(Contents())
      ensures var answered := exists id :: id in old(responses) && old(responses)[id].actorUserId == rec.actorUserId
                                           && old(responses)[id].targetCallId == rec.targetCallId
                                           && old(responses)[id].kind == rec.kind;
              && (r.Ok? ==> !answered && responses == old(responses)[rec.id := rec])
              && (r == Err(RESPONSE_DUPLICATE) ==> answered)
    {
      if rec.targetCallId !in calls { return Err(CALL_NOT_FOUND); }
      var target := calls[rec.targetCallId];
      if target.userId == rec.actorUserId { return Err(RESPONSE_SELF); }
      if HasResponse(responses, rec.actorUserId, rec.targetCallId, rec.kind) { return Err(RESPONSE_DUPLICATE); }
      var shouldHaveCall := rec.kind == BACK || rec.kind == FADE;
      if shouldHaveCall && rec.resultingCallId.None? { return Err(CALL_INVALID); }
      if !shouldHaveCall && rec.resultingCallId.Some? { return Err(CALL_INVALID); }
      if rec.resultingCallId.Some? {
        if rec.resultingCallId.value !in calls { return Err(CALL_NOT_FOUND); }
        var resulting := calls[rec.resultingCallId.value];
        if resulting.userId != rec.actorUserId { return Err(CALL_INVALID); }
        if resulting.marketId != target.marketId { return Err(CALL_PARENT_MISMATCH); }
        if rec.kind == BACK && resulting.side != target.side { return Err(CALL_INVALID); }
        if rec.kind == FADE && resulting.side == target.side { return Err(CALL_INVALID); }
      }
      responses := responses[rec.id := rec];
      return Ok(rec);
    }

    method InsertThesisUpdate(rec: ThesisUpdate) returns (r: Result<ThesisUpdate>)
      modifies this
      ensures match Ledgers.InsertThesisUpdate(old(Contents()), rec)
              case Ok(l) => r == Ok(rec.(body := Trim(rec.body))) && Contents() == l
              case Err(code) => r == Err(code) && Contents() == old(Contents())
      ensures var already := |set id | id in old(updates) && old(updates)[id].callId == rec.callId|;
              (r.Ok? ==> already < 20 && 0 < |r.value.body| <= 280) && (r == Err(THESIS_UPDATE_LIMIT) ==> already >= 20)
    {
      if rec.callId !in calls { return Err(CALL_NOT_FOUND); }
      var call := calls[rec.callId];
      if rec.authorUserId != call.userId { return Err(THESIS_NOT_AUTHOR); }
      if call.hiddenAt.Some? && rec.createdAt >= call.hiddenAt.value { return Err(CALL_HIDDEN); }
      var body := Trim(rec.body);
      if |body| == 0 || |body| > THESIS_UPDATE_MAX { return Err(CALL_INVALID); }
      if rec.createdAt < call.lockedAt { return Err(CALL_INVALID); }
      if rec.id in updates { return Err(CALL_INVALID); }
      if |Thread(updates, rec.callId)| >= MAX_THESIS_UPDATES_PER_CALL { return Err(THESIS_UPDATE_LIMIT); }
      var stored := rec.(body := body);
      updates := updates[rec.id := stored];
      return Ok(stored);
    }

    /** The stored result, and whether this call changed it. */
    method WriteResult(callId: Id, evidence: Option<Evidence>, at: int, actor: Actor)
        returns (r: Result<(CallResult, bool)>)
      modifies this
      ensures match Ledgers.WriteResult(old(Contents()), callId, evidence, at, actor)
              case Ok(p) =>
                Contents() == p.0 && callId in calls && calls[callId].id in results
                    && r == Ok((results[calls[callId].id], p.1))
                    && Judges(evidence, calls[callId], r.value.0)
                    && (if p.1 then r.value.0.derivedAt == at && Contents() == old(Contents()).(book :=
                            old(Contents()).book.(results := old(results)[calls[callId].id := r.value.0]))
                        else Contents() == old(Contents()))
              case Err(code) => r == Err(code) && Contents() == old(Contents())
    {
      if actor != SERVICE { return Err(RESULT_SERVICE_WRITE_ONLY); }
      if callId !in calls { return Err(CALL_NOT_FOUND); }
      var call := calls[callId];
      if evidence.Some? && evidence.value.marketId != call.marketId { return Err(RESULT_DERIVATION_VIOLATION); }
      var next := Derive(call, evidence, at);
      if call.id in results {
        var existing := results[call.id];
        if SameDerivation(existing, next) { return Ok((existing, false)); }
        if existing.outcome != PENDING { return Err(RESULT_DERIVATION_VIOLATION); }
      }
      results := results[call.id := next];
      return Ok((next, true));
    }
  }

  /** The pairs of these rows that are follows: nobody follows themselves. */
  function Pairs(rows: seq<(Id, Id)>): set<(Id, Id)> { set p | p in rows && p.0 != p.1 }

  /** How many of the rows were not followed yet when their turn came. */
  function NewFollows(legacy: seq<(Id, Id)>, rows: seq<(Id, Id)>): nat {
    if rows == [] then 0
    else
      var before, last := rows[..|rows| - 1], rows[|rows| - 1];
      NewFollows(legacy, before) + if last in Pairs(legacy) + Pairs(before) then 0 else 1
  }

  lemma OneMoreFollow(known: set<(Id, Id)>, pairs: set<(Id, Id)>, p: (Id, Id))
    requires p !in pairs
    ensures |pairs + {p} - known| == |pairs - known| + (if p in known then 0 else 1)
  {
    if p in known {
      assert pairs + {p} - known == pairs - known;
    } else {
      assert pairs + {p} - known == (pairs - known) + {p};
    }
  }

  /** With each pair stored once, and nobody following themselves, that is the pairs the legacy table lacks. */
  lemma {:induction false} NewFollowsAre(legacy: seq<(Id, Id)>, rows: seq<(Id, Id)>)
    requires (forall i, j | 0 <= i < j < |rows| :: rows[i] != rows[j]) && forall p | p in rows :: p.0 != p.1
    ensures NewFollows(legacy, rows) == |Pairs(rows) - Pairs(legacy)|
  {
    if rows == [] {
      assert Pairs([]) - Pairs(legacy) == {};
    } else {
      var before, last := rows[..|rows| - 1], rows[|rows| - 1];
      assert last !in Pairs(before);
      PairsNext(rows, |rows| - 1);
      assert last.0 != last.1 && rows[..|rows|] == rows;
      hide Pairs;
      NewFollowsAre(legacy, before);
      OneMoreFollow(Pairs(legacy), Pairs(before), last);
    }
  }

  /** A later row for the same name wins. */
  function CursorsOf(rows: seq<(string, Option<string>)>): map<string, Option<string>> {
    if rows == [] then map[] else CursorsOf(rows[..|rows| - 1])[rows[|rows| - 1].0 := rows[|rows| - 1].1]
  }

  /**
   * What one hydration read, and what it could not mirror. `thesisUpdates` is absent
   * when that table could not be read.
   */
  datatype HydrationReport = HydrationReport(
    follows: nat, cursors: nat, calls: nat, hiddenCalls: nat, responses: nat, results: nat, thesisUpdates: Option<nat>,
    skippedCalls: nat, skippedResponses: nat, skippedResults: nat)

  lemma PairsNext(rows: seq<(Id, Id)>, i: nat)
    requires i < |rows|
    ensures Pairs(rows[..i + 1]) == Pairs(rows[..i]) + (if rows[i].0 != rows[i].1 then {rows[i]} else {})
  {
    assert rows[..i + 1] == rows[..i] + [rows[i]];
  }

  class SupabaseCallsStore {
    var mirror: InMemoryCallsStore
    var queue: seq<Write>
    var thesisTable: bool

    constructor ()
      ensures fresh(mirror) && mirror.Contents() == EMPTY && queue == [] && !thesisTable
    {
      mirror := new InMemoryCallsStore();
      queue := [];
      thesisTable := false;
    }

    /** The mutation happened in the mirror and its writes are on the queue, or it was refused and nothing moved. */
    twostate predicate Did(e: Env, op: Op, refusal: Option<ErrorCode>)
      reads this, mirror
    {
      && mirror == old(mirror) && thesisTable == old(thesisTable)
      && match Perform(e, old(mirror.Contents()), op)
         case Ok(l) =>
             refusal.None? && mirror.Contents() == l && queue == old(queue) + Queued(e, old(mirror.Contents()), op)
         case Err(code) => refusal == Some(code) && mirror.Contents() == old(mirror.Contents()) && queue == old(queue)
    }

    method InsertCall(e: Env, rec: Call) returns (r: Result<Call>)
      modifies this, mirror
      ensures Did(e, AddCall(rec), if r.Err? then Some(r.code) else None)
    {
      var stored :- mirror.InsertCall(e, rec);
      queue := queue + [InsertCallRow(Row(e, rec).(hiddenAt := None, hiddenReason := None))];
      return Ok(stored);
    }

    method AttemptCallUpdate(callId: Id, patch: CallPatch) returns (r: Result<Call>)
      modifies this, mirror
      ensures mirror == old(mirror) && thesisTable == old(thesisTable)
      ensures match Ledgers.AttemptCallUpdate(old(mirror.Contents()), callId, patch)
              case Ok(l) => callId in l.book.calls && r == Ok(l.book.calls[callId]) && mirror.Contents() == l
                            && queue == old(queue) + [PatchCallRow(callId, r.value.hiddenAt, r.value.hiddenReason)]
              case Err(code) => r == Err(code) && mirror.Contents() == old(mirror.Contents()) && queue == old(queue)
    {
      var updated :- mirror.AttemptCallUpdate(callId, patch);
      queue := queue + [PatchCallRow(callId, updated.hiddenAt, updated.hiddenReason)];
      return Ok(updated);
    }

    method HideCall(e: Env, callId: Id, reason: Option<string>, now: int) returns (r: Result<Call>)
      modifies this, mirror
      ensures Did(e, Hide(callId, reason, now), if r.Err? then Some(r.code) else None)
    {
      if callId !in mirror.calls { return Err(CALL_NOT_FOUND); }
      var current := mirror.calls[callId];
      if current.hiddenAt.Some? { return Ok(current); }
      r := AttemptCallUpdate(callId, HidePatch(Some(now), reason));
    }

    method UnhideCall(e: Env, callId: Id) returns (r: Result<Call>)
      modifies this, mirror
      ensures Did(e, Unhide(callId), if r.Err? then Some(r.code) else None)
    {
      r := AttemptCallUpdate(callId, HidePatch(None, None));
    }

    method InsertResponse(e: Env, rec: Response) returns (r: Result<Response>)
      modifies this, mirror
      ensures Did(e, AddResponse(rec), if r.Err? then Some(r.code) else None)
    {
      var stored :- mirror.InsertResponse(rec);
      queue := queue + [InsertResponseRow(rec)];
      return Ok(stored);
    }

    /** Refused outright while the updates table has not answered, so a missing table never fails the shared queue. */
    method InsertThesisUpdate(e: Env, rec: ThesisUpdate) returns (r: Result<ThesisUpdate>)
      modifies this, mirror
      ensures old(thesisTable) ==> Did(e, AddUpdate(rec), if r.Err? then Some(r.code) else None)
      ensures !old(thesisTable) ==>
                r == Err(THESIS_UPDATES_UNAVAILABLE) && mirror == old(mirror)
                    && mirror.Contents() == old(mirror.Contents())
                && queue == old(queue) && !thesisTable
    {
      if !thesisTable { return Err(THESIS_UPDATES_UNAVAILABLE); }
      var stored :- mirror.InsertThesisUpdate(rec);
      queue := queue + [InsertUpdateRow(stored)];
      return Ok(stored);
    }

    method WriteResult(e: Env, callId: Id, evidence: Option<Evidence>, at: int, actor: Actor)
        returns (r: Result<(CallResult, bool)>)
      requires forall id | id in mirror.calls :: mirror.calls[id].id == id
      modifies this, mirror
      ensures Did(e, SetResult(callId, evidence, at, actor), if r.Err? then Some(r.code) else None)
    {
      var outcome :- mirror.WriteResult(callId, evidence, at, actor);
      if !outcome.1 { return Ok(outcome); }
      queue := queue + [UpsertResultRow(outcome.0)];
      return Ok(outcome);
    }

    method Follow(e: Env, a: Id, b: Id)
      modifies this, mirror
      ensures Did(e, Op.Follow(a, b), None)
    {
      if a == b { return; }
      if (a, b) in mirror.follows { return; }
      mirror.Follow(a, b);
      queue := queue + [InsertFollowRow(a, b)];
    }

    method Unfollow(e: Env, a: Id, b: Id)
      modifies this, mirror
      ensures Did(e, Op.Unfollow(a, b), None)
    {
      if (a, b) !in mirror.follows { return; }
      mirror.Unfollow(a, b);
      queue := queue + [DeleteFollowRow(a, b)];
      queue := queue + [DeleteLegacyFollowRow(a, b)];
    }

    method SetCursor(e: Env, name: string, cursor: Option<string>)
      modifies this, mirror
      ensures Did(e, Cursor(name, cursor), None)
    {
      mirror.SetCursor(name, cursor);
      queue := queue + [UpsertCursorRow(name, cursor)];
    }

    /** Both tables into one graph; a pair of the second that the first had already is not counted again. */
    method HydrateFollows(legacyFollows: seq<(Id, Id)>, personFollows: seq<(Id, Id)>) returns (follows: nat)
      requires mirror.Contents() == EMPTY
      modifies mirror
      ensures mirror.Contents() == EMPTY.(follows := Pairs(legacyFollows) + Pairs(personFollows))
      ensures follows == |legacyFollows| + NewFollows(legacyFollows, personFollows)
    {
      follows := 0;
      for i := 0 to |legacyFollows|
        invariant mirror.Contents() == EMPTY.(follows := Pairs(legacyFollows[..i])) && follows == i
      {
        mirror.Follow(legacyFollows[i].0, legacyFollows[i].1);
        follows := follows + 1;
        PairsNext(legacyFollows, i);
      }
      assert legacyFollows[..|legacyFollows|] == legacyFollows;
      for i := 0 to |personFollows|
        invariant mirror.Contents() == EMPTY.(follows := Pairs(legacyFollows) + Pairs(personFollows[..i]))
        invariant follows == |legacyFollows| + NewFollows(legacyFollows, personFollows[..i])
      {
        var p := personFollows[i];
        assert personFollows[..i + 1][..i] == personFollows[..i];
        if p !in mirror.follows { follows := follows + 1; }
        mirror.Follow(p.0, p.1);
        PairsNext(personFollows, i);
      }
      assert personFollows[..|personFollows|] == personFollows;
    }

    method HydrateCursors(rows: seq<(string, Option<string>)>)
      requires mirror.cursors == map[]
      modifies mirror
      ensures mirror.Contents() == old(mirror.Contents()).(cursors := CursorsOf(rows))
    {
      for i := 0 to |rows|
        invariant mirror.Contents() == old(mirror.Contents()).(cursors := CursorsOf(rows[..i]))
      {
        assert rows[..i + 1][..i] == rows[..i];
        mirror.SetCursor(rows[i].0, rows[i].1);
      }
      assert rows[..|rows|] == rows;
    }

    /** A withdrawn row enters visible, as it was locked, and is then withdrawn at its own instant. */
    method HydrateCall(e: Env, row: Call) returns (mirrored: bool)
      modifies mirror
      ensures mirror.cursors == old(mirror.cursors)
      ensures match ReplayCall(e, old(mirror.Contents()), row)
              case Ok(l) => mirrored && mirror.Contents() == l
              case Err(_) => !mirrored && mirror.Contents() == old(mirror.Contents())
    {
      hide Ledgers.InsertCall, CheckPrice;
      ReplayStores(e, mirror.Contents(), row);
      var inserted := mirror.InsertCall(e, row.(hiddenAt := None, hiddenReason := None));
      if inserted.Err? { return false; }
      if row.hiddenAt.Some? {
        var _ := mirror.AttemptCallUpdate(row.id, HidePatch(row.hiddenAt, row.hiddenReason));
      }
      return true;
    }

    /** Reading a row comes before replaying it: one that cannot be read stops everything. */
    method HydrateCalls(e: Env, rows: seq<Call>) returns (r: Result<(nat, nat)>)
      modifies mirror
      ensures mirror.cursors == old(mirror.cursors)
      ensures if Readable(e, rows) then r.Ok? else r == Err(VENUE_SCHEMA)
      ensures r.Ok? ==>
                var (hidden, skipped) := r.value;
                && Replay(mirror.Contents(), skipped) == ReplayCalls(e, old(mirror.Contents()), rows)
                && hidden == HiddenReplayed(e, old(mirror.Contents()), rows) && hidden + skipped <= |rows|
    {
      hide ReplayCall;
      var hidden: nat, skipped: nat := 0, 0;
      for i := 0 to |rows|
        invariant mirror.cursors == old(mirror.cursors)
        invariant hidden == HiddenReplayed(e, old(mirror.Contents()), rows[..i]) && hidden + skipped <= i
        invariant Replay(mirror.Contents(), skipped) == ReplayCalls(e, old(mirror.Contents()), rows[..i])
        invariant forall k | 0 <= k < i :: !Malformed(e, rows[k])
      {
        CallsUnroll(e, old(mirror.Contents()), rows, i + 1);
        if Malformed(e, rows[i]) { return Err(VENUE_SCHEMA); }
        var mirrored := HydrateCall(e, rows[i]);
        if !mirrored {
          skipped := skipped + 1;
        } else if rows[i].hiddenAt.Some? {
          hidden := hidden + 1;
        }
      }
      assert rows[..|rows|] == rows;
      r := Ok((hidden, skipped));
    }

    method HydrateResponses(rows: seq<Response>) returns (skipped: nat)
      modifies mirror
      ensures mirror.cursors == old(mirror.cursors)
      ensures Replay(mirror.Contents(), skipped) == ReplayResponses(old(mirror.Contents()), rows)
      ensures skipped <= |rows|
    {
      skipped := 0;
      for i := 0 to |rows|
        invariant mirror.cursors == old(mirror.cursors)
        invariant skipped <= i
        invariant Replay(mirror.Contents(), skipped) == ReplayResponses(old(mirror.Contents()), rows[..i])
      {
        ResponsesUnroll(old(mirror.Contents()), rows, i + 1);
        var stored := mirror.InsertResponse(rows[i]);
        if stored.Err? { skipped := skipped + 1; }
      }
      assert rows[..|rows|] == rows;
    }

    /** Each result is derived again from the evidence its own row carries. */
    method HydrateResults(rows: seq<CallResult>) returns (skipped: nat)
      modifies mirror
      ensures mirror.cursors == old(mirror.cursors)
      ensures Replay(mirror.Contents(), skipped) == ReplayResults(old(mirror.Contents()), rows)
      ensures skipped <= |rows|
    {
      skipped := 0;
      for i := 0 to |rows|
        invariant mirror.cursors == old(mirror.cursors)
        invariant skipped <= i
        invariant Replay(mirror.Contents(), skipped) == ReplayResults(old(mirror.Contents()), rows[..i])
      {
        ResultsUnroll(old(mirror.Contents()), rows, i + 1);
        var row := rows[i];
        if row.callId !in mirror.calls {
          skipped := skipped + 1;
        } else {
          var written :=
              mirror.WriteResult(row.callId, EvidenceOf(row, mirror.calls[row.callId].marketId), row.derivedAt,
              SERVICE);
          if written.Err? { skipped := skipped + 1; }
        }
      }
      assert rows[..|rows|] == rows;
    }

    method HydrateUpdates(rows: seq<ThesisUpdate>) returns (mirrored: nat)
      modifies mirror
      ensures mirror.cursors == old(mirror.cursors)
      ensures mirrored <= |rows|
      ensures Replay(mirror.Contents(), |rows| - mirrored) == ReplayUpdates(old(mirror.Contents()), rows)
    {
      mirrored := 0;
      for i := 0 to |rows|
        invariant mirror.cursors == old(mirror.cursors)
        invariant mirrored <= i
        invariant Replay(mirror.Contents(), i - mirrored) == ReplayUpdates(old(mirror.Contents()), rows[..i])
      {
        UpdatesUnroll(old(mirror.Contents()), rows, i + 1);
        var stored := mirror.InsertThesisUpdate(rows[i]);
        if stored.Ok? { mirrored := mirrored + 1; }
      }
      assert rows[..|rows|] == rows;
    }

    /**
     * Rebuild an empty mirror from the selected rows. Nothing is queued:
     * reading the database never writes to it. A call row that cannot be read
     * stops it. `updateRows` is None when the updates table could not be read,
     * which turns updates off and nothing else.
     */
    method Hydrate(
        e: Env, legacyFollows: seq<(Id, Id)>, personFollows: seq<(Id, Id)>, callRows: seq<Call>,
            responseRows: seq<Response>,
        resultRows: seq<CallResult>, updateRows: Option<seq<ThesisUpdate>>, cursorRows: seq<(string, Option<string>)>)
      returns (r: Result<HydrationReport>)
      requires mirror.Contents() == EMPTY
      modifies this, mirror
      ensures mirror == old(mirror) && queue == old(queue)
      ensures if Readable(e, callRows) then r.Ok? else r == Err(VENUE_SCHEMA) && thesisTable == old(thesisTable)
      ensures r.Ok? ==>
              var report := r.value;
              var graph := Pairs(legacyFollows) + Pairs(personFollows);
              var h := HydrateRows(e, graph, CursorsOf(cursorRows), callRows, responseRows, resultRows,
                  updateRows.GetOr([]));
              && mirror.Contents() == h.ledger && thesisTable == updateRows.Some?
              && report.follows == |legacyFollows| + NewFollows(legacyFollows, personFollows)
                  && report.cursors == |cursorRows|
              && report.hiddenCalls == HiddenReplayed(e, EMPTY.(follows := graph), callRows)
              && report.skippedCalls == h.skippedCalls && report.calls + report.skippedCalls == |callRows|
              && report.skippedResponses == h.skippedResponses
                  && report.responses + report.skippedResponses == |responseRows|
              && report.skippedResults == h.skippedResults && report.results + report.skippedResults == |resultRows|
              && report.thesisUpdates.Some? == updateRows.Some?
              && (updateRows.Some? ==> report.thesisUpdates.value + h.skippedUpdates == |updateRows.value|)
    {
      hide ReplayCalls, ReplayResponses, ReplayResults, ReplayUpdates, NewFollows, CursorsOf, HiddenReplayed;
      var follows := HydrateFollows(legacyFollows, personFollows);
      var calls :- HydrateCalls(e, callRows);
      var (hidden, skippedCalls) := calls;
      var skippedResponses := HydrateResponses(responseRows);
      var skippedResults := HydrateResults(resultRows);
      thesisTable := updateRows.Some?;
      var mirrored := HydrateUpdates(updateRows.GetOr([]));
      HydrateCursors(cursorRows);
      r := Ok(HydrationReport(
        follows, |cursorRows|, |callRows| - skippedCalls, hidden, |responseRows| - skippedResponses,
            |resultRows| - skippedResults,
        if updateRows.Some? then Some(mirrored) else None, skippedCalls, skippedResponses, skippedResults));
    }
  }
}
