/**
 * The database behind the mirror: its tables, the writes the store queues for
 * it, the constraints it enforces, and what a write does. The main results are
 * that every write the store queues, taken in queue order, is one the
 * constraints accept, and that the tables stay replayable even when arbitrary
 * earlier writes of the queue were lost.
 */
module DurableTables {
  import opened Vocabulary
  import opened Ledgers

  datatype Tables = Tables(
    book: Book, personFollows: set<(Id, Id)>, legacyFollows: set<(Id, Id)>, cursors: map<string, Option<string>>)

  datatype Write =
    | InsertCallRow(row: Call)
    | PatchCallRow(callId: Id, hiddenAt: Option<int>, hiddenReason: Option<string>)
    | InsertResponseRow(response: Response)
    | InsertUpdateRow(update: ThesisUpdate)
    | UpsertResultRow(result: CallResult)
    | InsertFollowRow(follower: Id, followee: Id)
    | DeleteFollowRow(follower: Id, followee: Id)
    | DeleteLegacyFollowRow(follower: Id, followee: Id)
    | UpsertCursorRow(name: string, cursor: Option<string>)

  /** A call as its row stores it: the snapshot handle becomes the snapshot's UUID. */
  function Row(e: Env, c: Call): Call {
    c.(snapshotId := if c.snapshotId.Some? then Some(e.snapshotUuid(c.snapshotId.value)) else None)
  }

  function RowBook(e: Env, b: Book): Book { b.(calls := map id | id in b.calls :: Row(e, b.calls[id])) }

  // ── what a write does ───────────────────────────────────────────────────

  /** An insert of a key already present is ignored, a patch of a missing row matches nothing, a result is merged. */
  function StoreRecord(b: Book, w: Write): Book {
    match w
    case InsertCallRow(row) => if row.id in b.calls then b else b.(calls := b.calls[row.id := row])
    case PatchCallRow(callId, at, reason) =>
      if callId !in b.calls then b
      else b.(calls := b.calls[callId := b.calls[callId].(hiddenAt := at, hiddenReason := reason)])
    case InsertResponseRow(r) => if r.id in b.responses then b else b.(responses := b.responses[r.id := r])
    case InsertUpdateRow(u) => if u.id in b.updates then b else b.(updates := b.updates[u.id := u])
    case UpsertResultRow(r) => b.(results := b.results[r.callId := r])
    case _ => b
  }

  function Store(t: Tables, w: Write): Tables {
    match w
    case InsertFollowRow(a, b) => t.(personFollows := t.personFollows + {(a, b)})
    case DeleteFollowRow(a, b) => t.(personFollows := t.personFollows - {(a, b)})
    case DeleteLegacyFollowRow(a, b) => t.(legacyFollows := t.legacyFollows - {(a, b)})
    case UpsertCursorRow(name, c) => t.(cursors := t.cursors[name := c])
    case _ => t.(book := StoreRecord(t.book, w))
  }

  function StoreAll(t: Tables, ws: seq<Write>): Tables
    decreases |ws|
  {
    if ws == [] then t else StoreAll(Store(t, ws[0]), ws[1..])
  }

  function RecordAll(b: Book, ws: seq<Write>): Book
    decreases |ws|
  {
    if ws == [] then b else RecordAll(StoreRecord(b, ws[0]), ws[1..])
  }

  // ── what the constraints accept ─────────────────────────────────────────

  predicate NoOtherLive(calls: map<Id, Call>, c: Call) {
    forall id | id in calls && id != c.id :: !LiveOn(calls[id], c.userId, c.marketId)
  }

  /**
   * The checks, foreign keys, unique indexes and guard triggers of the social
   * tables, as far as they speak of social rows.
   */
  predicate Accepts(b: Book, w: Write) {
    match w
    case InsertCallRow(row) => ThesisFits(row) && (row.id in b.calls || (
      && Live(row) && NoOtherLive(b.calls, row)
      && (row.parentCallId.Some? ==>
          row.parentCallId.value in b.calls && b.calls[row.parentCallId.value].marketId == row.marketId)))
    case PatchCallRow(callId, at, _) => at.None? && callId in b.calls ==> NoOtherLive(b.calls, b.calls[callId])
    case InsertResponseRow(r) => r.id in b.responses || (
      && ResponseSound(b.calls, r)
      && !HasResponse(b.responses, r.actorUserId, r.targetCallId, r.kind)
      && (r.resultingCallId.Some? ==>
          forall id | id in b.responses :: b.responses[id].resultingCallId != r.resultingCallId))
    case InsertUpdateRow(u) => u.id in b.updates || (
      && UpdateSound(b.calls, u) && Live(b.calls[u.callId])
          && |Thread(b.updates, u.callId)| < MAX_THESIS_UPDATES_PER_CALL)
    case UpsertResultRow(r) =>
      && ResultSound(b.calls, r)
      && (r.callId in b.results && b.results[r.callId].outcome != PENDING ==> SameDerivation(b.results[r.callId], r))
    case InsertFollowRow(a, c) => a != c
    case _ => true
  }

  // ── replayable tables ───────────────────────────────────────────────────

  /** `a` was locked before `c`, by the same person on the same market. */
  predicate Superseded(a: Call, c: Call) { a.userId == c.userId && a.marketId == c.marketId && a.lockedAt < c.lockedAt }

  /** Locks happen one at a time, parents first, and a second call on a market follows the withdrawal of the first. */
  ghost predicate CallsReplayable(calls: map<Id, Call>) {
    && (forall a, c | a in calls && c in calls && a != c :: calls[a].lockedAt != calls[c].lockedAt)
    && (forall id | id in calls && calls[id].parentCallId.Some? && calls[id].parentCallId.value in calls ::
          calls[calls[id].parentCallId.value].lockedAt < calls[id].lockedAt)
    && (forall a, c | a in calls && c in calls && Superseded(calls[a], calls[c]) :: !Live(calls[a]))
  }

  ghost predicate UpdateReplayable(calls: map<Id, Call>, u: ThesisUpdate) {
    u.callId in calls && calls[u.callId].hiddenAt.Some? ==> u.createdAt < calls[u.callId].hiddenAt.value
  }

  ghost predicate UpdatesReplayable(calls: map<Id, Call>, updates: map<Id, ThesisUpdate>) {
    forall id | id in updates :: UpdateReplayable(calls, updates[id])
  }

  /** The call a back or fade made came from the call it answers. */
  ghost predicate Lineage(calls: map<Id, Call>, responses: map<Id, Response>) {
    forall id | id in responses && responses[id].resultingCallId.Some?
        && responses[id].resultingCallId.value in calls ::
      calls[responses[id].resultingCallId.value].parentCallId == Some(responses[id].targetCallId)
  }

  ghost predicate Sound(e: Env, b: Book) {
    Core(e, b) && CallsReplayable(b.calls) && UpdatesReplayable(b.calls, b.updates) && Lineage(b.calls, b.responses)
  }

  /**
   * What the store has established about a write when it queues it, against the records
   * as they stand at that point of the queue.
   */
  ghost predicate Fit(e: Env, b: Book, w: Write) {
    match w
    case InsertCallRow(row) =>
      && row.id !in b.calls && Live(row) && ThesisFits(row) && NoOtherLive(b.calls, row)
      && CallSound(e, b.calls[row.id := row], row.id) && row.parentCallId != Some(row.id)
      && (forall id | id in b.calls :: b.calls[id].lockedAt < row.lockedAt)
    case PatchCallRow(callId, at, reason) =>
      && callId in b.calls
      && (at.Some? ==>
          forall id | id in b.updates && b.updates[id].callId == callId :: b.updates[id].createdAt < at.value)
      && (at.None? ==>
            && reason.None? && NoOtherLive(b.calls, b.calls[callId])
            && forall id | id in b.calls :: !Superseded(b.calls[callId], b.calls[id]))
    case InsertResponseRow(r) =>
      && r.id !in b.responses && ResponseSound(b.calls, r)
      && !HasResponse(b.responses, r.actorUserId, r.targetCallId, r.kind)
      && (r.resultingCallId.Some? ==> b.calls[r.resultingCallId.value].parentCallId == Some(r.targetCallId))
    case InsertUpdateRow(u) =>
      && u.id !in b.updates && UpdateSound(b.calls, u) && Live(b.calls[u.callId])
      && |Thread(b.updates, u.callId)| < MAX_THESIS_UPDATES_PER_CALL
    case UpsertResultRow(r) =>
      && ResultSound(b.calls, r)
      && (r.callId in b.results ==> b.results[r.callId].outcome == PENDING)
    case InsertFollowRow(a, c) => a != c
    case _ => true
  }

  /** No constraint refuses a write that fits. */
  lemma FitAccepted(e: Env, b: Book, w: Write)
    requires Sound(e, b) && Fit(e, b, w)
    ensures Accepts(b, w)
  {
    hide CallsReplayable, UpdatesReplayable, CallsSound, OneLive, ResultsSound, ThreadsSound;
    match w
    case InsertCallRow(row) => hide ResponsesSound, Lineage;
    case InsertResponseRow(r) =>
      forall id | id in b.responses && r.resultingCallId.Some?
        ensures b.responses[id].resultingCallId != r.resultingCallId
      {
        var prior := b.responses[id];
        assert ResponseSound(b.calls, prior);
        assert !(prior.actorUserId == r.actorUserId && prior.targetCallId == r.targetCallId && prior.kind == r.kind);
      }
    case _ =>
  }

  // ── a write that lands keeps the tables sound ───────────────────────────

  lemma ReplayableGrows(calls: map<Id, Call>, row: Call)
    requires CallsReplayable(calls) && row.id !in calls && NoOtherLive(calls, row) && row.parentCallId != Some(row.id)
    requires forall id | id in calls :: calls[id].lockedAt < row.lockedAt && calls[id].parentCallId != Some(row.id)
    ensures CallsReplayable(calls[row.id := row])
  {
  }

  lemma ReplayablePatched(calls: map<Id, Call>, callId: Id, at: Option<int>, reason: Option<string>)
    requires CallsReplayable(calls) && callId in calls
    requires at.None? ==> forall id | id in calls :: !Superseded(calls[callId], calls[id])
    ensures CallsReplayable(calls[callId := calls[callId].(hiddenAt := at, hiddenReason := reason)])
  {
    var calls' := calls[callId := calls[callId].(hiddenAt := at, hiddenReason := reason)];
    forall a, d | a in calls' && d in calls' && Superseded(calls'[a], calls'[d]) ensures !Live(calls'[a]) {
      assert Superseded(calls[a], calls[d]);
    }
  }

  lemma CallLands(e: Env, t: Book, row: Call)
    requires Sound(e, t) && row.id !in t.calls && Live(row) && NoOtherLive(t.calls, row)
    requires CallSound(e, t.calls[row.id := row], row.id) && row.parentCallId != Some(row.id)
    requires forall id | id in t.calls :: t.calls[id].lockedAt < row.lockedAt
    ensures Sound(e, t.(calls := t.calls[row.id := row]))
  {
    assert forall id | id in t.calls :: t.calls[id].parentCallId != Some(row.id) by {
      assert forall id | id in t.calls :: CallSound(e, t.calls, id);
    }
    hide CallSound, CallsReplayable, UpdatesReplayable, Lineage;
    assert Core(e, t.(calls := t.calls[row.id := row])) by { CallStored(e, t, row); }
    hide Core, NoOtherLive;
    ReplayableGrows(t.calls, row);
    NobodyReferred(e, t, row);
  }

  lemma NobodyReferred(e: Env, t: Book, row: Call)
    requires Sound(e, t) && row.id !in t.calls
    ensures UpdatesReplayable(t.calls[row.id := row], t.updates) && Lineage(t.calls[row.id := row], t.responses)
  {
    hide CallsReplayable, CallsSound, OneLive, ResultsSound;
    assert forall id | id in t.updates :: UpdateSound(t.calls, t.updates[id]);
    assert forall id | id in t.responses :: ResponseSound(t.calls, t.responses[id]);
  }

  lemma PatchLands(e: Env, t: Book, callId: Id, at: Option<int>, reason: Option<string>)
    requires Sound(e, t) && callId in t.calls
    requires at.Some? ==>
        forall id | id in t.updates && t.updates[id].callId == callId :: t.updates[id].createdAt < at.value
    requires at.None? ==> reason.None? && NoOtherLive(t.calls, t.calls[callId])
    requires at.None? ==> forall id | id in t.calls :: !Superseded(t.calls[callId], t.calls[id])
    ensures Sound(e, t.(calls := t.calls[callId := t.calls[callId].(hiddenAt := at, hiddenReason := reason)]))
  {
    var c' := t.calls[callId].(hiddenAt := at, hiddenReason := reason);
    var calls' := t.calls[callId := c'];
    assert c'.id == callId && Core(e, t.(calls := calls')) by {
      hide CallsReplayable, UpdatesReplayable, Lineage;
      assert CallSound(e, t.calls, callId);
      CallStored(e, t, c');
    }
    hide Core, CallsReplayable, NoOtherLive;
    ReplayablePatched(t.calls, callId, at, reason);
  }

  lemma ResponseLands(e: Env, t: Book, r: Response)
    requires Sound(e, t) && r.id !in t.responses && ResponseSound(t.calls, r)
    requires !HasResponse(t.responses, r.actorUserId, r.targetCallId, r.kind)
    requires r.resultingCallId.Some? ==> t.calls[r.resultingCallId.value].parentCallId == Some(r.targetCallId)
    ensures Sound(e, t.(responses := t.responses[r.id := r]))
  {
    hide CallsReplayable, UpdatesReplayable, CallsSound, OneLive, ResultsSound, ThreadsSound;
    ResponseJoins(t, r);
    hide ResponsesSound;
  }

  lemma UpdateLands(e: Env, t: Book, u: ThesisUpdate)
    requires Sound(e, t) && u.id !in t.updates && UpdateSound(t.calls, u) && Live(t.calls[u.callId])
    requires |Thread(t.updates, u.callId)| < MAX_THESIS_UPDATES_PER_CALL
    ensures Sound(e, t.(updates := t.updates[u.id := u]))
  {
    hide CallsReplayable, Lineage, CallsSound, OneLive, ResultsSound, ResponsesSound;
    UpdateJoins(t, u);
    hide ThreadsSound;
  }

  lemma ResultLands(e: Env, t: Book, r: CallResult)
    requires Sound(e, t) && ResultSound(t.calls, r)
    requires r.callId in t.results ==> t.results[r.callId].outcome == PENDING
    ensures Sound(e, t.(results := t.results[r.callId := r]))
  {
    hide CallsReplayable, UpdatesReplayable, Lineage, CallsSound, OneLive, ThreadsSound, ResponsesSound;
    ResultJoins(t, r);
    hide ResultsSound;
  }

  // ── tables that lag behind the queue keep lagging behind it ─────────────

  lemma CallBehind(e: Env, t: Book, b: Book, row: Call)
    requires Keeps(t, b) && Fit(e, b, InsertCallRow(row))
    ensures var w := InsertCallRow(row);
            Keeps(t, StoreRecord(t, w)) && Keeps(b, StoreRecord(b, w)) && Keeps(StoreRecord(t, w), StoreRecord(b, w))
  {
    hide CallSound, NoOtherLive;
  }

  lemma PatchKeeps(b: Book, w: Write)
    requires w.PatchCallRow?
    ensures Keeps(b, StoreRecord(b, w)) && Keeps(StoreRecord(b, w), b)
  {
  }

  lemma PatchBehind(t: Book, b: Book, w: Write)
    requires Keeps(t, b) && w.PatchCallRow?
    ensures Keeps(t, StoreRecord(t, w)) && Keeps(b, StoreRecord(b, w)) && Keeps(StoreRecord(t, w), StoreRecord(b, w))
  {
    PatchKeeps(t, w);
    PatchKeeps(b, w);
    hide Keeps, StoreRecord;
    KeepsTransitive(StoreRecord(t, w), t, b);
    KeepsTransitive(StoreRecord(t, w), b, StoreRecord(b, w));
  }

  lemma AnswerBehind(e: Env, t: Book, b: Book, w: Write)
    requires Keeps(t, b) && Fit(e, b, w) && !w.InsertCallRow? && !w.PatchCallRow?
    ensures Keeps(t, StoreRecord(t, w)) && Keeps(b, StoreRecord(b, w)) && Keeps(StoreRecord(t, w), StoreRecord(b, w))
  {
    hide ResponseSound, UpdateSound, ResultSound, HasResponse, Thread;
    KeepsItself(t);
    KeepsItself(b);
    hide CallsKept;
    match w
    case InsertResponseRow(r) => hide ResultsKept, UpdatesKept;
    case InsertUpdateRow(u) => hide ResultsKept, ResponsesKept;
    case _ => hide ResponsesKept, UpdatesKept;
  }

  /** The tables hold no more than the queue has said, whether or not the next write reaches them. */
  lemma BehindStaysBehind(e: Env, t: Book, b: Book, w: Write)
    requires Keeps(t, b) && Fit(e, b, w)
    ensures Keeps(t, StoreRecord(t, w)) && Keeps(b, StoreRecord(b, w)) && Keeps(StoreRecord(t, w), StoreRecord(b, w))
  {
    hide Keeps, Fit, StoreRecord;
    if w.InsertCallRow? { CallBehind(e, t, b, w.row); }
    else if w.PatchCallRow? { PatchBehind(t, b, w); }
    else { AnswerBehind(e, t, b, w); }
  }

  lemma CallRowLands(e: Env, t: Book, b: Book, row: Call)
    requires Sound(e, t) && Keeps(t, b) && Fit(e, b, InsertCallRow(row)) && Accepts(t, InsertCallRow(row))
    ensures Sound(e, StoreRecord(t, InsertCallRow(row)))
  {
    assert CallSound(e, t.calls[row.id := row], row.id);
    hide Sound, CallSound, NoOtherLive;
    forall id | id in t.calls ensures t.calls[id].lockedAt < row.lockedAt { FrozenSame(t.calls[id], b.calls[id]); }
    CallLands(e, t, row);
  }

  lemma PatchRowLands(e: Env, t: Book, b: Book, w: Write)
    requires w.PatchCallRow? && Sound(e, t) && Keeps(t, b) && Fit(e, b, w) && Accepts(t, w)
    ensures Sound(e, StoreRecord(t, w))
  {
    hide Sound, NoOtherLive;
    if w.callId in t.calls {
      forall id | id in t.calls && w.hiddenAt.None? ensures !Superseded(t.calls[w.callId], t.calls[id]) {
        FrozenSame(t.calls[id], b.calls[id]);
        FrozenSame(t.calls[w.callId], b.calls[w.callId]);
      }
      hide CallsKept;
      PatchLands(e, t, w.callId, w.hiddenAt, w.hiddenReason);
    }
  }

  /**
   * The queue position `b` is what the tables would hold had every earlier
   * write been taken. The tables `t` may lack any of those. If the constraints
   * accept the next write all the same, the tables stay sound, lose nothing,
   * and still hold no more than the queue has said.
   */
  lemma WriteLands(e: Env, t: Book, b: Book, w: Write)
    requires Sound(e, t) && Keeps(t, b) && Fit(e, b, w) && Accepts(t, w)
    ensures Sound(e, StoreRecord(t, w)) && Keeps(t, StoreRecord(t, w)) && Keeps(StoreRecord(t, w), StoreRecord(b, w))
  {
    hide Sound;
    BehindStaysBehind(e, t, b, w);
    hide CallSound, NoOtherLive;
    match w
    case InsertCallRow(row) => CallRowLands(e, t, b, row);
    case PatchCallRow(_, _, _) => PatchRowLands(e, t, b, w);
    case InsertResponseRow(r) =>
      if r.resultingCallId.Some? { FrozenSame(t.calls[r.resultingCallId.value], b.calls[r.resultingCallId.value]); }
      ResponseLands(e, t, r);
    case InsertUpdateRow(u) => UpdateLands(e, t, u);
    case UpsertResultRow(r) => ResultLands(e, t, r);
    case _ =>
  }

  /** The same with nothing lost: a fitting write is accepted and keeps the tables sound. */
  lemma FitLands(e: Env, b: Book, w: Write)
    requires Sound(e, b) && Fit(e, b, w)
    ensures Accepts(b, w) && Sound(e, StoreRecord(b, w)) && Keeps(b, StoreRecord(b, w))
  {
    FitAccepted(e, b, w);
    WriteLands(e, b, b, w);
  }
}
