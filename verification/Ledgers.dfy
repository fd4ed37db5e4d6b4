/**
 * The rules of the in-memory calls store, as functions on its contents: what
 * each mutation accepts, what it refuses with which code, and what it leaves.
 */
module Ledgers {
  import opened Vocabulary

  /** The four tables of records, keyed by id. */
  datatype Book = Book(
    calls: map<Id, Call>, responses: map<Id, Response>,
    results: map<Id, CallResult>, updates: map<Id, ThesisUpdate>)

  /** Everything the store holds. `order` is the insertion order of the calls. */
  datatype Ledger = Ledger(order: seq<Id>, book: Book, follows: set<(Id, Id)>, cursors: map<string, Option<string>>)

  const EMPTY := Ledger([], Book(map[], map[], map[], map[]), {}, map[])

  // ── reading ─────────────────────────────────────────────────────────────

  predicate LiveOn(c: Call, userId: Id, marketId: Id) { Live(c) && c.userId == userId && c.marketId == marketId }

  /** The first of `ids`, in order, that is a live call of this user on this market. */
  function FirstLive(calls: map<Id, Call>, ids: seq<Id>, userId: Id, marketId: Id): (r: Option<Id>)
    ensures r.Some? ==> r.value in ids && r.value in calls && LiveOn(calls[r.value], userId, marketId)
    ensures r.None? ==> forall id | id in ids && id in calls :: !LiveOn(calls[id], userId, marketId)
  {
    if ids == [] then None
    else if ids[0] in calls && LiveOn(calls[ids[0]], userId, marketId) then Some(ids[0])
    else FirstLive(calls, ids[1..], userId, marketId)
  }

  function LiveCallByUserOnMarket(l: Ledger, userId: Id, marketId: Id): (r: Option<Id>) {
    FirstLive(l.book.calls, l.order, userId, marketId)
  }

  predicate HasResponse(responses: map<Id, Response>, actor: Id, target: Id, kind: ResponseKind) {
    exists id | id in responses ::
      responses[id].actorUserId == actor && responses[id].targetCallId == target && responses[id].kind == kind
  }

  function Thread(updates: map<Id, ThesisUpdate>, callId: Id): set<Id> {
    set id | id in updates && updates[id].callId == callId
  }

  // ── mutations ───────────────────────────────────────────────────────────

  /** A stamped share price must be this market's, fresh at the lock, and stand alone as evidence. */
  function CheckPrice(e: Env, c: Call): (r: Result<()>)
    ensures r.Ok? <==> PriceSound(e, c)
  {
    match c.entryPrice
    case None => Ok(())
    case Some(p) =>
      if !e.wellFormedPrice(p) then Err(VENUE_SCHEMA)
      else if p.marketId != c.marketId || !UsablePrice(p, c.lockedAt) || c.entryProbability.Some? || c.snapshotId.Some?
          then Err(CALL_INVALID)
      else Ok(())
  }

  function InsertCall(e: Env, l: Ledger, rec: Call): Result<Ledger> {
    var _ :- CheckPrice(e, rec);
    if rec.id in l.book.calls then Err(CALL_INVALID)
    else if rec.hiddenAt.Some? then Err(CALL_INVALID)
    else if LiveCallByUserOnMarket(l, rec.userId, rec.marketId).Some? then Err(CALL_ALREADY_MADE)
    else if rec.parentCallId.Some? && rec.parentCallId.value !in l.book.calls then Err(CALL_NOT_FOUND)
    else if rec.parentCallId.Some? && l.book.calls[rec.parentCallId.value].marketId != rec.marketId
        then Err(CALL_PARENT_MISMATCH)
    else Ok(l.(order := l.order + [rec.id], book := l.book.(calls := l.book.calls[rec.id := rec])))
  }

  /** A requested change to a stored call: the frozen columns it names, and what it says of the two mutable ones. */
  datatype CallPatch = CallPatch(frozenColumns: set<string>, hiddenAt: Option<Option<int>>,
      hiddenReason: Option<Option<string>>)

  function SetHidden(l: Ledger, callId: Id, hiddenAt: Option<int>, hiddenReason: Option<string>): Ledger
    requires callId in l.book.calls
  {
    l.(book := l.book.(calls :=
        l.book.calls[callId := l.book.calls[callId].(hiddenAt := hiddenAt, hiddenReason := hiddenReason)]))
  }

  function AttemptCallUpdate(l: Ledger, callId: Id, patch: CallPatch): Result<Ledger> {
    if callId !in l.book.calls then Err(CALL_NOT_FOUND)
    else if patch.frozenColumns != {} then Err(CALL_IMMUTABLE)
    else
      var c := l.book.calls[callId];
      Ok(SetHidden(l, callId,
        if patch.hiddenAt.Some? then patch.hiddenAt.value else c.hiddenAt,
        if patch.hiddenReason.Some? then patch.hiddenReason.value else c.hiddenReason))
  }

  function HidePatch(at: Option<int>, reason: Option<string>): CallPatch { CallPatch({}, Some(at), Some(reason)) }

  /** Withdrawing a withdrawn call changes nothing. */
  function HideCall(l: Ledger, callId: Id, reason: Option<string>, at: int): Result<Ledger> {
    if callId !in l.book.calls then Err(CALL_NOT_FOUND)
    else if !Live(l.book.calls[callId]) then Ok(l)
    else AttemptCallUpdate(l, callId, HidePatch(Some(at), reason))
  }

  function UnhideCall(l: Ledger, callId: Id): Result<Ledger> {
    AttemptCallUpdate(l, callId, HidePatch(None, None))
  }

  /** Back and fade carry the actor's own call, on the same market, on the side the word means. */
  function CheckResulting(calls: map<Id, Call>, r: Response, target: Call): Result<()> {
    if r.kind.CHALLENGE? then (if r.resultingCallId.Some? then Err(CALL_INVALID) else Ok(()))
    else if r.resultingCallId.None? then Err(CALL_INVALID)
    else if r.resultingCallId.value !in calls then Err(CALL_NOT_FOUND)
    else
      var own := calls[r.resultingCallId.value];
      if own.userId != r.actorUserId then Err(CALL_INVALID)
      else if own.marketId != target.marketId then Err(CALL_PARENT_MISMATCH)
      else if r.kind.BACK? && own.side != target.side then Err(CALL_INVALID)
      else if r.kind.FADE? && own.side == target.side then Err(CALL_INVALID)
      else Ok(())
  }

  /** Storing under an id already in use replaces what was there. */
  function InsertResponse(l: Ledger, rec: Response): Result<Ledger> {
    if rec.targetCallId !in l.book.calls then Err(CALL_NOT_FOUND)
    else
      var target := l.book.calls[rec.targetCallId];
      if target.userId == rec.actorUserId then Err(RESPONSE_SELF)
      else if HasResponse(l.book.responses, rec.actorUserId, rec.targetCallId, rec.kind) then Err(RESPONSE_DUPLICATE)
      else
        var _ :- CheckResulting(l.book.calls, rec, target);
        Ok(l.(book := l.book.(responses := l.book.responses[rec.id := rec])))
  }

  function InsertThesisUpdate(l: Ledger, rec: ThesisUpdate): Result<Ledger> {
    if rec.callId !in l.book.calls then Err(CALL_NOT_FOUND)
    else
      var call := l.book.calls[rec.callId];
      var body := Trim(rec.body);
      if rec.authorUserId != call.userId then Err(THESIS_NOT_AUTHOR)
      else if call.hiddenAt.Some? && rec.createdAt >= call.hiddenAt.value then Err(CALL_HIDDEN)
      else if |body| == 0 || |body| > THESIS_UPDATE_MAX then Err(CALL_INVALID)
      else if rec.createdAt < call.lockedAt then Err(CALL_INVALID)
      else if rec.id in l.book.updates then Err(CALL_INVALID)
      else if |Thread(l.book.updates, rec.callId)| >= MAX_THESIS_UPDATES_PER_CALL then Err(THESIS_UPDATE_LIMIT)
      else Ok(l.(book := l.book.(updates := l.book.updates[rec.id := rec.(body := body)])))
  }

  /** The result a call gets from one piece of evidence, or from its absence. */
  function Derive(c: Call, evidence: Option<Evidence>, at: int): CallResult {
    match evidence
    case None => CallResult(c.id, PENDING, None, None, None, at)
    case Some(ev) =>
        CallResult(c.id, DeriveOutcome(c.side, Some(ev.resolution)), Some(ev.resolution), Some(ev.resolvedAt),
        Some(ev.id), at)
  }

  /**
   * What a row has to say of a call, given the evidence: the side the market went to wins,
   * the other loses, a void market decides nothing, and without evidence nothing is known;
   * and the evidence is cited.
   */
  ghost predicate Judges(evidence: Option<Evidence>, c: Call, r: CallResult) {
    && r.callId == c.id
    && (evidence.None? ==> r.outcome == PENDING && r.resolution.None? && r.resolvedAt.None?
                           && r.marketResolutionId.None?)
    && (evidence.Some? ==>
          var ev := evidence.value;
          && r.resolution == Some(ev.resolution) && r.resolvedAt == Some(ev.resolvedAt)
          && r.marketResolutionId == Some(ev.id)
          && (r.outcome == CORRECT <==>
                (ev.resolution == FOR_YES && c.side == YES) || (ev.resolution == FOR_NO && c.side == NO))
          && (r.outcome == INCORRECT <==>
                (ev.resolution == FOR_YES && c.side == NO) || (ev.resolution == FOR_NO && c.side == YES))
          && (r.outcome == VOIDED <==> ev.resolution == VOID))
  }

  /** Equal but for the instant of derivation. */
  predicate SameDerivation(a: CallResult, b: CallResult) { a.(derivedAt := 0) == b.(derivedAt := 0) }

  /** The ledger after the write, and whether anything changed. */
  function WriteResult(l: Ledger, callId: Id, evidence: Option<Evidence>, at: int,
      actor: Actor): Result<(Ledger, bool)> {
    if actor != SERVICE then Err(RESULT_SERVICE_WRITE_ONLY)
    else if callId !in l.book.calls then Err(CALL_NOT_FOUND)
    else
      var call := l.book.calls[callId];
      if evidence.Some? && evidence.value.marketId != call.marketId then Err(RESULT_DERIVATION_VIOLATION)
      else
        var next := Derive(call, evidence, at);
        if call.id in l.book.results && SameDerivation(l.book.results[call.id], next) then Ok((l, false))
        else if call.id in l.book.results && l.book.results[call.id].outcome != PENDING
            then Err(RESULT_DERIVATION_VIOLATION)
        else Ok((l.(book := l.book.(results := l.book.results[call.id := next])), true))
  }

  function FollowPerson(l: Ledger, a: Id, b: Id): Ledger {
    if a == b then l else l.(follows := l.follows + {(a, b)})
  }

  function UnfollowPerson(l: Ledger, a: Id, b: Id): Ledger { l.(follows := l.follows - {(a, b)}) }

  function SetCursor(l: Ledger, name: string, cursor: Option<string>): Ledger {
    l.(cursors := l.cursors[name := cursor])
  }

  // ── every mutation as one value ─────────────────────────────────────────

  datatype Op =
    | AddCall(rec: Call)
    | Hide(callId: Id, reason: Option<string>, at: int)
    | Unhide(callId: Id)
    | AddResponse(response: Response)
    | AddUpdate(update: ThesisUpdate)
    | SetResult(callId: Id, evidence: Option<Evidence>, at: int, actor: Actor)
    | Follow(follower: Id, followee: Id)
    | Unfollow(follower: Id, followee: Id)
    | Cursor(name: string, cursor: Option<string>)

  function Perform(e: Env, l: Ledger, op: Op): Result<Ledger> {
    match op
    case AddCall(rec) => InsertCall(e, l, rec)
    case Hide(callId, reason, at) => HideCall(l, callId, reason, at)
    case Unhide(callId) => UnhideCall(l, callId)
    case AddResponse(r) => InsertResponse(l, r)
    case AddUpdate(u) => InsertThesisUpdate(l, u)
    case SetResult(callId, ev, at, actor) => var r :- WriteResult(l, callId, ev, at, actor); Ok(r.0)
    case Follow(a, b) => Ok(FollowPerson(l, a, b))
    case Unfollow(a, b) => Ok(UnfollowPerson(l, a, b))
    case Cursor(name, c) => Ok(SetCursor(l, name, c))
  }

  /** A run of mutations, refused as soon as one is. */
  function PerformAll(e: Env, l: Ledger, ops: seq<Op>): Result<Ledger> {
    if ops == [] then Ok(l)
    else
      var before :- PerformAll(e, l, ops[..|ops| - 1]);
      Perform(e, before, ops[|ops| - 1])
  }

  lemma PerformLast(e: Env, l: Ledger, ops: seq<Op>, op: Op)
    ensures PerformAll(e, l, ops + [op]) == var before := PerformAll(e, l, ops);
        if before.Err? then before else Perform(e, before.value, op)
  {
    hide Perform;
    assert (ops + [op])[..|ops|] == ops;
  }

  // ── what a book must satisfy ────────────────────────────────────────────

  ghost predicate PriceSound(e: Env, c: Call) {
    c.entryPrice.Some? ==>
      var p := c.entryPrice.value;
      e.wellFormedPrice(p) && p.marketId == c.marketId && UsablePrice(p, c.lockedAt) && c.entryProbability.None?
          && c.snapshotId.None?
  }

  ghost predicate CallSound(e: Env, calls: map<Id, Call>, id: Id)
    requires id in calls
  {
    var c := calls[id];
    && c.id == id
    && PriceSound(e, c)
    && (Live(c) ==> c.hiddenReason.None?)
    && (c.parentCallId.Some? ==> c.parentCallId.value in calls && calls[c.parentCallId.value].marketId == c.marketId)
  }

  ghost predicate OneLive(calls: map<Id, Call>) {
    forall a, b | a in calls && b in calls && a != b && calls[a].userId == calls[b].userId && calls[a].marketId
        == calls[b].marketId ::
      !(Live(calls[a]) && Live(calls[b]))
  }

  predicate ResponseSound(calls: map<Id, Call>, r: Response) {
    && r.targetCallId in calls
    && calls[r.targetCallId].userId != r.actorUserId
    && (r.kind.CHALLENGE? <==> r.resultingCallId.None?)
    && (r.resultingCallId.Some? ==>
          r.resultingCallId.value in calls &&
          var own, target := calls[r.resultingCallId.value], calls[r.targetCallId];
          own.userId == r.actorUserId && own.marketId == target.marketId && (r.kind.BACK? <==> own.side == target.side))
  }

  ghost predicate ResponsesDistinct(responses: map<Id, Response>) {
    forall a, b | a in responses && b in responses && a != b ::
      !(responses[a].actorUserId == responses[b].actorUserId && responses[a].targetCallId == responses[b].targetCallId
          && responses[a].kind == responses[b].kind)
  }

  /** The outcome is what the derivation rule makes of the evidence the row cites, or PENDING with none cited. */
  predicate ResultSound(calls: map<Id, Call>, r: CallResult) {
    && r.callId in calls
    && (r.outcome == PENDING <==> r.resolution.None?)
    && (r.resolution.None? <==> r.resolvedAt.None?)
    && (r.resolution.None? <==> r.marketResolutionId.None?)
    && r.outcome == DeriveOutcome(calls[r.callId].side, r.resolution)
  }

  predicate UpdateSound(calls: map<Id, Call>, u: ThesisUpdate) {
    && u.callId in calls
    && u.authorUserId == calls[u.callId].userId
    && u.createdAt >= calls[u.callId].lockedAt
    && Trim(u.body) == u.body && 0 < |u.body| <= THESIS_UPDATE_MAX
  }

  ghost predicate CallsSound(e: Env, calls: map<Id, Call>) { forall id | id in calls :: CallSound(e, calls, id) }

  ghost predicate ResponsesSound(calls: map<Id, Call>, responses: map<Id, Response>) {
    && (forall id | id in responses :: responses[id].id == id && ResponseSound(calls, responses[id]))
    && ResponsesDistinct(responses)
  }

  ghost predicate ResultsSound(calls: map<Id, Call>, results: map<Id, CallResult>) {
    forall id | id in results :: results[id].callId == id && ResultSound(calls, results[id])
  }

  ghost predicate ThreadsSound(calls: map<Id, Call>, updates: map<Id, ThesisUpdate>) {
    && (forall id | id in updates :: updates[id].id == id && UpdateSound(calls, updates[id]))
    && (forall callId | callId in calls :: |Thread(updates, callId)| <= MAX_THESIS_UPDATES_PER_CALL)
  }

  /** The ledger invariant, on the records. */
  ghost predicate Core(e: Env, b: Book) {
    CallsSound(e, b.calls) && OneLive(b.calls) && ResponsesSound(b.calls, b.responses)
    && ResultsSound(b.calls, b.results) && ThreadsSound(b.calls, b.updates)
  }

  /** `order` lists exactly the calls, each once. */
  ghost predicate Listed(l: Ledger) {
    && (forall id :: id in l.order <==> id in l.book.calls)
    && (forall i, j | 0 <= i < j < |l.order| :: l.order[i] != l.order[j])
  }

  ghost predicate Inv(e: Env, l: Ledger) { Listed(l) && Core(e, l.book) }

  /** Every call is still there, and only its two mutable columns may have moved. */
  ghost predicate CallsKept(calls: map<Id, Call>, calls': map<Id, Call>) {
    forall id | id in calls :: id in calls' && Frozen(calls'[id]) == Frozen(calls[id])
  }

  ghost predicate ResponsesKept(responses: map<Id, Response>, responses': map<Id, Response>) {
    forall id | id in responses :: id in responses' && responses'[id] == responses[id]
  }

  ghost predicate UpdatesKept(updates: map<Id, ThesisUpdate>, updates': map<Id, ThesisUpdate>) {
    forall id | id in updates :: id in updates' && updates'[id] == updates[id]
  }

  /** A settled result is permanent. */
  ghost predicate ResultsKept(results: map<Id, CallResult>, results': map<Id, CallResult>) {
    forall id | id in results :: id in results' && (results[id].outcome != PENDING ==> results'[id] == results[id])
  }

  /** What later history may never do to what a book already says. */
  ghost predicate Keeps(b: Book, b': Book) {
    && CallsKept(b.calls, b'.calls) && ResponsesKept(b.responses, b'.responses)
    && UpdatesKept(b.updates, b'.updates) && ResultsKept(b.results, b'.results)
  }

  lemma KeepsItself(b: Book)
    ensures Keeps(b, b)
  {
  }

  lemma KeepsTransitive(a: Book, b: Book, c: Book)
    requires Keeps(a, b) && Keeps(b, c)
    ensures Keeps(a, c)
  {
  }

  // ── every mutation keeps the invariant ──────────────────────────────────

  /** What is said about kept calls stays true of them. */
  lemma ReferencesKept(calls: map<Id, Call>, calls': map<Id, Call>, b: Book)
    requires CallsKept(calls, calls')
    ensures ResponsesSound(calls, b.responses) ==> ResponsesSound(calls', b.responses)
    ensures ResultsSound(calls, b.results) ==> ResultsSound(calls', b.results)
    ensures forall u | UpdateSound(calls, u) :: UpdateSound(calls', u)
  {
    forall r | ResponseSound(calls, r) ensures ResponseSound(calls', r) {
      FrozenSame(calls[r.targetCallId], calls'[r.targetCallId]);
      if r.resultingCallId.Some? {
        FrozenSame(calls[r.resultingCallId.value], calls'[r.resultingCallId.value]);
      }
    }
    forall r | ResultSound(calls, r) ensures ResultSound(calls', r) { FrozenSame(calls[r.callId], calls'[r.callId]); }
    forall u | UpdateSound(calls, u) ensures UpdateSound(calls', u) { FrozenSame(calls[u.callId], calls'[u.callId]); }
  }

  lemma FrozenSame(a: Call, b: Call)
    requires Frozen(a) == Frozen(b)
    ensures a == b.(hiddenAt := a.hiddenAt, hiddenReason := a.hiddenReason)
  {
    assert Frozen(a).id == a.id && Frozen(b).id == b.id;
  }

  lemma ThreadGrows(updates: map<Id, ThesisUpdate>, u: ThesisUpdate, callId: Id)
    requires u.id !in updates
    ensures Thread(updates[u.id := u], callId) == Thread(updates, callId) + (if u.callId == callId then {u.id} else {})
  {
  }

  lemma CallsStaySound(e: Env, calls: map<Id, Call>, c: Call)
    requires CallsSound(e, calls) && (c.id in calls ==> Frozen(calls[c.id]) == Frozen(c))
    requires CallSound(e, calls[c.id := c], c.id)
    ensures CallsSound(e, calls[c.id := c])
  {
    var calls' := calls[c.id := c];
    forall id | id in calls' ensures CallSound(e, calls', id) {
      if id != c.id {
        assert CallSound(e, calls, id);
        if c.id in calls { FrozenSame(calls[c.id], c); }
      }
    }
  }

  lemma ThreadsFollow(calls: map<Id, Call>, calls': map<Id, Call>, b: Book)
    requires ThreadsSound(calls, b.updates) && CallsKept(calls, calls')
    ensures ThreadsSound(calls', b.updates)
  {
    ReferencesKept(calls, calls', b);
    forall callId | callId in calls' ensures |Thread(b.updates, callId)| <= MAX_THESIS_UPDATES_PER_CALL {
      if callId !in calls {
        assert forall id | id in b.updates :: UpdateSound(calls, b.updates[id]);
        assert Thread(b.updates, callId) == {};
      }
    }
  }

  /**
   * A call joins the table, or one already there is hidden or shown: whatever was said
   * about the calls still stands.
   */
  lemma CallStored(e: Env, b: Book, c: Call)
    requires Core(e, b) && (c.id in b.calls ==> Frozen(b.calls[c.id]) == Frozen(c))
    requires CallSound(e, b.calls[c.id := c], c.id)
    requires Live(c) ==> forall id | id in b.calls && id != c.id :: !LiveOn(b.calls[id], c.userId, c.marketId)
    ensures var b' := b.(calls := b.calls[c.id := c]); Core(e, b') && Keeps(b, b')
  {
    var calls' := b.calls[c.id := c];
    CallsStaySound(e, b.calls, c);
    assert OneLive(calls') by { hide CallSound; if c.id in b.calls { FrozenSame(b.calls[c.id], c); } }
    hide CallSound, OneLive, UpdateSound;
    ReferencesKept(b.calls, calls', b);
    ThreadsFollow(b.calls, calls', b);
  }

  lemma ResponseJoins(b: Book, rec: Response)
    requires ResponsesSound(b.calls, b.responses) && rec.id !in b.responses
    requires ResponseSound(b.calls, rec) && !HasResponse(b.responses, rec.actorUserId, rec.targetCallId, rec.kind)
    ensures ResponsesSound(b.calls, b.responses[rec.id := rec])
  {
  }

  lemma UpdateJoins(b: Book, u: ThesisUpdate)
    requires ThreadsSound(b.calls, b.updates) && u.id !in b.updates
    requires UpdateSound(b.calls, u) && |Thread(b.updates, u.callId)| < MAX_THESIS_UPDATES_PER_CALL
    ensures ThreadsSound(b.calls, b.updates[u.id := u])
  {
    forall id | id in b.calls ensures |Thread(b.updates[u.id := u], id)| <= MAX_THESIS_UPDATES_PER_CALL {
      ThreadGrows(b.updates, u, id);
    }
  }

  lemma DeriveSound(calls: map<Id, Call>, c: Call, ev: Option<Evidence>, at: int)
    requires c.id in calls && calls[c.id] == c
    ensures ResultSound(calls, Derive(c, ev, at))
  {
  }

  /** A result is written where there was none, or over a pending one. */
  lemma ResultJoins(b: Book, r: CallResult)
    requires ResultsSound(b.calls, b.results) && ResultSound(b.calls, r)
    requires r.callId in b.results ==> b.results[r.callId].outcome == PENDING
    ensures ResultsSound(b.calls, b.results[r.callId := r]) && Keeps(b, b.(results := b.results[r.callId := r]))
  {
  }

  lemma AddCallKeeps(e: Env, l: Ledger, rec: Call)
    requires Inv(e, l) && rec.hiddenReason.None? && InsertCall(e, l, rec).Ok?
    ensures var l' := InsertCall(e, l, rec).value; Inv(e, l') && Keeps(l.book, l'.book)
  {
    hide OneLive, ResponsesSound, ThreadsSound, ResultsSound, CallsSound;
    CallStored(e, l.book, rec);
  }

  lemma SetHiddenKeeps(e: Env, l: Ledger, callId: Id, at: Option<int>, reason: Option<string>)
    requires Inv(e, l) && callId in l.book.calls
    requires at.None? ==>
        reason.None? && LiveCallByUserOnMarket(l, l.book.calls[callId].userId, l.book.calls[callId].marketId).None?
    ensures var l' := SetHidden(l, callId, at, reason); Inv(e, l') && Keeps(l.book, l'.book)
  {
    hide OneLive, ResponsesSound, ThreadsSound, ResultsSound;
    assert CallSound(e, l.book.calls, callId);
    CallStored(e, l.book, l.book.calls[callId].(hiddenAt := at, hiddenReason := reason));
  }

  lemma AddResponseKeeps(e: Env, l: Ledger, r: Response)
    requires Inv(e, l) && r.id !in l.book.responses && InsertResponse(l, r).Ok?
    ensures var l' := InsertResponse(l, r).value; Inv(e, l') && Keeps(l.book, l'.book)
  {
    hide CallsSound, OneLive, ResponsesSound, ResultsSound, ThreadsSound;
    ResponseJoins(l.book, r);
  }

  lemma AddUpdateKeeps(e: Env, l: Ledger, u: ThesisUpdate)
    requires Inv(e, l) && InsertThesisUpdate(l, u).Ok?
    ensures var l' := InsertThesisUpdate(l, u).value; Inv(e, l') && Keeps(l.book, l'.book)
  {
    hide CallsSound, OneLive, ResponsesSound, ResultsSound, ThreadsSound;
    TrimTwice(u.body);
    UpdateJoins(l.book, u.(body := Trim(u.body)));
  }

  lemma SetResultKeeps(e: Env, l: Ledger, callId: Id, ev: Option<Evidence>, at: int, actor: Actor)
    requires Inv(e, l) && WriteResult(l, callId, ev, at, actor).Ok?
    ensures var l' := WriteResult(l, callId, ev, at, actor).value.0; Inv(e, l') && Keeps(l.book, l'.book)
  {
    hide OneLive, ResponsesSound, ThreadsSound, ResultSound;
    var call := l.book.calls[callId];
    assert call.id == callId by { assert CallSound(e, l.book.calls, callId); }
    var next := Derive(call, ev, at);
    var l' := WriteResult(l, callId, ev, at, actor).value.0;
    if l' != l {
      DeriveSound(l.book.calls, call, ev, at);
      ResultJoins(l.book, next);
    }
  }

  /**
   * A mutation whose ids are new and which shows no call beside another live one: what
   * the service and fresh UUIDs give.
   */
  ghost predicate Proper(l: Ledger, op: Op) {
    match op
    case AddCall(rec) => rec.hiddenReason.None?
    case Unhide(callId) => callId in l.book.calls ==>
      LiveCallByUserOnMarket(l, l.book.calls[callId].userId, l.book.calls[callId].marketId).None?
    case AddResponse(r) => r.id !in l.book.responses
    case _ => true
  }

  /**
   * Whatever mutation is accepted, the invariant holds after it, nothing
   * recorded is lost, no immutable column moves and no settled result changes.
   */
  lemma PerformKeeps(e: Env, l: Ledger, op: Op)
    requires Inv(e, l) && Proper(l, op) && Perform(e, l, op).Ok?
    ensures var l' := Perform(e, l, op).value; Inv(e, l') && Keeps(l.book, l'.book)
  {
    hide Core;
    match op
    case AddCall(rec) => AddCallKeeps(e, l, rec);
    case Hide(callId, reason, at) =>
      if Live(l.book.calls[callId]) { SetHiddenKeeps(e, l, callId, Some(at), reason); }
    case Unhide(callId) => SetHiddenKeeps(e, l, callId, None, None);
    case AddResponse(r) => AddResponseKeeps(e, l, r);
    case AddUpdate(u) => AddUpdateKeeps(e, l, u);
    case SetResult(callId, ev, at, actor) => SetResultKeeps(e, l, callId, ev, at, actor);
    case Follow(_, _) =>
    case Unfollow(_, _) =>
    case Cursor(_, _) =>
  }
}
