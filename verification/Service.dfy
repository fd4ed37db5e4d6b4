/**
 * The writing half of the calls service: making a call, answering one, and the
 * life of a money call (planned, locked, published, withdrawn, kept free,
 * restored). The main results are the exact condition under which "keep it
 * free" and an answer are all-or-nothing, that publishing is never refused and
 * done once, and that every operation keeps the ledger invariant.
 */
module Service {
  import opened Vocabulary
  import opened Ledgers
  import opened CallsStores
  import opened Markets

  datatype Snapshot = Snapshot(handle: string, yesProbability: real)

  /**
   * Everything the service reads beside the store, at one instant. `cutoff` is how long
   * before its close a market stops taking calls.
   */
  datatype Desk = Desk(
    env: Env, now: int, markets: map<Id, Market>, venue: Venue, snapshots: map<Id, Snapshot>,
        prices: map<Id, SharePrice>,
    cutoff: nat, allowPanta: bool, isPrivate: Id -> bool)

  /** The readers answer about what they were asked. */
  ghost predicate DeskSound(d: Desk) {
    && (forall m | m in d.markets :: d.markets[m].id == m)
    && (forall m | m in d.venue :: d.venue[m].marketId == m)
    && (forall m | m in d.prices :: d.prices[m].marketId == m && d.env.wellFormedPrice(d.prices[m]))
  }

  datatype Statement = Statement(confidence: Option<real>, thesis: Option<string>, visibility: Visibility)

  /** A new call, or the call a back or fade of `targetCallId` makes. */
  datatype FundedInput = Own(marketId: Id, side: Side) | Answer(back: bool, targetCallId: Id)

  /** `kind` is None for a call of one's own. */
  datatype FundedPlan = FundedPlan(kind: Option<ResponseKind>, marketId: Id, side: Side, targetCallId: Option<Id>)

  // ── what the service checks ─────────────────────────────────────────────

  function RequireMarket(d: Desk, marketId: Id): Result<Market> {
    if marketId in d.markets then Ok(d.markets[marketId]) else Err(CALL_MARKET_UNKNOWN)
  }

  /** The venue is current, and its calls are switched on. */
  function VenueOpen(d: Desk, m: Market): Result<()> {
    if m.venue != PANTA && m.venue != FIXTURE then Err(CALL_INVALID)
    else if m.venue == PANTA && !d.allowPanta then Err(CALL_INVALID)
    else Ok(())
  }

  function BeforeCutoff(d: Desk, m: Market): Result<()> {
    var closeAt := CallsCloseAt(m, d.cutoff);
    if d.cutoff > 0 && m.status == OPEN && m.closesAt.Some? && m.closesAt.value > d.now && closeAt.value <= d.now
    then Err(CALL_MARKET_CLOSED) else Ok(())
  }

  /** The market still takes calls: its window is open and the venue has published no result. */
  function WindowOpen(d: Desk, m: Market): (r: Result<()>)
    ensures r.Ok? <==> AcceptsNewCalls(m, d.now, d.cutoff) && GetResolution(d.venue, m.id).None?
  {
    var _ :- BeforeCutoff(d, m);
    if !AcceptsNewCalls(m, d.now, d.cutoff) || GetResolution(d.venue, m.id).Some? then Err(CALL_MARKET_CLOSED)
        else Ok(())
  }

  /** public -> anyone; followers -> the author or a follower; hidden or private -> the author. */
  predicate CanSee(isPrivate: Id -> bool, follows: set<(Id, Id)>, c: Call, viewer: Option<Id>) {
    || Some(c.userId) == viewer
    || (c.hiddenAt.None? && !isPrivate(c.id)
        && (c.visibility == PUBLIC || (viewer.Some? && (viewer.value, c.userId) in follows)))
  }

  function RequireVisibleCall(d: Desk, l: Ledger, callId: Id, viewer: Id): Result<Call> {
    if callId !in l.book.calls then Err(CALL_NOT_FOUND)
    else if !CanSee(d.isPrivate, l.follows, l.book.calls[callId], Some(viewer)) then Err(CALL_NOT_VISIBLE)
    else Ok(l.book.calls[callId])
  }

  /** `replacing`: the actor's own pending call that the new one replaces. */
  function NoLiveCall(l: Ledger, actor: Id, marketId: Id, replacing: Option<Id>): Result<()> {
    var existing := LiveCallByUserOnMarket(l, actor, marketId);
    if existing.Some? && existing != replacing then Err(CALL_ALREADY_MADE) else Ok(())
  }

  function KindOf(back: bool): ResponseKind { if back then BACK else FADE }

  function ValidateFundedCall(d: Desk, l: Ledger, input: FundedInput, actor: Id,
      replacing: Option<Id>): Result<FundedPlan> {
    match input
    case Own(marketId, side) =>
      var m :- RequireMarket(d, marketId);
      var _ :- VenueOpen(d, m);
      var _ :- WindowOpen(d, m);
      var _ :- NoLiveCall(l, actor, m.id, replacing);
      Ok(FundedPlan(None, m.id, side, None))
    case Answer(back, targetCallId) =>
      var target :- RequireVisibleCall(d, l, targetCallId, actor);
      if target.userId == actor then Err(RESPONSE_SELF)
      else if d.isPrivate(target.id) then Err(CALL_NOT_VISIBLE)
      else
        var m :- RequireMarket(d, target.marketId);
        var _ :- VenueOpen(d, m);
        var _ :- WindowOpen(d, m);
        if HasResponse(l.book.responses, actor, target.id, KindOf(back)) then Err(RESPONSE_DUPLICATE)
        else
          var _ :- NoLiveCall(l, actor, m.id, replacing);
          Ok(FundedPlan(Some(KindOf(back)), m.id, SideOf(back, target), Some(target.id)))
  }

  function TrimOrNull(s: Option<string>): Result<Option<string>> {
    if s.None? then Ok(None)
    else
      var t := Trim(s.value);
      if t == "" then Ok(None) else if |t| > THESIS_MAX then Err(CALL_INVALID) else Ok(Some(t))
  }

  /**
   * What is written is kept without the white space around it; nothing but white space is
   * nothing written; and what is longer than a thesis may be is refused.
   */
  lemma WrittenIsTrimmed(s: string)
    ensures AllSpace(s) ==> TrimOrNull(Some(s)) == Ok(None)
    ensures !AllSpace(s) ==>
              exists i, j :: 0 <= i < j <= |s| && AllSpace(s[..i]) && AllSpace(s[j..])
                             && !IsSpace(s[i]) && !IsSpace(s[j - 1])
                             && TrimOrNull(Some(s)) == if j - i > 280 then Err(CALL_INVALID) else Ok(Some(s[i..j]))
  {
    TrimTakesTheEnds(s);
    hide Trim, AllSpace, IsSpace;
    var i, j :| 0 <= i <= j <= |s| && Trim(s) == s[i..j] && AllSpace(s[..i]) && AllSpace(s[j..]);
    if i == j { BothHalves(s, i); } else { NotAllSpace(s, i); }
  }

  lemma BothHalves(s: string, i: nat)
    requires i <= |s| && AllSpace(s[..i]) && AllSpace(s[i..])
    ensures AllSpace(s)
  {
    assert s == s[..i] + s[i..];
  }

  lemma NotAllSpace(s: string, i: nat)
    requires i < |s| && !IsSpace(s[i])
    ensures !AllSpace(s)
  {
  }

  // ── locking a call ──────────────────────────────────────────────────────

  /** A price a new call can be stamped with right now. */
  predicate PriceReadable(d: Desk, m: Market) {
    m.venue == PANTA ==> m.id in d.prices && UsablePrice(d.prices[m.id], d.now)
  }

  predicate StatementFits(s: Statement) {
    && (s.confidence.Some? ==> 0.0 <= s.confidence.value <= 1.0)
    && (s.thesis.Some? ==> |s.thesis.value| <= THESIS_MAX)
  }

  /** The record a lock stores: price and instant are the server's own. */
  function NewCall(d: Desk, id: Id, actor: Id, m: Market, side: Side, s: Statement, parent: Option<Id>): Call {
    var price := if m.venue == PANTA && m.id in d.prices then Some(d.prices[m.id]) else None;
    var snapshot := if m.venue != PANTA && m.id in d.snapshots then Some(d.snapshots[m.id]) else None;
    Call(id, actor, m.id, side, s.confidence, s.thesis,
         if snapshot.Some? then Some(snapshot.value.yesProbability) else None,
         if snapshot.Some? then Some(snapshot.value.handle) else None,
         price, s.visibility, d.now, d.now, parent, NONE, None, None)
  }

  /**
   * The ledger once a call is locked: the call, and the result its market's evidence,
   * or the absence of any, derives.
   */
  function Locked(d: Desk, l: Ledger, c: Call): Ledger {
    l.(order := l.order + [c.id],
       book := l.book.(calls := l.book.calls[c.id := c],
                       results := l.book.results[c.id := Derive(c, GetResolution(d.venue, c.marketId), d.now)]))
  }

  predicate ParentFits(l: Ledger, parent: Option<Id>, marketId: Id) {
    parent.Some? ==> parent.value in l.book.calls && l.book.calls[parent.value].marketId == marketId
  }

  /** Nothing but a missing price or an unfit statement stops a call the store has room for. */
  predicate CanLock(d: Desk, l: Ledger, id: Id, actor: Id, m: Market, s: Statement, parent: Option<Id>) {
    && StatementFits(s) && PriceReadable(d, m)
    && id !in l.book.calls && LiveCallByUserOnMarket(l, actor, m.id).None? && ParentFits(l, parent, m.id)
  }

  lemma LockInserts(d: Desk, l: Ledger, id: Id, actor: Id, m: Market, side: Side, s: Statement, parent: Option<Id>)
    requires DeskSound(d) && StatementFits(s) && PriceReadable(d, m)
    ensures InsertCall(d.env, l, NewCall(d, id, actor, m, side, s, parent)).Ok? <==>
        CanLock(d, l, id, actor, m, s, parent)
  {
  }

  lemma LockWrites(d: Desk, l: Ledger, c: Call)
    requires DeskSound(d) && Inv(d.env, l) && InsertCall(d.env, l, c).Ok?
    ensures var inserted := l.(order := l.order + [c.id], book := l.book.(calls := l.book.calls[c.id := c]));
            && InsertCall(d.env, l, c) == Ok(inserted)
            && WriteResult(inserted, c.id, GetResolution(d.venue, c.marketId), d.now, SERVICE)
                == Ok((Locked(d, l, c), true))
  {
    NoResultYet(d.env, l, c.id);
    hide Core, Listed, CheckPrice, FirstLive;
  }

  lemma LockKeeps(d: Desk, l: Ledger, c: Call)
    requires DeskSound(d) && Inv(d.env, l) && InsertCall(d.env, l, c).Ok? && c.hiddenReason.None?
    ensures Inv(d.env, Locked(d, l, c)) && Keeps(l.book, Locked(d, l, c).book)
  {
    LockWrites(d, l, c);
    hide Core, Listed, Locked, Keeps, Ledgers.WriteResult;
    var inserted := InsertCall(d.env, l, c).value;
    AddCallKeeps(d.env, l, c);
    SetResultKeeps(d.env, inserted, c.id, GetResolution(d.venue, c.marketId), d.now, SERVICE);
    KeepsTransitive(l.book, inserted.book, Locked(d, l, c).book);
  }

  lemma NoResultYet(e: Env, l: Ledger, id: Id)
    requires Inv(e, l) && id !in l.book.calls
    ensures id !in l.book.results
  {
    assert forall k | k in l.book.results :: ResultSound(l.book.calls, l.book.results[k]);
  }

  function StatementOf(c: Call): Statement { Statement(c.confidence, c.thesis, c.visibility) }

  /** Every stored call makes a statement that fits: `LockCall` alone creates calls, and checks. */
  ghost predicate Stated(l: Ledger) { forall id | id in l.book.calls :: StatementFits(StatementOf(l.book.calls[id])) }

  lemma LockedStated(d: Desk, l: Ledger, c: Call)
    requires Stated(l) && StatementFits(StatementOf(c))
    ensures Stated(Locked(d, l, c))
  {
    hide StatementFits;
  }

  /** No other mutation of the ledger touches a statement. */
  lemma StatedLasts(e: Env, l: Ledger, op: Op)
    requires Stated(l) && Perform(e, l, op).Ok? && (op.AddCall? ==> StatementFits(StatementOf(op.rec)))
    ensures Stated(Perform(e, l, op).value)
  {
    hide StatementFits, CheckPrice, FirstLive, CheckResulting, Derive;
  }

  /**
   * Stamped by the server and nobody else: the instant, free and live; on Panta the market's
   * own price, both sides known and read at most ten minutes before; elsewhere the latest
   * snapshot, if there is one.
   */
  ghost predicate Stamped(d: Desk, m: Market, c: Call) {
    && c.createdAt == d.now && c.lockedAt == d.now
    && c.fundingState == NONE && c.hiddenAt.None? && c.hiddenReason.None?
    && (if m.venue == PANTA then
          && c.entryPrice.Some? && c.entryProbability.None? && c.snapshotId.None?
          && var p := c.entryPrice.value;
             p.marketId == m.id && p.yesPrice.Some? && p.noPrice.Some?
             && p.observedAt <= d.now <= p.observedAt + 600_000
        else
          && c.entryPrice.None?
          && (if m.id in d.snapshots then
                c.snapshotId == Some(d.snapshots[m.id].handle)
                && c.entryProbability == Some(d.snapshots[m.id].yesProbability)
              else c.snapshotId.None? && c.entryProbability.None?))
  }

  /** The call says what was asked, of whom and of what. */
  ghost predicate MadeAsAsked(c: Call, id: Id, actor: Id, m: Market, side: Side, s: Statement, parent: Option<Id>) {
    && c.id == id && c.userId == actor && c.marketId == m.id && c.side == side && c.parentCallId == parent
    && c.confidence == s.confidence && c.thesis == s.thesis && c.visibility == s.visibility
  }

  lemma NewCallSays(d: Desk, id: Id, actor: Id, m: Market, side: Side, s: Statement, parent: Option<Id>)
    requires DeskSound(d) && PriceReadable(d, m)
    ensures var c := NewCall(d, id, actor, m, side, s, parent);
            MadeAsAsked(c, id, actor, m, side, s, parent) && Stamped(d, m, c)
  {
  }

  class CallsService {
    const store: InMemoryCallsStore

    constructor (store: InMemoryCallsStore)
      ensures this.store == store
    {
      this.store := store;
    }

    /** The one place a call is created. */
    method LockCall(d: Desk, id: Id, actor: Id, m: Market, side: Side, s: Statement, parent: Option<Id>)
        returns (r: Result<Call>)
      requires DeskSound(d) && Inv(d.env, store.Contents())
      modifies store
      ensures Inv(d.env, store.Contents()) && Keeps(old(store.Contents()).book, store.Contents().book)
      ensures Stated(old(store.Contents())) ==> Stated(store.Contents())
      ensures r.Ok? <==> CanLock(d, old(store.Contents()), id, actor, m, s, parent)
      ensures r.Ok? ==>
          r.value == NewCall(d, id, actor, m, side, s, parent)
          && store.Contents() == Locked(d, old(store.Contents()), r.value)
      ensures r.Ok? ==> MadeAsAsked(r.value, id, actor, m, side, s, parent) && Stamped(d, m, r.value)
      ensures r.Err? ==> store.Contents() == old(store.Contents())
    {
      hide Stated;
      ghost var l := store.Contents();
      KeepsItself(l.book);
      if s.confidence.Some? && !(0.0 <= s.confidence.value <= 1.0) { return Err(CALL_INVALID); }
      if s.thesis.Some? && |s.thesis.value| > THESIS_MAX { return Err(CALL_INVALID); }
      var entryPrice := if m.venue == PANTA && m.id in d.prices then Some(d.prices[m.id]) else None;
      if m.venue == PANTA && !(entryPrice.Some? && UsablePrice(entryPrice.value, d.now)) { return Err(CALL_INVALID); }
      LockInserts(d, l, id, actor, m, side, s, parent);
      NewCallSays(d, id, actor, m, side, s, parent);
      hide CanLock, Inv, Keeps, UsablePrice, Locked, CheckPrice, MadeAsAsked, Stamped;
      var call :- store.InsertCall(d.env, NewCall(d, id, actor, m, side, s, parent));
      LockKeeps(d, l, call);
      LockWrites(d, l, call);
      if Stated(l) { LockedStated(d, l, call); }
      var written := store.WriteResult(call.id, GetResolution(d.venue, call.marketId), d.now, SERVICE);
      r := Ok(call);
    }

    // ── making a call ───────────────────────────────────────────────────

    /** A new call of one's own; refused with nothing changed, or made. */
    method CreateCall(d: Desk, id: Id, marketId: Id, side: Side, s: Statement, parent: Option<Id>, actor: Id)
        returns (r: Result<Call>)
      requires DeskSound(d) && Inv(d.env, store.Contents())
      modifies store
      ensures Inv(d.env, store.Contents()) && Keeps(old(store.Contents()).book, store.Contents().book)
      ensures Stated(old(store.Contents())) ==> Stated(store.Contents())
      ensures r.Ok? <==>
          MarketOpen(d, marketId) && CanLock(d, old(store.Contents()), id, actor, d.markets[marketId], s, parent)
      ensures r.Ok? <==> MayCall(d, old(store.Contents()), id, marketId, s, parent, actor)
      ensures r.Ok? ==> r.value == NewCall(d, id, actor, d.markets[marketId], side, s, parent)
                        && store.Contents() == Locked(d, old(store.Contents()), r.value)
      ensures r.Ok? ==> MadeAsAsked(r.value, id, actor, d.markets[marketId], side, s, parent)
                        && Stamped(d, d.markets[marketId], r.value)
      ensures r.Err? ==> store.Contents() == old(store.Contents())
      ensures marketId !in d.markets ==> r == Err(CALL_MARKET_UNKNOWN)
      ensures marketId in d.markets && VenueOn(d, d.markets[marketId]) && !TakesCalls(d, d.markets[marketId]) ==>
          r == Err(CALL_MARKET_CLOSED)
    {
      KeepsItself(store.Contents().book);
      MayCallIff(d, store.Contents(), id, marketId, s, parent, actor);
      MarketOpenIff(d, marketId);
      hide Inv, Keeps, CanLock, NewCall, Locked, WindowOpen, MadeAsAsked, Stamped, MayCall;
      var m :- RequireMarket(d, marketId);
      var _ :- VenueOpen(d, m);
      var _ :- WindowOpen(d, m);
      r := LockCall(d, id, actor, m, side, s, parent);
    }

    // ── answering a call ────────────────────────────────────────────────

    /** Back and fade make the actor's own call and record the answer it gives. */
    method AnswerWithCall(d: Desk, target: Call, m: Market, back: bool, s: Statement, actor: Id, callId: Id,
        responseId: Id)
      returns (r: Result<(Response, Call)>)
      requires DeskSound(d) && Inv(d.env, store.Contents()) && responseId !in store.responses
      requires target.id in store.calls && store.calls[target.id] == target && target.userId != actor
          && m.id == target.marketId
      modifies store
      ensures Inv(d.env, store.Contents()) && Keeps(old(store.Contents()).book, store.Contents().book)
      ensures Stated(old(store.Contents())) ==> Stated(store.Contents())
      ensures var l := old(store.Contents());
              var allowed := WindowOpen(d, m).Ok? && TrimOrNull(s.thesis).Ok?
                             && CanLock(d, l, callId, actor, m, s.(thesis := TrimOrNull(s.thesis).value),
                                 Some(target.id));
              var answered := HasResponse(l.book.responses, actor, target.id, KindOf(back));
              && (r.Ok? <==> allowed && !answered)
              && (allowed ==>
                    var own := NewCall(d, callId, actor, m, SideOf(back, target),
                        s.(thesis := TrimOrNull(s.thesis).value), Some(target.id));
                    var response := Response(responseId, actor, target.id, KindOf(back), Some(callId), None, d.now);
                    if answered then r == Err(RESPONSE_DUPLICATE) && store.Contents() == Locked(d, l, own)
                    else r == Ok((response, own)) && store.Contents() == Recorded(Locked(d, l, own), response))
              && (!allowed ==> store.Contents() == l)
    {
      ghost var l := store.Contents();
      KeepsItself(l.book);
      hide Inv, Keeps, CanLock, WindowOpen, Trim;
      var _ :- WindowOpen(d, m);
      var thesis :- TrimOrNull(s.thesis);
      hide TrimOrNull;
      var own :- LockCall(d, callId, actor, m, SideOf(back, target), s.(thesis := thesis), Some(target.id));
      ghost var locked := store.Contents();
      var response := Response(responseId, actor, target.id, KindOf(back), Some(own.id), None, d.now);
      AnswerStores(d, l, own, target, back, response);
      var stored := store.InsertResponse(response);
      if stored.Err? { return Err(stored.code); }
      AddResponseKeeps(d.env, locked, response);
      KeepsTransitive(l.book, locked.book, store.Contents().book);
      r := Ok((response, own));
    }

    /** A challenge makes no call; back and fade make the actor's own. */
    method Respond(
        d: Desk, targetCallId: Id, kind: ResponseKind, s: Statement, note: Option<string>, actor: Id, callId: Id,
            responseId: Id)
      returns (r: Result<(Response, Option<Call>)>)
      requires DeskSound(d) && Inv(d.env, store.Contents()) && responseId !in store.responses
      modifies store
      ensures Inv(d.env, store.Contents()) && Keeps(old(store.Contents()).book, store.Contents().book)
      ensures Stated(old(store.Contents())) ==> Stated(store.Contents())
      ensures targetCallId !in old(store.calls) ==> r == Err(CALL_NOT_FOUND)
      ensures targetCallId in old(store.calls) ==>
                var target := old(store.calls)[targetCallId];
                && (target.userId == actor ==> r == Err(RESPONSE_SELF))
                && (target.userId != actor && !CanSee(d.isPrivate, old(store.follows), target, Some(actor)) ==>
                      r == Err(CALL_NOT_VISIBLE))
      ensures kind.CHALLENGE? ==>
                var l := old(store.Contents());
                && (r.Ok? <==>
                    MayAddress(d, l, targetCallId, actor) && TrimOrNull(note).Ok?
                    && !HasResponse(l.book.responses, actor, targetCallId, kind))
                && (r.Ok? ==>
                      && r.value == (Response(responseId, actor, targetCallId, kind, None, TrimOrNull(note).value,
                          d.now), None)
                      && store.Contents() == Recorded(l, r.value.0))
                && (r.Err? ==> store.Contents() == l)
      ensures !kind.CHALLENGE? ==>
                var l := old(store.Contents());
                var allowed := MayAnswer(d, l, targetCallId, s, actor, callId);
                var answered := HasResponse(l.book.responses, actor, targetCallId, kind);
                && (r.Ok? <==> allowed && !answered)
                && (allowed ==>
                      var own, response := AnswerCall(d, l, targetCallId, kind.BACK?, s, actor, callId),
                                           AnswerRecord(d, targetCallId, kind, actor, callId, responseId);
                      if answered then r == Err(RESPONSE_DUPLICATE) && store.Contents() == Locked(d, l, own)
                      else r == Ok((response, Some(own))) && store.Contents() == Recorded(Locked(d, l, own), response))
                && (!allowed ==> store.Contents() == l)
    {
      ghost var l := store.Contents();
      KeepsItself(l.book);
      hide Keeps, CanLock, WindowOpen, TrimOrNull, CanSee, NewCall, Locked;
      var target :- RequireVisibleCall(d, store.Contents(), targetCallId, actor);
      if target.userId == actor { return Err(RESPONSE_SELF); }
      IdOf(d.env, l, targetCallId);
      hide Inv;
      var m :- RequireMarket(d, target.marketId);
      var _ :- VenueOpen(d, m);
      if kind.CHALLENGE? {
        var text :- TrimOrNull(note);
        var response := Response(responseId, actor, target.id, CHALLENGE, None, text, d.now);
        var stored :- store.InsertResponse(response);
        AddResponseKeeps(d.env, l, response);
        return Ok((stored, None));
      }
      var made :- AnswerWithCall(d, target, m, kind.BACK?, s, actor, callId, responseId);
      r := Ok((made.0, Some(made.1)));
    }

    /** Withdraw one's own call: hidden, never removed. */
    method HideCall(d: Desk, callId: Id, actor: Id) returns (r: Result<Call>)
      requires Inv(d.env, store.Contents())
      modifies store
      ensures Inv(d.env, store.Contents()) && Keeps(old(store.Contents()).book, store.Contents().book)
      ensures Stated(old(store.Contents())) ==> Stated(store.Contents())
      ensures r.Ok? <==> callId in old(store.calls) && old(store.calls)[callId].userId == actor
      ensures r.Err? ==> r.code == if callId in old(store.calls) then CALL_NOT_VISIBLE else CALL_NOT_FOUND
      ensures store.Contents() == if r.Ok? then Withdrawn(old(store.Contents()), callId, WITHDRAWN_BY_AUTHOR, d.now)
          else old(store.Contents())
    {
      KeepsItself(store.Contents().book);
      if callId !in store.calls { return Err(CALL_NOT_FOUND); }
      if store.calls[callId].userId != actor { return Err(CALL_NOT_VISIBLE); }
      WithdrawKeeps(d.env, store.Contents(), callId, WITHDRAWN_BY_AUTHOR, d.now);
      r := store.HideCall(callId, Some(WITHDRAWN_BY_AUTHOR), d.now);
    }

    // ── money calls ─────────────────────────────────────────────────────

    /** Lock the planned call, unless what was planned is no longer what would be made. No answer is recorded yet. */
    method LockFundedCall(d: Desk, plan: FundedPlan, callId: Id, s: Statement, actor: Id) returns (r: Result<Call>)
      requires DeskSound(d) && Inv(d.env, store.Contents()) && (plan.kind.Some? ==> plan.targetCallId.Some?)
      modifies store
      ensures Inv(d.env, store.Contents()) && Keeps(old(store.Contents()).book, store.Contents().book)
      ensures Stated(old(store.Contents())) ==> Stated(store.Contents())
      ensures var l := old(store.Contents());
              var valid := ValidateFundedCall(d, l, InputOf(plan), actor, None);
              && (r.Ok? <==>
                    && valid.Ok? && valid.value.marketId == plan.marketId && valid.value.side == plan.side
                    && plan.marketId in d.markets && TrimOrNull(s.thesis).Ok?
                    && CanLock(d, l, callId, actor, d.markets[plan.marketId], s.(thesis := TrimOrNull(s.thesis).value),
                        plan.targetCallId))
              && (r.Ok? ==>
                    && r.value == NewCall(d, callId, actor, d.markets[plan.marketId], plan.side,
                        s.(thesis := TrimOrNull(s.thesis).value), plan.targetCallId)
                    && r.value.userId == actor && r.value.marketId == plan.marketId && r.value.side == plan.side
                    && store.Contents() == Locked(d, l, r.value))
              && (r.Err? ==> store.Contents() == l)
    {
      ghost var l := store.Contents();
      KeepsItself(l.book);
      hide Keeps, CanLock, TrimOrNull, Inv, Locked;
      var valid :- ValidateFundedCall(d, store.Contents(), InputOf(plan), actor, None);
      hide ValidateFundedCall;
      if valid.marketId != plan.marketId || valid.side != plan.side { return Err(CALL_INVALID); }
      var m :- RequireMarket(d, plan.marketId);
      var thesis :- TrimOrNull(s.thesis);
      r := LockCall(d, callId, actor, m, plan.side, s.(thesis := thesis), plan.targetCallId);
    }

    /** A funded call just became public: its back or fade now counts. Never refused, and done once. */
    method PublishFundedCall(d: Desk, callId: Id, responseId: Id) returns (r: Result<()>)
      requires Inv(d.env, store.Contents()) && responseId !in store.responses
      modifies store
      ensures r.Ok? && Inv(d.env, store.Contents()) && Keeps(old(store.Contents()).book, store.Contents().book)
      ensures Stated(old(store.Contents())) ==> Stated(store.Contents())
      ensures !Unpublished(store.Contents(), callId)
      ensures store.Contents() == if Unpublished(old(store.Contents()), callId)
                                  then Recorded(old(store.Contents()),
                                      PublishedAs(d, old(store.Contents()), callId, responseId))
                                  else old(store.Contents())
    {
      ghost var l := store.Contents();
      KeepsItself(l.book);
      hide Inv, Keeps, HasResponse;
      if callId !in store.calls || store.calls[callId].parentCallId.None? { return Ok(()); }
      var call := store.calls[callId];
      var parent := call.parentCallId.value;
      if parent !in store.calls || store.calls[parent].userId == call.userId { return Ok(()); }
      var target := store.calls[parent];
      IdOf(d.env, l, callId);
      IdOf(d.env, l, parent);
      var kind := if call.side == target.side then BACK else FADE;
      if HasResponse(store.responses, call.userId, target.id, kind) { return Ok(()); }
      var response := Response(responseId, call.userId, target.id, kind, Some(call.id), None, d.now);
      PublishStores(d, l, callId, responseId);
      var stored := store.InsertResponse(response);
      AddResponseKeeps(d.env, l, response);
      r := Ok(());
    }

    /** A money call that was never funded nor kept free: withdrawn, once. */
    method WithdrawFundedCall(d: Desk, callId: Id)
      requires Inv(d.env, store.Contents())
      modifies store
      ensures Inv(d.env, store.Contents()) && Keeps(old(store.Contents()).book, store.Contents().book)
      ensures Stated(old(store.Contents())) ==> Stated(store.Contents())
      ensures store.Contents() == if callId in old(store.calls)
          then Withdrawn(old(store.Contents()), callId, EXPIRED_REASON, d.now) else old(store.Contents())
    {
      KeepsItself(store.Contents().book);
      if callId in store.calls && store.calls[callId].hiddenAt.None? {
        WithdrawKeeps(d.env, store.Contents(), callId, EXPIRED_REASON, d.now);
        var _ := store.HideCall(callId, Some(EXPIRED_REASON), d.now);
      }
    }

    /**
     * An expired money call that a confirmed fill funded after all: shown again, unless
     * the person has another live call there.
     */
    method RestoreFundedCall(d: Desk, callId: Id)
      requires Inv(d.env, store.Contents())
      modifies store
      ensures Inv(d.env, store.Contents()) && Keeps(old(store.Contents()).book, store.Contents().book)
      ensures Stated(old(store.Contents())) ==> Stated(store.Contents())
      ensures store.Contents() == if Restorable(old(store.Contents()), callId)
          then SetHidden(old(store.Contents()), callId, None, None) else old(store.Contents())
    {
      KeepsItself(store.Contents().book);
      hide Inv, Keeps;
      if callId !in store.calls { return; }
      var call := store.calls[callId];
      if call.hiddenAt.None?
          || (call.hiddenReason != Some(EXPIRED_REASON) && call.hiddenReason != Some(KEPT_FREE_REASON)) {
        return;
      }
      if LiveCallByUserOnMarket(store.Contents(), call.userId, call.marketId).Some? { return; }
      SetHiddenKeeps(d.env, store.Contents(), callId, None, None);
      var _ := store.UnhideCall(callId);
    }

    /**
     * "Keep it free": the pending money call is withdrawn and a fresh free call
     * is made in its place. Refused with nothing changed when validation
     * refuses. Past validation, either everything happens (old call hidden, one
     * new live call on the same side and market, and its back or fade), or,
     * exactly when no price can be stamped, it is refused with the old call
     * already hidden.
     */
    method ReplaceFundedCallWithFree(d: Desk, callId: Id, actor: Id, newId: Id, responseId: Id)
        returns (r: Result<Call>)
      requires DeskSound(d) && Inv(d.env, store.Contents()) && Stated(store.Contents())
      requires newId !in store.calls && responseId !in store.responses
      modifies store
      ensures Inv(d.env, store.Contents()) && Keeps(old(store.Contents()).book, store.Contents().book)
      ensures Stated(old(store.Contents())) ==> Stated(store.Contents())
      ensures var l := old(store.Contents());
              var hidden := if callId in l.book.calls then Withdrawn(l, callId, KEPT_FREE_REASON, d.now) else l;
              if !Replaceable(d, l, callId, actor) then r.Err? && store.Contents() == l
              else if !Priced(d, l, callId) then r.Err? && store.Contents() == hidden
              else r == Ok(FreshCall(d, l, callId, newId)) && store.Contents() == KeptFree(d, l, callId, newId,
                  responseId)
    {
      ghost var l := store.Contents();
      KeepsItself(l.book);
      hide Inv, Keeps, CanLock, TrimOrNull, NewCall, Locked, ValidateFundedCall, MayAnswer, Priced;
      var asked :- FreeReplacementOf(store.Contents(), callId, actor);
      var (input, statement) := asked;
      var _ :- ValidateFundedCall(d, store.Contents(), input, actor, Some(callId));
      WithdrawKeeps(d.env, l, callId, KEPT_FREE_REASON, d.now);
      ReplacementFits(d, l, callId, actor, newId);
      var _ := store.HideCall(callId, Some(KEPT_FREE_REASON), d.now);
      ghost var hidden := store.Contents();
      if input.Own? {
        r := CreateCall(d, newId, input.marketId, input.side, statement, None, actor);
      } else {
        var made :- Respond(d, input.targetCallId, KindOf(input.back), statement, None, actor, newId, responseId);
        r := Ok(made.1.value);
      }
      KeepsTransitive(l.book, hidden.book, store.Contents().book);
    }
  }

  function SideOf(back: bool, target: Call): Side { if back then target.side else Opposite(target.side) }

  /** The market is known, current, switched on, and takes calls right now. */
  predicate MarketOpen(d: Desk, marketId: Id) {
    marketId in d.markets && VenueOpen(d, d.markets[marketId]).Ok? && WindowOpen(d, d.markets[marketId]).Ok?
  }

  predicate VenueOn(d: Desk, m: Market) { m.venue == FIXTURE || (m.venue == PANTA && d.allowPanta) }

  /**
   * The market is on a venue switched on, open and not past the cut-off before its close,
   * and the venue has not resolved it.
   */
  predicate TakesCalls(d: Desk, m: Market) {
    && VenueOn(d, m)
    && m.status == OPEN && m.id !in d.venue
    && (m.opensAt.Some? ==> m.opensAt.value <= d.now)
    && (m.closesAt.Some? ==> d.now < m.closesAt.value - d.cutoff)
  }

  /** The market has a price of both sides, at most ten minutes old. */
  predicate FreshlyPriced(d: Desk, m: Market) {
    && m.id in d.prices && d.prices[m.id].yesPrice.Some? && d.prices[m.id].noPrice.Some?
    && d.prices[m.id].observedAt <= d.now <= d.prices[m.id].observedAt + 600_000
  }

  /**
   * What stands between a person and a call of their own: the market takes calls, with a
   * fresh price if it is Panta's; the statement is within bounds; the person has no live
   * call there; and the parent, if there is one, is on the same market.
   */
  ghost predicate MayCall(d: Desk, l: Ledger, id: Id, marketId: Id, s: Statement, parent: Option<Id>, actor: Id) {
    && marketId in d.markets
    && var m := d.markets[marketId];
    && TakesCalls(d, m) && (m.venue == PANTA ==> FreshlyPriced(d, m))
    && (s.confidence.Some? ==> 0.0 <= s.confidence.value <= 1.0)
    && (s.thesis.Some? ==> |s.thesis.value| <= 280)
    && id !in l.book.calls
    && (forall k | k in l.book.calls && l.book.calls[k].userId == actor && l.book.calls[k].marketId == m.id ::
          l.book.calls[k].hiddenAt.Some?)
    && (parent.Some? ==> parent.value in l.book.calls && l.book.calls[parent.value].marketId == m.id)
  }

  lemma MarketOpenIff(d: Desk, marketId: Id)
    ensures MarketOpen(d, marketId) <==> marketId in d.markets && TakesCalls(d, d.markets[marketId])
  {
  }

  lemma NoLiveCallIff(l: Ledger, actor: Id, marketId: Id)
    requires Listed(l)
    ensures LiveCallByUserOnMarket(l, actor, marketId).None? <==>
        forall k | k in l.book.calls && l.book.calls[k].userId == actor && l.book.calls[k].marketId == marketId ::
            l.book.calls[k].hiddenAt.Some?
  {
  }

  lemma MayCallIff(d: Desk, l: Ledger, id: Id, marketId: Id, s: Statement, parent: Option<Id>, actor: Id)
    requires Listed(l)
    ensures MayCall(d, l, id, marketId, s, parent, actor) <==>
        MarketOpen(d, marketId) && CanLock(d, l, id, actor, d.markets[marketId], s, parent)
  {
    hide MarketOpen, TakesCalls, LiveCallByUserOnMarket, Listed;
    MarketOpenIff(d, marketId);
    if marketId in d.markets { NoLiveCallIff(l, actor, d.markets[marketId].id); }
  }

  function Recorded(l: Ledger, r: Response): Ledger { l.(book := l.book.(responses := l.book.responses[r.id := r])) }

  /** Once its call is locked, an answer is refused only as a duplicate. */
  lemma AnswerStores(d: Desk, l: Ledger, own: Call, target: Call, back: bool, r: Response)
    requires target.id in l.book.calls && l.book.calls[target.id] == target && own.id !in l.book.calls
        && target.userId != own.userId
    requires own.marketId == target.marketId && own.side == SideOf(back, target)
    requires r.targetCallId == target.id && r.actorUserId == own.userId && r.kind == KindOf(back)
        && r.resultingCallId == Some(own.id)
    ensures InsertResponse(Locked(d, l, own), r) ==
            if HasResponse(l.book.responses, own.userId, target.id, KindOf(back)) then Err(RESPONSE_DUPLICATE)
                else Ok(Recorded(Locked(d, l, own), r))
  {
    hide HasResponse;
  }

  lemma IdOf(e: Env, l: Ledger, id: Id)
    requires Inv(e, l) && id in l.book.calls
    ensures l.book.calls[id].id == id
  {
    assert CallSound(e, l.book.calls, id);
  }

  /** The actor may answer this call at all: it is visible, somebody else's, and on a current market. */
  predicate MayAddress(d: Desk, l: Ledger, targetCallId: Id, actor: Id) {
    && RequireVisibleCall(d, l, targetCallId, actor).Ok? && l.book.calls[targetCallId].userId != actor
    && l.book.calls[targetCallId].marketId in d.markets
        && VenueOpen(d, d.markets[l.book.calls[targetCallId].marketId]).Ok?
  }

  /** The actor may back or fade it now: the market takes calls and the actor's own call can be locked. */
  predicate MayAnswer(d: Desk, l: Ledger, targetCallId: Id, s: Statement, actor: Id, callId: Id) {
    && MayAddress(d, l, targetCallId, actor)
    && var m := d.markets[l.book.calls[targetCallId].marketId];
       && WindowOpen(d, m).Ok? && TrimOrNull(s.thesis).Ok?
       && CanLock(d, l, callId, actor, m, s.(thesis := TrimOrNull(s.thesis).value), Some(targetCallId))
  }

  function AnswerCall(d: Desk, l: Ledger, targetCallId: Id, back: bool, s: Statement, actor: Id, callId: Id): Call
    requires targetCallId in l.book.calls && l.book.calls[targetCallId].marketId in d.markets
        && TrimOrNull(s.thesis).Ok?
  {
    var target := l.book.calls[targetCallId];
    NewCall(d, callId, actor, d.markets[target.marketId], SideOf(back, target),
        s.(thesis := TrimOrNull(s.thesis).value), Some(targetCallId))
  }

  function AnswerRecord(d: Desk, targetCallId: Id, kind: ResponseKind, actor: Id, callId: Id,
      responseId: Id): Response {
    Response(responseId, actor, targetCallId, kind, Some(callId), None, d.now)
  }

  const WITHDRAWN_BY_AUTHOR := "withdrawn by author"

  /** Hidden from now on, unless it was hidden already. */
  function Withdrawn(l: Ledger, callId: Id, reason: string, now: int): Ledger
    requires callId in l.book.calls
  {
    if Live(l.book.calls[callId]) then SetHidden(l, callId, Some(now), Some(reason)) else l
  }

  lemma WithdrawKeeps(e: Env, l: Ledger, callId: Id, reason: string, now: int)
    requires Inv(e, l) && callId in l.book.calls
    ensures Inv(e, Withdrawn(l, callId, reason, now)) && Keeps(l.book, Withdrawn(l, callId, reason, now).book)
  {
    KeepsItself(l.book);
    hide Inv, Keeps;
    SetHiddenKeeps(e, l, callId, Some(now), Some(reason));
  }

  function InputOf(plan: FundedPlan): FundedInput
    requires plan.kind.Some? ==> plan.targetCallId.Some?
  {
    if plan.kind.None? then Own(plan.marketId, plan.side) else Answer(plan.kind.value.BACK?, plan.targetCallId.value)
  }

  /** A back or fade that is not yet on record for the call it came from. */
  predicate Unpublished(l: Ledger, callId: Id) {
    && callId in l.book.calls && l.book.calls[callId].parentCallId.Some?
    && var call, parent := l.book.calls[callId], l.book.calls[callId].parentCallId.value;
       && parent in l.book.calls && l.book.calls[parent].userId != call.userId
       && !HasResponse(l.book.responses, call.userId, parent, KindOf(call.side == l.book.calls[parent].side))
  }

  function PublishedAs(d: Desk, l: Ledger, callId: Id, responseId: Id): Response
    requires Unpublished(l, callId)
  {
    var call, parent := l.book.calls[callId], l.book.calls[callId].parentCallId.value;
    Response(responseId, call.userId, parent, KindOf(call.side == l.book.calls[parent].side), Some(callId), None, d.now)
  }

  lemma PublishStores(d: Desk, l: Ledger, callId: Id, responseId: Id)
    requires Inv(d.env, l) && Unpublished(l, callId) && responseId !in l.book.responses
    ensures var response := PublishedAs(d, l, callId, responseId);
            InsertResponse(l, response) == Ok(Recorded(l, response)) && !Unpublished(Recorded(l, response), callId)
  {
    assert CallSound(d.env, l.book.calls, callId);
    hide Core, Listed;
    var response := PublishedAs(d, l, callId, responseId);
    assert Recorded(l, response).book.responses[responseId] == response;
  }

  predicate Restorable(l: Ledger, callId: Id) {
    && callId in l.book.calls && l.book.calls[callId].hiddenAt.Some?
    && (l.book.calls[callId].hiddenReason == Some(EXPIRED_REASON)
        || l.book.calls[callId].hiddenReason == Some(KEPT_FREE_REASON))
    && LiveCallByUserOnMarket(l, l.book.calls[callId].userId, l.book.calls[callId].marketId).None?
  }

  /** The market takes calls, and the person has nothing live there but what is being replaced. */
  ghost predicate HasRoom(d: Desk, l: Ledger, marketId: Id, actor: Id, replacing: Option<Id>) {
    && marketId in d.markets && TakesCalls(d, d.markets[marketId])
    && forall id | id in l.book.calls && LiveOn(l.book.calls[id], actor, marketId) :: Some(id) == replacing
  }

  /** The call is somebody else's, shown to this person, not private, and not yet answered this way by them. */
  ghost predicate MayPlanToAnswer(d: Desk, l: Ledger, targetCallId: Id, kind: ResponseKind, actor: Id) {
    && targetCallId in l.book.calls
    && var target := l.book.calls[targetCallId];
    && target.userId != actor && !d.isPrivate(targetCallId) && CanSee(d.isPrivate, l.follows, target, Some(actor))
    && forall r | r in l.book.responses && l.book.responses[r].actorUserId == actor ::
         !(l.book.responses[r].targetCallId == targetCallId && l.book.responses[r].kind == kind)
  }

  /**
   * A plan passes validation exactly when there is room for the call and, for a back or
   * fade, the target may be answered that way; and it is for what its words mean: the
   * target's own side to back, the other to fade, on the target's market.
   */
  lemma PlanMeansWhatItSays(d: Desk, l: Ledger, input: FundedInput, actor: Id, replacing: Option<Id>)
    requires DeskSound(d) && Inv(d.env, l)
    ensures ValidateFundedCall(d, l, input, actor, replacing).Ok? <==>
              match input
              case Own(marketId, _) => HasRoom(d, l, marketId, actor, replacing)
              case Answer(back, targetCallId) =>
                && MayPlanToAnswer(d, l, targetCallId, if back then BACK else FADE, actor)
                && HasRoom(d, l, l.book.calls[targetCallId].marketId, actor, replacing)
    ensures ValidateFundedCall(d, l, input, actor, replacing).Ok? ==>
              var plan := ValidateFundedCall(d, l, input, actor, replacing).value;
              match input
              case Own(marketId, side) => plan == FundedPlan(None, marketId, side, None)
              case Answer(back, targetCallId) =>
                && targetCallId in l.book.calls && plan.targetCallId == Some(targetCallId)
                && plan.kind == Some(if back then BACK else FADE)
                && plan.marketId == l.book.calls[targetCallId].marketId
                && (plan.side == l.book.calls[targetCallId].side <==> back)
  {
    hide Inv, WindowOpen, FirstLive, CanSee, TakesCalls, HasRoom;
    match input
    case Own(marketId, _) =>
      RoomIff(d, l, marketId, actor, replacing);
    case Answer(back, targetCallId) =>
      if targetCallId in l.book.calls {
        IdOf(d.env, l, targetCallId);
        RoomIff(d, l, l.book.calls[targetCallId].marketId, actor, replacing);
      }
  }

  lemma RoomIff(d: Desk, l: Ledger, marketId: Id, actor: Id, replacing: Option<Id>)
    requires DeskSound(d) && Inv(d.env, l)
    ensures HasRoom(d, l, marketId, actor, replacing) <==>
        MarketOpen(d, marketId) && NoLiveCall(l, actor, marketId, replacing).Ok?
  {
    hide Inv, TakesCalls, MarketOpen, FirstLive;
    MarketOpenIff(d, marketId);
    OnlyLive(d.env, l, actor, marketId);
  }

  /** The live call found is the only one. */
  lemma OnlyLive(e: Env, l: Ledger, userId: Id, marketId: Id)
    requires Inv(e, l)
    ensures forall id | id in l.book.calls && LiveOn(l.book.calls[id], userId, marketId) ::
        LiveCallByUserOnMarket(l, userId, marketId) == Some(id)
  {
    assert OneLive(l.book.calls);
    hide Core;
  }

  /** A plan asks again for what it was made from: where nothing has changed, validating it gives the same plan. */
  lemma PlanIsWhatWasAsked(d: Desk, l: Ledger, input: FundedInput, actor: Id)
    requires DeskSound(d) && Inv(d.env, l) && ValidateFundedCall(d, l, input, actor, None).Ok?
    ensures var plan := ValidateFundedCall(d, l, input, actor, None).value;
            (plan.kind.Some? ==> plan.targetCallId.Some?)
            && ValidateFundedCall(d, l, InputOf(plan), actor, None) == Ok(plan)
  {
    PlanMeansWhatItSays(d, l, input, actor, None);
    hide Inv, WindowOpen, CanSee, HasRoom, MayPlanToAnswer, NoLiveCall, HasResponse, VenueOpen;
    if input.Answer? { IdOf(d.env, l, input.targetCallId); }
  }

  // ── "keep it free" ──────────────────────────────────────────────────────

  /** What a free call in this one's place would be asked for as. */
  function FreeReplacementOf(l: Ledger, callId: Id, actor: Id): Result<(FundedInput, Statement)> {
    if callId !in l.book.calls || l.book.calls[callId].userId != actor || !Live(l.book.calls[callId])
        then Err(CALL_NOT_FOUND)
    else
      var c := l.book.calls[callId];
      if c.parentCallId.None? then Ok((Own(c.marketId, c.side), StatementOf(c)))
      else if c.parentCallId.value !in l.book.calls then Err(CALL_NOT_FOUND)
      else Ok((Answer(c.side == l.book.calls[c.parentCallId.value].side, c.parentCallId.value), StatementOf(c)))
  }

  /** What is checked before anything changes. */
  predicate Replaceable(d: Desk, l: Ledger, callId: Id, actor: Id) {
    var asked := FreeReplacementOf(l, callId, actor);
    asked.Ok? && ValidateFundedCall(d, l, asked.value.0, actor, Some(callId)).Ok?
  }

  /** What is only found out afterwards: the market has a price a new call can be stamped with. */
  predicate Priced(d: Desk, l: Ledger, callId: Id) {
    && callId in l.book.calls && l.book.calls[callId].marketId in d.markets
    && PriceReadable(d, d.markets[l.book.calls[callId].marketId])
  }

  /** An answer is made with its thesis trimmed. */
  function Restated(c: Call): Statement {
    if c.parentCallId.Some? && TrimOrNull(c.thesis).Ok? then StatementOf(c).(thesis := TrimOrNull(c.thesis).value)
        else StatementOf(c)
  }

  function FreshCall(d: Desk, l: Ledger, callId: Id, newId: Id): Call
    requires callId in l.book.calls && l.book.calls[callId].marketId in d.markets
  {
    var c := l.book.calls[callId];
    NewCall(d, newId, c.userId, d.markets[c.marketId], c.side, Restated(c), c.parentCallId)
  }

  /** The old call hidden, the new one locked, and its answer recorded when it is one. */
  function KeptFree(d: Desk, l: Ledger, callId: Id, newId: Id, responseId: Id): Ledger
    requires callId in l.book.calls && l.book.calls[callId].marketId in d.markets
  {
    var c := l.book.calls[callId];
    var locked := Locked(d, Withdrawn(l, callId, KEPT_FREE_REASON, d.now), FreshCall(d, l, callId, newId));
    if c.parentCallId.None? then locked
    else
      var back := c.parentCallId.value in l.book.calls && c.side == l.book.calls[c.parentCallId.value].side;
      Recorded(locked, AnswerRecord(d, c.parentCallId.value, KindOf(back), c.userId, newId, responseId))
  }

  lemma HidingFreesTheMarket(e: Env, l: Ledger, callId: Id, reason: string, now: int)
    requires Inv(e, l) && callId in l.book.calls && Live(l.book.calls[callId])
    ensures LiveCallByUserOnMarket(Withdrawn(l, callId, reason, now), l.book.calls[callId].userId,
        l.book.calls[callId].marketId).None?
  {
    assert OneLive(l.book.calls);
    hide Core, CallsSound;
  }

  lemma OwnReplacementFits(d: Desk, l: Ledger, callId: Id, actor: Id, newId: Id)
    requires DeskSound(d) && Inv(d.env, l) && Stated(l) && newId !in l.book.calls && Replaceable(d, l, callId, actor)
    requires callId in l.book.calls && l.book.calls[callId].parentCallId.None?
    ensures var c, hidden := l.book.calls[callId], Withdrawn(l, callId, KEPT_FREE_REASON, d.now);
            && MarketOpen(d, c.marketId)
            && (CanLock(d, hidden, newId, actor, d.markets[c.marketId], StatementOf(c), None) <==> Priced(d, l, callId))
  {
    HidingFreesTheMarket(d.env, l, callId, KEPT_FREE_REASON, d.now);
    hide Inv, BeforeCutoff, FirstLive, HasResponse, Trim, UsablePrice, LiveCallByUserOnMarket, StatementFits;
  }

  lemma ParentOnMarket(e: Env, l: Ledger, callId: Id)
    requires Inv(e, l) && callId in l.book.calls && l.book.calls[callId].parentCallId.Some?
    ensures var target := l.book.calls[callId].parentCallId.value;
            target in l.book.calls && l.book.calls[target].marketId == l.book.calls[callId].marketId
                && l.book.calls[target].id == target
  {
    assert CallSound(e, l.book.calls, callId);
    IdOf(e, l, l.book.calls[callId].parentCallId.value);
  }

  /** Trimming only shortens. */
  lemma RestatementFits(c: Call)
    requires StatementFits(StatementOf(c))
    ensures TrimOrNull(c.thesis).Ok? && StatementFits(StatementOf(c).(thesis := TrimOrNull(c.thesis).value))
  {
    hide Trim;
  }

  lemma AnswerReplacementFits(d: Desk, l: Ledger, callId: Id, actor: Id, newId: Id)
    requires DeskSound(d) && Inv(d.env, l) && Stated(l) && newId !in l.book.calls && Replaceable(d, l, callId, actor)
    requires callId in l.book.calls && l.book.calls[callId].parentCallId.Some?
    ensures var c, hidden := l.book.calls[callId], Withdrawn(l, callId, KEPT_FREE_REASON, d.now);
            var target := c.parentCallId.value;
            && target in l.book.calls && l.book.calls[target].marketId == c.marketId && MarketOpen(d, c.marketId)
            && MayAddress(d, hidden, target, actor)
            && (MayAnswer(d, hidden, target, StatementOf(c), actor, newId) <==> Priced(d, l, callId))
            && !HasResponse(hidden.book.responses, actor, target, KindOf(c.side == l.book.calls[target].side))
  {
    hide Inv, BeforeCutoff, FirstLive, HasResponse, UsablePrice, LiveCallByUserOnMarket, StatementFits, AcceptsNewCalls,
        TrimOrNull;
    var c := l.book.calls[callId];
    var target := c.parentCallId.value;
    ReplaceableIsOwn(d, l, callId, actor);
    HidingFreesTheMarket(d.env, l, callId, KEPT_FREE_REASON, d.now);
    ParentOnMarket(d.env, l, callId);
    RestatementFits(c);
    assert MayAddress(d, Withdrawn(l, callId, KEPT_FREE_REASON, d.now), target, actor);
  }

  /** After the old call is hidden, the new one is refused for nothing but its price. */
  lemma ReplacementFits(d: Desk, l: Ledger, callId: Id, actor: Id, newId: Id)
    requires DeskSound(d) && Inv(d.env, l) && Stated(l) && newId !in l.book.calls && Replaceable(d, l, callId, actor)
    ensures callId in l.book.calls && Live(l.book.calls[callId])
    ensures var c, hidden := l.book.calls[callId], Withdrawn(l, callId, KEPT_FREE_REASON, d.now);
            && MarketOpen(d, c.marketId)
            && (c.parentCallId.None? ==>
                  (CanLock(d, hidden, newId, actor, d.markets[c.marketId], StatementOf(c), None) <==>
                      Priced(d, l, callId)))
            && (c.parentCallId.Some? ==>
                  var target := c.parentCallId.value;
                  && target in l.book.calls && hidden.book.calls[target] == l.book.calls[target]
                  && (MayAnswer(d, hidden, target, StatementOf(c), actor, newId) <==> Priced(d, l, callId))
                  && !HasResponse(hidden.book.responses, actor, target, KindOf(c.side == l.book.calls[target].side))
                  && SideOf(c.side == l.book.calls[target].side, l.book.calls[target]) == c.side
                  && l.book.calls[target].marketId == c.marketId)
  {
    hide Inv, ValidateFundedCall, MarketOpen, CanLock, Priced, MayAnswer, HasResponse;
    if l.book.calls[callId].parentCallId.None? {
      OwnReplacementFits(d, l, callId, actor, newId);
    } else {
      AnswerReplacementFits(d, l, callId, actor, newId);
      hide MayAddress;
      AnsweringLeavesTarget(d, l, callId, actor);
    }
  }

  /** The call being answered is somebody else's, so hiding one's own leaves it alone. */
  lemma AnsweringLeavesTarget(d: Desk, l: Ledger, callId: Id, actor: Id)
    requires Replaceable(d, l, callId, actor) && Inv(d.env, l) && callId in l.book.calls
        && l.book.calls[callId].parentCallId.Some?
    ensures l.book.calls[callId].parentCallId.value != callId
  {
    hide Inv, BeforeCutoff, FirstLive, HasResponse, UsablePrice, AcceptsNewCalls, CanSee;
  }

  lemma KeptFreeCalls(d: Desk, l: Ledger, callId: Id, newId: Id, responseId: Id)
    requires Priced(d, l, callId) && Live(l.book.calls[callId])
    ensures var before := l.book.calls[callId];
            KeptFree(d, l, callId, newId, responseId).book.calls
            == l.book.calls[callId := before.(hiddenAt := Some(d.now), hiddenReason := Some(KEPT_FREE_REASON))][newId :=
                FreshCall(d, l, callId, newId)]
  {
    hide PriceReadable, Restated;
    assert FreshCall(d, l, callId, newId).id == newId;
  }

  lemma FreshCallFields(d: Desk, l: Ledger, callId: Id, newId: Id)
    requires DeskSound(d) && Priced(d, l, callId)
    ensures var before, made := l.book.calls[callId], FreshCall(d, l, callId, newId);
            && LiveOn(made, before.userId, before.marketId) && made.side == before.side
            && made.lockedAt == d.now && made.parentCallId == before.parentCallId
            && made.visibility == before.visibility && made.confidence == before.confidence
            && (before.parentCallId.None? || before.thesis.None? ==> made.thesis == before.thesis)
  {
    hide Trim, UsablePrice;
  }

  lemma KeptFreeResponses(d: Desk, l: Ledger, callId: Id, newId: Id, responseId: Id)
    requires Priced(d, l, callId) && Live(l.book.calls[callId])
    ensures var before, after := l.book.calls[callId], KeptFree(d, l, callId, newId, responseId).book.responses;
            && (before.parentCallId.None? ==> after == l.book.responses)
            && (before.parentCallId.Some? ==>
                  && after.Keys == l.book.responses.Keys + {responseId}
                      && after[responseId].resultingCallId == Some(newId)
                  && after[responseId].targetCallId == before.parentCallId.value)
  {
    hide PriceReadable, Restated, FreshCall;
  }

  lemma OneInPlaceOfTheOther(calls: map<Id, Call>, callId: Id, hidden: Call, newId: Id, made: Call)
    requires OneLive(calls) && callId in calls && Live(calls[callId]) && newId !in calls && !Live(hidden)
    requires LiveOn(made, calls[callId].userId, calls[callId].marketId)
    ensures var after := calls[callId := hidden][newId := made];
            && after.Keys == calls.Keys + {newId} && after[callId] == hidden && after[newId] == made
            && forall id | id in after && LiveOn(after[id], calls[callId].userId, calls[callId].marketId) :: id == newId
  {
  }

  /**
   * Keeping a call free adds one call and no other: the old one is hidden, the
   * new one is the person's only live call on the market, on the same side, and
   * a back or fade is on record as that call's.
   */
  lemma KeptFreeIsOneFreshCall(d: Desk, l: Ledger, callId: Id, actor: Id, newId: Id, responseId: Id)
    requires DeskSound(d) && Inv(d.env, l) && newId !in l.book.calls && responseId !in l.book.responses
    requires Replaceable(d, l, callId, actor) && Priced(d, l, callId)
    ensures var before, after := l.book.calls[callId], KeptFree(d, l, callId, newId, responseId).book;
            && after.calls.Keys == l.book.calls.Keys + {newId}
            && !Live(after.calls[callId])
            && LiveOn(after.calls[newId], actor, before.marketId) && after.calls[newId].side == before.side
            && after.calls[newId].lockedAt == d.now && after.calls[newId].parentCallId == before.parentCallId
            && after.calls[newId].visibility == before.visibility
            && after.calls[newId].confidence == before.confidence
            && (before.parentCallId.None? || before.thesis.None? ==> after.calls[newId].thesis == before.thesis)
            && (forall id | id in after.calls && LiveOn(after.calls[id], actor, before.marketId) :: id == newId)
            && after.responses.Keys == l.book.responses.Keys + (if before.parentCallId.Some? then {responseId} else {})
            && (before.parentCallId.Some? ==> after.responses[responseId].resultingCallId == Some(newId)
                                              && after.responses[responseId].targetCallId == before.parentCallId.value)
  {
    hide MayAnswer, CanLock, HasResponse, Replaceable, Inv, KeptFree, MarketOpen, PriceReadable, FreshCall, DeskSound,
        Withdrawn, SideOf;
    ReplaceableIsOwn(d, l, callId, actor);
    KeptFreeCalls(d, l, callId, newId, responseId);
    KeptFreeResponses(d, l, callId, newId, responseId);
    FreshCallFields(d, l, callId, newId);
    var before := l.book.calls[callId];
    var made := FreshCall(d, l, callId, newId);
    InvOneLive(d.env, l);
    OneInPlaceOfTheOther(l.book.calls, callId, before.(hiddenAt := Some(d.now), hiddenReason := Some(KEPT_FREE_REASON)),
        newId, made);
  }

  // ── a call kept free that is lost ───────────────────────────────────────

  const ONE_MARKET := Market("m", PANTA, "v", OPEN, None, None)
  const ONE_PRICE := SharePrice("p", "m", Some("0.5"), Some("0.5"), 0)

  /** One open market, with a price or without, and no resolution. */
  function OneMarketDesk(priced: bool): Desk {
    Desk(Env((p: SharePrice) => true, (h: string) => h), 0, map["m" := ONE_MARKET], map[], map[],
        if priced then map["m" := ONE_PRICE] else map[],
         0, true, (id: Id) => false)
  }

  function OneLocked(): Ledger {
    var d := OneMarketDesk(true);
    Locked(d, EMPTY, NewCall(d, "c", "ada", ONE_MARKET, YES, Statement(None, None, PUBLIC), None))
  }

  lemma OneLockedStands()
    ensures var d := OneMarketDesk(true);
            DeskSound(d) && CanLock(d, EMPTY, "c", "ada", ONE_MARKET, Statement(None, None, PUBLIC), None)
                && Inv(d.env, OneLocked()) && Stated(OneLocked())
  {
    var d := OneMarketDesk(true);
    var c := NewCall(d, "c", "ada", ONE_MARKET, YES, Statement(None, None, PUBLIC), None);
    assert Inv(d.env, EMPTY);
    LockInserts(d, EMPTY, "c", "ada", ONE_MARKET, YES, Statement(None, None, PUBLIC), None);
    LockKeeps(d, EMPTY, c);
    LockedStated(d, EMPTY, c);
  }

  /**
   * Validation does not look at the price. A call locked while its market had a
   * fresh one passes validation when the price is gone, and keeping it free then
   * hides it and makes nothing in its place.
   */
  lemma KeepingFreeCanLoseTheCall()
    ensures var (d, l) := (OneMarketDesk(false), OneLocked());
            DeskSound(d) && Inv(d.env, l) && Stated(l) && Replaceable(d, l, "c", "ada") && !Priced(d, l, "c")
  {
    OneLockedStands();
    var d, l := OneMarketDesk(false), OneLocked();
    hide Inv, Stated, CanLock;
    assert l.order == ["c"] by { assert [] + ["c"] == ["c"]; }
    assert l.book.calls
        == map["c" := NewCall(OneMarketDesk(true), "c", "ada", ONE_MARKET, YES, Statement(None, None, PUBLIC), None)];
    assert FirstLive(l.book.calls, ["c"], "ada", "m") == Some("c");
  }

  lemma ReplaceableIsOwn(d: Desk, l: Ledger, callId: Id, actor: Id)
    requires Replaceable(d, l, callId, actor)
    ensures callId in l.book.calls && Live(l.book.calls[callId]) && l.book.calls[callId].userId == actor
  {
    hide ValidateFundedCall;
  }

  lemma InvOneLive(e: Env, l: Ledger)
    requires Inv(e, l)
    ensures OneLive(l.book.calls)
  {
  }

  /**
   * Answering twice is not all-or-nothing. Whoever withdraws a back or fade may
   * lock another call on it, but the answer is then refused as a duplicate: the
   * new call is made, and nothing says what it answers.
   */
  lemma WithdrawnAnswerLeavesAnOrphan(
      d: Desk, l: Ledger, targetCallId: Id, back: bool, s: Statement, actor: Id, callId: Id, responseId: Id, newId: Id)
    requires DeskSound(d) && Inv(d.env, l) && responseId !in l.book.responses
    requires MayAnswer(d, l, targetCallId, s, actor, callId) && newId !in l.book.calls && newId != callId
    ensures var own := AnswerCall(d, l, targetCallId, back, s, actor, callId);
            var answered :=
                Recorded(Locked(d, l, own), AnswerRecord(d, targetCallId, KindOf(back), actor, callId, responseId));
            var withdrawn := Withdrawn(answered, callId, WITHDRAWN_BY_AUTHOR, d.now);
            MayAnswer(d, withdrawn, targetCallId, s, actor, newId)
                && HasResponse(withdrawn.book.responses, actor, targetCallId, KindOf(back))
  {
    hide Inv, TrimOrNull, WindowOpen, UsablePrice, StatementFits, FirstLive, VenueOpen;
    var own := AnswerCall(d, l, targetCallId, back, s, actor, callId);
    var response := AnswerRecord(d, targetCallId, KindOf(back), actor, callId, responseId);
    var withdrawn := Withdrawn(Recorded(Locked(d, l, own), response), callId, WITHDRAWN_BY_AUTHOR, d.now);
    assert withdrawn.book.responses[responseId] == response;
    hide HasResponse;
    assert own.id == callId && own.userId == actor && own.marketId == d.markets[l.book.calls[targetCallId].marketId].id;
    assert withdrawn.order == l.order + [callId];
    assert withdrawn.book.calls
        == l.book.calls[callId := own.(hiddenAt := Some(d.now), hiddenReason := Some(WITHDRAWN_BY_AUTHOR))];
    FreedAgain(l, withdrawn, callId, actor, own.marketId);
    assert !Live(withdrawn.book.calls[callId]);
  }

  lemma FreedAgain(l: Ledger, l': Ledger, callId: Id, actor: Id, marketId: Id)
    requires LiveCallByUserOnMarket(l, actor, marketId).None? && l'.order == l.order + [callId]
    requires callId in l'.book.calls && !Live(l'.book.calls[callId])
        && l'.book.calls == l.book.calls[callId := l'.book.calls[callId]]
    ensures LiveCallByUserOnMarket(l', actor, marketId).None?
  {
  }
}
