/**
 * Which called markets one worker pass polls, and the fairness of the rotation:
 * a market that stays pending is polled within as many completed passes as it
 * takes to go once round everything that was pending meanwhile.
 */
module PollWorker {
  import opened Vocabulary
  import opened Ledgers
  import opened CallsStores
  import opened Markets
  import opened ResolutionSync
  import opened Sorting

  const PENDING_MARKET_CURSOR := "call_results:pending_panta_market"

  // ── the rotation ────────────────────────────────────────────────────────

  /** The ids in order, each once. */
  ghost predicate InOrder(ordered: seq<string>) { Sorted(StringAtMost, ordered) && Distinct(ordered) }

  /** The first position after the cursor; 0 when there is no cursor or nothing comes after it. */
  function Start(ordered: seq<string>, cursor: Option<string>): (i: nat)
    ensures i <= |ordered| && (ordered != [] ==> i < |ordered|)
  {
    if cursor.None? then 0
    else
      var next := FirstAfter(ordered, cursor.value);
      if next == |ordered| then 0 else next
  }

  function FirstAfter(ordered: seq<string>, cursor: string): (i: nat)
    ensures i <= |ordered|
    ensures forall j | 0 <= j < i :: !StringLess(cursor, ordered[j])
    ensures i < |ordered| ==> StringLess(cursor, ordered[i])
  {
    if ordered == [] || StringLess(cursor, ordered[0]) then 0 else 1 + FirstAfter(ordered[1..], cursor)
  }

  function Rotated(ordered: seq<string>, cursor: Option<string>): (r: seq<string>)
    ensures |r| == |ordered|
  {
    var start := Start(ordered, cursor);
    ordered[start..] + ordered[..start]
  }

  function Batch(ordered: seq<string>, cursor: Option<string>, k: nat): (r: seq<string>)
    ensures |r| == (if k <= |ordered| then k else |ordered|)
  {
    var rotated := Rotated(ordered, cursor);
    rotated[..if k <= |ordered| then k else |ordered|]
  }

  /** The cursor after a completed pass. An empty id never becomes the cursor. */
  function Advanced(batch: seq<string>, cursor: Option<string>): Option<string> {
    if batch == [] || batch[|batch| - 1] == "" then cursor else Some(batch[|batch| - 1])
  }

  /** There was something to poll, and the last of it can become the cursor. */
  predicate EndsInAnId(batch: seq<string>) { batch != [] && batch[|batch| - 1] != "" }

  // ── fairness ────────────────────────────────────────────────────────────

  /** Going upward from the cursor and round, `u` comes before `target`. */
  predicate ComesBefore(cursor: Option<string>, u: string, target: string) {
    if cursor.Some? && StringLess(cursor.value, target) then StringLess(cursor.value, u) && StringLess(u, target)
    else StringLess(u, target) || (cursor.Some? && StringLess(cursor.value, u))
  }

  /** How much of `all` is still to come before the target: the cyclic distance. */
  ghost function Ahead(cursor: Option<string>, all: set<string>, target: string): set<string> {
    set u | u in all && u != target && ComesBefore(cursor, u, target)
  }

  /** The order facts the rotation argument uses. */
  ghost predicate Linear() {
    && (forall a, b :: StringLess(a, b) || a == b || StringLess(b, a))
    && (forall a, b :: !(StringLess(a, b) && StringLess(b, a)))
    && (forall a, b, c :: StringLess(a, b) && StringLess(b, c) ==> StringLess(a, c))
  }

  lemma StringsLinear()
    ensures Linear()
  {
    forall a: string, b: string
        ensures (StringLess(a, b) || a == b || StringLess(b, a)) && !(StringLess(a, b) && StringLess(b, a)) {
      StringsOrdered(a, b);
    }
    forall a: string, b: string, c: string | StringLess(a, b) && StringLess(b, c) ensures StringLess(a, c) {
      StringsChain(a, b, c);
    }
  }

  lemma StrictlyRising(ordered: seq<string>, i: nat, j: nat)
    requires InOrder(ordered) && i < j < |ordered|
    ensures StringLess(ordered[i], ordered[j])
  {
    assert StringAtMost(ordered[i], ordered[j]);
  }

  /** Everything the rotation puts before the target comes before it, going upward from the cursor and round. */
  lemma RotationGoesRound(ordered: seq<string>, cursor: Option<string>, i: nat, j: nat)
    requires Linear() && InOrder(ordered) && i < j < |ordered|
    ensures var r := Rotated(ordered, cursor); r[i] != r[j] && ComesBefore(cursor, r[i], r[j])
  {
    hide StringLess;
    var n, start := |ordered|, Start(ordered, cursor);
    var a, b := if start + i < n then start + i else start + i - n, if start + j < n then start + j else start + j - n;
    assert Rotated(ordered, cursor)[i] == ordered[a] && Rotated(ordered, cursor)[j] == ordered[b];
    if a < b { StrictlyRising(ordered, a, b); } else { StrictlyRising(ordered, b, a); }
    if cursor.Some? { AfterStart(ordered, cursor.value); }
  }

  lemma AfterStart(ordered: seq<string>, cursor: string)
    requires Linear() && InOrder(ordered)
    ensures forall j | FirstAfter(ordered, cursor) <= j < |ordered| :: StringLess(cursor, ordered[j])
  {
    hide StringLess;
    var first := FirstAfter(ordered, cursor);
    forall j | first < j < |ordered| ensures StringLess(cursor, ordered[j]) { StrictlyRising(ordered, first, j); }
  }

  lemma CloserCursor(cursor: Option<string>, next: string, target: string, u: string)
    requires Linear() && next != target && ComesBefore(cursor, next, target)
    ensures u != target && ComesBefore(Some(next), u, target) ==> ComesBefore(cursor, u, target)
    ensures u == next || ComesBefore(cursor, u, next) ==> !ComesBefore(Some(next), u, target)
  {
    hide StringLess;
  }

  lemma RotatedDistinct(ordered: seq<string>, cursor: Option<string>)
    requires Distinct(ordered)
    ensures Distinct(Rotated(ordered, cursor)) && forall x :: x in Rotated(ordered, cursor) <==> x in ordered
  {
    var start := Start(ordered, cursor);
    assert ordered == ordered[..start] + ordered[start..];
  }

  /** A completed pass that does not reach the target brings the cursor closer to it by a whole batch. */
  lemma PassDrawsNearer(ordered: seq<string>, cursor: Option<string>, k: nat, all: set<string>, target: string)
    requires InOrder(ordered) && 0 < k && target in ordered && (forall id | id in ordered :: id in all)
    requires target !in Batch(ordered, cursor, k) && EndsInAnId(Batch(ordered, cursor, k))
    ensures |Ahead(Advanced(Batch(ordered, cursor, k), cursor), all, target)| + k <= |Ahead(cursor, all, target)|
  {
    StringsLinear();
    hide StringLess;
    var r, batch := Rotated(ordered, cursor), Batch(ordered, cursor, k);
    RotatedDistinct(ordered, cursor);
    assert target in r;
    var j :| 0 <= j < |r| && r[j] == target;
    BatchHolds(ordered, cursor, k, j);
    var next := batch[k - 1];
    assert next == r[k - 1] && next in ordered;
    BatchPassed(ordered, cursor, k, all, target, j);
  }

  lemma BatchHolds(ordered: seq<string>, cursor: Option<string>, k: nat, j: nat)
    requires j < |ordered|
    ensures j < k ==> Rotated(ordered, cursor)[j] in Batch(ordered, cursor, k)
  {
    if j < k { assert Batch(ordered, cursor, k)[j] == Rotated(ordered, cursor)[j]; }
  }

  /** A polled id lay ahead of the cursor, and is behind the one the batch leaves. */
  lemma PolledIsPassed(ordered: seq<string>, cursor: Option<string>, k: nat, target: string, j: nat, i: nat)
    requires Linear() && InOrder(ordered)
    requires i < k <= j < |ordered| && Rotated(ordered, cursor)[j] == target
    ensures var r := Rotated(ordered, cursor);
            r[i] != target && ComesBefore(cursor, r[i], target) && !ComesBefore(Some(r[k - 1]), r[i], target)
  {
    hide StringLess, InOrder, ComesBefore, Rotated;
    var r := Rotated(ordered, cursor);
    RotationGoesRound(ordered, cursor, i, j);
    RotationGoesRound(ordered, cursor, k - 1, j);
    if i < k - 1 { RotationGoesRound(ordered, cursor, i, k - 1); }
    CloserCursor(cursor, r[k - 1], target, r[i]);
  }

  lemma BatchPassed(ordered: seq<string>, cursor: Option<string>, k: nat, all: set<string>, target: string, j: nat)
    requires Linear() && InOrder(ordered) && (forall id | id in ordered :: id in all)
    requires 0 < k <= j < |ordered| && Rotated(ordered, cursor)[j] == target
    ensures |Ahead(Some(Rotated(ordered, cursor)[k - 1]), all, target)| + k <= |Ahead(cursor, all, target)|
  {
    hide StringLess, InOrder, ComesBefore, Rotated;
    var r := Rotated(ordered, cursor);
    var batch, next := r[..k], r[k - 1];
    InOrderDistinct(ordered);
    RotatedDistinct(ordered, cursor);
    PolledIsPassed(ordered, cursor, k, target, j, k - 1);
    var passed, before, after := (set x | x in batch), Ahead(cursor, all, target), Ahead(Some(next), all, target);
    forall x | x in batch ensures x in before && x !in after {
      var i :| 0 <= i < k && batch[i] == x;
      assert r[i] in r;
      PolledIsPassed(ordered, cursor, k, target, j, i);
    }
    forall u | u in after ensures u in before { CloserCursor(cursor, next, target, u); }
    hide Ahead;
    DistinctSize(batch);
    assert passed + after <= before && passed !! after;
    SubsetSize(passed + after, before);
  }

  lemma InOrderDistinct(ordered: seq<string>)
    requires InOrder(ordered)
    ensures Distinct(ordered)
  {
  }

  /** One pass: what was pending, in order, and whether it ran to the cursor write. */
  datatype PollPass = PollPass(ordered: seq<string>, completed: bool)

  function CursorAfter(cursor: Option<string>, passes: seq<PollPass>, k: nat): Option<string> {
    if passes == [] then cursor
    else
      var before, last := CursorAfter(cursor, passes[..|passes| - 1], k), passes[|passes| - 1];
      if last.completed then Advanced(Batch(last.ordered, before, k), before) else before
  }

  function Completed(passes: seq<PollPass>): nat {
    if passes == [] then 0 else Completed(passes[..|passes| - 1]) + if passes[|passes| - 1].completed then 1 else 0
  }

  /** The completed passes whose last target can become the cursor. */
  function Moves(cursor: Option<string>, passes: seq<PollPass>, k: nat): nat {
    if passes == [] then 0
    else
      var before, last := passes[..|passes| - 1], passes[|passes| - 1];
      Moves(cursor, before, k)
      + if last.completed && EndsInAnId(Batch(last.ordered, CursorAfter(cursor, before, k), k)) then 1 else 0
  }

  /** The target was among the markets a completed pass polled. */
  ghost predicate PolledIn(cursor: Option<string>, passes: seq<PollPass>, k: nat, target: string, i: nat)
    requires i < |passes|
  {
    passes[i].completed && target in Batch(passes[i].ordered, CursorAfter(cursor, passes[..i], k), k)
  }

  /** In every pass the target is pending, and what is pending is drawn from `all`. */
  ghost predicate PendingThroughout(passes: seq<PollPass>, all: set<string>, target: string) {
    forall i | 0 <= i < |passes| ::
      InOrder(passes[i].ordered) && target in passes[i].ordered && forall id | id in passes[i].ordered :: id in all
  }

  /** With no empty id pending, every completed pass moves the cursor. */
  lemma {:induction false} CompletedMoves(cursor: Option<string>, passes: seq<PollPass>, k: nat, all: set<string>,
      target: string)
    requires 0 < k && PendingThroughout(passes, all, target) && "" !in all
    ensures Moves(cursor, passes, k) == Completed(passes)
  {
    if passes != [] {
      var n := |passes| - 1;
      CompletedMoves(cursor, passes[..n], k, all, target);
      var last, at := passes[n].ordered, CursorAfter(cursor, passes[..n], k);
      hide CursorAfter, InOrder;
      BatchDrawn(last, at, k);
    }
  }

  lemma BatchDrawn(ordered: seq<string>, cursor: Option<string>, k: nat)
    requires 0 < k
    ensures ordered != [] ==> Batch(ordered, cursor, k) != []
    ensures forall x | x in Batch(ordered, cursor, k) :: x in ordered
  {
  }

  lemma Distribute(k: nat, n: nat)
    ensures k * (n + 1) == k * n + k
  {
  }

  lemma OnePassNearer(last: PollPass, cursor: Option<string>, k: nat, all: set<string>, target: string)
    requires 0 < k && InOrder(last.ordered) && target in last.ordered && forall id | id in last.ordered :: id in all
    requires last.completed ==> target !in Batch(last.ordered, cursor, k)
    ensures var batch := Batch(last.ordered, cursor, k);
            var next := if last.completed then Advanced(batch, cursor) else cursor;
            |Ahead(next, all, target)| + (if last.completed
                && EndsInAnId(batch) then k else 0) <= |Ahead(cursor, all, target)|
  {
    hide Ahead, Batch, InOrder;
    if last.completed && EndsInAnId(Batch(last.ordered, cursor, k)) {
      PassDrawsNearer(last.ordered, cursor, k, all, target);
    }
  }

  ghost predicate NeverPolled(cursor: Option<string>, passes: seq<PollPass>, k: nat, target: string) {
    forall i | 0 <= i < |passes| :: !PolledIn(cursor, passes, k, target, i)
  }

  lemma UnpolledBefore(cursor: Option<string>, passes: seq<PollPass>, k: nat, all: set<string>, target: string)
    requires passes != [] && PendingThroughout(passes, all, target) && NeverPolled(cursor, passes, k, target)
    ensures var before, last := passes[..|passes| - 1], passes[|passes| - 1];
            && PendingThroughout(before, all, target) && NeverPolled(cursor, before, k, target)
            && InOrder(last.ordered) && target in last.ordered && (forall id | id in last.ordered :: id in all)
            && (last.completed ==> target !in Batch(last.ordered, CursorAfter(cursor, before, k), k))
  {
    hide InOrder, CursorAfter, Batch;
    var n := |passes| - 1;
    var before := passes[..n];
    forall i | 0 <= i < n ensures !PolledIn(cursor, before, k, target, i) {
      assert before[..i] == passes[..i] && !PolledIn(cursor, passes, k, target, i);
    }
    assert !PolledIn(cursor, passes, k, target, n);
  }

  lemma {:induction false} UnpolledGetsNearer(cursor: Option<string>, passes: seq<PollPass>, k: nat, all: set<string>,
      target: string)
    requires 0 < k && PendingThroughout(passes, all, target) && NeverPolled(cursor, passes, k, target)
    ensures |Ahead(CursorAfter(cursor, passes, k), all, target)|
        + k * Moves(cursor, passes, k) <= |Ahead(cursor, all, target)|
  {
    hide Ahead, Batch, EndsInAnId, Advanced, InOrder, PendingThroughout, NeverPolled;
    if passes != [] {
      var before, last := passes[..|passes| - 1], passes[|passes| - 1];
      UnpolledBefore(cursor, passes, k, all, target);
      UnpolledGetsNearer(cursor, before, k, all, target);
      OnePassNearer(last, CursorAfter(cursor, before, k), k, all, target);
      Distribute(k, Moves(cursor, before, k));
    }
  }

  /**
   * Fairness. Let a market stay pending through a run of passes, some of which
   * may fail, while others come and go, and let everything pending in the run
   * be among m ids. Once the completed passes that move the cursor number at
   * least m divided by the per-pass cap, one pass has polled that market,
   * wherever the cursor began, its own id gone or not. Those are all completed
   * passes when no id is empty.
   */
  lemma PendingMarketIsPolled(cursor: Option<string>, passes: seq<PollPass>, k: nat, all: set<string>, target: string)
    requires 0 < k && PendingThroughout(passes, all, target) && target in all
    requires k * Moves(cursor, passes, k) >= |all| || ("" !in all && k * Completed(passes) >= |all|)
    ensures exists i :: 0 <= i < |passes| && PolledIn(cursor, passes, k, target, i)
  {
    if "" !in all { CompletedMoves(cursor, passes, k, all, target); }
    if NeverPolled(cursor, passes, k, target) {
      UnpolledGetsNearer(cursor, passes, k, all, target);
      SubsetSize(Ahead(cursor, all, target), all - {target});
    }
  }

  /** The same markets stay pending throughout. */
  ghost predicate AlwaysPending(passes: seq<PollPass>, ordered: seq<string>) {
    forall i | 0 <= i < |passes| :: passes[i].ordered == ordered
  }

  lemma {:induction false} CursorStuck(cursor: Option<string>, passes: seq<PollPass>, k: nat, ordered: seq<string>)
    requires AlwaysPending(passes, ordered) && !EndsInAnId(Batch(ordered, cursor, k))
    ensures CursorAfter(cursor, passes, k) == cursor
  {
    if passes != [] {
      var n := |passes| - 1;
      assert passes[n].ordered == ordered && forall i | 0 <= i < n :: passes[..n][i] == passes[i];
      CursorStuck(cursor, passes[..n], k, ordered);
      hide Batch;
    }
  }

  /**
   * The exception, exactly. While the same markets stay pending and a pass's
   * last target is the empty id, which never becomes the cursor, every pass
   * polls that one batch again: a market is polled if and only if it is in it.
   */
  lemma EmptyIdStarves(cursor: Option<string>, passes: seq<PollPass>, k: nat, ordered: seq<string>, target: string,
      i: nat)
    requires AlwaysPending(passes, ordered) && !EndsInAnId(Batch(ordered, cursor, k)) && i < |passes|
    ensures PolledIn(cursor, passes, k, target, i) <==> passes[i].completed && target in Batch(ordered, cursor, k)
  {
    assert forall j | 0 <= j < i :: passes[..i][j] == passes[j];
    CursorStuck(cursor, passes[..i], k, ordered);
    hide CursorAfter, Batch;
  }

  /** So with the empty id and one other pending, and one poll a pass, the other waits for ever. */
  lemma OneWaitsForEver(passes: seq<PollPass>, i: nat)
    requires AlwaysPending(passes, ["", "a"]) && i < |passes|
    ensures !PolledIn(None, passes, 1, "a", i)
  {
    assert Batch(["", "a"], None, 1) == [""];
    EmptyIdStarves(None, passes, 1, ["", "a"], "a", i);
  }

  // ── the worker ──────────────────────────────────────────────────────────

  /**
   * A called Panta market past its close, or no longer open, whose venue has published
   * nothing and whose call has no settled result.
   */
  predicate Awaits(results: map<Id, CallResult>, v: Venue, markets: map<Id, Market>, now: int, c: Call) {
    && !(c.id in results && results[c.id].outcome != PENDING)
    && c.marketId in markets
    && var m := markets[c.marketId];
       && m.venue == PANTA && GetResolution(v, m.id).None?
       && !(m.status == OPEN && (m.closesAt.None? || m.closesAt.value > now))
  }

  /** The venue ids waiting on a result. */
  ghost predicate Waiting(l: Ledger, v: Venue, markets: map<Id, Market>, now: int, x: string) {
    exists id :: id in l.order && id in l.book.calls && Awaits(l.book.results, v, markets, now, l.book.calls[id])
                 && markets[l.book.calls[id].marketId].venueMarketId == x
  }

  /** The waiting ids, each once, in order: there is one such list. */
  ghost predicate Lists(l: Ledger, v: Venue, markets: map<Id, Market>, now: int, ordered: seq<string>) {
    InOrder(ordered) && forall x :: x in ordered <==> Waiting(l, v, markets, now, x)
  }

  lemma OneListing(l: Ledger, v: Venue, markets: map<Id, Market>, now: int, a: seq<string>, b: seq<string>)
    requires Lists(l, v, markets, now, a) && Lists(l, v, markets, now, b)
    ensures a == b
  {
    hide Waiting, StringAtMost;
    SameBag(a, b);
    StringsTotal();
    OneOrder(StringAtMost, a, b);
  }

  // ── which markets are listed ────────────────────────────────────────────

  /** The market is no longer open, or its close has come. */
  predicate Closed(m: Market, now: int) { m.status != OPEN || (m.closesAt.Some? && m.closesAt.value <= now) }

  /** This call's market is closed, on Panta under this venue id, and the venue has not resolved it. */
  predicate StillOut(l: Ledger, v: Venue, markets: map<Id, Market>, now: int, id: Id, x: string) {
    && id in l.book.calls && l.book.calls[id].marketId in markets
    && var m := markets[l.book.calls[id].marketId];
       m.venue == PANTA && m.venueMarketId == x && m.id !in v && Closed(m, now)
  }

  /** And the call has no settled result. */
  predicate Unsettled(l: Ledger, v: Venue, markets: map<Id, Market>, now: int, id: Id, x: string) {
    StillOut(l, v, markets, now, id, x) && !IsSettled(l.book.results, l.book.calls[id].id)
  }

  /**
   * Listed are exactly the closed Panta markets without a resolution that some call
   * without a settled result is on. No id is listed for markets alone that still take
   * calls.
   */
  lemma ListedAreStillOut(l: Ledger, v: Venue, markets: map<Id, Market>, now: int, ordered: seq<string>)
    requires Lists(l, v, markets, now, ordered)
    ensures forall x :: x in ordered <==> exists id :: id in l.order && Unsettled(l, v, markets, now, id, x)
    ensures forall x | x in ordered ::
        exists id :: id in l.order && Unsettled(l, v, markets, now, id, x)
                     && !AcceptsNewCalls(markets[l.book.calls[id].marketId], now, 0)
  {
    forall x ensures x in ordered <==> exists id :: id in l.order && Unsettled(l, v, markets, now, id, x) {
      assert x in ordered <==> Waiting(l, v, markets, now, x);
      if id :| id in l.order && Unsettled(l, v, markets, now, id, x) {
        assert Awaits(l.book.results, v, markets, now, l.book.calls[id]);
      }
    }
  }

  /**
   * Once a pass has run to its end from consistent results, a market is listed if and
   * only if it is closed, on Panta, called and without a resolution: no call left pending
   * on a closed market is forgotten, and none is polled for again once its venue has
   * spoken.
   */
  lemma ListedAfterAPass(l: Ledger, v: Venue, markets: map<Id, Market>, now: int, ordered: seq<string>)
    requires Tidy(l) && Converged(v, l) && Lists(l, v, markets, now, ordered)
    requires forall m | m in markets :: markets[m].id == m
    ensures forall x :: x in ordered <==> exists id :: StillOut(l, v, markets, now, id, x)
    ensures forall id | id in l.book.calls && l.book.calls[id].marketId in markets ::
              var m := markets[l.book.calls[id].marketId];
              !IsSettled(l.book.results, id) && m.venue == PANTA && Closed(m, now) ==> m.venueMarketId in ordered
  {
    hide Lists, InOrder;
    ListedAreStillOut(l, v, markets, now, ordered);
    forall id | id in l.book.calls
      ensures id in l.order && l.book.calls[id].id == id
      ensures IsSettled(l.book.results, id) <==> l.book.calls[id].marketId in v
    {
      ConvergedIsJudged(v, l, l.book.calls[id].marketId);
    }
  }

  /** What one market's refresh came to. Unavailable is retried later; anything else thrown ends the batch. */
  datatype Refresh = Refreshed(recorded: bool, unevidenced: bool) | Unavailable | Broken

  datatype Polled = Polled(refreshed: nat, unavailable: nat, recorded: nat, unevidenced: nat)

  function CursorOf(l: Ledger): Option<string> {
    if PENDING_MARKET_CURSOR in l.cursors then l.cursors[PENDING_MARKET_CURSOR] else None
  }

  class CallResultWorker {
    const store: InMemoryCallsStore
    const maxCalledMarketsPerPass: nat

    /** `requested` is None when the setting is not a finite number; a fraction is dropped. */
    constructor (store: InMemoryCallsStore, requested: Option<real>)
      ensures this.store == store && 1 <= maxCalledMarketsPerPass <= 16
      ensures requested.None? ==> maxCalledMarketsPerPass == 8
      ensures requested.Some? && requested.value < 1.0 ==> maxCalledMarketsPerPass == 1
      ensures requested.Some? && requested.value > 16.0 ==> maxCalledMarketsPerPass == 16
      ensures requested.Some? && 1.0 <= requested.value <= 16.0 ==>
                maxCalledMarketsPerPass as real <= requested.value < maxCalledMarketsPerPass as real + 1.0
    {
      var whole: int := if requested.None? then 8 else if requested.value < 0.0 then -(-requested.value).Floor
          else requested.value.Floor;
      this.store := store;
      maxCalledMarketsPerPass := if whole > 16 then 16 else if whole < 1 then 1 else whole;
    }

    method PendingTargets(v: Venue, markets: map<Id, Market>, now: int) returns (targets: seq<string>)
      requires forall id | id in store.order :: id in store.calls
      ensures exists ordered :: Lists(store.Contents(), v, markets, now, ordered)
                                && targets == Batch(ordered, CursorOf(store.Contents()), maxCalledMarketsPerPass)
    {
      hide StringAtMost, Batch, Sort, Waiting;
      var ids: seq<string> := [];
      for i := 0 to |store.order|
        invariant Distinct(ids) && Gathered(store.Contents(), v, markets, now, ids, i)
      {
        var call := store.calls[store.order[i]];
        if Awaits(store.results, v, markets, now, call) && markets[call.marketId].venueMarketId !in ids {
          ids := ids + [markets[call.marketId].venueMarketId];
        }
      }
      var ordered := Sort(StringAtMost, ids);
      GatheredLists(store.Contents(), v, markets, now, ids);
      targets := Batch(ordered, CursorOf(store.Contents()), maxCalledMarketsPerPass);
    }

    /** Poll the targets one by one; the cursor moves once, after the last, and only if none broke the batch. */
    method PollTargets(targets: seq<string>, refresh: string -> Refresh) returns (polled: Polled, completed: bool)
      modifies store
      ensures completed <==> forall t | t in targets :: !refresh(t).Broken?
      ensures completed ==> polled.refreshed + polled.unavailable == |targets|
      ensures polled.recorded <= polled.refreshed && polled.unevidenced <= polled.refreshed
      ensures var l := old(store.Contents());
              store.Contents() == if completed && Advanced(targets, CursorOf(l)) != CursorOf(l)
                                  then Ledgers.SetCursor(l, PENDING_MARKET_CURSOR, Advanced(targets, CursorOf(l)))
                                      else l
      ensures CursorOf(store.Contents()) == if completed then Advanced(targets, CursorOf(old(store.Contents())))
                                            else CursorOf(old(store.Contents()))
    {
      polled := Polled(0, 0, 0, 0);
      for i := 0 to |targets|
        invariant forall j | 0 <= j < i :: !refresh(targets[j]).Broken?
        invariant polled.refreshed + polled.unavailable == i
        invariant polled.recorded <= polled.refreshed && polled.unevidenced <= polled.refreshed
        invariant store.Contents() == old(store.Contents())
      {
        match refresh(targets[i])
        case Refreshed(recorded, unevidenced) =>
          polled := polled.(refreshed := polled.refreshed + 1,
                            recorded := polled.recorded + (if recorded then 1 else 0),
                            unevidenced := polled.unevidenced + (if unevidenced then 1 else 0));
        case Unavailable => polled := polled.(unavailable := polled.unavailable + 1);
        case Broken => return polled, false;
      }
      if targets != [] {
        var last := targets[|targets| - 1];
        if last != "" && CursorOf(store.Contents()) != Some(last) {
          store.SetCursor(PENDING_MARKET_CURSOR, Some(last));
        }
      }
      completed := true;
    }
  }

  /** The ids waiting among the first `n` calls. */
  ghost predicate Gathered(l: Ledger, v: Venue, markets: map<Id, Market>, now: int, ids: seq<string>, n: nat)
    requires n <= |l.order| && forall id | id in l.order :: id in l.book.calls
  {
    forall x :: x in ids <==>
      exists j :: 0 <= j < n && Awaits(l.book.results, v, markets, now, l.book.calls[l.order[j]])
                  && markets[l.book.calls[l.order[j]].marketId].venueMarketId == x
  }

  lemma GatheredLists(l: Ledger, v: Venue, markets: map<Id, Market>, now: int, ids: seq<string>)
    requires (forall id | id in l.order :: id in l.book.calls) && Distinct(ids)
        && Gathered(l, v, markets, now, ids, |l.order|)
    ensures Lists(l, v, markets, now, Sort(StringAtMost, ids))
  {
    hide StringAtMost, Sort;
    SameElements(Sort(StringAtMost, ids), ids);
    StringsTotal();
    SortSorts(StringAtMost, ids);
    SortDistinct(StringAtMost, ids);
    forall x ensures x in ids <==> Waiting(l, v, markets, now, x) {
      if x in ids {
        var j :| 0 <= j < |l.order| && Awaits(l.book.results, v, markets, now, l.book.calls[l.order[j]])
                 && markets[l.book.calls[l.order[j]].marketId].venueMarketId == x;
        assert l.order[j] in l.order;
      }
    }
  }

  // ── the worker, over many passes ────────────────────────────────────────

  /** What a pass goes by when it draws up its list. */
  datatype Moment = Moment(ledger: Ledger, venue: Venue, markets: map<Id, Market>, now: int)

  /** The targets of a pass, as `PendingTargets` gives them. */
  function TargetsAt(m: Moment, pass: PollPass, k: nat): seq<string> { Batch(pass.ordered, CursorOf(m.ledger), k) }

  /**
   * Each pass draws up its list from the store, the venue and the markets as they then are,
   * and leaves the cursor as `PollTargets` does; nothing else moves the cursor.
   */
  ghost predicate WorkerRun(moments: seq<Moment>, passes: seq<PollPass>, k: nat) {
    && |moments| == |passes|
    && (forall i | 0 <= i < |passes| ::
          Lists(moments[i].ledger, moments[i].venue, moments[i].markets, moments[i].now, passes[i].ordered))
    && forall i | 0 < i < |passes| ::
         CursorOf(moments[i].ledger)
         == if passes[i - 1].completed
            then Advanced(TargetsAt(moments[i - 1], passes[i - 1], k), CursorOf(moments[i - 1].ledger))
            else CursorOf(moments[i - 1].ledger)
  }

  lemma {:induction false} CursorFollows(moments: seq<Moment>, passes: seq<PollPass>, k: nat, i: nat)
    requires WorkerRun(moments, passes, k) && i < |passes|
    ensures CursorOf(moments[i].ledger) == CursorAfter(CursorOf(moments[0].ledger), passes[..i], k)
  {
    hide Lists, Batch, Advanced;
    if i > 0 {
      CursorFollows(moments, passes, k, i - 1);
      assert passes[..i][..i - 1] == passes[..i - 1] && passes[..i][i - 1] == passes[i - 1];
    }
  }

  /**
   * A called Panta market that is closed and stays without a resolution is among the
   * targets of a completed pass, within the passes the fairness of the rotation allows,
   * whatever else is called, settled, opened and closed meanwhile.
   */
  lemma ClosedMarketIsPolled(moments: seq<Moment>, passes: seq<PollPass>, k: nat, all: set<string>, id: Id,
      target: string)
    requires 0 < k && passes != [] && WorkerRun(moments, passes, k) && target in all
    requires forall i | 0 <= i < |passes| :: forall x | x in passes[i].ordered :: x in all
    requires forall i | 0 <= i < |moments| ::
        var m := moments[i]; id in m.ledger.order && Unsettled(m.ledger, m.venue, m.markets, m.now, id, target)
    requires k * Moves(CursorOf(moments[0].ledger), passes, k) >= |all|
             || ("" !in all && k * Completed(passes) >= |all|)
    ensures exists i :: 0 <= i < |passes| && passes[i].completed && target in TargetsAt(moments[i], passes[i], k)
  {
    hide Moves, Completed, Unsettled, Waiting, CursorOf, Batch, CursorAfter;
    forall i | 0 <= i < |passes| ensures InOrder(passes[i].ordered) && target in passes[i].ordered {
      var m := moments[i];
      ListedAreStillOut(m.ledger, m.venue, m.markets, m.now, passes[i].ordered);
    }
    hide InOrder, Lists;
    PendingMarketIsPolled(CursorOf(moments[0].ledger), passes, k, all, target);
    var i :| 0 <= i < |passes| && PolledIn(CursorOf(moments[0].ledger), passes, k, target, i);
    CursorFollows(moments, passes, k, i);
  }
}
