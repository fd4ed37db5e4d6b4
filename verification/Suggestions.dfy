/**
 * Whom to follow: friends first, then people drawn from the board, the top calls and
 * the newest calls, nobody twice.
 */
module Suggestions {
  import opened Vocabulary
  import opened Ledgers
  import opened Markets
  import opened Service
  import opened Feed
  import opened Records
  import opened People
  import opened TopCalls
  import opened Sorting

  datatype Reason = FRIEND | RANKED | TOP_CALL | BUILDING | RECENT

  datatype Suggestion = Suggestion(person: Person, record: PublicRecord, latest: Option<Call>, reason: Reason)

  const BOARD_DEPTH: nat := 100
  const TOP_CALLS_DEPTH: nat := 20

  /** An account anonymised by deletion is never suggested. */
  predicate IsDeletedAccount(p: Person) {
    p.displayName == "Deleted account" && (p.handle == "" || "deleted_" <= p.handle)
  }

  predicate Excluded(l: Ledger, viewer: Option<Id>, hidden: set<Id>, userId: Id) {
    Some(userId) == viewer || userId in hidden || (viewer.Some? && (viewer.value, userId) in l.follows)
  }

  predicate StillOpen(desk: Desk, c: Call) {
    && OnRecord(desk.isPrivate, c) && c.marketId in desk.markets
    && AcceptsNewCalls(desk.markets[c.marketId], desk.now, desk.cutoff)
        && GetResolution(desk.venue, desk.markets[c.marketId].id).None?
  }

  /** The newest of somebody's calls in the list; the earlier of two locked together. */
  function Newest(rows: seq<Call>): Option<Call> {
    if rows == [] then None
    else
      var held, c := Newest(rows[..|rows| - 1]), rows[|rows| - 1];
      if held.None? || c.lockedAt > held.value.lockedAt then Some(c) else held
  }

  function LatestLiveCall(desk: Desk, l: Ledger, userId: Id): Option<Call> {
    Newest(Filter(LiveCalls(l.book.calls, l.order), (c: Call) => StillOpen(desk, c) && c.userId == userId))
  }

  function CardOf(desk: Desk, d: Directory, l: Ledger, userId: Id, reason: Reason): Suggestion
    requires userId in d.people
  {
    Suggestion(d.people[userId], RecordOf(AllTime(desk, l), ListCalls(l), userId), LatestLiveCall(desk, l, userId),
        reason)
  }

  /** Somebody with at least one counted call, known and not deleted. */
  predicate Suggestible(desk: Desk, d: Directory, l: Ledger, userId: Id) {
    var counts := RecordOf(AllTime(desk, l), ListCalls(l), userId).counts;
    counts.decided + counts.voided + counts.pending != 0 && userId in d.people && !IsDeletedAccount(d.people[userId])
  }

  function Tagged(ids: seq<Id>, reason: Reason): seq<(Id, Reason)> {
    seq(|ids|, i requires 0 <= i < |ids| => (ids[i], reason))
  }

  function RowIds(rows: seq<Row>): seq<Id> { seq(|rows|, i requires 0 <= i < |rows| => rows[i].person.id) }

  function TopIds(tops: seq<TopCall>): seq<Id> { seq(|tops|, i requires 0 <= i < |tops| => tops[i].author.id) }

  function CallerIds(calls: seq<Call>): seq<Id> { seq(|calls|, i requires 0 <= i < |calls| => calls[i].userId) }

  function Recent(desk: Desk, l: Ledger): seq<Call> {
    Sort(NotOlder, Filter(LiveCalls(l.book.calls, l.order), (c: Call) => OnRecord(desk.isPrivate, c)))
  }

  /** Everybody who might be suggested, best reason first. */
  function Sources(desk: Desk, d: Directory, l: Ledger, hidden: set<Id>): seq<(Id, Reason)> {
    Tagged(RowIds(PageFor(Ranked(AllTime(desk, l), d, ListCalls(l)), hidden, BOARD_DEPTH)), RANKED)
    + Tagged(TopIds(TopCallsOf(desk, d, l, None, hidden, TOP_CALLS_DEPTH)), TOP_CALL)
    + Tagged(RowIds(PageFor(Building(AllTime(desk, l), d, ListCalls(l)), hidden, BOARD_DEPTH)), BUILDING)
    + Tagged(CallerIds(Recent(desk, l)), RECENT)
  }

  datatype Offer = Offer(cards: seq<Suggestion>, seen: set<Id>)

  function AddFriend(desk: Desk, d: Directory, l: Ledger, viewer: Option<Id>, hidden: set<Id>, limit: nat, o: Offer,
      id: Id): Offer {
    if |o.cards| >= Markets.Max(1, limit) || id in o.seen || Excluded(l, viewer, hidden,
        id) || id !in d.people || IsDeletedAccount(d.people[id]) then o
    else Offer(o.cards + [CardOf(desk, d, l, id, FRIEND)], o.seen + {id})
  }

  function Friends(desk: Desk, d: Directory, l: Ledger, viewer: Option<Id>, hidden: set<Id>, limit: nat,
      ids: seq<Id>): Offer {
    if ids == [] || viewer.None? then Offer([], {})
    else AddFriend(desk, d, l, viewer, hidden, limit, Friends(desk, d, l, viewer, hidden, limit, ids[..|ids| - 1]),
        ids[|ids| - 1])
  }

  function Add(desk: Desk, d: Directory, l: Ledger, viewer: Option<Id>, hidden: set<Id>, limit: nat, o: Offer,
      source: (Id, Reason)): Offer {
    if |o.cards| >= limit || source.0 in o.seen || Excluded(l, viewer, hidden, source.0) || !Suggestible(desk, d, l,
        source.0) then o
    else Offer(o.cards + [CardOf(desk, d, l, source.0, source.1)], o.seen + {source.0})
  }

  function AddAll(desk: Desk, d: Directory, l: Ledger, viewer: Option<Id>, hidden: set<Id>, limit: nat, o: Offer,
      sources: seq<(Id, Reason)>): Offer {
    if sources == [] then o
    else Add(desk, d, l, viewer, hidden, limit, AddAll(desk, d, l, viewer, hidden, limit, o, sources[..|sources| - 1]),
        sources[|sources| - 1])
  }

  /**
   * The friends the viewer might follow, and the people. The board and the top
   * calls behind them are asked for with no viewer, so `d` here says which calls
   * count as funded for nobody in particular.
   */
  function Suggested(desk: Desk, d: Directory, l: Ledger, viewer: Option<Id>, hidden: set<Id>, limit: nat,
      friendIds: seq<Id>): (seq<Suggestion>, seq<Suggestion>) {
    var friends := Friends(desk, d, l, viewer, hidden, limit, friendIds);
    (friends.cards,
        AddAll(desk, d, l, viewer, hidden, limit, Offer([], friends.seen), Sources(desk, d, l, hidden)).cards)
  }

  /** `seen` holds everybody on a card, and nobody is on two. */
  ghost predicate NobodyTwice(d: Directory, o: Offer, before: set<Id>) {
    && (forall c | c in o.cards :: c.person.id in o.seen && c.person.id !in before)
    && before <= o.seen
    && forall i, j | 0 <= i < j < |o.cards| :: o.cards[i].person.id != o.cards[j].person.id
  }

  /**
   * Somebody worth offering: known, not a deleted account, neither the viewer nor followed
   * by them nor hidden from them.
   */
  predicate IsNewToTheViewer(d: Directory, l: Ledger, viewer: Option<Id>, hidden: set<Id>, id: Id) {
    && id in d.people && viewer != Some(id) && id !in hidden
    && (viewer.Some? ==> (viewer.value, id) !in l.follows)
    && !(d.people[id].displayName == "Deleted account"
         && (d.people[id].handle == "" || "deleted_" <= d.people[id].handle))
  }

  /** Somebody with a public free call to their name, whatever became of it. */
  predicate HasARecord(desk: Desk, l: Ledger, id: Id) {
    var counts := RecordOf(AllTime(desk, l), ListCalls(l), id).counts;
    counts.correct + counts.incorrect + counts.voided + counts.pending > 0
  }

  lemma OfferedIffNew(desk: Desk, d: Directory, l: Ledger, viewer: Option<Id>, hidden: set<Id>, id: Id)
    ensures !Excluded(l, viewer, hidden, id) && Suggestible(desk, d, l, id) <==>
        IsNewToTheViewer(d, l, viewer, hidden, id) && HasARecord(desk, l, id)
  {
    hide TallyOf, ListCalls;
  }

  /**
   * Nobody is on two cards, nor a friend already offered; everybody on one is new to the
   * viewer and has a record; the card is theirs; and there are no more than the limit.
   */
  ghost predicate WellOffered(desk: Desk, d: Directory, l: Ledger, viewer: Option<Id>, hidden: set<Id>, limit: nat,
      friends: set<Id>, o: Offer) {
    && NobodyTwice(d, o, friends) && |o.cards| <= limit
    && (forall c | c in o.cards ::
          && IsNewToTheViewer(d, l, viewer, hidden, c.person.id) && HasARecord(desk, l, c.person.id)
          && c.person == d.people[c.person.id] && c.latest == LatestLiveCall(desk, l, c.person.id)
          && c.record == RecordOf(AllTime(desk, l), ListCalls(l), c.person.id))
    && forall id | id in o.seen && id !in friends :: exists c :: c in o.cards && c.person.id == id
  }

  lemma OneMoreOffered(desk: Desk, d: Directory, l: Ledger, viewer: Option<Id>, hidden: set<Id>, limit: nat,
      friends: set<Id>, o: Offer, source: (Id, Reason))
    requires PeopleSound(d) && WellOffered(desk, d, l, viewer, hidden, limit, friends, o)
    ensures var o' := Add(desk, d, l, viewer, hidden, limit, o, source);
            && WellOffered(desk, d, l, viewer, hidden, limit, friends, o') && o.seen <= o'.seen
                && |o.cards| <= |o'.cards|
            && (IsNewToTheViewer(d, l, viewer, hidden, source.0) && HasARecord(desk, l, source.0) ==>
                  source.0 in o'.seen || |o'.cards| == limit)
  {
    OfferedIffNew(desk, d, l, viewer, hidden, source.0);
    assert IsNewToTheViewer(d, l, viewer, hidden, source.0) ==> source.0 in d.people;
    hide RecordOf, LatestLiveCall, Excluded, Suggestible, IsNewToTheViewer, HasARecord, ListCalls;
    var o' := Add(desk, d, l, viewer, hidden, limit, o, source);
    if o' != o {
      assert o'.cards[|o.cards|].person.id == source.0;
      assert forall c | c in o.cards :: c in o'.cards;
    }
  }

  /**
   * Nobody is suggested twice, nobody already offered as a friend, followed, hidden or
   * deleted, and never more than the limit; and nobody else is left out while there is room.
   */
  lemma {:induction false} NobodyIsSuggestedTwice(
      desk: Desk, d: Directory, l: Ledger, viewer: Option<Id>, hidden: set<Id>, limit: nat, friends: set<Id>,
          sources: seq<(Id, Reason)>)
    requires PeopleSound(d)
    ensures var o := AddAll(desk, d, l, viewer, hidden, limit, Offer([], friends), sources);
            && WellOffered(desk, d, l, viewer, hidden, limit, friends, o)
            && forall s | s in sources && IsNewToTheViewer(d, l, viewer, hidden, s.0) && HasARecord(desk, l, s.0) ::
                 s.0 in o.seen || |o.cards| == limit
  {
    hide Add, WellOffered, IsNewToTheViewer, HasARecord;
    if sources == [] {
      NothingOffered(desk, d, l, viewer, hidden, limit, friends);
    } else {
      var n := |sources| - 1;
      NobodyIsSuggestedTwice(desk, d, l, viewer, hidden, limit, friends, sources[..n]);
      assert sources == sources[..n] + [sources[n]];
      var before := AddAll(desk, d, l, viewer, hidden, limit, Offer([], friends), sources[..n]);
      OneMoreOffered(desk, d, l, viewer, hidden, limit, friends, before, sources[n]);
      AtMostTheLimit(desk, d, l, viewer, hidden, limit, friends,
          Add(desk, d, l, viewer, hidden, limit, before, sources[n]));
    }
  }

  lemma NothingOffered(desk: Desk, d: Directory, l: Ledger, viewer: Option<Id>, hidden: set<Id>, limit: nat,
      friends: set<Id>)
    ensures WellOffered(desk, d, l, viewer, hidden, limit, friends, Offer([], friends))
  {
  }

  lemma AtMostTheLimit(desk: Desk, d: Directory, l: Ledger, viewer: Option<Id>, hidden: set<Id>, limit: nat,
      friends: set<Id>, o: Offer)
    requires WellOffered(desk, d, l, viewer, hidden, limit, friends, o)
    ensures |o.cards| <= limit
  {
  }

  // ── friends ─────────────────────────────────────────────────────────────

  /**
   * Friends are offered with a record or without: those new to the viewer, each once, no
   * more than the limit, or one when it is zero; and none of them is left out while there is
   * room.
   */
  lemma {:induction false} FriendsAreNew(desk: Desk, d: Directory, l: Ledger, viewer: Option<Id>, hidden: set<Id>,
      limit: nat, ids: seq<Id>)
    requires PeopleSound(d)
    ensures var o := Friends(desk, d, l, viewer, hidden, limit, ids);
            && (viewer.None? ==> o.cards == [] && o.seen == {})
            && NobodyTwice(d, o, {}) && |o.cards| <= (if limit == 0 then 1 else limit)
            && (forall c | c in o.cards ::
                  c.person.id in ids && c.reason == FRIEND && IsNewToTheViewer(d, l, viewer, hidden, c.person.id))
            && (forall id | id in ids && viewer.Some? && IsNewToTheViewer(d, l, viewer, hidden, id) ::
                  id in o.seen || |o.cards| == (if limit == 0 then 1 else limit))
  {
    if ids != [] && viewer.Some? {
      var n := |ids| - 1;
      FriendsAreNew(desk, d, l, viewer, hidden, limit, ids[..n]);
      assert ids == ids[..n] + [ids[n]];
      var before := Friends(desk, d, l, viewer, hidden, limit, ids[..n]);
      assert !Excluded(l, viewer, hidden, ids[n]) && ids[n] in d.people && !IsDeletedAccount(d.people[ids[n]]) <==>
          IsNewToTheViewer(d, l, viewer, hidden, ids[n]);
      hide RecordOf, LatestLiveCall, Excluded, IsDeletedAccount, IsNewToTheViewer, ListCalls;
    }
  }

  // ── the order of the reasons ────────────────────────────────────────────

  /** Which reason comes first. */
  function Place(r: Reason): nat {
    match r case FRIEND => 0 case RANKED => 1 case TOP_CALL => 2 case BUILDING => 3 case RECENT => 4
  }

  ghost predicate InPlaces(reasons: seq<Reason>) {
    forall i, j | 0 <= i < j < |reasons| :: Place(reasons[i]) <= Place(reasons[j])
  }

  function Reasons(sources: seq<(Id, Reason)>): seq<Reason> {
    seq(|sources|, i requires 0 <= i < |sources| => sources[i].1)
  }

  function CardReasons(cards: seq<Suggestion>): seq<Reason> {
    seq(|cards|, i requires 0 <= i < |cards| => cards[i].reason)
  }

  lemma {:induction false} CardsKeepPlaces(
      desk: Desk, d: Directory, l: Ledger, viewer: Option<Id>, hidden: set<Id>, limit: nat, friends: set<Id>,
          sources: seq<(Id, Reason)>)
    requires InPlaces(Reasons(sources))
    ensures var o := AddAll(desk, d, l, viewer, hidden, limit, Offer([], friends), sources);
            InPlaces(CardReasons(o.cards)) && forall c | c in o.cards :: c.reason in Reasons(sources)
  {
    if sources != [] {
      var n := |sources| - 1;
      var reasons := Reasons(sources);
      assert Reasons(sources[..n]) == reasons[..n];
      CardsKeepPlaces(desk, d, l, viewer, hidden, limit, friends, sources[..n]);
      hide Excluded, Suggestible, RecordOf, LatestLiveCall, AddAll;
      var before := AddAll(desk, d, l, viewer, hidden, limit, Offer([], friends), sources[..n]);
      assert reasons[n] == sources[n].1;
      forall c | c in before.cards ensures Place(c.reason) <= Place(sources[n].1) && c.reason in reasons {
        var i :| 0 <= i < n && reasons[..n][i] == c.reason;
        assert reasons[i] == c.reason;
      }
      OneMorePlace(desk, d, l, viewer, hidden, limit, before, sources[n]);
    }
  }

  lemma OneMorePlace(desk: Desk, d: Directory, l: Ledger, viewer: Option<Id>, hidden: set<Id>, limit: nat, o: Offer,
      source: (Id, Reason))
    requires InPlaces(CardReasons(o.cards)) && forall c | c in o.cards :: Place(c.reason) <= Place(source.1)
    ensures var o' := Add(desk, d, l, viewer, hidden, limit, o, source);
            InPlaces(CardReasons(o'.cards)) && forall c | c in o'.cards :: c in o.cards || c.reason == source.1
  {
    hide Excluded, Suggestible, RecordOf, LatestLiveCall;
    assert forall i | 0 <= i < |o.cards| :: CardReasons(o.cards)[i] == o.cards[i].reason && o.cards[i] in o.cards;
  }

  /** The ranked come before the authors of top calls, these before those building a record, then the recent callers. */
  lemma ReasonsComeInOrder(desk: Desk, d: Directory, l: Ledger, viewer: Option<Id>, hidden: set<Id>, limit: nat,
      friendIds: seq<Id>)
    ensures InPlaces(CardReasons(Suggested(desk, d, l, viewer, hidden, limit, friendIds).1))
    ensures forall c | c in Suggested(desk, d, l, viewer, hidden, limit, friendIds).1 :: c.reason != FRIEND
  {
    hide Ranked, Building, TopCallsOf, Recent, PageFor, AddAll, Friends, ListCalls;
    var sources := Sources(desk, d, l, hidden);
    assert InPlaces(Reasons(sources)) && FRIEND !in Reasons(sources);
    CardsKeepPlaces(desk, d, l, viewer, hidden, limit, Friends(desk, d, l, viewer, hidden, limit, friendIds).seen,
        sources);
  }

  // ── the call on a card ──────────────────────────────────────────────────

  lemma {:induction false} NewestIs(rows: seq<Call>)
    ensures Newest(rows).None? <==> rows == []
    ensures Newest(rows).Some? ==> Newest(rows).value in rows
    ensures forall c | c in rows :: Newest(rows).Some? && Newest(rows).value.lockedAt >= c.lockedAt
  {
    if rows != [] { NewestIs(rows[..|rows| - 1]); }
  }

  /** A live public free call of theirs that can still be answered. */
  predicate OpenCallOf(desk: Desk, c: Call, userId: Id) {
    && c.userId == userId && c.hiddenAt.None? && c.visibility == PUBLIC && c.fundingState == NONE
    && !desk.isPrivate(c.id) && c.marketId in desk.markets
    && AcceptsNewCalls(desk.markets[c.marketId], desk.now, desk.cutoff) && desk.markets[c.marketId].id !in desk.venue
  }

  /** The call on a card is the person's newest that can still be answered; there is none only when they have none. */
  lemma LatestIsTheNewestOpenCall(desk: Desk, l: Ledger, userId: Id)
    requires Keyed(l)
    ensures var latest := LatestLiveCall(desk, l, userId);
            && (latest.Some? ==>
                  && latest.value.id in l.book.calls && l.book.calls[latest.value.id] == latest.value
                  && OpenCallOf(desk, latest.value, userId))
            && forall id | id in l.book.calls && OpenCallOf(desk, l.book.calls[id], userId) ::
                 latest.Some? && latest.value.lockedAt >= l.book.calls[id].lockedAt
  {
    hide AcceptsNewCalls;
    LiveCallsListed(l.book.calls, l.order);
    NewestIs(Filter(LiveCalls(l.book.calls, l.order), (c: Call) => StillOpen(desk, c) && c.userId == userId));
    hide LiveCalls, Newest, Filter;
  }
}
