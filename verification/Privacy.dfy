/**
 * A money call whose money has not landed is its owner's alone. The main
 * result compares two stores: one as it is, and one with private calls erased,
 * any of them that are not the viewer's. The viewer cannot tell them apart in
 * the feed, the crowd split, the public records or the top calls, and on the
 * leaderboard and in the suggestions only where a tie turns on an erased call.
 */
module Privacy {
  import opened Vocabulary
  import opened Ledgers
  import opened Markets
  import opened Service
  import opened Feed
  import opened Records
  import opened People
  import opened TopCalls
  import opened Suggestions
  import opened Sorting
  import opened Wilson

  /** The ledger without these calls and their results. */
  function Erase(l: Ledger, gone: Id -> bool): Ledger {
    l.(order := Left(l.order, gone),
       book := l.book.(calls := map id | id in l.book.calls && !gone(id) :: l.book.calls[id],
                       results := map id | id in l.book.results && !gone(id) :: l.book.results[id]))
  }

  function Left(order: seq<Id>, gone: Id -> bool): seq<Id> { Filter(order, (id: Id) => !gone(id)) }

  /** All of these calls are private. */
  ghost predicate Within(gone: Id -> bool, isPrivate: Id -> bool) { forall id :: gone(id) ==> isPrivate(id) }

  /** The viewer made none of them. */
  ghost predicate Outsider(l: Ledger, gone: Id -> bool, viewer: Option<Id>) {
    forall id | id in l.book.calls && gone(id) :: Some(l.book.calls[id].userId) != viewer
  }

  function Visible(gone: Id -> bool): Call -> bool { (c: Call) => !gone(c.id) }

  // ── filtering ───────────────────────────────────────────────────────────

  /** Filtering twice is filtering once when the second test implies the first. */
  lemma {:induction false} FilterThrough(s: seq<Call>, p: Call -> bool, q: Call -> bool)
    requires forall x | x in s && q(x) :: p(x)
    ensures Filter(Filter(s, p), q) == Filter(s, q)
  {
    if s != [] {
      assert s == [s[0]] + s[1..];
      assert s[0] in s && forall x | x in s[1..] :: x in s;
      FilterThrough(s[1..], p, q);
      var rest := Filter(s[1..], p);
      if p(s[0]) { assert ([s[0]] + rest)[1..] == rest; } else { assert Filter(s, p) == rest; }
    }
  }

  /** Two tests may be applied in either order. */
  lemma {:induction false} FilterSwaps(s: seq<Call>, p: Call -> bool, q: Call -> bool)
    ensures Filter(Filter(s, p), q) == Filter(Filter(s, q), p)
  {
    if s != [] {
      FilterSwaps(s[1..], p, q);
      var ps, qs := Filter(s[1..], p), Filter(s[1..], q);
      assert ([s[0]] + ps)[1..] == ps && ([s[0]] + qs)[1..] == qs;
      assert [] + ps == ps && [] + qs == qs;
    }
  }

  // ── the calls left ──────────────────────────────────────────────────────

  lemma FilterFirst<T(!new)>(x: T, s: seq<T>, keep: T -> bool)
    ensures Filter([x] + s, keep) == (if keep(x) then [x] else []) + Filter(s, keep)
  {
    assert ([x] + s)[1..] == s;
  }

  lemma ListFirst(calls: map<Id, Call>, id: Id, rest: seq<Id>)
    ensures CallsOf(calls, [id] + rest) == (if id in calls then [calls[id]] else []) + CallsOf(calls, rest)
    ensures LiveCalls(calls, [id] + rest) == (if id in calls
        && Live(calls[id]) then [calls[id]] else []) + LiveCalls(calls, rest)
  {
    assert ([id] + rest)[1..] == rest;
  }

  lemma EmptyFirst<T>(s: seq<T>)
    ensures [] + s == s
  {
  }

  lemma CallsLeftOne(l: Ledger, gone: Id -> bool, id: Id, rest: seq<Id>)
    requires id in l.book.calls ==> l.book.calls[id].id == id
    requires CallsOf(Erase(l, gone).book.calls, Left(rest, gone)) == Filter(CallsOf(l.book.calls, rest), Visible(gone))
    ensures CallsOf(Erase(l, gone).book.calls, Left([id] + rest, gone))
        == Filter(CallsOf(l.book.calls, [id] + rest), Visible(gone))
  {
    FilterFirst(id, rest, (x: Id) => !gone(x));
    ListFirst(l.book.calls, id, rest);
    ListFirst(Erase(l, gone).book.calls, id, Left(rest, gone));
    if id in l.book.calls { FilterFirst(l.book.calls[id], CallsOf(l.book.calls, rest), Visible(gone)); }
    EmptyFirst(CallsOf(l.book.calls, rest));
    EmptyFirst(Left(rest, gone));
    EmptyFirst(Filter(CallsOf(l.book.calls, rest), Visible(gone)));
    hide Filter, CallsOf;
  }

  lemma LiveCallsLeftOne(l: Ledger, gone: Id -> bool, id: Id, rest: seq<Id>)
    requires id in l.book.calls ==> l.book.calls[id].id == id
    requires LiveCalls(Erase(l, gone).book.calls, Left(rest, gone))
        == Filter(LiveCalls(l.book.calls, rest), Visible(gone))
    ensures LiveCalls(Erase(l, gone).book.calls, Left([id] + rest, gone))
        == Filter(LiveCalls(l.book.calls, [id] + rest), Visible(gone))
  {
    FilterFirst(id, rest, (x: Id) => !gone(x));
    ListFirst(l.book.calls, id, rest);
    ListFirst(Erase(l, gone).book.calls, id, Left(rest, gone));
    if id in l.book.calls { FilterFirst(l.book.calls[id], LiveCalls(l.book.calls, rest), Visible(gone)); }
    EmptyFirst(LiveCalls(l.book.calls, rest));
    EmptyFirst(Left(rest, gone));
    EmptyFirst(Filter(LiveCalls(l.book.calls, rest), Visible(gone)));
    hide Filter, LiveCalls;
  }

  lemma {:induction false} CallsLeft(l: Ledger, gone: Id -> bool, order: seq<Id>)
    requires forall id | id in l.book.calls :: l.book.calls[id].id == id
    ensures CallsOf(Erase(l, gone).book.calls, Left(order, gone)) == Filter(CallsOf(l.book.calls, order), Visible(gone))
    ensures LiveCalls(Erase(l, gone).book.calls, Left(order, gone))
        == Filter(LiveCalls(l.book.calls, order), Visible(gone))
  {
    if order != [] {
      assert order == [order[0]] + order[1..];
      CallsLeft(l, gone, order[1..]);
      hide Filter, CallsOf, LiveCalls, Left, Erase;
      CallsLeftOne(l, gone, order[0], order[1..]);
      LiveCallsLeftOne(l, gone, order[0], order[1..]);
    }
  }

  // ── the feed ────────────────────────────────────────────────────────────

  lemma ErasedLists(l: Ledger, gone: Id -> bool)
    requires Keyed(l)
    ensures var l' := Erase(l, gone);
            && ListCalls(l') == Filter(ListCalls(l), Visible(gone))
            && LiveCalls(l'.book.calls, l'.order) == Filter(LiveCalls(l.book.calls, l.order), Visible(gone))
  {
    CallsLeft(l, gone, l.order);
  }

  lemma LiveCallsKnown(l: Ledger)
    requires Keyed(l)
    ensures forall c | c in LiveCalls(l.book.calls, l.order) ::
        c.id in l.book.calls && l.book.calls[c.id] == c && Live(c)
  {
    LiveCallsListed(l.book.calls, l.order);
  }

  lemma FeedUnmoved(l: Ledger, gone: Id -> bool, v: View)
    requires Keyed(l) && Within(gone, v.isPrivate) && Outsider(l, gone, v.viewer)
    ensures FeedRows(Erase(l, gone), v) == FeedRows(l, v)
  {
    hide LiveCalls, Filter, Sort, NotOlder, Keyed;
    ErasedLists(l, gone);
    LiveCallsKnown(l);
    FilterThrough(LiveCalls(l.book.calls, l.order), Visible(gone), (c: Call) => Shows(l.follows, v, c));
  }

  /** The viewer's own live call on a market: their calls are all still there. */
  lemma {:induction false} OwnCallsLeft(l: Ledger, gone: Id -> bool, order: seq<Id>, viewer: Id, marketId: Id)
    requires Outsider(l, gone, Some(viewer))
    ensures FirstLive(Erase(l, gone).book.calls, Left(order, gone), viewer, marketId)
        == FirstLive(l.book.calls, order, viewer, marketId)
  {
    if order != [] {
      assert order == [order[0]] + order[1..];
      FilterFirst(order[0], order[1..], (x: Id) => !gone(x));
      OwnCallsLeft(l, gone, order[1..], viewer, marketId);
      hide Filter;
      EmptyFirst(Left(order[1..], gone));
      assert ([order[0]] + Left(order[1..], gone))[1..] == Left(order[1..], gone);
    }
  }

  /** One feed entry, but for the author's own totals. */
  datatype Entry = Entry(call: Call, result: Option<CallResult>, backs: nat, fades: nat, viewerHasCalled: bool)

  function EntryOf(l: Ledger, viewer: Option<Id>, c: Call): Entry {
    Entry(c, if c.id in l.book.results then Some(l.book.results[c.id]) else None,
          |OfKind(l.book.responses, c.id, BACK)|, |OfKind(l.book.responses, c.id, FADE)|,
              HasCalled(l, viewer, c.marketId))
  }

  /**
   * An entry gives the call's result, how many back and fade it, and whether the viewer
   * is on its market themselves.
   */
  lemma EntrySaysOf(l: Ledger, viewer: Option<Id>, c: Call)
    requires Listed(l)
    ensures var e := EntryOf(l, viewer, c);
            && e.call == c
            && (if c.id in l.book.results then e.result == Some(l.book.results[c.id]) else e.result.None?)
            && e.backs == |set id | id in l.book.responses && l.book.responses[id].targetCallId == c.id
                                    && l.book.responses[id].kind == BACK|
            && e.fades == |set id | id in l.book.responses && l.book.responses[id].targetCallId == c.id
                                    && l.book.responses[id].kind == FADE|
            && (e.viewerHasCalled <==>
                  exists id :: id in l.book.calls && Some(l.book.calls[id].userId) == viewer
                               && l.book.calls[id].marketId == c.marketId && l.book.calls[id].hiddenAt.None?)
  {
    if viewer.Some? { NoLiveCallIff(l, viewer.value, c.marketId); }
    hide FirstLive;
  }

  /** A feed page's entries say the same of every call they show. */
  lemma EntryUnmoved(l: Ledger, gone: Id -> bool, viewer: Option<Id>, c: Call)
    requires Outsider(l, gone, viewer) && !gone(c.id)
    ensures EntryOf(Erase(l, gone), viewer, c) == EntryOf(l, viewer, c)
  {
    if viewer.Some? { OwnCallsLeft(l, gone, l.order, viewer.value, c.marketId); }
    hide FirstLive, Filter, OfKind;
  }

  // ── the crowd split ─────────────────────────────────────────────────────

  datatype CrowdSplit = CrowdSplit(yesCalls: nat, noCalls: nat)

  function SplitOf(isPrivate: Id -> bool, calls: seq<Call>): CrowdSplit {
    if calls == [] then CrowdSplit(0, 0)
    else
      var before, c := SplitOf(isPrivate, calls[..|calls| - 1]), calls[|calls| - 1];
      Count(isPrivate, before, c)
  }

  function CrowdSplitOf(l: Ledger, isPrivate: Id -> bool, marketId: Id): CrowdSplit {
    SplitOf(isPrivate, Filter(LiveCalls(l.book.calls, l.order), (c: Call) => c.marketId == marketId))
  }

  function Count(isPrivate: Id -> bool, before: CrowdSplit, c: Call): CrowdSplit {
    if isPrivate(c.id) then before
    else if c.side == YES then before.(yesCalls := before.yesCalls + 1) else before.(noCalls := before.noCalls + 1)
  }

  lemma SplitLast(isPrivate: Id -> bool, calls: seq<Call>, c: Call)
    ensures SplitOf(isPrivate, calls + [c]) == Count(isPrivate, SplitOf(isPrivate, calls), c)
  {
    assert (calls + [c])[..|calls|] == calls;
  }

  /** One more call on the market that is not private adds one to its own side of the split. */
  lemma OneMoreCallSplits(isPrivate: Id -> bool, calls: seq<Call>, c: Call)
    ensures SplitOf(isPrivate, []) == CrowdSplit(0, 0)
    ensures var before, after := SplitOf(isPrivate, calls), SplitOf(isPrivate, calls + [c]);
            && after.yesCalls == before.yesCalls + (if c.side == YES && !isPrivate(c.id) then 1 else 0)
            && after.noCalls == before.noCalls + (if c.side == NO && !isPrivate(c.id) then 1 else 0)
  {
    SplitLast(isPrivate, calls, c);
  }

  lemma {:induction false} SplitSkips(isPrivate: Id -> bool, gone: Id -> bool, calls: seq<Call>)
    requires Within(gone, isPrivate)
    ensures SplitOf(isPrivate, Filter(calls, Visible(gone))) == SplitOf(isPrivate, calls)
  {
    if calls == [] {
      assert Filter(calls, Visible(gone)) == [];
    } else {
      hide SplitOf;
      var before, c := calls[..|calls| - 1], calls[|calls| - 1];
      assert calls == before + [c];
      SplitSkips(isPrivate, gone, before);
      FilterLast(before, c, Visible(gone));
      var kept := Filter(before, Visible(gone));
      hide Filter;
      SplitLast(isPrivate, before, c);
      SplitLast(isPrivate, kept, c);
      if gone(c.id) { assert kept + [] == kept; }
    }
  }

  lemma CrowdSplitUnmoved(l: Ledger, isPrivate: Id -> bool, gone: Id -> bool, marketId: Id)
    requires Keyed(l) && Within(gone, isPrivate)
    ensures CrowdSplitOf(Erase(l, gone), isPrivate, marketId) == CrowdSplitOf(l, isPrivate, marketId)
  {
    hide LiveCalls, Filter, SplitOf, Keyed;
    var onMarket := (c: Call) => c.marketId == marketId;
    ErasedLists(l, gone);
    FilterSwaps(LiveCalls(l.book.calls, l.order), Visible(gone), onMarket);
    SplitSkips(isPrivate, gone, Filter(LiveCalls(l.book.calls, l.order), onMarket));
  }

  // ── the records ─────────────────────────────────────────────────────────

  /** The same window over the results that are left. */
  function ErasedScope(s: Scope, gone: Id -> bool): Scope {
    s.(results := map id | id in s.results && !gone(id) :: s.results[id])
  }

  /** None of the erased calls is on anybody's record. */
  ghost predicate OffRecord(gone: Id -> bool, isPrivate: Id -> bool, calls: seq<Call>) {
    forall c | c in calls && gone(c.id) :: !OnRecord(isPrivate, c)
  }

  lemma FoldSkips(s: Scope, gone: Id -> bool, t: Tally, c: Call)
    requires gone(c.id) ==> !OnRecord(s.isPrivate, c)
    ensures if gone(c.id) then Fold(s, t, c) == t else Fold(ErasedScope(s, gone), t, c) == Fold(s, t, c)
  {
  }

  lemma TallyOfNone(s: Scope, gone: Id -> bool)
    ensures TallyAll(s, Filter([], Visible(gone))) == TallyAll(s, [])
    ensures TallyAll(ErasedScope(s, gone), []) == TallyAll(s, [])
  {
  }

  lemma {:induction false} TallySkips(s: Scope, gone: Id -> bool, calls: seq<Call>)
    requires OffRecord(gone, s.isPrivate, calls)
    ensures TallyAll(ErasedScope(s, gone), Filter(calls, Visible(gone))) == TallyAll(s, calls)
  {
    hide Fold, Filter, TallyAll, ErasedScope, OnRecord;
    if calls == [] {
      assert Filter(calls, Visible(gone)) == [];
      TallyOfNone(s, gone);
    } else {
      var before, c := calls[..|calls| - 1], calls[|calls| - 1];
      assert calls == before + [c];
      assert c in calls && forall x | x in before :: x in calls;
      TallySkips(s, gone, before);
      FilterLast(before, c, Visible(gone));
      var kept := Filter(before, Visible(gone));
      TallyLast(s, before, c);
      TallyLast(ErasedScope(s, gone), kept, c);
      FoldSkips(s, gone, TallyAll(s, before), c);
      assert kept + [] == kept;
    }
  }

  lemma RecordSkips(s: Scope, gone: Id -> bool, calls: seq<Call>, userId: Id)
    requires OffRecord(gone, s.isPrivate, calls)
    ensures RecordOf(ErasedScope(s, gone), Filter(calls, Visible(gone)), userId) == RecordOf(s, calls, userId)
  {
    hide Filter, TallyAll, RecordFrom, OnRecord;
    FilterSwaps(calls, Visible(gone), By(userId));
    TallySkips(s, gone, Filter(calls, By(userId)));
  }

  /** Everybody's public record, in any window, is what it would be without the private calls. */
  lemma RecordUnmoved(s: Scope, gone: Id -> bool, calls: seq<Call>, userId: Id)
    requires Within(gone, s.isPrivate)
    ensures RecordOf(ErasedScope(s, gone), Filter(calls, Visible(gone)), userId) == RecordOf(s, calls, userId)
  {
    hide Filter, RecordOf, ErasedScope;
    RecordSkips(s, gone, calls, userId);
  }

  /** Nor does it tell of followers-only calls, or of those that carry money. */
  lemma RecordTellsOfPublicFreeCalls(s: Scope, gone: Id -> bool, calls: seq<Call>, userId: Id)
    requires forall c | c in calls && gone(c.id) :: c.visibility == FOLLOWERS || c.fundingState == FUNDED
    ensures RecordOf(ErasedScope(s, gone), Filter(calls, Visible(gone)), userId) == RecordOf(s, calls, userId)
  {
    hide Filter, RecordOf, ErasedScope;
    RecordSkips(s, gone, calls, userId);
  }

  // ── the leaderboard ─────────────────────────────────────────────────────

  lemma RowUnmoved(s: Scope, gone: Id -> bool, d: Directory, calls: seq<Call>, userId: Id)
    requires Within(gone, s.isPrivate)
    ensures RowFor(ErasedScope(s, gone), d, Filter(calls, Visible(gone)), userId) == RowFor(s, d, calls, userId)
  {
    hide Filter, RecordOf, ErasedScope;
    assert ErasedScope(s, gone).isPrivate == s.isPrivate && ErasedScope(s, gone).since == s.since by {
      ErasedWindow(s, gone);
    }
    RecordUnmoved(s, gone, calls, userId);
    FilterThrough(calls, Visible(gone), (c: Call) => CountsFunded(s.isPrivate, d, s.since, c) && c.userId == userId);
  }

  lemma ErasedWindow(s: Scope, gone: Id -> bool)
    ensures ErasedScope(s, gone).isPrivate == s.isPrivate && ErasedScope(s, gone).since == s.since
  {
  }

  /**
   * What ties over everything the order compares, the handle included, is told
   * apart by whose first call came first; this says that the private calls
   * decide that for no two rows that tie.
   */
  ghost predicate TiesKeepTheirOrder(s: Scope, gone: Id -> bool, d: Directory, calls: seq<Call>, le: (Row, Row) -> bool,
      keep: Row -> bool) {
    var left := Filter(calls, Visible(gone));
    forall x, y | x in Standings(s, d, calls, keep) && y in Standings(s, d, calls, keep) && Tie(le, x, y) ::
      CameFirst(left, x.person.id, y.person.id) <==> CameFirst(calls, x.person.id, y.person.id)
  }

  /** On the whole board: among those ranked, and among those not yet. */
  ghost predicate BoardKeepsItsOrder(s: Scope, gone: Id -> bool, d: Directory, calls: seq<Call>) {
    TiesKeepTheirOrder(s, gone, d, calls, NoWorse, Eligible)
        && TiesKeepTheirOrder(s, gone, d, calls, NoThinner, NotYetEligible)
  }

  /** The same rows stand, whoever's first call was private. */
  lemma SameStandings(s: Scope, gone: Id -> bool, d: Directory, calls: seq<Call>, keep: Row -> bool)
    requires Within(gone, s.isPrivate)
    requires PeopleSound(d)
    ensures var a, b := Standings(ErasedScope(s, gone), d, Filter(calls, Visible(gone)), keep),
        Standings(s, d, calls, keep);
            Distinct(a) && Distinct(b) && multiset(a) == multiset(b)
  {
    hide Standings, RowFor, ErasedScope, Filter, PeopleSound, Distinct;
    var left := Filter(calls, Visible(gone));
    var a, b := Standings(ErasedScope(s, gone), d, left, keep), Standings(s, d, calls, keep);
    StandingsAre(ErasedScope(s, gone), d, left, keep);
    StandingsAre(s, d, calls, keep);
    forall r ensures r in a <==> r in b { RowUnmoved(s, gone, d, calls, r.person.id); }
    SameBag(a, b);
  }

  lemma OrderUnmovedIff(s: Scope, gone: Id -> bool, d: Directory, calls: seq<Call>, le: (Row, Row) -> bool,
      keep: Row -> bool)
    requires Within(gone, s.isPrivate)
    requires PeopleSound(d) && TotalOrder(le)
    ensures var left := Filter(calls, Visible(gone));
            Sort(le, Standings(ErasedScope(s, gone), d, left, keep)) == Sort(le, Standings(s, d, calls, keep))
            <==> TiesKeepTheirOrder(s, gone, d, calls, le, keep)
  {
    hide Standings, RowFor, ErasedScope, Sort, Filter, PeopleSound, Distinct, Before, CameFirst, TotalOrder, Tie;
    var left := Filter(calls, Visible(gone));
    var a, b := Standings(ErasedScope(s, gone), d, left, keep), Standings(s, d, calls, keep);
    SameStandings(s, gone, d, calls, keep);
    SameElements(a, b);
    SortsAlikeIff(le, a, b);
    forall x, y | x in a && y in a && x != y
      ensures Before(a, x, y) <==> CameFirst(left, x.person.id, y.person.id)
      ensures Before(b, x, y) <==> CameFirst(calls, x.person.id, y.person.id)
    {
      StandingsInOrder(ErasedScope(s, gone), d, left, keep, x, y);
      StandingsInOrder(s, d, calls, keep, x, y);
    }
    TiesDiffer(le);
  }

  lemma TiesDiffer(le: (Row, Row) -> bool)
    ensures forall x, y | Tie(le, x, y) :: x != y
  {
  }

  lemma NumberedAlike(a: seq<Row>, b: seq<Row>)
    requires forall r | r in a + b :: r.rank.None?
    ensures Numbered(a, 1) == Numbered(b, 1) <==> a == b
  {
    hide Numbered;
    var na, nb := Numbered(a, 1), Numbered(b, 1);
    if na == nb {
      assert |a| == |na| == |nb| == |b|;
      forall i | 0 <= i < |a| ensures a[i] == b[i] {
        assert a[i] in a + b && b[i] in a + b && na[i] == nb[i];
        assert na[i].(rank := None) == a[i] && nb[i].(rank := None) == b[i];
      }
    }
  }

  /**
   * Ranks, rows and order: the board is what it would be without the private
   * calls, for everybody, exactly when no tie turns on one.
   */
  lemma BoardUnmovedIff(s: Scope, gone: Id -> bool, d: Directory, calls: seq<Call>)
    requires Within(gone, s.isPrivate)
    requires PeopleSound(d)
    ensures Ranked(ErasedScope(s, gone), d, Filter(calls, Visible(gone))) == Ranked(s, d, calls)
            <==> TiesKeepTheirOrder(s, gone, d, calls, NoWorse, Eligible)
    ensures Building(ErasedScope(s, gone), d, Filter(calls, Visible(gone))) == Building(s, d, calls)
            <==> TiesKeepTheirOrder(s, gone, d, calls, NoThinner, NotYetEligible)
  {
    hide NoWorse, NoThinner, Standings, ErasedScope, Sort, Filter, Numbered, PeopleSound, TiesKeepTheirOrder, RowFor,
        Eligible;
    var left := Filter(calls, Visible(gone));
    NoWorseTotal();
    OrderUnmovedIff(s, gone, d, calls, NoWorse, Eligible);
    OrderUnmovedIff(s, gone, d, calls, NoThinner, NotYetEligible);
    var a, b := InOrder(ErasedScope(s, gone), d, left), InOrder(s, d, calls);
    forall r: Row | r in a + b ensures r.rank.None? {
      InOrderRow(ErasedScope(s, gone), d, left, r);
      InOrderRow(s, d, calls, r);
    }
    NumberedAlike(a, b);
  }

  /** With a handle each nothing ties. */
  lemma DistinctHandlesSuffice(s: Scope, gone: Id -> bool, d: Directory, calls: seq<Call>)
    requires PeopleSound(d) && HandlesDistinct(d)
    ensures BoardKeepsItsOrder(s, gone, d, calls)
  {
    hide NoWorse, NoThinner, Standings, RowFor, CameFirst, Wrote, Eligible;
    TiesShareAHandle();
    StandingsAre(s, d, calls, Eligible);
    StandingsAre(s, d, calls, NotYetEligible);
    forall x: Row, y: Row | x.person.id in d.people && y.person.id in d.people && x != y &&
                  RowFor(s, d, calls, x.person.id) == Some(x) && RowFor(s, d, calls, y.person.id) == Some(y)
      ensures x.person.handle != y.person.handle
    {
      RowIsTheirs(s, d, calls, x.person.id);
      PersonOf(s, d, calls, x.person.id);
      PersonOf(s, d, calls, y.person.id);
    }
  }

  lemma PersonOf(s: Scope, d: Directory, calls: seq<Call>, u: Id)
    requires RowFor(s, d, calls, u).Some?
    ensures u in d.people && RowFor(s, d, calls, u).value.person == d.people[u]
  {
  }

  lemma TiesShareAHandle()
    ensures forall a, b :: NoWorse(a, b) && NoWorse(b, a) ==> a.person.handle == b.person.handle
    ensures forall a, b :: NoThinner(a, b) && NoThinner(b, a) ==> a.person.handle == b.person.handle
  {
    StringsTotal();
    hide StringAtMost;
  }

  // ── a private call that shows in a tie ──────────────────────────────────

  function Made(id: Id, userId: Id): Call {
    Call(id, userId, "m", YES, None, None, None, None, None, PUBLIC, 0, 0, None, NONE, None, None)
  }

  function Right(callId: Id): CallResult { CallResult(callId, CORRECT, Some(FOR_YES), Some(1), Some("r"), 1) }

  /** Ada's first call is private; then bo and ada have one correct public call each. */
  function TwoOfAKind(): (Scope, seq<Call>) {
    (Scope((id: Id) => id == "a0", map["b1" := Right("b1"), "a1" := Right("a1")], None),
        [Made("a0", "ada"), Made("b1", "bo"), Made("a1", "ada")])
  }

  lemma OneCorrect(s: Scope, rows: seq<Call>, userId: Id, own: Call)
    requires s.since.None? && OnRecord(s.isPrivate, own) && OutcomeOf(s.results, own) == CORRECT
    requires Filter(rows, By(userId)) == [own]
    ensures RecordOf(s, rows, userId).counts.decided == 1
  {
    assert [own][..0] == [];
    assert TallyAll(s, []) == EMPTY_TALLY;
    assert TallyAll(s, [own]) == Fold(s, EMPTY_TALLY, own);
  }

  lemma OwnOfTwo()
    ensures var left := [Made("b1", "bo"), Made("a1", "ada")];
            && Filter(TwoOfAKind().1, Visible(TwoOfAKind().0.isPrivate)) == left
            && Filter(left, By("ada")) == [Made("a1", "ada")] && Filter(left, By("bo")) == [Made("b1", "bo")]
  {
    var a0, b1, a1 := Made("a0", "ada"), Made("b1", "bo"), Made("a1", "ada");
    var seen := Visible(TwoOfAKind().0.isPrivate);
    assert [a0, b1, a1][1..] == [b1, a1] && [b1, a1][1..] == [a1] && [a1][1..] == [];
    assert "ada" != "bo" by { assert |"ada"| != |"bo"|; }
    assert Filter([a1], seen) == [a1] && Filter([a1], By("ada")) == [a1] && Filter([a1], By("bo")) == [];
    assert Filter([b1, a1], seen) == [b1, a1] && Filter([b1, a1], By("ada")) == [a1]
        && Filter([b1, a1], By("bo")) == [b1];
  }

  lemma FirstOfTwo()
    ensures var (s, calls) := TwoOfAKind();
            CameFirst(calls, "ada", "bo") && !CameFirst(Filter(calls, Visible(s.isPrivate)), "ada", "bo")
  {
    OwnOfTwo();
    var calls := TwoOfAKind().1;
    assert |"ada"| != |"bo"|;
    assert calls[0].userId == "ada" && forall k | 0 <= k <= 0 :: calls[k].userId != "bo";
  }

  /**
   * A board that moves. Two people share a handle and have one correct call
   * each; the first of them also made a private call before either. Erasing it
   * swaps their rows, so the order of two equal rows tells everybody who had
   * called first.
   */
  lemma SharedHandleShowsAPrivateCall(d: Directory, handle: string)
    requires PeopleSound(d) && "ada" in d.people && "bo" in d.people
        && d.people["ada"].handle == d.people["bo"].handle == handle
    ensures var (s, calls) := TwoOfAKind();
            Building(ErasedScope(s, s.isPrivate), d, Filter(calls, Visible(s.isPrivate))) != Building(s, d, calls)
  {
    hide Building, Filter, WilsonLowerBound, FundedCalls, NoThinner, Standings;
    var (s, calls) := TwoOfAKind();
    BoardUnmovedIff(s, s.isPrivate, d, calls);
    FirstOfTwo();
    TwoTie(d);
    StandingsAre(s, d, calls, NotYetEligible);
    hide CameFirst, RowFor;
    var x, y := RowFor(s, d, calls, "ada").value, RowFor(s, d, calls, "bo").value;
    assert x in Standings(s, d, calls, NotYetEligible) && y in Standings(s, d, calls, NotYetEligible);
  }

  lemma TwoTie(d: Directory)
    requires PeopleSound(d) && "ada" in d.people && "bo" in d.people && d.people["ada"].handle == d.people["bo"].handle
    ensures var (s, calls) := TwoOfAKind();
            && RowFor(s, d, calls, "ada").Some? && RowFor(s, d, calls, "bo").Some?
            && var (x, y) := (RowFor(s, d, calls, "ada").value, RowFor(s, d, calls, "bo").value);
            x.person.id == "ada" && y.person.id == "bo" && NotYetEligible(x) && NotYetEligible(y)
                && Tie(NoThinner, x, y)
  {
    hide Filter, WilsonLowerBound, FundedCalls, RecordOf;
    var (s, calls) := TwoOfAKind();
    OwnOfTwo();
    var left := Filter(calls, Visible(s.isPrivate));
    OneCorrect(ErasedScope(s, s.isPrivate), left, "ada", Made("a1", "ada"));
    OneCorrect(ErasedScope(s, s.isPrivate), left, "bo", Made("b1", "bo"));
    RecordUnmoved(s, s.isPrivate, calls, "ada");
    RecordUnmoved(s, s.isPrivate, calls, "bo");
    assert |"ada"| != |"bo"|;
  }

  // ── the top calls ───────────────────────────────────────────────────────

  lemma ErasedAllTime(desk: Desk, gone: Id -> bool, l: Ledger)
    ensures AllTime(desk, Erase(l, gone)) == ErasedScope(AllTime(desk, l), gone)
        && AllTime(desk, l).isPrivate == desk.isPrivate
  {
  }

  lemma ErasedRest(l: Ledger, gone: Id -> bool)
    ensures Erase(l, gone).follows == l.follows && Erase(l, gone).book.responses == l.book.responses
  {
  }

  lemma LedgerRecordUnmoved(desk: Desk, gone: Id -> bool, l: Ledger, userId: Id)
    requires Within(gone, desk.isPrivate)
    requires Keyed(l)
    ensures var l' := Erase(l, gone);
            RecordOf(AllTime(desk, l'), ListCalls(l'), userId) == RecordOf(AllTime(desk, l), ListCalls(l), userId)
  {
    hide RecordOf, ErasedScope, Filter, Keyed, ListCalls, Erase, AllTime;
    ErasedLists(l, gone);
    ErasedAllTime(desk, gone, l);
    RecordUnmoved(AllTime(desk, l), gone, ListCalls(l), userId);
  }

  lemma CandidatesUnmoved(desk: Desk, gone: Id -> bool, d: Directory, l: Ledger, viewer: Option<Id>, hidden: set<Id>)
    requires Within(gone, desk.isPrivate)
    requires Keyed(l)
    ensures Candidates(desk, d, Erase(l, gone), viewer, hidden) == Candidates(desk, d, l, viewer, hidden)
  {
    hide RecordOf, Filter, Keyed, ListCalls, Erase, AllTime, LiveCalls, Sort, NoLess;
    var l' := Erase(l, gone);
    var answerable := (c: Call) => Answerable(desk, viewer, hidden, c);
    ErasedLists(l, gone);
    ErasedRest(l, gone);
    FilterThrough(LiveCalls(l.book.calls, l.order), Visible(gone), answerable);
    var open := Filter(LiveCalls(l.book.calls, l.order), answerable);
    hide Answerable;
    forall i | 0 <= i < |open| ensures CandidateOf(desk, d, l', open[i]) == CandidateOf(desk, d, l, open[i]) {
      LedgerRecordUnmoved(desk, gone, l, open[i].userId);
    }
    assert CandidatesOf(desk, d, l', open) == CandidatesOf(desk, d, l, open);
  }

  lemma TopCallsUnmoved(desk: Desk, gone: Id -> bool, d: Directory, l: Ledger, viewer: Option<Id>, hidden: set<Id>,
      limit: nat)
    requires Within(gone, desk.isPrivate)
    requires Keyed(l) && Outsider(l, gone, viewer)
    ensures TopCallsOf(desk, d, Erase(l, gone), viewer, hidden, limit) == TopCallsOf(desk, d, l, viewer, hidden, limit)
  {
    hide Candidates, Picked, RecordOf, OfKind, Keyed, Erase, ListCalls, AllTime, HasCalled, Outsider;
    var l' := Erase(l, gone);
    CandidatesUnmoved(desk, gone, d, l, viewer, hidden);
    ErasedRest(l, gone);
    var picks := TopPicks(desk, d, l, viewer, hidden, limit);
    assert picks == TopPicks(desk, d, l', viewer, hidden, limit);
    hide TopPicks;
    forall i | 0 <= i < |picks|
        ensures EntryFor(desk, d, l', viewer, picks[i]) == EntryFor(desk, d, l, viewer, picks[i]) {
      assert picks[i] in picks;
      LedgerRecordUnmoved(desk, gone, l, picks[i].call.userId);
      CalledUnmoved(l, gone, viewer, picks[i].call.marketId);
    }
  }

  lemma CalledUnmoved(l: Ledger, gone: Id -> bool, viewer: Option<Id>, marketId: Id)
    requires Outsider(l, gone, viewer)
    ensures HasCalled(Erase(l, gone), viewer, marketId) == HasCalled(l, viewer, marketId)
  {
    if viewer.Some? { OwnCallsLeft(l, gone, l.order, viewer.value, marketId); }
    hide FirstLive, Filter;
  }

  // ── the suggestions ─────────────────────────────────────────────────────

  lemma LatestUnmoved(desk: Desk, gone: Id -> bool, l: Ledger, userId: Id)
    requires Within(gone, desk.isPrivate)
    requires Keyed(l)
    ensures LatestLiveCall(desk, Erase(l, gone), userId) == LatestLiveCall(desk, l, userId)
  {
    hide Filter, Keyed, LiveCalls, Newest, Erase, AcceptsNewCalls;
    ErasedLists(l, gone);
    FilterThrough(LiveCalls(l.book.calls, l.order), Visible(gone), (c: Call) =>
        StillOpen(desk, c) && c.userId == userId);
  }

  lemma RecentUnmoved(desk: Desk, gone: Id -> bool, l: Ledger)
    requires Within(gone, desk.isPrivate)
    requires Keyed(l)
    ensures Recent(desk, Erase(l, gone)) == Recent(desk, l)
  {
    hide Filter, Keyed, LiveCalls, Sort, Erase;
    ErasedLists(l, gone);
    FilterThrough(LiveCalls(l.book.calls, l.order), Visible(gone), (c: Call) => OnRecord(desk.isPrivate, c));
  }

  lemma SourcesUnmoved(desk: Desk, gone: Id -> bool, d: Directory, l: Ledger, hidden: set<Id>)
    requires Within(gone, desk.isPrivate)
    requires Keyed(l) && PeopleSound(d) && BoardKeepsItsOrder(AllTime(desk, l), gone, d, ListCalls(l))
    ensures Sources(desk, d, Erase(l, gone), hidden) == Sources(desk, d, l, hidden)
  {
    hide Ranked, Building, PageFor, TopCallsOf, Recent, ListCalls, Erase, AllTime, Keyed, PeopleSound,
        TiesKeepTheirOrder, ErasedScope, Filter, Tagged;
    ErasedLists(l, gone);
    ErasedAllTime(desk, gone, l);
    BoardUnmovedIff(AllTime(desk, l), gone, d, ListCalls(l));
    NobodyIsOutside(l, gone);
    TopCallsUnmoved(desk, gone, d, l, None, hidden, TOP_CALLS_DEPTH);
    RecentUnmoved(desk, gone, l);
  }

  lemma NobodyIsOutside(l: Ledger, gone: Id -> bool)
    ensures Outsider(l, gone, None)
  {
  }

  lemma CardUnmoved(desk: Desk, gone: Id -> bool, d: Directory, l: Ledger, userId: Id, reason: Reason)
    requires Within(gone, desk.isPrivate)
    requires Keyed(l)
    ensures userId in d.people ==> CardOf(desk, d, Erase(l, gone), userId, reason) == CardOf(desk, d, l, userId, reason)
    ensures Suggestible(desk, d, Erase(l, gone), userId) == Suggestible(desk, d, l, userId)
  {
    hide RecordOf, LatestLiveCall, Keyed, Erase, ListCalls, AllTime, IsDeletedAccount;
    LedgerRecordUnmoved(desk, gone, l, userId);
    LatestUnmoved(desk, gone, l, userId);
  }

  lemma {:induction false} FriendsUnmoved(
      desk: Desk, gone: Id -> bool, d: Directory, l: Ledger, viewer: Option<Id>, hidden: set<Id>, limit: nat,
          ids: seq<Id>)
    requires Within(gone, desk.isPrivate)
    requires Keyed(l)
    ensures Friends(desk, d, Erase(l, gone), viewer, hidden, limit, ids)
        == Friends(desk, d, l, viewer, hidden, limit, ids)
  {
    hide CardOf, Keyed, Erase, IsDeletedAccount, Suggestible;
    if ids != [] {
      FriendsUnmoved(desk, gone, d, l, viewer, hidden, limit, ids[..|ids| - 1]);
      CardUnmoved(desk, gone, d, l, ids[|ids| - 1], FRIEND);
      ErasedRest(l, gone);
    }
  }

  lemma {:induction false} AddAllUnmoved(
      desk: Desk, gone: Id -> bool, d: Directory, l: Ledger, viewer: Option<Id>, hidden: set<Id>, limit: nat, o: Offer,
          sources: seq<(Id, Reason)>)
    requires Within(gone, desk.isPrivate)
    requires Keyed(l)
    ensures AddAll(desk, d, Erase(l, gone), viewer, hidden, limit, o, sources)
        == AddAll(desk, d, l, viewer, hidden, limit, o, sources)
  {
    hide CardOf, Keyed, Erase;
    if sources != [] {
      AddAllUnmoved(desk, gone, d, l, viewer, hidden, limit, o, sources[..|sources| - 1]);
      CardUnmoved(desk, gone, d, l, sources[|sources| - 1].0, sources[|sources| - 1].1);
      ErasedRest(l, gone);
    }
  }

  // ── the whole claim ─────────────────────────────────────────────────────

  /**
   * Private money calls are erased for others. Take any private calls the
   * viewer did not make: all of them, or all but the viewer's own. The store as
   * it is and the store with them erased show that viewer the same feed and feed
   * entries, the same crowd split on every market, the same public record of
   * everybody and the same top calls. The leaderboard is the same exactly when
   * no tie on it turns on one of them; then, on the board nobody in particular
   * sees, so are the suggestions drawn from it.
   */
  lemma PrivateCallsAreErasedForOthers(
      desk: Desk, gone: Id -> bool, d: Directory, anyone: Directory, l: Ledger, viewer: Option<Id>, v: View,
          hidden: set<Id>, limit: nat, friendIds: seq<Id>,
      marketId: Id, s: Scope)
    requires Within(gone, desk.isPrivate)
    requires Keyed(l) && Outsider(l, gone, viewer) && PeopleSound(d) && PeopleSound(anyone)
    requires v.viewer == viewer && v.isPrivate == desk.isPrivate && s.isPrivate == desk.isPrivate
    ensures var left := Erase(l, gone);
            && FeedRows(left, v) == FeedRows(l, v)
            && (forall c | c in FeedRows(l, v) :: EntryOf(left, viewer, c) == EntryOf(l, viewer, c))
            && CrowdSplitOf(left, desk.isPrivate, marketId) == CrowdSplitOf(l, desk.isPrivate, marketId)
            && (forall u :: RecordOf(ErasedScope(s, gone), ListCalls(left), u) == RecordOf(s, ListCalls(l), u))
            && TopCallsOf(desk, d, left, viewer, hidden, limit) == TopCallsOf(desk, d, l, viewer, hidden, limit)
            && (Ranked(ErasedScope(s, gone), d, ListCalls(left)) == Ranked(s, d, ListCalls(l)) <==>
                  TiesKeepTheirOrder(s, gone, d, ListCalls(l), NoWorse, Eligible))
            && (Building(ErasedScope(s, gone), d, ListCalls(left)) == Building(s, d, ListCalls(l)) <==>
                  TiesKeepTheirOrder(s, gone, d, ListCalls(l), NoThinner, NotYetEligible))
            && (BoardKeepsItsOrder(AllTime(desk, l), gone, anyone, ListCalls(l)) ==>
                  Suggested(desk, anyone, left, viewer, hidden, limit, friendIds)
                      == Suggested(desk, anyone, l, viewer, hidden, limit, friendIds))
  {
    hide Keyed, Outsider, PeopleSound, BoardKeepsItsOrder, TiesKeepTheirOrder, Erase, FeedRows, EntryOf, CrowdSplitOf,
        RecordOf, ErasedScope,
         ListCalls, LiveCalls, Ranked, Building, TopCallsOf, Suggested, Filter;
    FeedUnmoved(l, gone, v);
    EntriesUnmoved(l, gone, v);
    CrowdSplitUnmoved(l, desk.isPrivate, gone, marketId);
    ErasedLists(l, gone);
    forall u ensures RecordOf(ErasedScope(s, gone), ListCalls(Erase(l, gone)), u) == RecordOf(s, ListCalls(l), u) {
      RecordUnmoved(s, gone, ListCalls(l), u);
    }
    BoardUnmovedIff(s, gone, d, ListCalls(l));
    TopCallsUnmoved(desk, gone, d, l, viewer, hidden, limit);
    if BoardKeepsItsOrder(AllTime(desk, l), gone, anyone, ListCalls(l)) {
      SuggestedUnmoved(desk, gone, anyone, l, viewer, hidden, limit, friendIds);
    }
  }

  lemma SuggestedUnmoved(desk: Desk, gone: Id -> bool, d: Directory, l: Ledger, viewer: Option<Id>, hidden: set<Id>,
      limit: nat, friendIds: seq<Id>)
    requires Within(gone, desk.isPrivate)
    requires Keyed(l) && PeopleSound(d) && BoardKeepsItsOrder(AllTime(desk, l), gone, d, ListCalls(l))
    ensures Suggested(desk, d, Erase(l, gone), viewer, hidden, limit, friendIds)
        == Suggested(desk, d, l, viewer, hidden, limit, friendIds)
  {
    hide Keyed, PeopleSound, BoardKeepsItsOrder, Erase, ListCalls, Sources, AddAll, Friends, AllTime;
    SourcesUnmoved(desk, gone, d, l, hidden);
    FriendsUnmoved(desk, gone, d, l, viewer, hidden, limit, friendIds);
    AddAllUnmoved(desk, gone, d, l, viewer, hidden, limit,
        Offer([], Friends(desk, d, l, viewer, hidden, limit, friendIds).seen), Sources(desk, d, l, hidden));
  }

  lemma EntriesUnmoved(l: Ledger, gone: Id -> bool, v: View)
    requires Keyed(l) && Within(gone, v.isPrivate) && Outsider(l, gone, v.viewer)
    ensures forall c | c in FeedRows(l, v) :: EntryOf(Erase(l, gone), v.viewer, c) == EntryOf(l, v.viewer, c)
  {
    FeedRowsAre(l, v);
    hide FeedRows, EntryOf, Erase;
    forall c | c in FeedRows(l, v) ensures EntryOf(Erase(l, gone), v.viewer, c) == EntryOf(l, v.viewer, c) {
      assert CanSee(v.isPrivate, l.follows, c, v.viewer);
      EntryUnmoved(l, gone, v.viewer, c);
    }
  }

  /** The private calls that are not the viewer's. */
  function Others(l: Ledger, isPrivate: Id -> bool, viewer: Option<Id>): Id -> bool {
    (id: Id) => isPrivate(id) && id in l.book.calls && Some(l.book.calls[id].userId) != viewer
  }

  /**
   * They can be taken for every viewer, one with private calls of their own included;
   * and erasing them erases no call of the viewer's.
   */
  lemma OthersCanBeErased(l: Ledger, isPrivate: Id -> bool, viewer: Option<Id>)
    ensures Within(Others(l, isPrivate, viewer), isPrivate) && Outsider(l, Others(l, isPrivate, viewer), viewer)
    ensures var left := Erase(l, Others(l, isPrivate, viewer));
            forall id | id in l.book.calls && (!isPrivate(id) || Some(l.book.calls[id].userId) == viewer) ::
              id in left.book.calls && left.book.calls[id] == l.book.calls[id]
  {
  }
}
