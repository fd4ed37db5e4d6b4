/**
 * The leaderboard. The main results are that ranks run 1 to n over everybody
 * eligible, that hiding people never renumbers anybody, and that a better
 * record on as many decided calls ranks higher.
 */
module People {
  import opened Vocabulary
  import opened Ledgers
  import opened Markets
  import opened Service
  import opened Feed
  import opened Records
  import opened Sorting
  import opened Wilson

  datatype Person = Person(id: Id, handle: string, displayName: string)

  /**
   * The directory, and what ranking reads besides the calls: the interval's z and
   * square root, and which calls count as funded for this viewer.
   */
  datatype Directory = Directory(people: map<Id, Person>, z: real, sqrt: real -> real, isFunded: Id -> bool)

  ghost predicate PeopleSound(d: Directory) { forall u | u in d.people :: d.people[u].id == u }

  ghost predicate HandlesDistinct(d: Directory) {
    forall a, b | a in d.people && b in d.people && d.people[a].handle == d.people[b].handle :: a == b
  }

  // ── the leaderboard ─────────────────────────────────────────────────────

  datatype Row = Row(rank: Option<nat>, person: Person, record: PublicRecord, funded: nat, score: real)

  /** Public calls backed by a confirmed fill, locked inside the window. */
  predicate CountsFunded(isPrivate: Id -> bool, d: Directory, since: Option<int>, c: Call) {
    c.visibility == PUBLIC && Live(c) && !isPrivate(c.id) && d.isFunded(c.id)
        && (since.Some? ==> c.lockedAt >= since.value)
  }

  function FundedCalls(s: Scope, d: Directory, calls: seq<Call>, userId: Id): nat {
    |Filter(calls, (c: Call) => CountsFunded(s.isPrivate, d, s.since, c) && c.userId == userId)|
  }

  /** A row for this author, when something of theirs is decided and the directory knows them. */
  function RowFor(s: Scope, d: Directory, calls: seq<Call>, userId: Id): Option<Row> {
    var record := RecordOf(s, calls, userId);
    if record.counts.decided == 0 || userId !in d.people then None
    else Some(Row(None, d.people[userId], record, FundedCalls(s, d, calls, userId),
                  WilsonLowerBound(record.counts.correct, record.counts.decided, d.z, d.sqrt)))
  }

  function RowsFor(s: Scope, d: Directory, calls: seq<Call>, authors: seq<Id>): seq<Row> {
    hide RowFor;
    if authors == [] then []
    else
      var row := RowFor(s, d, calls, authors[0]);
      (if row.Some? then [row.value] else []) + RowsFor(s, d, calls, authors[1..])
  }

  /** Score, then decided calls, then correct ones, then funded ones, then the handle. */
  predicate NoWorse(a: Row, b: Row) {
    if a.score != b.score then a.score > b.score
    else if a.record.counts.decided != b.record.counts.decided then a.record.counts.decided > b.record.counts.decided
    else if a.record.counts.correct != b.record.counts.correct then a.record.counts.correct > b.record.counts.correct
    else if a.funded != b.funded then a.funded > b.funded
    else StringAtMost(a.person.handle, b.person.handle)
  }

  predicate NoThinner(a: Row, b: Row) {
    if a.record.counts.decided != b.record.counts.decided then a.record.counts.decided > b.record.counts.decided
    else StringAtMost(a.person.handle, b.person.handle)
  }

  function Numbered(rows: seq<Row>, first: nat): (r: seq<Row>)
    ensures |r| == |rows| && forall i | 0 <= i < |rows| :: r[i] == rows[i].(rank := Some(first + i))
  {
    if rows == [] then [] else [rows[0].(rank := Some(first))] + Numbered(rows[1..], first + 1)
  }

  predicate Eligible(r: Row) { r.record.counts.decided >= MIN_DECIDED_FOR_ACCURACY }

  predicate NotYetEligible(r: Row) { !Eligible(r) }

  /** The rows of these calls that pass the test, in the order of their people's first calls. */
  function Standings(s: Scope, d: Directory, calls: seq<Call>, keep: Row -> bool): seq<Row> {
    Filter(RowsFor(s, d, calls, Authors(calls)), keep)
  }

  /** The eligible rows in order, before they are numbered. */
  function InOrder(s: Scope, d: Directory, calls: seq<Call>): seq<Row> {
    Sort(NoWorse, Standings(s, d, calls, Eligible))
  }

  function Ranked(s: Scope, d: Directory, calls: seq<Call>): seq<Row> {
    Numbered(InOrder(s, d, calls), 1)
  }

  /** Below the sample: ordered by evidence, never numbered. */
  function Building(s: Scope, d: Directory, calls: seq<Call>): seq<Row> {
    Sort(NoThinner, Standings(s, d, calls, NotYetEligible))
  }

  /** What a viewer is shown of a list: the people not hidden from them, up to the limit. */
  function PageFor(rows: seq<Row>, hidden: set<Id>, limit: nat): seq<Row> {
    var kept := Filter(rows, (r: Row) => r.person.id !in hidden);
    kept[..Feed.Min(limit, |kept|)]
  }

  /** The viewer's own row wherever they stand, and how many decided calls they still need. */
  function ViewerRow(s: Scope, d: Directory, calls: seq<Call>, viewer: Id): Option<(Row, nat)> {
    if viewer !in d.people then None
    else
      var ranked := Filter(Ranked(s, d, calls), (r: Row) => r.person.id == d.people[viewer].id);
      var record := RecordOf(s, calls, viewer);
      var row := if ranked != [] then ranked[0]
          else Row(None, d.people[viewer], record, FundedCalls(s, d, calls, viewer), 0.0);
      Some((row, Markets.Max(0, MIN_DECIDED_FOR_ACCURACY - row.record.counts.decided) as nat))
  }

  lemma NoWorseTotal()
    ensures TotalOrder(NoWorse) && TotalOrder(NoThinner)
  {
    StringsTotal();
    hide StringAtMost;
  }

  lemma {:induction false} RowsForAre(s: Scope, d: Directory, calls: seq<Call>, authors: seq<Id>)
    ensures forall r :: r in RowsFor(s, d, calls, authors) <==>
        exists u :: u in authors && RowFor(s, d, calls, u) == Some(r)
  {
    hide RowFor;
    if authors != [] {
      assert authors == [authors[0]] + authors[1..];
      RowsForAre(s, d, calls, authors[1..]);
      forall r ensures r in RowsFor(s, d, calls, authors) <==>
          exists u :: u in authors && RowFor(s, d, calls, u) == Some(r) {
        if u :| u in authors && RowFor(s, d, calls, u) == Some(r) {
          assert u == authors[0] || u in authors[1..];
        }
      }
    }
  }

  lemma RowIsTheirs(s: Scope, d: Directory, calls: seq<Call>, userId: Id)
    requires PeopleSound(d)
    ensures RowFor(s, d, calls, userId).Some? ==>
              userId in d.people && RowFor(s, d, calls, userId).value.person.id == userId
                  && RowFor(s, d, calls, userId).value.rank.None?
  {
  }

  lemma {:induction false} RowsForDistinct(s: Scope, d: Directory, calls: seq<Call>, authors: seq<Id>)
    requires PeopleSound(d) && Distinct(authors)
    ensures Distinct(RowsFor(s, d, calls, authors))
    ensures forall r | r in RowsFor(s, d, calls, authors) :: r.person.id in authors
  {
    hide RowFor, PeopleSound;
    if authors != [] {
      RowIsTheirs(s, d, calls, authors[0]);
      RowsForDistinct(s, d, calls, authors[1..]);
      var row, rest := RowFor(s, d, calls, authors[0]), RowsFor(s, d, calls, authors[1..]);
      hide RowsFor;
      assert authors == [authors[0]] + authors[1..];
      assert authors[0] !in authors[1..];
      if row.Some? { assert row.value !in rest; }
    }
  }

  /** `r`, its rank aside, is the row of somebody with enough decided calls. */
  ghost predicate IsEligibleRow(s: Scope, d: Directory, calls: seq<Call>, r: Row) {
    r.person.id in d.people && Eligible(r) && RowFor(s, d, calls, r.person.id) == Some(r.(rank := None))
  }

  lemma RowNeedsACall(s: Scope, d: Directory, calls: seq<Call>, userId: Id)
    ensures RowFor(s, d, calls, userId).Some? ==> userId in Authors(calls)
  {
    AuthorsWrote(calls);
    NoCallsNoTally(s, calls, userId);
  }

  lemma {:induction false} RowsFollow(s: Scope, d: Directory, calls: seq<Call>, authors: seq<Id>, u: Id, w: Id)
    requires Before(authors, u, w) && Distinct(authors) && RowFor(s, d, calls, u).Some? && RowFor(s, d, calls, w).Some?
    ensures Before(RowsFor(s, d, calls, authors), RowFor(s, d, calls, u).value, RowFor(s, d, calls, w).value)
  {
    hide RowFor, Before;
    assert authors != [] by { BeforeNotEmpty(authors, u, w); }
    var rest, first := RowsFor(s, d, calls, authors[1..]), RowFor(s, d, calls, authors[0]);
    assert authors == [authors[0]] + authors[1..];
    BeforeAfter(authors[0], authors[1..], u, w);
    RowsForAre(s, d, calls, authors[1..]);
    if u == authors[0] {
      BeforeIn(authors, u, w);
      assert RowFor(s, d, calls, w).value in rest;
      BeforeAfter(first.value, rest, RowFor(s, d, calls, w).value, RowFor(s, d, calls, w).value);
    } else {
      RowsFollow(s, d, calls, authors[1..], u, w);
      if first.Some? { BeforeAfter(first.value, rest, RowFor(s, d, calls, u).value, RowFor(s, d, calls, w).value); }
      assert [] + rest == rest;
    }
  }

  lemma BeforeNotEmpty<T>(s: seq<T>, x: T, y: T)
    requires Before(s, x, y)
    ensures s != []
  {
  }

  lemma BeforeIn<T>(s: seq<T>, x: T, y: T)
    requires Before(s, x, y) && Distinct(s)
    ensures s != [] && (x == s[0] ==> y in s[1..])
  {
  }

  lemma StandingsAre(s: Scope, d: Directory, calls: seq<Call>, keep: Row -> bool)
    requires PeopleSound(d)
    ensures Distinct(Standings(s, d, calls, keep))
    ensures forall r :: r in Standings(s, d, calls, keep) <==>
        keep(r) && r.person.id in d.people && RowFor(s, d, calls, r.person.id) == Some(r)
    ensures forall r | r in Standings(s, d, calls, keep) :: Wrote(calls, r.person.id)
  {
    hide RowFor, Authors, RowsFor, PeopleSound, Wrote;
    var rows := RowsFor(s, d, calls, Authors(calls));
    AuthorsWrote(calls);
    RowsForAre(s, d, calls, Authors(calls));
    RowsForDistinct(s, d, calls, Authors(calls));
    FilterDistinct(rows, keep);
    forall r
      ensures r in rows <==> r.person.id in d.people && RowFor(s, d, calls, r.person.id) == Some(r)
      ensures r in rows ==> Wrote(calls, r.person.id)
    {
      if r in rows {
        var u :| u in Authors(calls) && RowFor(s, d, calls, u) == Some(r);
        RowIsTheirs(s, d, calls, u);
      }
      RowNeedsACall(s, d, calls, r.person.id);
    }
  }

  lemma StandingsFollow(s: Scope, d: Directory, calls: seq<Call>, keep: Row -> bool, x: Row, y: Row)
    requires PeopleSound(d) && x in Standings(s, d, calls, keep) && y in Standings(s, d, calls, keep) && x != y
    requires CameFirst(calls, x.person.id, y.person.id)
    ensures Before(Standings(s, d, calls, keep), x, y)
  {
    hide RowFor, Authors, RowsFor, PeopleSound, Wrote, CameFirst, Before;
    StandingsAre(s, d, calls, keep);
    AuthorsWrote(calls);
    AuthorsFollow(calls, x.person.id, y.person.id);
    RowsFollow(s, d, calls, Authors(calls), x.person.id, y.person.id);
    RowsForDistinct(s, d, calls, Authors(calls));
    FilterKeepsOrder(RowsFor(s, d, calls, Authors(calls)), keep, x, y);
  }

  /** One row is listed before another exactly when its person's first call came first. */
  lemma StandingsInOrder(s: Scope, d: Directory, calls: seq<Call>, keep: Row -> bool, x: Row, y: Row)
    requires PeopleSound(d) && x in Standings(s, d, calls, keep) && y in Standings(s, d, calls, keep) && x != y
    ensures Before(Standings(s, d, calls, keep), x, y) <==> CameFirst(calls, x.person.id, y.person.id)
  {
    hide Standings, RowFor, PeopleSound, Wrote, CameFirst, Before;
    StandingsAre(s, d, calls, keep);
    OneCameFirst(calls, x.person.id, y.person.id);
    if CameFirst(calls, x.person.id, y.person.id) {
      StandingsFollow(s, d, calls, keep, x, y);
    } else {
      StandingsFollow(s, d, calls, keep, y, x);
      OneWayRound(Standings(s, d, calls, keep), y, x);
    }
  }

  /** One row for each known author that passes the test, in order. */
  lemma OrderedRowsAre(s: Scope, d: Directory, calls: seq<Call>, le: (Row, Row) -> bool, keep: Row -> bool)
    requires PeopleSound(d) && TotalOrder(le)
    ensures var rows := Sort(le, Standings(s, d, calls, keep));
            && Sorted(le, rows) && Distinct(rows)
            && forall r :: r in rows <==>
                keep(r) && r.person.id in d.people && RowFor(s, d, calls, r.person.id) == Some(r)
  {
    hide RowFor, Standings, PeopleSound, Wrote;
    var kept := Standings(s, d, calls, keep);
    StandingsAre(s, d, calls, keep);
    SortDistinct(le, kept);
    SameElements(Sort(le, kept), kept);
    SortSorts(le, kept);
  }

  lemma InOrderIs(s: Scope, d: Directory, calls: seq<Call>)
    requires PeopleSound(d)
    ensures Sorted(NoWorse, InOrder(s, d, calls)) && Distinct(InOrder(s, d, calls))
  {
    hide NoWorse, PeopleSound, RowFor;
    NoWorseTotal();
    OrderedRowsAre(s, d, calls, NoWorse, Eligible);
  }

  lemma InOrderRow(s: Scope, d: Directory, calls: seq<Call>, r: Row)
    requires PeopleSound(d)
    ensures r in InOrder(s, d, calls) <==> r.rank.None? && IsEligibleRow(s, d, calls, r)
  {
    hide NoWorse, PeopleSound, RowFor, Eligible;
    NoWorseTotal();
    OrderedRowsAre(s, d, calls, NoWorse, Eligible);
    RowIsTheirs(s, d, calls, r.person.id);
    if r.rank.None? { assert r.(rank := None) == r; }
  }

  lemma RankedAt(s: Scope, d: Directory, calls: seq<Call>)
    ensures |Ranked(s, d, calls)| == |InOrder(s, d, calls)|
    ensures forall i | 0 <= i < |Ranked(s, d, calls)| ::
        Ranked(s, d, calls)[i] == InOrder(s, d, calls)[i].(rank := Some(i + 1))
  {
    hide InOrder;
  }

  lemma EligibleFromTen(r: Row)
    ensures Eligible(r) <==> r.record.counts.decided >= 10
  {
  }

  /** Ranks are 1 to n, and each is held by somebody eligible. */
  lemma RanksAreOneToN(s: Scope, d: Directory, calls: seq<Call>, i: nat)
    requires PeopleSound(d)
    ensures i < |Ranked(s, d, calls)| ==>
        Ranked(s, d, calls)[i].rank == Some(i + 1) && IsEligibleRow(s, d, calls, Ranked(s, d, calls)[i])
        && Ranked(s, d, calls)[i].record.counts.decided >= 10
  {
    hide Ranked, InOrder, RowFor, Eligible, PeopleSound;
    var sorted := InOrder(s, d, calls);
    RankedAt(s, d, calls);
    if i < |sorted| {
      assert sorted[i] in sorted;
      InOrderRow(s, d, calls, sorted[i]);
      RankAside(sorted[i], i + 1);
      EligibleFromTen(Ranked(s, d, calls)[i]);
    }
  }

  /**
   * Rank goes by score, then by how many calls were decided, how many of them correct, how
   * many are funded, and the handle: each only among those equal in all before it.
   */
  ghost predicate ByRecord(better: Row, worse: Row) {
    var b, w := better.record.counts, worse.record.counts;
    better.score > worse.score
    || (better.score == worse.score
        && (b.decided > w.decided
            || (b.decided == w.decided
                && (b.correct > w.correct
                    || (b.correct == w.correct
                        && (better.funded > worse.funded
                            || (better.funded == worse.funded
                                && StringAtMost(better.person.handle, worse.person.handle))))))))
  }

  lemma NoWorseByRecord(a: Row, b: Row)
    requires NoWorse(a, b)
    ensures ByRecord(a, b)
  {
    hide StringAtMost;
  }

  /** They follow the ranking, and nobody holds two. */
  lemma RanksFollowTheOrder(s: Scope, d: Directory, calls: seq<Call>, i: nat, j: nat)
    requires PeopleSound(d) && i < j
    ensures var ranked := Ranked(s, d, calls);
            j < |ranked| ==>
              && NoWorse(ranked[i], ranked[j]) && ranked[i].person.id != ranked[j].person.id
              && ByRecord(ranked[i], ranked[j])
  {
    hide Ranked, InOrder, RowFor, Eligible, Authors, NoWorse, PeopleSound, Distinct, ByRecord;
    RankedAt(s, d, calls);
    var sorted := InOrder(s, d, calls);
    InOrderIs(s, d, calls);
    if j < |sorted| {
      assert NoWorse(sorted[i], sorted[j]);
      RanksAside(sorted[i], sorted[j], i + 1, j + 1);
      NoWorseByRecord(Ranked(s, d, calls)[i], Ranked(s, d, calls)[j]);
      OneRowEach(s, d, calls, sorted, i, j);
    }
  }

  /** Everybody known with ten decided calls holds one. */
  lemma TenDecidedIsRanked(s: Scope, d: Directory, calls: seq<Call>, userId: Id)
    requires PeopleSound(d) && userId in d.people && RecordOf(s, calls, userId).counts.decided >= 10
    ensures exists i :: 0 <= i < |Ranked(s, d, calls)| && Ranked(s, d, calls)[i].person.id == userId
  {
    hide Ranked, RecordOf, FundedCalls, WilsonLowerBound, PeopleSound;
    EverybodyIsRanked(s, d, calls, userId);
  }

  /** Everybody eligible holds one. */
  lemma EverybodyIsRanked(s: Scope, d: Directory, calls: seq<Call>, userId: Id)
    requires PeopleSound(d)
    ensures RowFor(s, d, calls, userId).Some? && Eligible(RowFor(s, d, calls, userId).value) ==>
              exists i :: 0 <= i < |Ranked(s, d, calls)| && Ranked(s, d, calls)[i].person.id == userId
  {
    hide Ranked, InOrder, RowFor, Eligible, PeopleSound;
    if RowFor(s, d, calls, userId).Some? && Eligible(RowFor(s, d, calls, userId).value) {
      var sorted, row := InOrder(s, d, calls), RowFor(s, d, calls, userId).value;
      RowIsTheirs(s, d, calls, userId);
      RankedAt(s, d, calls);
      assert row.(rank := None) == row;
      InOrderRow(s, d, calls, row);
      var i :| 0 <= i < |sorted| && sorted[i] == row;
      assert Ranked(s, d, calls)[i].person.id == userId;
    }
  }

  lemma OneRowEach(s: Scope, d: Directory, calls: seq<Call>, sorted: seq<Row>, i: nat, j: nat)
    requires PeopleSound(d) && sorted == InOrder(s, d, calls) && i < j < |sorted| && Distinct(sorted)
    ensures sorted[i].person.id != sorted[j].person.id
  {
    hide InOrder, RowFor, Eligible;
    assert sorted[i] in sorted && sorted[j] in sorted;
    InOrderRow(s, d, calls, sorted[i]);
    InOrderRow(s, d, calls, sorted[j]);
    assert sorted[i].(rank := None) == sorted[i] && sorted[j].(rank := None) == sorted[j];
  }

  lemma RankAside(r: Row, rank: nat)
    ensures Eligible(r.(rank := Some(rank))) <==> Eligible(r)
    ensures r.rank.None? ==> r.(rank := Some(rank)).(rank := None) == r
  {
  }

  lemma RanksAside(a: Row, b: Row, i: nat, j: nat)
    ensures NoWorse(a.(rank := Some(i)), b.(rank := Some(j))) <==> NoWorse(a, b)
  {
    hide StringAtMost;
  }

  /**
   * The viewer's own row is theirs: the ranked one with its rank when they are
   * eligible, else their own counts without one.
   */
  lemma ViewerRowIsTheirOwn(s: Scope, d: Directory, calls: seq<Call>, viewer: Id)
    requires PeopleSound(d) && viewer in d.people
    ensures var (row, toGo) := ViewerRow(s, d, calls, viewer).value;
            && row.person.id == viewer && row.record == RecordOf(s, calls, viewer)
                && row.funded == FundedCalls(s, d, calls, viewer)
            && (row.rank.Some? <==> Eligible(row)) && (row.rank.Some? ==> row in Ranked(s, d, calls))
            && (toGo == 0 <==> Eligible(row))
                && (toGo > 0 ==> toGo + row.record.counts.decided == MIN_DECIDED_FOR_ACCURACY)
  {
    hide Ranked, RowFor, Eligible, RecordOf, FundedCalls, PeopleSound;
    assert d.people[viewer].id == viewer by { PersonIs(d, viewer); }
    var mine := Filter(Ranked(s, d, calls), (r: Row) => r.person.id == d.people[viewer].id);
    EverybodyIsRanked(s, d, calls, viewer);
    EligibleHasRow(s, d, calls, viewer);
    if mine != [] {
      assert mine[0] in mine;
      var i :| 0 <= i < |Ranked(s, d, calls)| && Ranked(s, d, calls)[i] == mine[0];
      RanksAreOneToN(s, d, calls, i);
      RowRecord(s, d, calls, mine[0]);
    } else {
      forall i | 0 <= i < |Ranked(s, d, calls)| ensures Ranked(s, d, calls)[i].person.id != viewer {
        assert Ranked(s, d, calls)[i] !in mine;
      }
    }
  }

  lemma PersonIs(d: Directory, u: Id)
    requires PeopleSound(d) && u in d.people
    ensures d.people[u].id == u
  {
  }

  lemma RowRecord(s: Scope, d: Directory, calls: seq<Call>, r: Row)
    requires IsEligibleRow(s, d, calls, r)
    ensures r.record == RecordOf(s, calls, r.person.id) && r.funded == FundedCalls(s, d, calls, r.person.id)
    ensures Eligible(r) && r.record.counts.decided >= MIN_DECIDED_FOR_ACCURACY
  {
    hide RecordOf, FundedCalls, WilsonLowerBound;
    assert r.(rank := None).record == r.record && r.(rank := None).funded == r.funded;
  }

  lemma EligibleHasRow(s: Scope, d: Directory, calls: seq<Call>, u: Id)
    requires u in d.people
    ensures var row := Row(None, d.people[u], RecordOf(s, calls, u), FundedCalls(s, d, calls, u), 0.0);
            && (Eligible(row) ==> RowFor(s, d, calls, u).Some? && Eligible(RowFor(s, d, calls, u).value))
            && (Eligible(row) <==> row.record.counts.decided >= MIN_DECIDED_FOR_ACCURACY)
  {
    hide RecordOf, FundedCalls, WilsonLowerBound;
  }

  /**
   * Whoever has decided calls, but fewer than ten, is listed below the ranks, without a
   * number, the most decided first.
   */
  lemma BuildingIsUnnumbered(s: Scope, d: Directory, calls: seq<Call>)
    requires PeopleSound(d)
    ensures forall r :: r in Building(s, d, calls) <==>
        r.rank.None? && 0 < r.record.counts.decided < 10 && r.person.id in d.people
        && RowFor(s, d, calls, r.person.id) == Some(r)
    ensures forall i, j | 0 <= i < j < |Building(s, d, calls)| ::
        var more, fewer := Building(s, d, calls)[i], Building(s, d, calls)[j];
        && more.record.counts.decided >= fewer.record.counts.decided
        && (more.record.counts.decided == fewer.record.counts.decided ==>
              StringAtMost(more.person.handle, fewer.person.handle))
  {
    hide Standings, PeopleSound, RecordOf, FundedCalls, WilsonLowerBound, StringAtMost;
    NoWorseTotal();
    OrderedRowsAre(s, d, calls, NoThinner, NotYetEligible);
  }

  /** One more public live call with money behind it adds one to its author's count, and to nobody else's. */
  lemma OneMoreFundedCall(s: Scope, d: Directory, calls: seq<Call>, c: Call, userId: Id)
    ensures FundedCalls(s, d, [], userId) == 0
    ensures FundedCalls(s, d, calls + [c], userId) == FundedCalls(s, d, calls, userId)
        + if c.userId == userId && c.visibility == PUBLIC && c.hiddenAt.None? && !s.isPrivate(c.id) && d.isFunded(c.id)
             && (s.since.None? || c.lockedAt >= s.since.value) then 1 else 0
  {
    FilterLast(calls, c, (x: Call) => CountsFunded(s.isPrivate, d, s.since, x) && x.userId == userId);
  }

  // ── hiding people ───────────────────────────────────────────────────────

  /** Ranks strictly rise along the list. */
  ghost predicate RanksRise(rows: seq<Row>) {
    (forall i | 0 <= i < |rows| :: rows[i].rank.Some?) && forall i, j | 0 <= i < j < |rows| ::
        rows[i].rank.value < rows[j].rank.value
  }

  lemma {:induction false} FilterKeepsRising(rows: seq<Row>, keep: Row -> bool)
    requires RanksRise(rows)
    ensures RanksRise(Filter(rows, keep))
  {
    if rows != [] {
      FilterKeepsRising(rows[1..], keep);
      var rest := Filter(rows[1..], keep);
      assert rows == [rows[0]] + rows[1..];
      forall j | 0 <= j < |rest| ensures rows[0].rank.value < rest[j].rank.value {
        assert rest[j] in rest;
        assert rest[j] in rows[1..];
      }
    }
  }

  lemma KeptOrShown(ranked: seq<Row>, kept: seq<Row>, page: seq<Row>, r: Row, limit: nat)
    requires RanksRise(kept) && page == kept[..Feed.Min(limit, |kept|)] && r in kept && r !in page
    ensures |page| == limit && forall shown | shown in page ::
        r.rank.Some? && shown.rank.Some? && shown.rank.value < r.rank.value
  {
    var k :| 0 <= k < |kept| && kept[k] == r;
    assert forall m | 0 <= m < |page| :: kept[m] == page[m] && page[m] in page;
    forall shown | shown in page ensures shown.rank.Some? && shown.rank.value < r.rank.value {
      var m :| 0 <= m < |page| && page[m] == shown;
      assert kept[m] == shown;
    }
  }

  lemma PageOfRising(ranked: seq<Row>, hidden: set<Id>, limit: nat)
    requires RanksRise(ranked)
    ensures var page := PageFor(ranked, hidden, limit);
            && |page| <= limit && RanksRise(page)
            && (forall r | r in page :: r in ranked && r.person.id !in hidden)
            && (forall r | r in ranked && r.person.id !in hidden && r !in page ::
                  |page| == limit && forall shown | shown in page ::
                      r.rank.Some? && shown.rank.Some? && shown.rank.value < r.rank.value)
  {
    var keep := (r: Row) => r.person.id !in hidden;
    var kept, page := Filter(ranked, keep), PageFor(ranked, hidden, limit);
    FilterKeepsRising(ranked, keep);
    assert page == kept[..Feed.Min(limit, |kept|)];
    hide Filter, PageFor;
    forall r | r in page ensures r in ranked && r.person.id !in hidden { assert r in kept; }
    forall r | r in ranked && r.person.id !in hidden && r !in page
      ensures |page| == limit && forall shown | shown in page ::
          r.rank.Some? && shown.rank.Some? && shown.rank.value < r.rank.value
    {
      KeptOrShown(ranked, kept, page, r, limit);
    }
  }

  /**
   * Hiding people deletes their rows and nothing else. Whoever is shown has the
   * row, rank included, that a viewer with nobody hidden sees; rows stay in
   * rank order; and somebody not hidden is left off only when the page is
   * already full of better ranks.
   */
  lemma HidingNeverRenumbers(s: Scope, d: Directory, calls: seq<Call>, hidden: set<Id>, limit: nat)
    requires PeopleSound(d)
    ensures var ranked, page := Ranked(s, d, calls), PageFor(Ranked(s, d, calls), hidden, limit);
            && |page| <= limit && RanksRise(page)
            && (forall r | r in page :: r in ranked && r.person.id !in hidden)
            && (forall r | r in ranked && r.person.id !in hidden && r !in page ::
                  |page| == limit && forall shown | shown in page ::
                      r.rank.Some? && shown.rank.Some? && shown.rank.value < r.rank.value)
  {
    hide Ranked, PageFor, PeopleSound, IsEligibleRow;
    var ranked := Ranked(s, d, calls);
    forall i | 0 <= i < |ranked| ensures ranked[i].rank == Some(i + 1) { RanksAreOneToN(s, d, calls, i); }
    PageOfRising(ranked, hidden, limit);
  }

  /** On as many decided calls, more correct ones rank strictly higher. */
  lemma MoreCorrectRanksHigher(s: Scope, d: Directory, calls: seq<Call>, i: nat, j: nat)
    requires PeopleSound(d) && SquareRoot(d.sqrt) && d.z > 0.0
    requires i < |Ranked(s, d, calls)| && j < |Ranked(s, d, calls)|
    requires var a, b := Ranked(s, d, calls)[i].record.counts, Ranked(s, d, calls)[j].record.counts;
             a.decided == b.decided && a.correct > b.correct
    ensures i < j
  {
    var ranked := Ranked(s, d, calls);
    RanksAreOneToN(s, d, calls, i);
    RanksAreOneToN(s, d, calls, j);
    ScoredByRecord(s, d, calls, ranked[i]);
    ScoredByRecord(s, d, calls, ranked[j]);
    var a, b := ranked[i].record.counts, ranked[j].record.counts;
    WilsonRisesWithCorrect(b.correct, a.correct, a.decided, d.z, d.sqrt);
    if j < i { RanksFollowTheOrder(s, d, calls, j, i); }
  }

  lemma ScoredByRecord(s: Scope, d: Directory, calls: seq<Call>, r: Row)
    requires IsEligibleRow(s, d, calls, r)
    ensures r.score == WilsonLowerBound(r.record.counts.correct, r.record.counts.decided, d.z, d.sqrt)
    ensures r.record.counts.correct <= r.record.counts.decided
  {
    hide WilsonLowerBound, FundedCalls, TallyOf;
    var plain := r.(rank := None);
    assert plain.score == r.score && plain.record == r.record;
  }

  lemma RowsForAppend(s: Scope, d: Directory, calls: seq<Call>, authors: seq<Id>, userId: Id)
    ensures RowsFor(s, d, calls, authors + [userId])
            == RowsFor(s, d, calls, authors)
                + (if RowFor(s, d, calls, userId).Some? then [RowFor(s, d, calls, userId).value] else [])
  {
    hide RowFor;
    if authors == [] {
      assert ([] + [userId])[1..] == [];
    } else {
      assert (authors + [userId])[1..] == authors[1..] + [userId];
      RowsForAppend(s, d, calls, authors[1..], userId);
    }
  }

  /** The board, over one pass of the calls: the ranked page, the unranked one, and the viewer's own row. */
  method Leaderboard(s: Scope, d: Directory, calls: seq<Call>, limit: nat, viewer: Option<Id>, hidden: set<Id>)
    returns (ranked: seq<Row>, building: seq<Row>, own: Option<(Row, nat)>)
    ensures ranked == PageFor(Ranked(s, d, calls), hidden, limit)
    ensures building == PageFor(Building(s, d, calls), hidden, limit)
    ensures own == if viewer.None? then None else ViewerRow(s, d, calls, viewer.value)
  {
    hide PageFor, NoWorse, NoThinner, WilsonLowerBound, FundedCalls, Authors, RecordOf, Eligible, ViewerRow, Numbered;
    var records, authors := RecordsByAuthor(s, calls);
    var rows: seq<Row> := [];
    for i := 0 to |authors|
      invariant rows == RowsFor(s, d, calls, authors[..i])
    {
      assert authors[..i + 1] == authors[..i] + [authors[i]];
      RowsForAppend(s, d, calls, authors[..i], authors[i]);
      assert authors[i] in authors;
      var record := records[authors[i]];
      assert record == RecordOf(s, calls, authors[i]);
      if record.counts.decided == 0 { continue; }
      if authors[i] !in d.people { continue; }
      rows := rows + [Row(None, d.people[authors[i]], record, FundedCalls(s, d, calls, authors[i]),
                          WilsonLowerBound(record.counts.correct, record.counts.decided, d.z, d.sqrt))];
    }
    assert authors[..|authors|] == authors;
    ranked := PageFor(Numbered(Sort(NoWorse, Filter(rows, Eligible)), 1), hidden, limit);
    building := PageFor(Sort(NoThinner, Filter(rows, NotYetEligible)), hidden, limit);
    own := if viewer.None? then None else ViewerRow(s, d, calls, viewer.value);
  }
}
