/**
 * The public feed: which calls a viewer is shown, in what order, a page at a
 * time, and the cursor that says where the next page begins. The main results
 * are that following the cursor shows every call once and ends, that calls made
 * meanwhile do not disturb it, and that the cursor survives any id.
 */
module Feed {
  import opened Vocabulary
  import opened Ledgers
  import opened Markets
  import opened Service
  import opened Sorting

  // ── the rows ────────────────────────────────────────────────────────────

  /** The live calls, in the order they were made. */
  function LiveCalls(calls: map<Id, Call>, order: seq<Id>): (r: seq<Call>) {
    if order == [] then []
    else (if order[0] in calls && Live(calls[order[0]]) then [calls[order[0]]] else []) + LiveCalls(calls, order[1..])
  }

  /** Newest first; calls of one instant by descending id. */
  predicate NotOlder(a: Call, b: Call) {
    a.lockedAt > b.lockedAt || (a.lockedAt == b.lockedAt && StringAtMost(b.id, a.id))
  }

  datatype View = View(viewer: Option<Id>, isPrivate: Id -> bool, excluded: set<Id>, followingOnly: bool)

  predicate Shows(follows: set<(Id, Id)>, v: View, c: Call) {
    && CanSee(v.isPrivate, follows, c, v.viewer)
    && c.userId !in v.excluded
    && (v.followingOnly && v.viewer.Some? ==> (v.viewer.value, c.userId) in follows)
  }

  function FeedRows(l: Ledger, v: View): seq<Call> {
    Sort(NotOlder, Filter(LiveCalls(l.book.calls, l.order), (c: Call) => Shows(l.follows, v, c)))
  }

  // ── the cursor ──────────────────────────────────────────────────────────

  function Digits(n: nat): (s: string)
    ensures s != "" && forall i | 0 <= i < |s| :: '0' <= s[i] <= '9'
  {
    var last := [('0' as int + n % 10) as char];
    if n < 10 then last else Digits(n / 10) + last
  }

  function Spell(n: int): (s: string)
    ensures s != "" && ':' !in s
  {
    if n < 0 then "-" + Digits(-n) else Digits(n)
  }

  function ReadDigits(s: string): (r: Option<nat>) {
    if s == "" then Some(0)
    else
      var before := ReadDigits(s[..|s| - 1]);
      var c := s[|s| - 1];
      if before.None? || c < '0' || '9' < c then None else Some(before.value * 10 + (c as int - '0' as int))
  }

  /** A number as it is spelled: decimal digits, with a sign when negative. */
  function ReadNumber(s: string): Option<int> {
    if s == "" || s == "-" then None
    else
      var negative := s[0] == '-';
      var n := ReadDigits(if negative then s[1..] else s);
      if n.None? then None else
        var value: int := n.value;
        Some(if negative then -value else value)
  }

  function IndexOf(s: string, c: char): (i: int)
    ensures -1 <= i < |s|
    ensures i == -1 <==> c !in s
    ensures i >= 0 ==> s[i] == c && c !in s[..i]
  {
    if s == "" then -1
    else if s[0] == c then 0
    else
      var i := IndexOf(s[1..], c);
      assert s == [s[0]] + s[1..];
      if i == -1 then -1 else assert s[..i + 1] == [s[0]] + s[1..][..i]; i + 1
  }

  datatype Mark = Mark(lockedAt: int, id: Id)

  function MarkOf(c: Call): Mark { Mark(c.lockedAt, c.id) }

  function EncodeCursor(m: Mark): string { Spell(m.lockedAt) + ":" + m.id }

  function DecodeCursor(cursor: Option<string>): Option<Mark> {
    if cursor.None? || cursor.value == "" then None
    else
      var at := IndexOf(cursor.value, ':');
      if at <= 0 then None
      else
        var lockedAt := ReadNumber(cursor.value[..at]);
        if lockedAt.None? then None else Some(Mark(lockedAt.value, cursor.value[at + 1..]))
  }

  lemma {:induction false} DigitsRead(n: nat)
    ensures ReadDigits(Digits(n)) == Some(n)
  {
    var s := Digits(n);
    if n < 10 {
      assert s[..|s| - 1] == "";
    } else {
      DigitsRead(n / 10);
      assert s[..|s| - 1] == Digits(n / 10);
    }
  }

  lemma {:induction false} FirstColon(before: string, after: string)
    requires ':' !in before
    ensures IndexOf(before + ":" + after, ':') == |before|
  {
    var s := before + ":" + after;
    if before != "" {
      assert s[1..] == before[1..] + ":" + after;
      FirstColon(before[1..], after);
    }
  }

  lemma NumberRead(n: int)
    ensures ReadNumber(Spell(n)) == Some(n)
  {
    DigitsRead(if n < 0 then -n else n);
    if n < 0 { assert Spell(n)[1..] == Digits(-n); }
  }

  /** The cursor gives back the mark it was made from, whatever the id holds, colons included. */
  lemma CursorRoundTrips(m: Mark)
    ensures DecodeCursor(Some(EncodeCursor(m))) == Some(m)
  {
    var number, s := Spell(m.lockedAt), EncodeCursor(m);
    NumberRead(m.lockedAt);
    FirstColon(number, m.id);
    assert s[..|number|] == number && s[|number| + 1..] == m.id;
    hide Spell, ReadNumber;
  }

  // ── pages ───────────────────────────────────────────────────────────────

  /** Just past the marked row; the top when the row is not there. */
  function Start(rows: seq<Call>, after: Option<Mark>): (i: nat)
    ensures i <= |rows|
  {
    if after.None? then 0 else FindMark(rows, after.value) + 1
  }

  /** The first row with this mark, or -1. */
  function FindMark(rows: seq<Call>, m: Mark): (i: int)
    ensures -1 <= i < |rows|
    ensures i >= 0 ==> MarkOf(rows[i]) == m
    ensures forall j | 0 <= j < (if i < 0 then |rows| else i) :: MarkOf(rows[j]) != m
  {
    if rows == [] then -1
    else if MarkOf(rows[0]) == m then 0
    else
      var i := FindMark(rows[1..], m);
      if i == -1 then -1 else i + 1
  }

  datatype Page = Page(entries: seq<Call>, nextCursor: Option<string>)

  function Min(a: nat, b: nat): nat { if a < b then a else b }

  /** The page that begins at row `start`. */
  function PageFrom(rows: seq<Call>, start: nat, limit: nat): Page
    requires start <= |rows|
  {
    var page := rows[start..Min(start + limit, |rows|)];
    Page(page, if |rows| > start + limit && page != [] then Some(EncodeCursor(MarkOf(page[|page| - 1]))) else None)
  }

  function PageOf(rows: seq<Call>, cursor: Option<string>, limit: nat): Page {
    PageFrom(rows, Start(rows, DecodeCursor(cursor)), limit)
  }

  /** The requested limit, between 1 and the page cap. */
  function Clamped(requested: int, maxPageSize: nat): (limit: nat)
    ensures limit >= 1 && (limit <= maxPageSize || limit == 1)
    ensures 1 <= requested <= maxPageSize ==> limit == requested
    ensures 1 <= maxPageSize < requested ==> limit == maxPageSize
  {
    var capped := if requested > maxPageSize then maxPageSize else requested;
    if capped < 1 then 1 else capped
  }

  /** No two rows share their instant and id. */
  ghost predicate Marked(rows: seq<Call>) { forall i, j | 0 <= i < j < |rows| :: MarkOf(rows[i]) != MarkOf(rows[j]) }

  lemma MarkFound(rows: seq<Call>, i: nat)
    requires Marked(rows) && i < |rows|
    ensures FindMark(rows, MarkOf(rows[i])) == i
  {
    var found := FindMark(rows, MarkOf(rows[i]));
    assert found >= 0;
  }

  /** A row's cursor begins the page at the row after it. */
  lemma CursorBegins(rows: seq<Call>, i: nat, limit: nat)
    requires Marked(rows) && i < |rows|
    ensures PageOf(rows, Some(EncodeCursor(MarkOf(rows[i]))), limit) == PageFrom(rows, i + 1, limit)
  {
    hide EncodeCursor, DecodeCursor, PageFrom, FindMark, MarkOf;
    CursorRoundTrips(MarkOf(rows[i]));
    MarkFound(rows, i);
  }

  /** Following a page's cursor begins the next page at the row after its last. */
  lemma NextPageBegins(rows: seq<Call>, start: nat, limit: nat)
    requires Marked(rows) && limit > 0 && start + limit < |rows|
    ensures var cursor := PageFrom(rows, start, limit).nextCursor;
            cursor.Some? && PageOf(rows, cursor, limit) == PageFrom(rows, start + limit, limit)
  {
    hide EncodeCursor, PageOf, Marked;
    CursorBegins(rows, start + limit - 1, limit);
  }

  /** The pages a reader gets, beginning at row `start` and following `nextCursor` until there is none. */
  function Follow(rows: seq<Call>, start: nat, limit: nat): seq<Page>
    requires limit > 0 && start <= |rows|
    decreases |rows| - start
  {
    var page := PageFrom(rows, start, limit);
    if page.nextCursor.None? then [page] else [page] + Follow(rows, start + limit, limit)
  }

  function Listing(pages: seq<Page>): seq<Call> {
    if pages == [] then [] else pages[0].entries + Listing(pages[1..])
  }

  /** How many pages of `limit` hold `n` rows: one when there are none. */
  function PageCount(n: nat, limit: nat): (pages: nat)
    requires limit > 0
    ensures pages >= 1
  {
    if n <= limit then 1 else 1 + PageCount(n - limit, limit)
  }

  /** That is n / limit rounded up. */
  lemma {:induction false} PageCountRoundsUp(n: nat, limit: nat)
    requires limit > 0 && n > 0
    ensures (PageCount(n, limit) - 1) * limit < n <= PageCount(n, limit) * limit
  {
    if n > limit {
      PageCountRoundsUp(n - limit, limit);
      var before := PageCount(n - limit, limit);
      assert before * limit == (before - 1) * limit + limit && (before + 1) * limit == before * limit + limit;
    }
  }

  lemma {:induction false} FollowFrom(rows: seq<Call>, start: nat, limit: nat)
    requires limit > 0 && start <= |rows|
    ensures Listing(Follow(rows, start, limit)) == rows[start..]
    ensures |Follow(rows, start, limit)| == PageCount(|rows| - start, limit)
    decreases |rows| - start
  {
    hide EncodeCursor;
    var page, pages := PageFrom(rows, start, limit), Follow(rows, start, limit);
    if page.nextCursor.Some? {
      var rest := Follow(rows, start + limit, limit);
      FollowFrom(rows, start + limit, limit);
      assert pages == [page] + rest && pages[1..] == rest;
      assert rows[start..] == page.entries + rows[start + limit..];
    } else {
      assert pages == [page] && pages[1..] == [];
      assert page.entries == rows[start..];
    }
  }

  /** `pages` is what following the cursors really shows: each page is the one its predecessor's cursor asks for. */
  ghost predicate Chained(rows: seq<Call>, limit: nat, pages: seq<Page>) {
    && pages != [] && pages[0] == PageOf(rows, None, limit)
    && (forall i | 0 <= i < |pages| - 1 ::
        pages[i].nextCursor.Some? && pages[i + 1] == PageOf(rows, pages[i].nextCursor, limit))
    && pages[|pages| - 1].nextCursor.None?
  }

  lemma {:induction false} FollowChains(rows: seq<Call>, start: nat, limit: nat)
    requires Marked(rows) && limit > 0 && start <= |rows|
    ensures var pages := Follow(rows, start, limit);
            && pages != [] && pages[0] == PageFrom(rows, start, limit) && pages[|pages| - 1].nextCursor.None?
            && forall i | 0 <= i < |pages| - 1 ::
                pages[i].nextCursor.Some? && pages[i + 1] == PageOf(rows, pages[i].nextCursor, limit)
    decreases |rows| - start
  {
    hide PageOf, EncodeCursor;
    if PageFrom(rows, start, limit).nextCursor.Some? {
      NextPageBegins(rows, start, limit);
      FollowChains(rows, start + limit, limit);
    }
  }

  lemma {:induction false} OneChain(rows: seq<Call>, start: nat, limit: nat, pages: seq<Page>)
    requires Marked(rows) && limit > 0 && start <= |rows|
    requires pages != [] && pages[0] == PageFrom(rows, start, limit) && pages[|pages| - 1].nextCursor.None?
    requires forall i | 0 <= i < |pages| - 1 ::
        pages[i].nextCursor.Some? && pages[i + 1] == PageOf(rows, pages[i].nextCursor, limit)
    ensures pages == Follow(rows, start, limit)
    decreases |rows| - start
  {
    hide PageOf, EncodeCursor;
    if |pages| > 1 {
      assert pages[0].nextCursor.Some? && pages[1] == PageOf(rows, pages[0].nextCursor, limit);
      NextPageBegins(rows, start, limit);
      OneChain(rows, start + limit, limit, pages[1..]);
      assert pages == [pages[0]] + pages[1..];
    } else {
      assert pages == [pages[0]];
    }
  }

  /**
   * Paging. From no cursor, following `nextCursor` until there is none shows
   * each visible row once, newest first, and takes n / limit pages, rounded up;
   * one page when there is nothing to show. It can always be followed.
   */
  lemma PagingShowsEverythingOnce(rows: seq<Call>, limit: nat, pages: seq<Page>)
    requires Marked(rows) && limit > 0
    ensures Chained(rows, limit, Follow(rows, 0, limit))
    ensures Chained(rows, limit, pages) ==> Listing(pages) == rows && |pages| == PageCount(|rows|, limit)
  {
    FollowFrom(rows, 0, limit);
    FollowChains(rows, 0, limit);
    assert rows[0..] == rows;
    if Chained(rows, limit, pages) { OneChain(rows, 0, limit, pages); }
  }

  // ── calls made between two pages ────────────────────────────────────────

  lemma MarkedBelow(newer: seq<Call>, rows: seq<Call>)
    requires Marked(newer + rows)
    ensures Marked(rows)
  {
    var all := newer + rows;
    forall a, b | 0 <= a < b < |rows| ensures MarkOf(rows[a]) != MarkOf(rows[b]) {
      assert all[|newer| + a] == rows[a] && all[|newer| + b] == rows[b];
    }
  }

  lemma SamePageBelow(newer: seq<Call>, rows: seq<Call>, start: nat, limit: nat)
    requires start <= |rows|
    ensures PageFrom(newer + rows, |newer| + start, limit) == PageFrom(rows, start, limit)
  {
    hide EncodeCursor;
    assert (newer + rows)[|newer| + start..Min(|newer| + start + limit, |newer + rows|)]
        == rows[start..Min(start + limit, |rows|)];
  }

  /** A row further up does not move the page a cursor asks for. */
  lemma NewerRowsDoNotDisturb(newer: seq<Call>, rows: seq<Call>, i: nat, limit: nat)
    requires Marked(newer + rows) && i < |rows|
    ensures var cursor := Some(EncodeCursor(MarkOf(rows[i])));
            PageOf(newer + rows, cursor, limit) == PageOf(rows, cursor, limit)
  {
    hide EncodeCursor, PageFrom, PageOf, MarkOf, Marked;
    assert (newer + rows)[|newer| + i] == rows[i];
    CursorBegins(newer + rows, |newer| + i, limit);
    MarkedBelow(newer, rows);
    CursorBegins(rows, i, limit);
    SamePageBelow(newer, rows, i + 1, limit);
  }

  /**
   * Each page was cut from the rows as they stood when it was asked for; `grown[i]` is
   * what had been added on top by then.
   */
  ghost predicate ChainedAmid(rows: seq<Call>, grown: seq<seq<Call>>, limit: nat, pages: seq<Page>) {
    && pages != [] && |grown| == |pages| && grown[0] == [] && pages[0] == PageOf(rows, None, limit)
    && (forall i | 0 <= i < |pages| - 1 ::
        pages[i].nextCursor.Some? && pages[i + 1] == PageOf(grown[i + 1] + rows, pages[i].nextCursor, limit))
    && pages[|pages| - 1].nextCursor.None?
  }

  lemma NextCursorIsARow(rows: seq<Call>, cursor: Option<string>, limit: nat) returns (i: nat)
    requires limit > 0 && PageOf(rows, cursor, limit).nextCursor.Some?
    ensures i < |rows| && PageOf(rows, cursor, limit).nextCursor == Some(EncodeCursor(MarkOf(rows[i])))
  {
    hide EncodeCursor, DecodeCursor, MarkOf, Start;
    i := Start(rows, DecodeCursor(cursor)) + limit - 1;
  }

  /** Calls made between pages change no later page: the reader sees exactly what was there at the first. */
  lemma {:induction false} NewerCallsDoNotDisturb(rows: seq<Call>, grown: seq<seq<Call>>, limit: nat, pages: seq<Page>,
      n: nat)
    requires limit > 0 && ChainedAmid(rows, grown, limit, pages) && n < |pages|
    requires forall i | 0 <= i < |grown| :: Marked(grown[i] + rows)
    ensures exists cursor :: pages[n] == PageOf(rows, cursor, limit)
    ensures forall i | 0 <= i < n :: pages[i + 1] == PageOf(rows, pages[i].nextCursor, limit)
  {
    hide PageOf, EncodeCursor, Marked;
    if n > 0 {
      NewerCallsDoNotDisturb(rows, grown, limit, pages, n - 1);
      assert pages[n - 1].nextCursor.Some?
          && pages[n - 1 + 1] == PageOf(grown[n - 1 + 1] + rows, pages[n - 1].nextCursor, limit);
      var cursor :| pages[n - 1] == PageOf(rows, cursor, limit);
      var k := NextCursorIsARow(rows, cursor, limit);
      NewerRowsDoNotDisturb(grown[n], rows, k, limit);
    }
  }

  lemma GrowingFeedStillChains(rows: seq<Call>, grown: seq<seq<Call>>, limit: nat, pages: seq<Page>)
    requires limit > 0 && Marked(rows) && ChainedAmid(rows, grown, limit, pages)
    requires forall i | 0 <= i < |grown| :: Marked(grown[i] + rows)
    ensures Chained(rows, limit, pages) && Listing(pages) == rows && |pages| == PageCount(|rows|, limit)
  {
    NewerCallsDoNotDisturb(rows, grown, limit, pages, |pages| - 1);
    PagingShowsEverythingOnce(rows, limit, pages);
  }

  // ── any change between two pages ────────────────────────────────────────

  /** `a` comes before `b` in every feed that shows both. */
  predicate Above(a: Call, b: Call) { NotOlder(a, b) && MarkOf(a) != MarkOf(b) }

  ghost predicate Descending(rows: seq<Call>) { forall i, j | 0 <= i < j < |rows| :: Above(rows[i], rows[j]) }

  lemma AboveChains()
    ensures forall a, b, c | Above(a, b) && Above(b, c) :: Above(a, c)
    ensures forall a, b | Above(a, b) :: !Above(b, a)
  {
    StringsTotal();
    hide StringAtMost;
  }

  lemma DescendingIs(rows: seq<Call>)
    ensures Descending(rows) <==> Sorted(NotOlder, rows) && Marked(rows)
  {
    hide NotOlder, MarkOf;
  }

  lemma FoundBelow(rows: seq<Call>, k: nat, x: Call)
    requires Descending(rows) && k < |rows| && x in rows && Above(rows[k], x)
    ensures x in rows[k + 1..]
  {
    AboveChains();
    hide Above;
    var j :| 0 <= j < |rows| && rows[j] == x;
    assert j > k;
    assert rows[k + 1..][j - k - 1] == x;
  }

  /** The row a cursor was made from is among these. */
  ghost predicate CursorStands(rows: seq<Call>, cursor: Option<string>) {
    exists k :: 0 <= k < |rows| && cursor == Some(EncodeCursor(MarkOf(rows[k])))
  }

  /** The page this feed gives for the cursor of the page before, whose row is still shown. */
  ghost predicate Continues(before: Page, feed: seq<Call>, limit: nat, page: Page) {
    CursorStands(feed, before.nextCursor) && page == PageOf(feed, before.nextCursor, limit)
  }

  /** `feeds[i]` is the feed as it stood when page `i` was asked for. */
  ghost predicate ReadAmidChange(feeds: seq<seq<Call>>, limit: nat, pages: seq<Page>) {
    && |feeds| == |pages| && pages != [] && pages[|pages| - 1].nextCursor.None?
    && (forall i | 0 <= i < |pages| :: Descending(feeds[i]))
    && (forall i | 0 < i < |pages| :: Continues(pages[i - 1], feeds[i], limit, pages[i]))
  }

  lemma ReadTail(feeds: seq<seq<Call>>, limit: nat, pages: seq<Page>)
    requires ReadAmidChange(feeds, limit, pages) && |pages| > 1
    ensures ReadAmidChange(feeds[1..], limit, pages[1..])
    ensures Descending(feeds[0]) && Descending(feeds[1]) && Continues(pages[0], feeds[1], limit, pages[1])
  {
    hide Continues, Descending;
    assert Continues(pages[1 - 1], feeds[1], limit, pages[1]);
    forall i | 0 < i < |pages| - 1 ensures Continues(pages[1..][i - 1], feeds[1..][i], limit, pages[1..][i]) {
      assert Continues(pages[i + 1 - 1], feeds[i + 1], limit, pages[i + 1]);
    }
  }

  lemma SameCursorSameMark(a: Mark, b: Mark)
    requires EncodeCursor(a) == EncodeCursor(b)
    ensures a == b
  {
    hide EncodeCursor, DecodeCursor;
    CursorRoundTrips(a);
    CursorRoundTrips(b);
  }

  /** The next page begins below the row the last one ended with, wherever that row stands by then. */
  lemma NextBegins(rows: seq<Call>, start: nat, limit: nat, later: seq<Call>, next: Page) returns (k: nat)
    requires limit > 0 && start <= |rows| && Descending(later)
    requires PageFrom(rows, start, limit).nextCursor.Some?
        && Continues(PageFrom(rows, start, limit), later, limit, next)
    ensures start + limit < |rows| && PageFrom(rows, start, limit).entries == rows[start..start + limit]
    ensures k < |later| && MarkOf(later[k]) == MarkOf(rows[start + limit - 1]) && next == PageFrom(later, k + 1, limit)
  {
    hide EncodeCursor, PageOf, Descending, Marked;
    var cursor := PageFrom(rows, start, limit).nextCursor;
    assert cursor == Some(EncodeCursor(MarkOf(rows[start + limit - 1])));
    hide PageFrom;
    k :| 0 <= k < |later| && cursor == Some(EncodeCursor(MarkOf(later[k])));
    SameCursorSameMark(MarkOf(later[k]), MarkOf(rows[start + limit - 1]));
    DescendingIs(later);
    CursorBegins(later, k, limit);
  }

  lemma AboveByMark(a: Call, b: Call, x: Call)
    requires MarkOf(a) == MarkOf(b)
    ensures Above(a, x) <==> Above(b, x)
  {
  }

  lemma Joined(page: seq<Call>, rest: seq<Call>)
    requires Descending(page) && Descending(rest)
    requires page != [] && forall c | c in rest :: Above(page[|page| - 1], c)
    ensures Descending(page + rest)
  {
    AboveChains();
    hide Above;
    var all := page + rest;
    forall i, j | 0 <= i < j < |all| ensures Above(all[i], all[j]) {
      if i < |page| <= j {
        assert rest[j - |page|] in rest;
        if i < |page| - 1 { assert Above(page[i], page[|page| - 1]); }
      }
    }
  }

  /** `x` is shown at or below row `start` now, and in every later feed. */
  ghost predicate Stays(feeds: seq<seq<Call>>, start: nat, x: Call) {
    feeds != [] && start <= |feeds[0]| && x in feeds[0][start..] && forall i | 0 < i < |feeds| :: x in feeds[i]
  }

  lemma {:induction false} ReadsOn(feeds: seq<seq<Call>>, limit: nat, pages: seq<Page>, start: nat, x: Call)
    requires limit > 0 && ReadAmidChange(feeds, limit, pages)
    requires start <= |feeds[0]| && pages[0] == PageFrom(feeds[0], start, limit)
    ensures Descending(Listing(pages))
    ensures start > 0 ==> forall c | c in Listing(pages) :: Above(feeds[0][start - 1], c)
    ensures Stays(feeds, start, x) ==> x in Listing(pages)
    decreases |pages|
  {
    hide Continues, Descending, Above, PageFrom;
    var rows, page := feeds[0], pages[0].entries;
    PageDescends(rows, start, limit);
    if |pages| == 1 {
      assert pages == [pages[0]] && pages[1..] == [] && Listing(pages) == page + [] == page;
    } else {
      var later, rest := feeds[1], Listing(pages[1..]);
      ReadTail(feeds, limit, pages);
      assert pages[0].nextCursor.Some? by { Continued(pages[0], feeds[1], limit, pages[1]); }
      var k := NextBegins(rows, start, limit, later, pages[1]);
      ReadsOn(feeds[1..], limit, pages[1..], k + 1, x);
      hide ReadAmidChange, Stays;
      var last := rows[start + limit - 1];
      forall c | c in rest ensures Above(last, c) { AboveByMark(later[k], last, c); }
      Joined(page, rest);
      if start > 0 { AboveThrough(rows[start - 1], last, page, rest); }
      if Stays(feeds, start, x) { StaysOn(feeds, start, limit, k, x); }
    }
  }

  lemma Continued(before: Page, feed: seq<Call>, limit: nat, page: Page)
    requires Continues(before, feed, limit, page)
    ensures before.nextCursor.Some?
  {
  }

  lemma AboveThrough(above: Call, last: Call, page: seq<Call>, rest: seq<Call>)
    requires last in page && (forall c | c in page :: Above(above, c)) && forall c | c in rest :: Above(last, c)
    ensures forall c | c in page + rest :: Above(above, c)
  {
    AboveChains();
    hide Above;
  }

  /** What stays shown is on the page, or stays shown below the row the next one begins after. */
  lemma StaysOn(feeds: seq<seq<Call>>, start: nat, limit: nat, k: nat, x: Call)
    requires Stays(feeds, start, x) && |feeds| > 1 && Descending(feeds[0]) && Descending(feeds[1])
    requires limit > 0 && start + limit < |feeds[0]| && k < |feeds[1]|
        && MarkOf(feeds[1][k]) == MarkOf(feeds[0][start + limit - 1])
    ensures x in feeds[0][start..start + limit] || Stays(feeds[1..], k + 1, x)
  {
    hide Above, MarkOf;
    var rows := feeds[0];
    var j :| 0 <= j < |rows[start..]| && rows[start..][j] == x;
    if j < limit {
      assert rows[start..start + limit][j] == x;
    } else {
      assert Above(rows[start + limit - 1], rows[start + j]);
      AboveByMark(feeds[1][k], rows[start + limit - 1], x);
      FoundBelow(feeds[1], k, x);
      assert forall i | 0 < i < |feeds[1..]| :: feeds[1..][i] == feeds[i + 1];
    }
  }

  lemma PageDescends(rows: seq<Call>, start: nat, limit: nat)
    requires Descending(rows) && start <= |rows|
    ensures var page := PageFrom(rows, start, limit).entries;
            Descending(page) && (start > 0 ==> forall c | c in page :: Above(rows[start - 1], c))
    ensures PageFrom(rows, start, limit).nextCursor.None? && limit > 0 ==>
        PageFrom(rows, start, limit).entries == rows[start..]
  {
    hide Above, EncodeCursor;
    var page := PageFrom(rows, start, limit).entries;
    assert forall i | 0 <= i < |page| :: page[i] == rows[start + i];
  }

  /**
   * Reading a feed that changes. Calls may be made, withdrawn and shown again
   * between pages. As long as each cursor's own row is still shown when the
   * next page is asked for, nothing is shown twice, the whole reading is in
   * order, and every call shown throughout is read.
   */
  lemma ChangingFeedIsReadOnce(feeds: seq<seq<Call>>, limit: nat, pages: seq<Page>, x: Call)
    requires limit > 0 && ReadAmidChange(feeds, limit, pages) && pages[0] == PageOf(feeds[0], None, limit)
    ensures Sorted(NotOlder, Listing(pages)) && Marked(Listing(pages))
    ensures (forall i | 0 <= i < |feeds| :: x in feeds[i]) ==> x in Listing(pages)
  {
    NoCursor();
    hide EncodeCursor, DecodeCursor, PageFrom, Continues, Descending;
    assert feeds[0][0..] == feeds[0];
    ReadsOn(feeds, limit, pages, 0, x);
    DescendingIs(Listing(pages));
  }

  /** When the cursor's row is no longer shown, the reader starts over from the top. */
  lemma MissingRowStartsOver(rows: seq<Call>, m: Mark, limit: nat)
    requires forall i | 0 <= i < |rows| :: MarkOf(rows[i]) != m
    ensures PageOf(rows, Some(EncodeCursor(m)), limit) == PageOf(rows, None, limit)
  {
    CursorRoundTrips(m);
    hide EncodeCursor, DecodeCursor;
    assert DecodeCursor(None) == None by { NoCursor(); }
  }

  lemma NoCursor()
    ensures DecodeCursor(None) == None
  {
  }

  // ── the rows of a ledger ────────────────────────────────────────────────

  ghost predicate Keyed(l: Ledger) { Listed(l) && forall id | id in l.book.calls :: l.book.calls[id].id == id }

  lemma {:induction false} LiveCallsListed(calls: map<Id, Call>, order: seq<Id>)
    requires forall id | id in order :: id in calls && calls[id].id == id
    requires Distinct(order)
    ensures forall c :: c in LiveCalls(calls, order) <==> c.id in order && calls[c.id] == c && Live(c)
    ensures Distinct(LiveCalls(calls, order))
  {
    if order != [] {
      assert order == [order[0]] + order[1..];
      LiveCallsListed(calls, order[1..]);
      assert order[0] !in order[1..];
    }
  }

  lemma {:induction false} LiveCallsAppend(calls: map<Id, Call>, order: seq<Id>, c: Call)
    requires c.id !in order
    ensures LiveCalls(calls[c.id := c], order + [c.id]) == LiveCalls(calls, order) + (if Live(c) then [c] else [])
  {
    if order != [] {
      assert order == [order[0]] + order[1..] && (order + [c.id])[1..] == order[1..] + [c.id];
      LiveCallsAppend(calls, order[1..], c);
    } else {
      assert (order + [c.id])[1..] == [];
    }
  }

  lemma NotOlderTotal()
    ensures TotalOrder(NotOlder)
  {
    StringsTotal();
  }

  /** The feed shows exactly the live calls the viewer may see, once each, newest first. */
  lemma FeedRowsAre(l: Ledger, v: View)
    requires Keyed(l)
    ensures Sorted(NotOlder, FeedRows(l, v)) && Marked(FeedRows(l, v))
    ensures forall i, j | 0 <= i < j < |FeedRows(l, v)| ::
        var newer, older := FeedRows(l, v)[i], FeedRows(l, v)[j];
        newer.lockedAt > older.lockedAt || (newer.lockedAt == older.lockedAt && StringLess(older.id, newer.id))
    ensures forall c :: c in FeedRows(l, v) <==>
        c.id in l.book.calls && l.book.calls[c.id] == c && Live(c) && Shows(l.follows, v, c)
  {
    var live := LiveCalls(l.book.calls, l.order);
    var kept := Filter(live, (c: Call) => Shows(l.follows, v, c));
    LiveCallsListed(l.book.calls, l.order);
    FilterDistinct(live, (c: Call) => Shows(l.follows, v, c));
    SortDistinct(NotOlder, kept);
    SameElements(FeedRows(l, v), kept);
    NotOlderTotal();
    SortSorts(NotOlder, kept);
    DistinctRowsMarked(l.book.calls, FeedRows(l, v));
  }

  // ── whom a call is shown to ─────────────────────────────────────────────

  /** The live followers-only calls of this author. */
  predicate ForFollowersOf(c: Call, author: Id) { Live(c) && c.userId == author && c.visibility == FOLLOWERS }

  /**
   * Following somebody opens their followers-only calls, and unfollowing closes them again,
   * whomever they follow themselves.
   */
  lemma FollowingOpensUnfollowingCloses(e: Env, l: Ledger, v: View, reader: Id, author: Id)
    requires Keyed(l) && reader != author && v.viewer == Some(reader) && v.excluded == {}
    ensures Perform(e, l, Op.Follow(reader, author)).Ok? && Perform(e, l, Op.Unfollow(reader, author)).Ok?
    ensures var followed := Perform(e, l, Op.Follow(reader, author)).value;
            forall id | id in l.book.calls && ForFollowersOf(l.book.calls[id], author) && !v.isPrivate(id) ::
                l.book.calls[id] in FeedRows(followed, v)
    ensures var unfollowed := Perform(e, l, Op.Unfollow(reader, author)).value;
            forall c | c in FeedRows(unfollowed, v) :: !ForFollowersOf(c, author)
  {
    hide FeedRows;
    FeedRowsAre(Perform(e, l, Op.Follow(reader, author)).value, v);
    FeedRowsAre(Perform(e, l, Op.Unfollow(reader, author)).value, v);
  }

  /** A reader who is not signed in is shown the public calls, and nothing else. */
  lemma SignedOutReadsThePublic(l: Ledger, v: View)
    requires Keyed(l) && v.viewer.None? && v.excluded == {}
    ensures forall c :: c in FeedRows(l, v) <==>
        c.id in l.book.calls && l.book.calls[c.id] == c && c.hiddenAt.None? && c.visibility == PUBLIC
            && !v.isPrivate(c.id)
  {
    hide FeedRows;
    FeedRowsAre(l, v);
  }

  /**
   * Whoever reads: their own live calls are there, private and followers-only ones
   * included; so is every public call; nobody else's private call is, no withdrawn one,
   * and none by somebody excluded. Asked for those they follow, they get nobody else.
   */
  lemma EveryReaderIsShown(l: Ledger, v: View, c: Call)
    requires Keyed(l) && c.id in l.book.calls && l.book.calls[c.id] == c
    ensures c.userId !in v.excluded && c.hiddenAt.None? && !(v.followingOnly && v.viewer.Some?) ==>
              && (v.viewer == Some(c.userId) ==> c in FeedRows(l, v))
              && (c.visibility == PUBLIC && !v.isPrivate(c.id) ==> c in FeedRows(l, v))
    ensures c in FeedRows(l, v) ==>
              && c.userId !in v.excluded && c.hiddenAt.None?
              && (v.isPrivate(c.id) ==> v.viewer == Some(c.userId))
              && (v.followingOnly && v.viewer.Some? ==> (v.viewer.value, c.userId) in l.follows)
  {
    hide FeedRows;
    FeedRowsAre(l, v);
  }

  /**
   * A call made for followers is shown to its author and their followers, and to nobody
   * else, from the moment it is locked.
   */
  lemma MadeForFollowers(d: Desk, l: Ledger, id: Id, actor: Id, m: Market, side: Side, s: Statement, parent: Option<Id>,
      v: View)
    requires Keyed(l) && CanLock(d, l, id, actor, m, s, parent) && s.visibility == FOLLOWERS
    requires v.excluded == {} && !v.followingOnly && !v.isPrivate(id)
    ensures var made := NewCall(d, id, actor, m, side, s, parent);
            made in FeedRows(Locked(d, l, made), v) <==>
                v.viewer.Some? && (v.viewer.value == actor || (v.viewer.value, actor) in l.follows)
  {
    hide FeedRows, PriceReadable, StatementFits, LiveCallByUserOnMarket, ParentFits, Keyed, Derive;
    var made := NewCall(d, id, actor, m, side, s, parent);
    LockedKeyed(d, l, made);
    FeedRowsAre(Locked(d, l, made), v);
  }

  lemma LockedKeyed(d: Desk, l: Ledger, c: Call)
    requires Keyed(l) && c.id !in l.book.calls
    ensures Keyed(Locked(d, l, c))
  {
  }

  lemma DistinctRowsMarked(calls: map<Id, Call>, rows: seq<Call>)
    requires Distinct(rows) && forall c | c in rows :: c.id in calls && calls[c.id] == c
    ensures Marked(rows)
  {
    forall i, j | 0 <= i < j < |rows| ensures MarkOf(rows[i]) != MarkOf(rows[j]) {
      assert rows[i] in rows && rows[j] in rows && rows[i] != rows[j];
    }
  }

  lemma {:induction false} NewestSortsFirst(rows: seq<Call>, c: Call)
    requires forall r | r in rows :: r.lockedAt < c.lockedAt
    ensures Sort(NotOlder, rows + [c]) == [c] + Sort(NotOlder, rows)
  {
    hide StringAtMost;
    if rows != [] {
      assert rows == [rows[0]] + rows[1..] && (rows + [c])[1..] == rows[1..] + [c];
      NewestSortsFirst(rows[1..], c);
      assert rows[0] in rows;
      assert ([c] + Sort(NotOlder, rows[1..]))[1..] == Sort(NotOlder, rows[1..]);
    } else {
      assert (rows + [c])[1..] == [];
    }
  }

  /**
   * A call locked after all the others goes on top of whoever's feed shows it, and
   * leaves the rest of every feed alone.
   */
  lemma NewCallGoesOnTop(l: Ledger, l': Ledger, c: Call, v: View)
    requires Keyed(l) && c.id !in l.book.calls && Live(c)
        && (forall id | id in l.book.calls :: l.book.calls[id].lockedAt < c.lockedAt)
    requires l'.order == l.order + [c.id] && l'.book.calls == l.book.calls[c.id := c] && l'.follows == l.follows
    ensures FeedRows(l', v) == (if Shows(l.follows, v, c) then [c] else []) + FeedRows(l, v)
  {
    hide LiveCalls, Shows, NotOlder;
    var shows := (x: Call) => Shows(l.follows, v, x);
    var live := LiveCalls(l.book.calls, l.order);
    LiveCallsListed(l.book.calls, l.order);
    LiveCallsAppend(l.book.calls, l.order, c);
    FilterLast(live, c, shows);
    var kept := Filter(live, shows);
    hide Filter;
    assert kept + [] == kept;
    NewestSortsFirst(kept, c);
    hide Sort;
  }

  lemma FilterLast(s: seq<Call>, c: Call, keep: Call -> bool)
    ensures Filter(s + [c], keep) == Filter(s, keep) + if keep(c) then [c] else []
  {
    FilterAppend(s, [c], keep);
    assert [c][1..] == [] && Filter([c], keep) == if keep(c) then [c] else [];
  }

  // ── the feed, a page at a time ──────────────────────────────────────────

  function FeedPage(l: Ledger, v: View, cursor: Option<string>, requested: int, maxPageSize: nat): Page {
    PageOf(FeedRows(l, v), cursor, Clamped(requested, maxPageSize))
  }

  /** Pages asked for one after the other, each with the cursor of the one before, from none until there is no next. */
  ghost predicate ReadThrough(l: Ledger, v: View, requested: int, maxPageSize: nat, pages: seq<Page>) {
    && pages != [] && pages[0] == FeedPage(l, v, None, requested, maxPageSize)
    && (forall i | 0 <= i < |pages| - 1 ::
          pages[i].nextCursor.Some? && pages[i + 1] == FeedPage(l, v, pages[i].nextCursor, requested, maxPageSize))
    && pages[|pages| - 1].nextCursor.None?
  }

  /**
   * Whatever limit is asked for, reading the feed through shows every call the viewer
   * may see, once each, newest first, and nothing else.
   */
  lemma ReadingThroughShowsEveryCallOnce(l: Ledger, v: View, requested: int, maxPageSize: nat, pages: seq<Page>)
    requires Keyed(l) && ReadThrough(l, v, requested, maxPageSize, pages)
    ensures Sorted(NotOlder, Listing(pages)) && Marked(Listing(pages))
    ensures forall c :: c in Listing(pages) <==>
        c.id in l.book.calls && l.book.calls[c.id] == c && Live(c) && Shows(l.follows, v, c)
    ensures |pages| == PageCount(|Listing(pages)|, Clamped(requested, maxPageSize))
  {
    hide FeedRows, PageOf, Marked, Shows, NotOlder, Keyed;
    FeedRowsAre(l, v);
    PagingShowsEverythingOnce(FeedRows(l, v), Clamped(requested, maxPageSize), pages);
  }
}
