/**
 * A person's public record, and every author's record in one pass over the
 * calls. The main result is that the pass gives each author exactly the record
 * a scan of that author's own calls gives.
 */
module Records {
  import opened Vocabulary
  import opened Ledgers
  import opened CallsStores
  import opened Feed
  import opened Sorting

  const MIN_DECIDED_FOR_ACCURACY: nat := 10

  datatype Tally = Tally(correct: nat, incorrect: nat, voided: nat, pending: nat)

  const EMPTY_TALLY := Tally(0, 0, 0, 0)

  datatype Counts = Counts(correct: nat, incorrect: nat, voided: nat, resolved: nat, decided: nat, pending: nat)

  /** The counts, and the accuracy once enough calls are decided. */
  datatype PublicRecord = PublicRecord(counts: Counts, accuracy: Option<real>)

  /** What a record is drawn from: the calls that were never public, the results, and the start of the window. */
  datatype Scope = Scope(isPrivate: Id -> bool, results: map<Id, CallResult>, since: Option<int>)

  /** Public free calls, hidden ones included; never a call that was not public. */
  predicate OnRecord(isPrivate: Id -> bool, c: Call) {
    c.visibility == PUBLIC && c.fundingState == NONE && !isPrivate(c.id)
  }

  function OutcomeOf(results: map<Id, CallResult>, c: Call): Outcome {
    if c.id in results then results[c.id].outcome else PENDING
  }

  /** A window is about results: a pending call belongs to none. */
  predicate InWindow(s: Scope, c: Call) {
    s.since.Some? ==>
      && c.id in s.results && s.results[c.id].outcome != PENDING
      && s.results[c.id].resolvedAt.Some? && s.results[c.id].resolvedAt.value >= s.since.value
  }

  predicate Counted(s: Scope, c: Call) { OnRecord(s.isPrivate, c) && InWindow(s, c) }

  function TallyOne(t: Tally, o: Outcome): Tally {
    match o
    case CORRECT => t.(correct := t.correct + 1)
    case INCORRECT => t.(incorrect := t.incorrect + 1)
    case VOIDED => t.(voided := t.voided + 1)
    case PENDING => t.(pending := t.pending + 1)
  }

  function Fold(s: Scope, t: Tally, c: Call): Tally {
    if !OnRecord(s.isPrivate, c) then t
    else
      var outcome := OutcomeOf(s.results, c);
      if s.since.Some? && (outcome == PENDING || s.results[c.id].resolvedAt.None?
          || s.results[c.id].resolvedAt.value < s.since.value) then t
      else TallyOne(t, outcome)
  }

  function TallyAll(s: Scope, rows: seq<Call>): Tally {
    if rows == [] then EMPTY_TALLY else Fold(s, TallyAll(s, rows[..|rows| - 1]), rows[|rows| - 1])
  }

  function RecordFrom(t: Tally): PublicRecord {
    var decided := t.correct + t.incorrect;
    PublicRecord(Counts(t.correct, t.incorrect, t.voided, t.correct + t.incorrect + t.voided, decided, t.pending),
                 if decided < MIN_DECIDED_FOR_ACCURACY then None else Some(t.correct as real / decided as real))
  }

  /** The calls in the order they were made. */
  function ListCalls(l: Ledger): seq<Call> { CallsOf(l.book.calls, l.order) }

  function CallsOf(calls: map<Id, Call>, order: seq<Id>): seq<Call> {
    if order == [] then [] else (if order[0] in calls then [calls[order[0]]] else []) + CallsOf(calls, order[1..])
  }

  function By(userId: Id): Call -> bool { (c: Call) => c.userId == userId }

  /** The record a scan of this person's own calls gives. */
  function RecordOf(s: Scope, rows: seq<Call>, userId: Id): PublicRecord { RecordFrom(TallyOf(s, rows, userId)) }

  function TallyOf(s: Scope, rows: seq<Call>, userId: Id): Tally { TallyAll(s, Filter(rows, By(userId))) }

  // ── what a tally says ───────────────────────────────────────────────────

  ghost predicate CountedAs(s: Scope, o: Outcome, c: Call) { Counted(s, c) && OutcomeOf(s.results, c) == o }

  ghost function HowMany(s: Scope, o: Outcome, rows: seq<Call>): nat {
    if rows == [] then 0 else HowMany(s, o, rows[..|rows| - 1]) + if CountedAs(s, o, rows[|rows| - 1]) then 1 else 0
  }

  /** A tally is how many counted calls came to each outcome; nothing is shed and nothing counted twice. */
  lemma {:induction false} TallyIsHowMany(s: Scope, rows: seq<Call>)
    ensures TallyAll(s, rows)
        == Tally(HowMany(s, CORRECT, rows), HowMany(s, INCORRECT, rows), HowMany(s, VOIDED, rows),
        HowMany(s, PENDING, rows))
  {
    if rows != [] { TallyIsHowMany(s, rows[..|rows| - 1]); }
  }

  /**
   * A record accounts for every call it counts: resolved is correct, incorrect and
   * void, decided leaves out the void, and an accuracy, from ten decided calls on, is a
   * proportion.
   */
  lemma RecordAddsUp(s: Scope, rows: seq<Call>, userId: Id)
    ensures var own, counts, accuracy := Filter(rows, By(userId)), RecordOf(s, rows, userId).counts,
        RecordOf(s, rows, userId).accuracy;
            && counts.correct == HowMany(s, CORRECT, own) && counts.incorrect == HowMany(s, INCORRECT, own)
            && counts.voided == HowMany(s, VOIDED, own) && counts.pending == HowMany(s, PENDING, own)
            && counts.resolved == counts.correct + counts.incorrect + counts.voided
                && counts.decided == counts.correct + counts.incorrect
            && (accuracy.Some? <==> counts.decided >= 10)
            && (accuracy.Some? ==> accuracy.value * counts.decided as real == counts.correct as real)
  {
    hide HowMany, TallyAll;
    TallyIsHowMany(s, Filter(rows, By(userId)));
  }

  /**
   * One more public free call moves its author's record by one, under the outcome it came
   * to, and nobody else's: pending until there is a result. A window counts it once it is
   * resolved at or after its start.
   */
  lemma OneMoreCallCounts(s: Scope, rows: seq<Call>, c: Call, userId: Id)
    requires c.visibility == PUBLIC && c.fundingState == NONE && !s.isPrivate(c.id)
    ensures var before, after := RecordOf(s, rows, userId).counts, RecordOf(s, rows + [c], userId).counts;
            var o := if c.id in s.results then s.results[c.id].outcome else PENDING;
            var resolvedAt := if c.id in s.results then s.results[c.id].resolvedAt else None;
            var counts := s.since.None? || (o != PENDING && resolvedAt.Some? && resolvedAt.value >= s.since.value);
            if c.userId != userId || !counts then after == before
            else
              && after.correct == before.correct + (if o == CORRECT then 1 else 0)
              && after.incorrect == before.incorrect + (if o == INCORRECT then 1 else 0)
              && after.voided == before.voided + (if o == VOIDED then 1 else 0)
              && after.pending == before.pending + (if o == PENDING then 1 else 0)
  {
    FilterLast(rows, c, By(userId));
    var own := Filter(rows, By(userId));
    hide Filter;
    if c.userId == userId {
      TallyLast(s, own, c);
    } else {
      assert own + [] == own;
    }
  }

  // ── one pass ────────────────────────────────────────────────────────────

  ghost predicate Wrote(rows: seq<Call>, userId: Id) { exists i :: 0 <= i < |rows| && rows[i].userId == userId }

  /** The authors, in the order of their first calls. */
  function Authors(rows: seq<Call>): seq<Id> {
    if rows == [] then []
    else
      var before, last := Authors(rows[..|rows| - 1]), rows[|rows| - 1].userId;
      if last in before then before else before + [last]
  }

  lemma {:induction false} AuthorsWrote(rows: seq<Call>)
    ensures Distinct(Authors(rows)) && forall u :: u in Authors(rows) <==> Wrote(rows, u)
  {
    if rows != [] {
      var before, last := rows[..|rows| - 1], rows[|rows| - 1];
      AuthorsWrote(before);
      forall u ensures Wrote(rows, u) <==> Wrote(before, u) || u == last.userId {
        if Wrote(before, u) {
          var i :| 0 <= i < |before| && before[i].userId == u;
          assert rows[i].userId == u;
        }
        if Wrote(rows, u) {
          var i :| 0 <= i < |rows| && rows[i].userId == u;
          if i < |before| { assert before[i].userId == u; }
        }
      }
    }
  }

  /** `u` wrote before `w`'s first call. */
  ghost predicate CameFirst(rows: seq<Call>, u: Id, w: Id) {
    exists i :: 0 <= i < |rows| && rows[i].userId == u && forall k | 0 <= k <= i :: rows[k].userId != w
  }

  lemma CameFirstGrows(rows: seq<Call>, n: nat, u: Id, w: Id)
    requires n <= |rows| && CameFirst(rows[..n], u, w)
    ensures CameFirst(rows, u, w)
  {
    var i :| 0 <= i < n && rows[..n][i].userId == u && forall k | 0 <= k <= i :: rows[..n][k].userId != w;
    assert rows[i].userId == u && forall k | 0 <= k <= i :: rows[k].userId == rows[..n][k].userId;
  }

  lemma WroteBefore(rows: seq<Call>, n: nat, u: Id)
    requires n <= |rows|
    ensures Wrote(rows[..n], u) <==> exists k :: 0 <= k < n && rows[k].userId == u
  {
    assert forall k | 0 <= k < n :: rows[..n][k] == rows[k];
    if k :| 0 <= k < n && rows[k].userId == u { assert rows[..n][k].userId == u; }
    if Wrote(rows[..n], u) {
      var k :| 0 <= k < n && rows[..n][k].userId == u;
      assert rows[k].userId == u;
    }
  }

  lemma {:induction false} OneCameFirst(rows: seq<Call>, u: Id, w: Id)
    requires u != w && (Wrote(rows, u) || Wrote(rows, w))
    ensures CameFirst(rows, u, w) || CameFirst(rows, w, u)
  {
    var n := |rows| - 1;
    WroteBefore(rows, n, u);
    WroteBefore(rows, n, w);
    if Wrote(rows[..n], u) || Wrote(rows[..n], w) {
      hide Wrote;
      OneCameFirst(rows[..n], u, w);
      if CameFirst(rows[..n], u, w) { CameFirstGrows(rows, n, u, w); } else { CameFirstGrows(rows, n, w, u); }
    } else {
      LastCameFirst(rows, u, w);
    }
  }

  lemma LastCameFirst(rows: seq<Call>, u: Id, w: Id)
    requires u != w && rows != [] && (Wrote(rows, u) || Wrote(rows, w))
    requires forall k | 0 <= k < |rows| - 1 :: rows[k].userId != u && rows[k].userId != w
    ensures CameFirst(rows, u, w) || CameFirst(rows, w, u)
  {
    var last := rows[|rows| - 1].userId;
    assert last == u || last == w;
  }

  lemma CameFirstBefore(rows: seq<Call>, n: nat, u: Id, w: Id)
    requires n + 1 == |rows| && CameFirst(rows, u, w) && u != w
    ensures Wrote(rows[..n], w) ==> CameFirst(rows[..n], u, w)
    ensures rows[n].userId == w ==> Wrote(rows[..n], u)
  {
    WroteBefore(rows, n, w);
    WroteBefore(rows, n, u);
    var i :| 0 <= i < |rows| && rows[i].userId == u && forall k | 0 <= k <= i :: rows[k].userId != w;
    if Wrote(rows[..n], w) {
      assert rows[..n][i].userId == u && forall k | 0 <= k <= i :: rows[..n][k] == rows[k];
    }
  }

  lemma {:induction false} AuthorsFollow(rows: seq<Call>, u: Id, w: Id)
    requires u != w && CameFirst(rows, u, w) && Wrote(rows, w)
    ensures Before(Authors(rows), u, w)
  {
    var n := |rows| - 1;
    var before, authors, last := rows[..n], Authors(rows[..n]), rows[n].userId;
    AuthorsWrote(before);
    CameFirstBefore(rows, n, u, w);
    WroteBefore(rows, n, w);
    assert !Wrote(before, w) ==> last == w;
    hide Wrote, CameFirst;
    if Wrote(before, w) {
      AuthorsFollow(before, u, w);
      BeforeLonger(authors, last, u, w);
    } else {
      assert u in authors;
      BeforeLast(authors, u, w);
    }
  }

  lemma TallyLast(s: Scope, rows: seq<Call>, c: Call)
    ensures TallyAll(s, rows + [c]) == Fold(s, TallyAll(s, rows), c)
  {
    assert (rows + [c])[..|rows|] == rows;
  }

  /** One more call goes into its own author's tally and nobody else's. */
  lemma TallyStep(s: Scope, rows: seq<Call>, i: nat, userId: Id)
    requires i < |rows|
    ensures TallyOf(s, rows[..i + 1], userId)
            == if rows[i].userId == userId then Fold(s, TallyOf(s, rows[..i], userId), rows[i])
                else TallyOf(s, rows[..i], userId)
  {
    assert rows[..i + 1] == rows[..i] + [rows[i]];
    FilterLast(rows[..i], rows[i], By(userId));
    TallyLast(s, Filter(rows[..i], By(userId)), rows[i]);
    hide TallyAll, Filter, Fold;
    if rows[i].userId != userId { assert Filter(rows[..i], By(userId)) + [] == Filter(rows[..i], By(userId)); }
  }

  lemma WroteAlready(rows: seq<Call>, n: nat, userId: Id)
    requires n <= |rows|
    ensures Wrote(rows[..n], userId) ==> Wrote(rows, userId)
  {
    if Wrote(rows[..n], userId) {
      var i :| 0 <= i < n && rows[..n][i].userId == userId;
      assert rows[i].userId == userId;
    }
  }

  lemma {:induction false} NoCallsNoTally(s: Scope, rows: seq<Call>, userId: Id)
    ensures !Wrote(rows, userId) ==> TallyOf(s, rows, userId) == EMPTY_TALLY
  {
    if rows != [] && !Wrote(rows, userId) {
      var n := |rows| - 1;
      WroteAlready(rows, n, userId);
      NoCallsNoTally(s, rows[..n], userId);
      assert rows[n].userId != userId;
      TallyStep(s, rows, n, userId);
      assert rows[..n + 1] == rows;
    }
  }

  /** The tallies after some calls: one for each author so far, and each the scan of that author's calls. */
  ghost predicate PassSoFar(s: Scope, rows: seq<Call>, authors: seq<Id>, tallies: map<Id, Tally>) {
    && authors == Authors(rows) && (forall u :: u in tallies <==> u in authors)
    && forall u | u in tallies :: tallies[u] == TallyOf(s, rows, u)
  }

  lemma PassStep(s: Scope, rows: seq<Call>, i: nat, authors: seq<Id>, tallies: map<Id, Tally>)
    requires i < |rows| && PassSoFar(s, rows[..i], authors, tallies)
    ensures var author := rows[i].userId;
            var before := if author in tallies then tallies[author] else EMPTY_TALLY;
            PassSoFar(s, rows[..i + 1], if author in tallies then authors else authors + [author],
                tallies[author := Fold(s, before, rows[i])])
  {
    hide TallyOf, Fold;
    var author := rows[i].userId;
    assert rows[..i + 1][..i] == rows[..i];
    AuthorsWrote(rows[..i]);
    TallyStep(s, rows, i, author);
    NoCallsNoTally(s, rows[..i], author);
    forall u | u in tallies && u != author ensures tallies[u] == TallyOf(s, rows[..i + 1], u) {
      TallyStep(s, rows, i, u);
    }
  }

  lemma PassEnds(s: Scope, rows: seq<Call>, authors: seq<Id>, tallies: map<Id, Tally>, u: Id)
    requires PassSoFar(s, rows, authors, tallies)
    ensures TallyOf(s, rows, u) == if u in tallies then tallies[u] else EMPTY_TALLY
  {
    hide TallyOf;
    AuthorsWrote(rows);
    NoCallsNoTally(s, rows, u);
  }

  /**
   * Every author's record in one pass: the tallies are kept by author and each
   * call is folded into its own. The pass agrees with the per-person scan for
   * everybody, an absent author having the empty record.
   */
  method RecordsByAuthor(s: Scope, rows: seq<Call>) returns (records: map<Id, PublicRecord>, authors: seq<Id>)
    ensures authors == Authors(rows) && forall u :: u in records <==> u in authors
    ensures forall u :: RecordOf(s, rows, u) == if u in records then records[u] else RecordFrom(EMPTY_TALLY)
  {
    hide TallyOf, Fold, RecordFrom, PassSoFar;
    var tallies: map<Id, Tally> := map[];
    authors := [];
    assert PassSoFar(s, rows[..0], authors, tallies) by { PassStarts(s, rows); }
    for i := 0 to |rows|
      invariant PassSoFar(s, rows[..i], authors, tallies)
    {
      PassStep(s, rows, i, authors, tallies);
      var call := rows[i];
      var acc := EMPTY_TALLY;
      if call.userId in tallies {
        acc := tallies[call.userId];
      } else {
        authors := authors + [call.userId];
      }
      tallies := tallies[call.userId := Fold(s, acc, call)];
    }
    assert rows[..|rows|] == rows;
    records := map u | u in tallies :: RecordFrom(tallies[u]);
    PassTables(s, rows, authors, tallies);
    forall u ensures RecordOf(s, rows, u) == if u in records then records[u] else RecordFrom(EMPTY_TALLY) {
      PassEnds(s, rows, authors, tallies, u);
    }
  }

  lemma PassStarts(s: Scope, rows: seq<Call>)
    ensures PassSoFar(s, rows[..0], [], map[])
  {
  }

  lemma PassTables(s: Scope, rows: seq<Call>, authors: seq<Id>, tallies: map<Id, Tally>)
    requires PassSoFar(s, rows, authors, tallies)
    ensures authors == Authors(rows) && forall u :: u in tallies <==> u in authors
  {
  }
}
