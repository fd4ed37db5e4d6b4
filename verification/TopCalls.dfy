/**
 * Top calls: open calls worth answering, chosen greedily from a sorted list,
 * one per market and at most two per author. The main results are that the
 * choice is exactly the greedy one, and that which way people answered shows
 * in it nowhere until the viewer has a call of their own on the market.
 */
module TopCalls {
  import opened Vocabulary
  import opened Ledgers
  import opened Markets
  import opened Service
  import opened Feed
  import opened Records
  import opened People
  import opened Sorting
  import opened Wilson

  const CALLS_PER_AUTHOR: nat := 2

  datatype Candidate = Candidate(call: Call, volume: nat, credibility: real, funded: bool)

  /** A shown call. `split`, backs and fades, is there only once the viewer has called. */
  datatype TopCall = TopCall(call: Call, author: Person, record: PublicRecord, responses: nat,
      split: Option<(nat, nat)>, viewerHasCalled: bool)

  function ResponsesTo(responses: map<Id, Response>, callId: Id): set<Id> {
    set id | id in responses && responses[id].targetCallId == callId
  }

  function OfKind(responses: map<Id, Response>, callId: Id, kind: ResponseKind): set<Id> {
    set id | id in responses && responses[id].targetCallId == callId && responses[id].kind == kind
  }

  /** Public, live, not private, by somebody else, on a market that can still be answered. */
  predicate Answerable(desk: Desk, viewer: Option<Id>, hidden: set<Id>, c: Call) {
    && c.visibility == PUBLIC && Some(c.userId) != viewer && c.userId !in hidden && !desk.isPrivate(c.id)
    && c.marketId in desk.markets
    && AcceptsNewCalls(desk.markets[c.marketId], desk.now, desk.cutoff)
    && GetResolution(desk.venue, desk.markets[c.marketId].id).None?
  }

  /** An author's evidence counts only once the sample is large enough. */
  function Credibility(d: Directory, record: PublicRecord): real {
    if record.accuracy.Some? then WilsonLowerBound(record.counts.correct, record.counts.decided, d.z, d.sqrt) else 0.0
  }

  function AllTime(desk: Desk, l: Ledger): Scope { Scope(desk.isPrivate, l.book.results, None) }

  function CandidateOf(desk: Desk, d: Directory, l: Ledger, c: Call): Candidate {
    Candidate(c, |ResponsesTo(l.book.responses, c.id)|,
        Credibility(d, RecordOf(AllTime(desk, l), ListCalls(l), c.userId)), d.isFunded(c.id))
  }

  function CandidatesOf(desk: Desk, d: Directory, l: Ledger, calls: seq<Call>): (r: seq<Candidate>)
    ensures |r| == |calls| && forall i | 0 <= i < |calls| :: r[i] == CandidateOf(desk, d, l, calls[i])
  {
    seq(|calls|, i requires 0 <= i < |calls| => CandidateOf(desk, d, l, calls[i]))
  }

  /** Funded first, then response volume, the author's evidence, the newest, the later id. */
  predicate NoLess(a: Candidate, b: Candidate) {
    if a.funded != b.funded then a.funded
    else if a.volume != b.volume then a.volume > b.volume
    else if a.credibility != b.credibility then a.credibility > b.credibility
    else NotOlder(a.call, b.call)
  }

  function Candidates(desk: Desk, d: Directory, l: Ledger, viewer: Option<Id>, hidden: set<Id>): seq<Candidate> {
    Sort(NoLess,
        CandidatesOf(desk, d, l,
        Filter(LiveCalls(l.book.calls, l.order), (c: Call) => Answerable(desk, viewer, hidden, c))))
  }

  lemma NoLessTotal()
    ensures TotalOrder(NoLess)
  {
    hide NotOlder;
    NotOlderTotal();
  }

  /** The candidates are exactly the answerable live calls, best first. */
  lemma CandidatesAre(desk: Desk, d: Directory, l: Ledger, viewer: Option<Id>, hidden: set<Id>)
    requires Keyed(l)
    ensures var r := Candidates(desk, d, l, viewer, hidden);
            && Sorted(NoLess, r)
            && forall c :: c in r <==>
                && c == CandidateOf(desk, d, l, c.call) && Answerable(desk, viewer, hidden, c.call)
                                       && c.call.id in l.book.calls && l.book.calls[c.call.id] == c.call && Live(c.call)
  {
    hide NoLess, Answerable, RecordOf, ResponsesTo, Credibility;
    var open := Filter(LiveCalls(l.book.calls, l.order), (c: Call) => Answerable(desk, viewer, hidden, c));
    var listed, r := CandidatesOf(desk, d, l, open), Candidates(desk, d, l, viewer, hidden);
    LiveCallsListed(l.book.calls, l.order);
    SameElements(r, listed);
    NoLessTotal();
    SortSorts(NoLess, listed);
    hide Sort, LiveCalls, Filter;
    forall c | c in open ensures CandidateOf(desk, d, l, c) in listed {
      var i :| 0 <= i < |open| && open[i] == c;
      assert listed[i] == CandidateOf(desk, d, l, c);
    }
    forall c | c in listed ensures c.call in open && c == CandidateOf(desk, d, l, c.call) {
      var i :| 0 <= i < |listed| && listed[i] == c;
      assert open[i] == c.call;
    }
  }

  /**
   * Which calls those are: each live public one by somebody else, not hidden and not
   * private, on a market that takes new calls and has no resolution. Its volume is how many
   * responses it has, and its author's evidence counts from ten decided calls on.
   */
  lemma CandidatesAreOpen(desk: Desk, d: Directory, l: Ledger, viewer: Option<Id>, hidden: set<Id>, c: Call)
    requires Keyed(l) && c.id in l.book.calls && l.book.calls[c.id] == c
    ensures (exists x :: x in Candidates(desk, d, l, viewer, hidden) && x.call == c) <==>
              && c.hiddenAt.None? && c.visibility == PUBLIC && viewer != Some(c.userId) && c.userId !in hidden
              && !desk.isPrivate(c.id) && c.marketId in desk.markets
              && AcceptsNewCalls(desk.markets[c.marketId], desk.now, desk.cutoff)
              && desk.markets[c.marketId].id !in desk.venue
    ensures forall x | x in Candidates(desk, d, l, viewer, hidden) && x.call == c ::
              var counts := RecordOf(AllTime(desk, l), ListCalls(l), c.userId).counts;
              && x.funded == d.isFunded(c.id)
              && x.volume == |set id | id in l.book.responses && l.book.responses[id].targetCallId == c.id|
              && x.credibility
                 == if counts.decided >= 10 then WilsonLowerBound(counts.correct, counts.decided, d.z, d.sqrt) else 0.0
  {
    CandidatesAre(desk, d, l, viewer, hidden);
    hide Candidates, TallyOf, WilsonLowerBound, AcceptsNewCalls, Keyed, ListCalls;
    if Answerable(desk, viewer, hidden, c) && Live(c) {
      assert CandidateOf(desk, d, l, c) in Candidates(desk, d, l, viewer, hidden);
    }
  }

  /** What is offered to a viewer can be answered: it is visible to them, and its market takes the answer. */
  lemma CandidatesCanBeAnswered(desk: Desk, d: Directory, l: Ledger, viewer: Id, hidden: set<Id>, x: Candidate)
    requires Keyed(l) && x in Candidates(desk, d, l, Some(viewer), hidden)
    ensures x.call.marketId in desk.markets && WindowOpen(desk, desk.markets[x.call.marketId]).Ok?
    ensures VenueOpen(desk, desk.markets[x.call.marketId]).Ok? ==> MayAddress(desk, l, x.call.id, viewer)
  {
    CandidatesAre(desk, d, l, Some(viewer), hidden);
    hide Candidates, CandidateOf, AcceptsNewCalls, Keyed, VenueOpen, BeforeCutoff;
  }

  /** The funded come first, then those with more responses, by a better author, the newer, and the later id. */
  lemma CandidatesComeInOrder(desk: Desk, d: Directory, l: Ledger, viewer: Option<Id>, hidden: set<Id>, i: nat, j: nat)
    requires Keyed(l) && i < j < |Candidates(desk, d, l, viewer, hidden)|
    ensures var a, b := Candidates(desk, d, l, viewer, hidden)[i], Candidates(desk, d, l, viewer, hidden)[j];
            (a.funded && !b.funded)
            || (a.funded == b.funded
                && (a.volume > b.volume
                    || (a.volume == b.volume
                        && (a.credibility > b.credibility
                            || (a.credibility == b.credibility
                                && (a.call.lockedAt > b.call.lockedAt
                                    || (a.call.lockedAt == b.call.lockedAt && StringAtMost(b.call.id, a.call.id))))))))
  {
    CandidatesAre(desk, d, l, viewer, hidden);
    hide Candidates, CandidateOf, Answerable, Keyed;
    var r := Candidates(desk, d, l, viewer, hidden);
    assert NoLess(r[i], r[j]);
  }

  // ── the greedy choice ───────────────────────────────────────────────────

  function CountBy(taken: seq<Candidate>, userId: Id): nat {
    if taken == [] then 0 else CountBy(taken[..|taken| - 1], userId) + if taken[|taken| - 1].call.userId == userId
        then 1 else 0
  }

  predicate OnMarket(taken: seq<Candidate>, marketId: Id) {
    exists i :: 0 <= i < |taken| && taken[i].call.marketId == marketId
  }

  /** An earlier pick is on its market, or two are by its author, or its author is gone. */
  predicate Blocked(known: Id -> bool, taken: seq<Candidate>, c: Candidate) {
    OnMarket(taken, c.call.marketId) || CountBy(taken, c.call.userId) >= CALLS_PER_AUTHOR || !known(c.call.userId)
  }

  /** What has been picked once the first `n` candidates have been looked at. */
  function Picked(known: Id -> bool, candidates: seq<Candidate>, limit: nat, n: nat): (taken: seq<Candidate>)
    requires n <= |candidates|
    ensures |taken| <= limit && |taken| <= n
  {
    if n == 0 then []
    else
      var before, c := Picked(known, candidates, limit, n - 1), candidates[n - 1];
      if |before| >= limit || Blocked(known, before, c) then before else before + [c]
  }

  /** The picks so far are distinct in market and at most two by an author. */
  ghost predicate Spread(taken: seq<Candidate>) {
    && (forall i, j | 0 <= i < j < |taken| :: taken[i].call.marketId != taken[j].call.marketId)
    && forall u :: CountBy(taken, u) <= 2
  }

  lemma CountLast(taken: seq<Candidate>, c: Candidate, u: Id)
    ensures CountBy(taken + [c], u) == CountBy(taken, u) + if c.call.userId == u then 1 else 0
  {
    assert (taken + [c])[..|taken|] == taken;
  }

  /** One market each, at most two by one author, and nobody unknown. */
  lemma {:induction false} PicksAreSpread(known: Id -> bool, candidates: seq<Candidate>, limit: nat, n: nat)
    requires n <= |candidates|
    ensures Spread(Picked(known, candidates, limit, n))
    ensures forall c | c in Picked(known, candidates, limit, n) :: known(c.call.userId)
  {
    if n > 0 {
      PicksAreSpread(known, candidates, limit, n - 1);
      var before, c := Picked(known, candidates, limit, n - 1), candidates[n - 1];
      if |before| < limit && !Blocked(known, before, c) {
        forall u ensures CountBy(before + [c], u) <= CALLS_PER_AUTHOR { CountLast(before, c, u); }
      }
    }
  }

  /** The picks keep the candidates' order: `at[i]` is where the i-th was. */
  ghost predicate Subsequence(taken: seq<Candidate>, candidates: seq<Candidate>, at: seq<nat>) {
    && |at| == |taken|
    && (forall i | 0 <= i < |at| :: at[i] < |candidates| && taken[i] == candidates[at[i]])
    && forall i, j | 0 <= i < j < |at| :: at[i] < at[j]
  }

  lemma SubsequenceMore(taken: seq<Candidate>, candidates: seq<Candidate>, at: seq<nat>, k: nat)
    requires Subsequence(taken, candidates, at) && k < |candidates| && forall i | 0 <= i < |at| :: at[i] < k
    ensures Subsequence(taken + [candidates[k]], candidates, at + [k])
  {
  }

  lemma {:induction false} PicksAreASubsequence(known: Id -> bool, candidates: seq<Candidate>, limit: nat, n: nat)
      returns (at: seq<nat>)
    requires n <= |candidates|
    ensures Subsequence(Picked(known, candidates, limit, n), candidates, at) && forall i | 0 <= i < |at| :: at[i] < n
  {
    hide Blocked, Subsequence;
    if n == 0 {
      at := [];
      assert Subsequence([], candidates, []) by { NothingPicked(candidates); }
    } else {
      at := PicksAreASubsequence(known, candidates, limit, n - 1);
      var before := Picked(known, candidates, limit, n - 1);
      if |before| < limit && !Blocked(known, before, candidates[n - 1]) {
        SubsequenceMore(before, candidates, at, n - 1);
        at := at + [n - 1];
      }
    }
  }

  lemma NothingPicked(candidates: seq<Candidate>)
    ensures Subsequence([], candidates, [])
  {
  }

  lemma {:induction false} PicksOnlyGrow(known: Id -> bool, candidates: seq<Candidate>, limit: nat, k: nat, n: nat)
    requires k <= n <= |candidates|
    ensures Picked(known, candidates, limit, k) <= Picked(known, candidates, limit, n)
  {
    if k < n { PicksOnlyGrow(known, candidates, limit, k, n - 1); }
  }

  lemma {:induction false} BlockedStaysBlocked(known: Id -> bool, taken: seq<Candidate>, more: seq<Candidate>,
      c: Candidate)
    requires taken <= more && Blocked(known, taken, c)
    ensures Blocked(known, more, c)
    decreases |more|
  {
    if OnMarket(taken, c.call.marketId) {
      var i :| 0 <= i < |taken| && taken[i].call.marketId == c.call.marketId;
      assert more[i] == taken[i];
    }
    CountGrows(taken, more, c.call.userId);
  }

  lemma {:induction false} CountGrows(taken: seq<Candidate>, more: seq<Candidate>, u: Id)
    requires taken <= more
    ensures CountBy(taken, u) <= CountBy(more, u)
    decreases |more|
  {
    if |taken| < |more| { CountGrows(taken, more[..|more| - 1], u); } else { assert taken == more; }
  }

  /**
   * Nobody is passed over without reason: a candidate not picked before the limit was
   * reached is blocked by the picks made before it.
   */
  lemma PassedOverIsBlocked(known: Id -> bool, candidates: seq<Candidate>, limit: nat, k: nat)
    requires k < |candidates|
    ensures |Picked(known, candidates, limit, k)| < limit ==>
              (Picked(known, candidates, limit, k + 1) == Picked(known, candidates, limit, k) + [candidates[k]]
               || Blocked(known, Picked(known, candidates, limit, k), candidates[k]))
    ensures var all := Picked(known, candidates, limit, |candidates|);
            |all| < limit && Blocked(known, Picked(known, candidates, limit, k), candidates[k]) ==>
              Blocked(known, all, candidates[k])
  {
    hide Blocked;
    PicksOnlyGrow(known, candidates, limit, k, |candidates|);
    if Blocked(known, Picked(known, candidates, limit, k), candidates[k]) {
      BlockedStaysBlocked(known, Picked(known, candidates, limit, k), Picked(known, candidates, limit, |candidates|),
          candidates[k]);
    }
  }

  // ── what is shown ───────────────────────────────────────────────────────

  function HasCalled(l: Ledger, viewer: Option<Id>, marketId: Id): bool {
    viewer.Some? && LiveCallByUserOnMarket(l, viewer.value, marketId).Some?
  }

  /** The crowd's direction is withheld until the viewer has called. */
  function EntryFor(desk: Desk, d: Directory, l: Ledger, viewer: Option<Id>, c: Candidate): TopCall
    requires c.call.userId in d.people
  {
    var called := HasCalled(l, viewer, c.call.marketId);
    TopCall(c.call, d.people[c.call.userId], RecordOf(AllTime(desk, l), ListCalls(l), c.call.userId), c.volume,
            if called then Some((|OfKind(l.book.responses, c.call.id, BACK)|,
                |OfKind(l.book.responses, c.call.id, FADE)|)) else None,
            called)
  }

  /** Backs and fades are told apart only to somebody with a live call of their own on the market. */
  lemma EntrySays(desk: Desk, d: Directory, l: Ledger, viewer: Option<Id>, c: Candidate)
    requires c.call.userId in d.people && Listed(l)
    ensures var shown := EntryFor(desk, d, l, viewer, c);
            && shown.call == c.call && shown.author == d.people[c.call.userId] && shown.responses == c.volume
            && shown.record == RecordOf(AllTime(desk, l), ListCalls(l), c.call.userId)
            && (shown.viewerHasCalled <==>
                  exists id :: id in l.book.calls && Some(l.book.calls[id].userId) == viewer
                               && l.book.calls[id].marketId == c.call.marketId && l.book.calls[id].hiddenAt.None?)
            && shown.split
               == if shown.viewerHasCalled then Some((
                      |set id | id in l.book.responses && l.book.responses[id].targetCallId == c.call.id
                                && l.book.responses[id].kind == BACK|,
                      |set id | id in l.book.responses && l.book.responses[id].targetCallId == c.call.id
                                && l.book.responses[id].kind == FADE|))
                  else None
  {
    hide RecordOf, ListCalls;
    if viewer.Some? { NoLiveCallIff(l, viewer.value, c.call.marketId); }
    hide FirstLive;
  }

  function Known(d: Directory): Id -> bool { (u: Id) => u in d.people }

  function EntriesFor(desk: Desk, d: Directory, l: Ledger, viewer: Option<Id>, picks: seq<Candidate>): (r: seq<TopCall>)
    requires forall c | c in picks :: c.call.userId in d.people
    ensures |r| == |picks| && forall i | 0 <= i < |picks| ::
        picks[i] in picks && r[i] == EntryFor(desk, d, l, viewer, picks[i])
  {
    seq(|picks|, i requires 0 <= i < |picks| => assert picks[i] in picks; EntryFor(desk, d, l, viewer, picks[i]))
  }

  function TopPicks(desk: Desk, d: Directory, l: Ledger, viewer: Option<Id>, hidden: set<Id>,
      limit: nat): (picks: seq<Candidate>)
    ensures forall c | c in picks :: c.call.userId in d.people
  {
    var candidates := Candidates(desk, d, l, viewer, hidden);
    PicksAreSpread(Known(d), candidates, limit, |candidates|);
    Picked(Known(d), candidates, limit, |candidates|)
  }

  function TopCallsOf(desk: Desk, d: Directory, l: Ledger, viewer: Option<Id>, hidden: set<Id>,
      limit: nat): seq<TopCall> {
    EntriesFor(desk, d, l, viewer, TopPicks(desk, d, l, viewer, hidden, limit))
  }

  /** The markets seen and the calls per author, kept in step with the picks. */
  ghost predicate Tracks(taken: seq<Candidate>, seenMarkets: set<Id>, perAuthor: map<Id, nat>) {
    && (forall m :: m in seenMarkets <==> OnMarket(taken, m))
    && forall u :: (if u in perAuthor then perAuthor[u] else 0) == CountBy(taken, u)
  }

  lemma TracksOneMore(taken: seq<Candidate>, seenMarkets: set<Id>, perAuthor: map<Id, nat>, c: Candidate)
    requires Tracks(taken, seenMarkets, perAuthor)
    ensures var count := if c.call.userId in perAuthor then perAuthor[c.call.userId] else 0;
            Tracks(taken + [c], seenMarkets + {c.call.marketId}, perAuthor[c.call.userId := count + 1])
  {
    var more := taken + [c];
    forall m ensures OnMarket(more, m) <==> OnMarket(taken, m) || m == c.call.marketId {
      if OnMarket(taken, m) { var i :| 0 <= i < |taken| && taken[i].call.marketId == m; assert more[i] == taken[i]; }
      if m == c.call.marketId { assert more[|taken|] == c; }
    }
    forall u ensures CountBy(more, u) == CountBy(taken, u) + if c.call.userId == u then 1 else 0 {
      CountLast(taken, c, u);
    }
  }

  method ListTopCalls(desk: Desk, d: Directory, l: Ledger, viewer: Option<Id>, hidden: set<Id>, limit: nat)
      returns (entries: seq<TopCall>)
    ensures entries == TopCallsOf(desk, d, l, viewer, hidden, limit)
  {
    hide Candidates, EntryFor, Blocked, Tracks, CountBy, OnMarket;
    var candidates := Candidates(desk, d, l, viewer, hidden);
    var seenMarkets: set<Id>, perAuthor: map<Id, nat> := {}, map[];
    ghost var taken: seq<Candidate> := [];
    entries := [];
    assert Tracks([], {}, map[]) by { NothingTracked(); }
    var i := 0;
    while i < |candidates| && |entries| < limit
      invariant 0 <= i <= |candidates| && taken == Picked(Known(d), candidates, limit, i)
      invariant Tracks(taken, seenMarkets, perAuthor) && (forall c | c in taken :: c.call.userId in d.people)
      invariant entries == EntriesFor(desk, d, l, viewer, taken)
    {
      var c := candidates[i];
      i := i + 1;
      BlockedAsTracked(Known(d), taken, seenMarkets, perAuthor, c);
      if c.call.marketId in seenMarkets { continue; }
      var count := if c.call.userId in perAuthor then perAuthor[c.call.userId] else 0;
      if count >= CALLS_PER_AUTHOR { continue; }
      if c.call.userId !in d.people { continue; }
      TracksOneMore(taken, seenMarkets, perAuthor, c);
      seenMarkets := seenMarkets + {c.call.marketId};
      perAuthor := perAuthor[c.call.userId := count + 1];
      taken := taken + [c];
      entries := entries + [EntryFor(desk, d, l, viewer, c)];
    }
    FullIsFinal(Known(d), candidates, limit, i);
  }

  lemma NothingTracked()
    ensures Tracks([], {}, map[])
  {
  }

  lemma BlockedAsTracked(known: Id -> bool, taken: seq<Candidate>, seenMarkets: set<Id>, perAuthor: map<Id, nat>,
      c: Candidate)
    requires Tracks(taken, seenMarkets, perAuthor)
    ensures Blocked(known, taken, c) <==>
              || c.call.marketId in seenMarkets
              || (if c.call.userId in perAuthor then perAuthor[c.call.userId] else 0) >= CALLS_PER_AUTHOR
              || !known(c.call.userId)
  {
  }

  /** Once the limit is reached nothing further is picked. */
  lemma {:induction false} FullIsFinal(known: Id -> bool, candidates: seq<Candidate>, limit: nat, i: nat)
    requires i <= |candidates| && (i == |candidates| || |Picked(known, candidates, limit, i)| >= limit)
    ensures Picked(known, candidates, limit, |candidates|) == Picked(known, candidates, limit, i)
    decreases |candidates| - i
  {
    if i < |candidates| {
      assert Picked(known, candidates, limit, i + 1) == Picked(known, candidates, limit, i);
      FullIsFinal(known, candidates, limit, i + 1);
    }
  }

  // ── no crowd direction ──────────────────────────────────────────────────

  /** The same responses to the same calls, whichever way each of them goes. */
  ghost predicate Relabelled(a: map<Id, Response>, b: map<Id, Response>) {
    a.Keys == b.Keys && forall id | id in a :: a[id].targetCallId == b[id].targetCallId
  }

  lemma SameVolume(a: map<Id, Response>, b: map<Id, Response>, callId: Id)
    requires Relabelled(a, b)
    ensures ResponsesTo(a, callId) == ResponsesTo(b, callId)
  {
    assert forall id :: id in a.Keys <==> id in b.Keys;
  }

  lemma SameCandidates(desk: Desk, d: Directory, l: Ledger, l': Ledger, viewer: Option<Id>, hidden: set<Id>)
    requires Relabelled(l.book.responses, l'.book.responses)
        && l' == l.(book := l.book.(responses := l'.book.responses))
    ensures Candidates(desk, d, l, viewer, hidden) == Candidates(desk, d, l', viewer, hidden)
  {
    hide RecordOf, Sort, NoLess, Filter, Answerable, ResponsesTo, Relabelled, LiveCalls;
    var open := Filter(LiveCalls(l.book.calls, l.order), (c: Call) => Answerable(desk, viewer, hidden, c));
    forall i | 0 <= i < |open| ensures CandidateOf(desk, d, l, open[i]) == CandidateOf(desk, d, l', open[i]) {
      SameVolume(l.book.responses, l'.book.responses, open[i].id);
    }
    assert CandidatesOf(desk, d, l, open) == CandidatesOf(desk, d, l', open);
  }

  /**
   * Turning backs into fades, or into challenges, changes nothing a viewer sees
   * in the top calls while they have no live call on any market shown.
   */
  lemma NoCrowdDirectionBeforeYourOwnCall(desk: Desk, d: Directory, l: Ledger, l': Ledger, viewer: Option<Id>,
      hidden: set<Id>, limit: nat)
    requires Relabelled(l.book.responses, l'.book.responses)
        && l' == l.(book := l.book.(responses := l'.book.responses))
    requires forall c | c in TopPicks(desk, d, l, viewer, hidden, limit) :: !HasCalled(l, viewer, c.call.marketId)
    ensures TopCallsOf(desk, d, l, viewer, hidden, limit) == TopCallsOf(desk, d, l', viewer, hidden, limit)
  {
    SameCandidates(desk, d, l, l', viewer, hidden);
    hide Candidates, Picked, RecordOf, OfKind, Relabelled;
    var picks := TopPicks(desk, d, l, viewer, hidden, limit);
    assert picks == TopPicks(desk, d, l', viewer, hidden, limit);
    hide TopPicks;
    forall i | 0 <= i < |picks|
        ensures EntryFor(desk, d, l, viewer, picks[i]) == EntryFor(desk, d, l', viewer, picks[i]) {
      assert picks[i] in picks;
    }
  }
}
