/**
 * The write limiter: token buckets that refill with time, in a map bounded by
 * evicting the least recently touched key. The main results bound what a key
 * that is not evicted can spend over any stretch of attempts on any keys, and
 * say that nobody is refused short of that, that a refused attempt costs
 * nothing, that the wait it names is enough and no whole millisecond too long,
 * and that no key is evicted while there are no more than the map may hold.
 */
module WriteLimits {
  import opened Vocabulary
  import opened Sorting

  datatype Scope = IP | SESSION | USER

  /** `capacity` tokens at most, one more every `refillMs`. */
  datatype BucketSpec = BucketSpec(capacity: real, refillMs: real)

  datatype Config = Config(spec: Scope -> BucketSpec, maxKeys: nat)

  datatype Bucket = Bucket(tokens: real, at: real)

  /** The map in its own order: least recently touched first. */
  datatype State = State(order: seq<string>, buckets: map<string, Bucket>)

  datatype Attempt = Attempt(scope: Scope, key: string, now: real)

  datatype Answer = Granted | RetryAfter(ms: int)

  ghost predicate Refills(spec: BucketSpec) { spec.refillMs > 0.0 }

  ghost predicate Sound(cfg: Config) { forall scope :: Refills(cfg.spec(scope)) && cfg.spec(scope).capacity >= 1.0 }

  function ScopeName(s: Scope): string {
    match s
    case IP => "ip"
    case SESSION => "session"
    case USER => "user"
  }

  function IdOf(a: Attempt): string { ScopeName(a.scope) + ":" + a.key }

  // ── one bucket ──────────────────────────────────────────────────────────

  function Min(a: real, b: real): real { if a < b then a else b }

  function Earned(spec: BucketSpec, elapsed: real): real
    requires Refills(spec)
  {
    elapsed / spec.refillMs
  }

  /** The tokens at hand at `now`. */
  function Level(spec: BucketSpec, prior: Option<Bucket>, now: real): real
    requires Refills(spec)
  {
    match prior
    case None => spec.capacity
    case Some(b) => Min(spec.capacity, b.tokens + Earned(spec, now - b.at))
  }

  function Ceil(x: real): int {
    if x == x.Floor as real then x.Floor else x.Floor + 1
  }

  lemma EarnedAdds(spec: BucketSpec, a: real, b: real)
    requires Refills(spec)
    ensures Earned(spec, a) + Earned(spec, b) == Earned(spec, a + b)
    ensures a >= 0.0 ==> Earned(spec, a) >= 0.0
    ensures a < b ==> Earned(spec, a) < Earned(spec, b)
  {
    var r := spec.refillMs;
    assert (a / r) * r == a && (b / r) * r == b && ((a + b) / r) * r == a + b;
    Cancel(a / r + b / r, (a + b) / r, r);
    Ordered(a / r, b / r, r);
    Ordered(0.0, a / r, r);
    Ordered(a / r, 0.0, r);
  }

  lemma Cancel(x: real, y: real, r: real)
    requires r > 0.0 && x * r == y * r
    ensures x == y
  {
    assert (x - y) * r == 0.0;
  }

  lemma Ordered(x: real, y: real, r: real)
    requires r > 0.0
    ensures x * r < y * r ==> x < y
  {
    if x >= y { Grows(y, x, r); }
  }

  lemma Grows(x: real, y: real, r: real)
    requires r > 0.0 && x <= y
    ensures x * r <= y * r
  {
  }

  lemma EarnedOf(spec: BucketSpec, tokens: real, elapsed: real)
    requires Refills(spec) && elapsed == tokens * spec.refillMs
    ensures Earned(spec, elapsed) == tokens
  {
    var r := spec.refillMs;
    assert (elapsed / r) * r == elapsed;
    Cancel(elapsed / r, tokens, r);
  }

  /** Nothing is gained by waiting but what time earns. */
  lemma LevelRises(spec: BucketSpec, prior: Option<Bucket>, now: real, later: real)
    requires Refills(spec) && now <= later
    ensures Level(spec, prior, now) <= Level(spec, prior, later) <= Level(spec, prior, now) + Earned(spec, later - now)
  {
    EarnedAdds(spec, later - now, 0.0);
    if prior.Some? { EarnedAdds(spec, now - prior.value.at, later - now); }
    hide Earned;
  }

  /** A refused attempt leaves the level at every later instant what it would have been. */
  lemma RefusalIsFree(spec: BucketSpec, prior: Option<Bucket>, now: real, later: real)
    requires Refills(spec) && spec.capacity >= 1.0 && now <= later && Level(spec, prior, now) < 1.0
    ensures Level(spec, Some(Bucket(Level(spec, prior, now), now)), later) == Level(spec, prior, later)
  {
    EarnedAdds(spec, now - prior.value.at, later - now);
    hide Earned;
  }

  lemma CeilBounds(x: real)
    ensures (Ceil(x) - 1) as real < x <= Ceil(x) as real
    ensures x > 0.0 ==> Ceil(x) >= 1
  {
  }

  lemma NeedIsPositive(tokens: real, r: real)
    requires tokens < 1.0 && r > 0.0
    ensures (1.0 - tokens) * r > 0.0
  {
  }

  /** The time until a whole token has been earned. */
  function Need(spec: BucketSpec, tokens: real): real { (1.0 - tokens) * spec.refillMs }

  /** The whole milliseconds a refusal names. */
  function WaitFor(spec: BucketSpec, tokens: real): int { Ceil(Need(spec, tokens)) }

  lemma NeedEarns(spec: BucketSpec, tokens: real)
    requires Refills(spec)
    ensures Earned(spec, Need(spec, tokens)) == 1.0 - tokens && (tokens < 1.0 ==> Need(spec, tokens) > 0.0)
  {
    EarnedOf(spec, 1.0 - tokens, Need(spec, tokens));
    if tokens < 1.0 { NeedIsPositive(tokens, spec.refillMs); }
  }

  /** Whether a wait covers the need is whether a token is there by then. */
  lemma WaitCovers(spec: BucketSpec, tokens: real, now: real, wait: real)
    requires Refills(spec) && spec.capacity >= 1.0
    ensures Level(spec, Some(Bucket(tokens, now)), now + wait) >= 1.0 <==> wait >= Need(spec, tokens)
  {
    hide Earned, Refills, Need;
    NeedEarns(spec, tokens);
    EarnedAdds(spec, wait, Need(spec, tokens));
    EarnedAdds(spec, Need(spec, tokens), wait);
    assert now + wait - now == wait;
  }

  lemma WaitForCovers(spec: BucketSpec, tokens: real, now: real)
    requires Refills(spec) && spec.capacity >= 1.0 && tokens < 1.0
    ensures WaitFor(spec, tokens) >= 1
    ensures Level(spec, Some(Bucket(tokens, now)), now + WaitFor(spec, tokens) as real) >= 1.0
    ensures Level(spec, Some(Bucket(tokens, now)), now + (WaitFor(spec, tokens) - 1) as real) < 1.0
  {
    hide Level, Ceil, Refills, Need;
    NeedEarns(spec, tokens);
    CeilBounds(Need(spec, tokens));
    WaitCovers(spec, tokens, now, WaitFor(spec, tokens) as real);
    WaitCovers(spec, tokens, now, (WaitFor(spec, tokens) - 1) as real);
  }

  /** Waiting the named time always yields a token; no whole millisecond less does. */
  lemma WaitIsEnoughAndNoLonger(spec: BucketSpec, prior: Option<Bucket>, now: real)
    requires Refills(spec) && spec.capacity >= 1.0 && Level(spec, prior, now) < 1.0
    ensures var tokens := Level(spec, prior, now);
            && WaitFor(spec, tokens) >= 1
            && Level(spec, Some(Bucket(tokens, now)), now + WaitFor(spec, tokens) as real) >= 1.0
            && Level(spec, Some(Bucket(tokens, now)), now + (WaitFor(spec, tokens) - 1) as real) < 1.0
  {
    hide Level, WaitFor, Refills;
    WaitForCovers(spec, Level(spec, prior, now), now);
  }

  // ── the limiter ─────────────────────────────────────────────────────────

  function Without(order: seq<string>, id: string): (r: seq<string>)
    ensures forall x :: x in r <==> x in order && x != id
  {
    if order == [] then []
    else
      assert order == [order[0]] + order[1..];
      (if order[0] == id then [] else [order[0]]) + Without(order[1..], id)
  }

  /** Touched: the id goes last, with its new bucket. */
  function Touch(s: State, id: string, b: Bucket): State {
    State(Without(s.order, id) + [id], s.buckets[id := b])
  }

  /** The oldest keys go until the map is within its bound. */
  function Evicted(s: State, maxKeys: nat): State {
    if |s.order| <= maxKeys then s
    else State(s.order[|s.order| - maxKeys..], Only(s.buckets, s.order[|s.order| - maxKeys..]))
  }

  function Only(buckets: map<string, Bucket>, ids: seq<string>): map<string, Bucket> {
    map id | id in buckets && id in ids :: buckets[id]
  }

  function Prior(s: State, id: string): Option<Bucket> { if id in s.buckets then Some(s.buckets[id]) else None }

  function TakeOne(cfg: Config, s: State, a: Attempt): (State, Answer)
    requires Refills(cfg.spec(a.scope))
  {
    var spec := cfg.spec(a.scope);
    var tokens := Level(spec, Prior(s, IdOf(a)), a.now);
    if tokens < 1.0 then (Touch(s, IdOf(a), Bucket(tokens, a.now)), RetryAfter(WaitFor(spec, tokens)))
    else (Evicted(Touch(s, IdOf(a), Bucket(tokens - 1.0, a.now)), cfg.maxKeys), Granted)
  }

  /** The order lists the map's keys, each once. */
  ghost predicate Tidy(s: State) {
    && (forall id :: id in s.order <==> id in s.buckets)
    && forall i, j | 0 <= i < j < |s.order| :: s.order[i] != s.order[j]
  }

  lemma {:induction false} WithoutDistinct(order: seq<string>, id: string)
    requires forall i, j | 0 <= i < j < |order| :: order[i] != order[j]
    ensures var r := Without(order, id);
            && (forall i, j | 0 <= i < j < |r| :: r[i] != r[j])
            && |r| == |order| - (if id in order then 1 else 0)
  {
    if order != [] {
      assert order == [order[0]] + order[1..];
      assert order[0] !in order[1..];
      WithoutDistinct(order[1..], id);
    }
  }

  lemma TouchTidy(s: State, id: string, b: Bucket)
    requires Tidy(s)
    ensures Tidy(Touch(s, id, b)) && |Touch(s, id, b).order| == |s.order| + (if id in s.buckets then 0 else 1)
  {
    WithoutDistinct(s.order, id);
  }

  lemma EvictedTidy(s: State, maxKeys: nat)
    requires Tidy(s)
    ensures var r := Evicted(s, maxKeys);
            && Tidy(r) && |r.order| <= maxKeys && |r.order| <= |s.order|
            && r.order == s.order[|s.order| - |r.order|..]
            && (forall id | id in r.buckets :: id in s.buckets && r.buckets[id] == s.buckets[id])
  {
    if |s.order| > maxKeys {
      var kept := s.order[|s.order| - maxKeys..];
      forall id | id in kept ensures id in s.buckets { assert id in s.order; }
    }
  }

  /** The id goes last; the others stay as they were. */
  ghost predicate MovedLast(order: seq<string>, order': seq<string>, id: string) {
    && (id !in order ==> order' == order + [id])
    && forall i | 0 <= i < |order| && order[i] == id :: order' == order[..i] + order[i + 1..] + [id]
  }

  lemma {:induction false} NotThere(order: seq<string>, id: string)
    requires id !in order
    ensures Without(order, id) == order
  {
    if order != [] { NotThere(order[1..], id); }
  }

  lemma {:induction false} WithoutAt(order: seq<string>, i: nat)
    requires Distinct(order) && i < |order|
    ensures Without(order, order[i]) == order[..i] + order[i + 1..]
  {
    if i == 0 {
      NotThere(order[1..], order[0]);
    } else {
      WithoutAt(order[1..], i - 1);
      assert order[..i] == [order[0]] + order[1..][..i - 1] && order[1..][i..] == order[i + 1..];
    }
  }

  lemma WithoutMoves(order: seq<string>, id: string)
    requires Distinct(order)
    ensures MovedLast(order, Without(order, id) + [id], id)
  {
    if id in order {
      forall i | 0 <= i < |order| && order[i] == id ensures Without(order, id) == order[..i] + order[i + 1..] {
        WithoutAt(order, i);
      }
    } else {
      NotThere(order, id);
    }
  }

  lemma EvictedIs(s: State, maxKeys: nat)
    requires Tidy(s)
    ensures var r := Evicted(s, maxKeys);
            && r.order == (if |s.order| > maxKeys then s.order[|s.order| - maxKeys..] else s.order)
            && Tidy(r) && forall k | k in r.order :: k in s.order && r.buckets[k] == s.buckets[k]
  {
    EvictedTidy(s, maxKeys);
  }

  /**
   * What one take leaves in the map. The key goes last and the others keep their places and
   * their buckets; a refusal evicts nobody; a grant evicts from the front, and no more than
   * are over the bound.
   */
  ghost predicate EvictsTheOldest(s: State, id: string, s': State, granted: bool, maxKeys: nat) {
    var touched := Without(s.order, id) + [id];
    && MovedLast(s.order, touched, id)
    && s'.order == (if granted && |touched| > maxKeys then touched[|touched| - maxKeys..] else touched)
    && (forall k :: k in s'.order <==> k in s'.buckets)
    && forall k | k in s'.order && k != id :: k in s.buckets && s'.buckets[k] == s.buckets[k]
  }

  lemma TouchedThenEvicted(s: State, id: string, b: Bucket, granted: bool, maxKeys: nat)
    requires Tidy(s)
    ensures var touched := Touch(s, id, b);
            EvictsTheOldest(s, id, if granted then Evicted(touched, maxKeys) else touched, granted, maxKeys)
  {
    hide Without, MovedLast, Evicted, Touch;
    WithoutOf(s, id);
    TouchTidy(s, id, b);
    TouchIs(s, id, b);
    EvictedIs(Touch(s, id, b), maxKeys);
  }

  lemma TakeEvictsTheOldest(cfg: Config, s: State, a: Attempt)
    requires Refills(cfg.spec(a.scope)) && Tidy(s)
    ensures var (s', answer) := TakeOne(cfg, s, a); EvictsTheOldest(s, IdOf(a), s', answer == Granted, cfg.maxKeys)
  {
    hide Level, WaitFor, Evicted, Touch, IdOf, Tidy, EvictsTheOldest;
    var tokens := Level(cfg.spec(a.scope), Prior(s, IdOf(a)), a.now);
    var b := Bucket(if tokens < 1.0 then tokens else tokens - 1.0, a.now);
    TouchedThenEvicted(s, IdOf(a), b, tokens >= 1.0, cfg.maxKeys);
  }

  lemma TakeTidy(cfg: Config, s: State, a: Attempt)
    requires Refills(cfg.spec(a.scope)) && Tidy(s)
    ensures Tidy(TakeOne(cfg, s, a).0)
  {
    hide Level, WaitFor, Evicted, Touch, IdOf, Tidy;
    var tokens := Level(cfg.spec(a.scope), Prior(s, IdOf(a)), a.now);
    var b := Bucket(if tokens < 1.0 then tokens else tokens - 1.0, a.now);
    TouchTidy(s, IdOf(a), b);
    EvictedTidy(Touch(s, IdOf(a), b), cfg.maxKeys);
  }

  /** A refusal evicts nobody; a grant leaves as many keys as were touched, or the bound. */
  ghost predicate EvictsTheOverflow(s: State, id: string, s': State, answer: Answer, maxKeys: nat) {
    var keys := |s.order| + (if id in s.order then 0 else 1);
    |s'.order| == if answer == Granted && keys > maxKeys then maxKeys else keys
  }

  lemma TakeCounts(cfg: Config, s: State, a: Attempt)
    requires Refills(cfg.spec(a.scope)) && Tidy(s)
    ensures EvictsTheOverflow(s, IdOf(a), TakeOne(cfg, s, a).0, TakeOne(cfg, s, a).1, cfg.maxKeys)
  {
    WithoutDistinct(s.order, IdOf(a));
    TakeEvictsTheOldest(cfg, s, a);
    hide TakeOne, Without, IdOf, MovedLast;
  }

  lemma WithoutOf(s: State, id: string)
    requires Tidy(s)
    ensures MovedLast(s.order, Without(s.order, id) + [id], id)
  {
    WithoutMoves(s.order, id);
  }

  lemma TouchIs(s: State, id: string, b: Bucket)
    requires Tidy(s)
    ensures var touched := Touch(s, id, b);
            && touched.order == Without(s.order, id) + [id]
            && forall k | k in touched.order && k != id :: k in s.buckets && touched.buckets[k] == s.buckets[k]
  {
  }

  /**
   * With room for a whole token in every bucket the map never outgrows its
   * bound, and what is evicted is what was touched least recently: the order
   * after a take is the old one, its key moved last, less some of its front.
   */
  lemma TakeIsBounded(cfg: Config, s: State, a: Attempt)
    requires Sound(cfg) && Tidy(s) && |s.order| <= cfg.maxKeys
    ensures var s' := TakeOne(cfg, s, a).0;
            var touched := Without(s.order, IdOf(a)) + [IdOf(a)];
            && Tidy(s') && |s'.order| <= cfg.maxKeys
            && |s'.order| <= |touched| && s'.order == touched[|touched| - |s'.order|..]
            && (forall id | id in s'.buckets && id != IdOf(a) :: id in s.buckets && s'.buckets[id] == s.buckets[id])
  {
    hide Level, WaitFor, Without, Evicted;
    var spec := cfg.spec(a.scope);
    var tokens := Level(spec, Prior(s, IdOf(a)), a.now);
    var b := Bucket(if tokens < 1.0 then tokens else tokens - 1.0, a.now);
    assert Prior(s, IdOf(a)).None? ==> tokens >= 1.0 by { FreshIsFull(spec, a.now); }
    TouchTidy(s, IdOf(a), b);
    EvictedTidy(Touch(s, IdOf(a), b), cfg.maxKeys);
  }

  lemma FreshIsFull(spec: BucketSpec, now: real)
    requires Refills(spec)
    ensures Level(spec, None, now) == spec.capacity
  {
  }

  /** A bucket too small for one token is the exception: its refused attempts add keys and evict none. */
  lemma SmallBucketsOutgrowTheBound(cfg: Config, s: State, a: Attempt)
    requires Refills(cfg.spec(a.scope)) && cfg.spec(a.scope).capacity < 1.0 && Tidy(s) && IdOf(a) !in s.buckets
    ensures |TakeOne(cfg, s, a).0.order| == |s.order| + 1
  {
    TouchTidy(s, IdOf(a), Bucket(cfg.spec(a.scope).capacity, a.now));
  }

  /** Whoever waits as told, whatever was attempted on other keys meanwhile, is granted at the next attempt. */
  lemma WaitingIsRewarded(cfg: Config, s: State, a: Attempt, s': State, later: Attempt)
    requires Sound(cfg) && Tidy(s) && later.scope == a.scope && later.key == a.key
    requires TakeOne(cfg, s, a).1.RetryAfter? && later.now >= a.now + TakeOne(cfg, s, a).1.ms as real
    requires IdOf(a) in s'.buckets && s'.buckets[IdOf(a)] == TakeOne(cfg, s, a).0.buckets[IdOf(a)]
    ensures TakeOne(cfg, s', later).1 == Granted
  {
    hide Level, WaitFor, Without, Evicted, Tidy;
    var spec := cfg.spec(a.scope);
    var tokens := Level(spec, Prior(s, IdOf(a)), a.now);
    assert tokens < 1.0 && s'.buckets[IdOf(a)] == Bucket(tokens, a.now);
    WaitForCovers(spec, tokens, a.now);
    LevelRises(spec, Some(Bucket(tokens, a.now)), a.now + WaitFor(spec, tokens) as real, later.now);
  }

  // ── what one key can spend ──────────────────────────────────────────────

  /** `states[n]` is what the first n attempts leave; time does not run backwards. */
  ghost predicate History(cfg: Config, states: seq<State>, attempts: seq<Attempt>)
    requires Sound(cfg)
  {
    && |states| == |attempts| + 1
    && (forall n | 0 <= n < |attempts| :: states[n + 1] == TakeOne(cfg, states[n], attempts[n]).0)
    && forall m, n | 0 <= m <= n < |attempts| :: attempts[m].now <= attempts[n].now
  }

  /** The key, once touched, is not evicted anywhere in the history. */
  ghost predicate NotEvicted(states: seq<State>, attempts: seq<Attempt>, id: string) {
    |states| == |attempts| + 1
    && forall n | 0 <= n < |attempts| :: id in states[n].buckets || IdOf(attempts[n]) == id ==>
        id in states[n + 1].buckets
  }

  function GrantsTo(cfg: Config, states: seq<State>, attempts: seq<Attempt>, id: string, n: nat): nat
    requires Sound(cfg) && n <= |attempts| && n <= |states|
  {
    if n == 0 then 0
    else
      GrantsTo(cfg, states, attempts, id, n - 1)
      + if IdOf(attempts[n - 1]) == id && TakeOne(cfg, states[n - 1], attempts[n - 1]).1 == Granted then 1 else 0
  }

  /**
   * A key's level at a later instant is what it was, whatever refused attempts and
   * attempts on other keys come between.
   */
  lemma {:induction false} LevelKept(cfg: Config, states: seq<State>, attempts: seq<Attempt>, a: Attempt, m: nat,
      n: nat, later: real)
    requires Sound(cfg) && History(cfg, states, attempts) && m <= n <= |attempts|
    requires forall i | m <= i <= n :: Tidy(states[i])
    requires NotEvicted(states, attempts, IdOf(a))
    requires forall i | m <= i < n :: attempts[i].now <= later
    requires forall i | m <= i < n && IdOf(attempts[i]) == IdOf(a) :: TakeOne(cfg, states[i], attempts[i]).1 != Granted
    ensures Level(cfg.spec(a.scope), Prior(states[n], IdOf(a)), later)
        == Level(cfg.spec(a.scope), Prior(states[m], IdOf(a)), later)
  {
    hide TakeOne, IdOf, Tidy, Level;
    if n > m {
      LevelKept(cfg, states, attempts, a, m, n - 1, later);
      var last, s := attempts[n - 1], states[n - 1];
      assert states[n - 1 + 1] == TakeOne(cfg, s, last).0;
      if IdOf(last) == IdOf(a) {
        ScopesApart(last, a);
        OwnBucket(cfg, s, last);
        RefusalIsFree(cfg.spec(a.scope), Prior(s, IdOf(a)), last.now, later);
      } else {
        OtherBucket(cfg, s, last, IdOf(a));
      }
    }
  }

  lemma RefusedLevel(cfg: Config, s: State, a: Attempt)
    requires Sound(cfg) && TakeOne(cfg, s, a).1.RetryAfter?
    ensures var spec := cfg.spec(a.scope);
            var tokens := Level(spec, Prior(s, IdOf(a)), a.now);
            tokens < 1.0 && TakeOne(cfg, s, a).1.ms == WaitFor(spec, tokens)
  {
    hide Level, WaitFor;
  }

  /** The level by the named instant holds a whole token. */
  lemma NamedInstant(spec: BucketSpec, prior: Option<Bucket>, now: real, later: real)
    requires Refills(spec) && spec.capacity >= 1.0 && Level(spec, prior, now) < 1.0
    requires later >= now + WaitFor(spec, Level(spec, prior, now)) as real
    ensures Level(spec, prior, later) >= 1.0
  {
    hide Level, WaitFor, Refills;
    var tokens := Level(spec, prior, now);
    WaitForCovers(spec, tokens, now);
    LevelRises(spec, Some(Bucket(tokens, now)), now + WaitFor(spec, tokens) as real, later);
    RefusalIsFree(spec, prior, now, later);
  }

  /**
   * Trying too early postpones nothing. Once a key has been refused and told how
   * long to wait, its attempts from then up to the first one at or past that
   * instant are not all refused: however many early ones were, and whatever
   * happened on other keys, one of them is granted, unless the key is evicted.
   */
  lemma EarlyRetriesDoNotPostpone(cfg: Config, states: seq<State>, attempts: seq<Attempt>, m: nat, n: nat)
    requires m < n < |attempts| && IdOf(attempts[n]) == IdOf(attempts[m])
    requires Sound(cfg) && History(cfg, states, attempts) && NotEvicted(states, attempts, IdOf(attempts[m]))
    requires Tidy(states[0]) && |states[0].order| <= cfg.maxKeys
    requires TakeOne(cfg, states[m], attempts[m]).1.RetryAfter?
    requires attempts[n].now >= attempts[m].now + TakeOne(cfg, states[m], attempts[m]).1.ms as real
    ensures exists i ::
        m < i <= n && IdOf(attempts[i]) == IdOf(attempts[m]) && TakeOne(cfg, states[i], attempts[i]).1 == Granted
  {
    hide TakeOne, IdOf, Tidy, Level, WaitFor;
    var a, later := attempts[m], attempts[n].now;
    forall i | m <= i <= n ensures Tidy(states[i]) { HistoryTidy(cfg, states, attempts, i); }
    RefusedLevel(cfg, states[m], a);
    NamedInstant(cfg.spec(a.scope), Prior(states[m], IdOf(a)), a.now, later);
    if forall i | m < i < n && IdOf(attempts[i]) == IdOf(a) :: TakeOne(cfg, states[i], attempts[i]).1 != Granted {
      LevelKept(cfg, states, attempts, a, m, n, later);
      ScopesApart(attempts[n], a);
      OwnBucket(cfg, states[n], attempts[n]);
    }
  }

  /**
   * The attempted key's bucket after the attempt: refused, it holds what there was;
   * granted, one less, unless it is evicted at once.
   */
  lemma OwnBucket(cfg: Config, s: State, a: Attempt)
    requires Refills(cfg.spec(a.scope)) && Tidy(s)
    ensures var tokens, (s', answer) := Level(cfg.spec(a.scope), Prior(s, IdOf(a)), a.now), TakeOne(cfg, s, a);
            && (answer == Granted <==> tokens >= 1.0)
            && (IdOf(a) in s'.buckets ==>
                s'.buckets[IdOf(a)] == Bucket(if tokens < 1.0 then tokens else tokens - 1.0, a.now))
  {
    hide Level, WaitFor, Without;
  }

  lemma OtherBucket(cfg: Config, s: State, a: Attempt, id: string)
    requires Refills(cfg.spec(a.scope)) && Tidy(s) && id != IdOf(a)
    ensures var s' := TakeOne(cfg, s, a).0; id in s'.buckets ==> Prior(s', id) == Prior(s, id)
    ensures id !in s.buckets ==> id !in TakeOne(cfg, s, a).0.buckets
  {
    hide Level, WaitFor, Without;
  }

  lemma LevelNow(spec: BucketSpec, tokens: real, now: real)
    requires Refills(spec)
    ensures Level(spec, Some(Bucket(tokens, now)), now) == Min(spec.capacity, tokens)
    ensures Level(spec, Some(Bucket(tokens, now)), now) <= tokens
  {
    assert now - now == 0.0;
  }

  /** One attempt, at `a.now`, by this key or another: what it grants the key comes out of what the key has. */
  lemma AttemptSpends(cfg: Config, s: State, a: Attempt, scope: Scope, id: string)
    requires Sound(cfg) && Tidy(s)
    requires IdOf(a) == id ==> a.scope == scope && id in TakeOne(cfg, s, a).0.buckets
    requires id in s.buckets ==> id in TakeOne(cfg, s, a).0.buckets
    ensures var spec, (s', answer) := cfg.spec(scope), TakeOne(cfg, s, a);
            (if IdOf(a) == id && answer == Granted then 1.0 else 0.0)
                + Level(spec, Prior(s', id), a.now) <= Level(spec, Prior(s, id), a.now)
  {
    hide TakeOne, Level, IdOf, Tidy;
    if IdOf(a) == id {
      OwnBucket(cfg, s, a);
      LevelNow(cfg.spec(scope), TakeOne(cfg, s, a).0.buckets[id].tokens, a.now);
    } else {
      OtherBucket(cfg, s, a, id);
    }
  }

  /** The instant of the last attempt before the n-th state; the first attempt's own at the start. */
  function Clock(attempts: seq<Attempt>, n: nat): real
    requires attempts != [] && n <= |attempts|
  {
    if n == 0 then attempts[0].now else attempts[n - 1].now
  }

  /** Ids of different scopes differ. */
  lemma ScopesApart(a: Attempt, b: Attempt)
    requires IdOf(a) == IdOf(b)
    ensures a.scope == b.scope
  {
    assert IdOf(a)[0] == ScopeName(a.scope)[0] && IdOf(b)[0] == ScopeName(b.scope)[0];
  }

  lemma {:induction false} SpentSoFar(cfg: Config, states: seq<State>, attempts: seq<Attempt>, a: Attempt, n: nat)
    requires Sound(cfg) && History(cfg, states, attempts) && NotEvicted(states, attempts, IdOf(a)) && attempts != []
        && n <= |attempts|
    requires forall m | 0 <= m < |states| :: Tidy(states[m])
    ensures var spec := cfg.spec(a.scope);
            GrantsTo(cfg, states, attempts, IdOf(a), n) as real
                + Level(spec, Prior(states[n], IdOf(a)), Clock(attempts, n))
            <= spec.capacity + Earned(spec, Clock(attempts, n) - Clock(attempts, 0))
  {
    hide TakeOne, IdOf, Tidy, Earned;
    var spec, id := cfg.spec(a.scope), IdOf(a);
    if n == 0 {
      EarnedAdds(spec, 0.0, 0.0);
    } else {
      hide Level;
      SpentSoFar(cfg, states, attempts, a, n - 1);
      var last := attempts[n - 1];
      assert states[n - 1 + 1] == TakeOne(cfg, states[n - 1], last).0;
      if IdOf(last) == id { ScopesApart(last, a); }
      LevelRises(spec, Prior(states[n - 1], id), Clock(attempts, n - 1), last.now);
      AttemptSpends(cfg, states[n - 1], last, a.scope, id);
      EarnedAdds(spec, last.now - Clock(attempts, n - 1), Clock(attempts, n - 1) - Clock(attempts, 0));
    }
  }

  lemma {:induction false} HistoryTidy(cfg: Config, states: seq<State>, attempts: seq<Attempt>, n: nat)
    requires Sound(cfg) && History(cfg, states, attempts) && n < |states| && Tidy(states[0])
        && |states[0].order| <= cfg.maxKeys
    ensures Tidy(states[n]) && |states[n].order| <= cfg.maxKeys
  {
    hide TakeOne, IdOf, Tidy;
    if n > 0 {
      HistoryTidy(cfg, states, attempts, n - 1);
      assert states[n - 1 + 1] == TakeOne(cfg, states[n - 1], attempts[n - 1]).0;
      TakeIsBounded(cfg, states[n - 1], attempts[n - 1]);
    }
  }

  /**
   * Over any history of attempts, on this key and any others, a key that is
   * not evicted is granted at most its capacity and what time earned meanwhile.
   */
  lemma GrantsAreBounded(cfg: Config, states: seq<State>, attempts: seq<Attempt>, a: Attempt)
    requires Sound(cfg) && History(cfg, states, attempts) && NotEvicted(states, attempts, IdOf(a)) && attempts != []
    requires Tidy(states[0]) && |states[0].order| <= cfg.maxKeys
    requires forall id | id in states[0].buckets ::
        states[0].buckets[id].tokens >= 0.0 && states[0].buckets[id].at <= attempts[0].now
    ensures var spec := cfg.spec(a.scope);
            GrantsTo(cfg, states, attempts, IdOf(a), |attempts|) as real
            <= spec.capacity + Earned(spec, attempts[|attempts| - 1].now - attempts[0].now)
  {
    hide TakeOne, IdOf, Tidy, Earned, Level;
    forall m | 0 <= m < |states| ensures Tidy(states[m]) { HistoryTidy(cfg, states, attempts, m); }
    SpentSoFar(cfg, states, attempts, a, |attempts|);
    NeverOverdrawn(cfg, states, attempts, IdOf(a), |attempts|);
    LevelNotNegative(cfg.spec(a.scope), Prior(states[|attempts|], IdOf(a)), Clock(attempts, |attempts|));
  }

  /** Buckets never hold less than nothing, nor come from the future. */
  ghost predicate InCredit(s: State, id: string, now: real) {
    id in s.buckets ==> s.buckets[id].tokens >= 0.0 && s.buckets[id].at <= now
  }

  lemma LevelNotNegative(spec: BucketSpec, prior: Option<Bucket>, now: real)
    requires Refills(spec) && spec.capacity >= 1.0
        && (prior.Some? ==> prior.value.tokens >= 0.0 && prior.value.at <= now)
    ensures Level(spec, prior, now) >= 0.0
  {
    if prior.Some? { EarnedAdds(spec, now - prior.value.at, 0.0); }
    hide Earned;
  }

  lemma AttemptLeavesCredit(cfg: Config, s: State, a: Attempt, id: string, now: real)
    requires Sound(cfg) && Tidy(s) && InCredit(s, id, now) && now <= a.now
    ensures InCredit(TakeOne(cfg, s, a).0, id, a.now)
  {
    hide TakeOne, Level, IdOf, Tidy;
    if IdOf(a) == id {
      OwnBucket(cfg, s, a);
      LevelNotNegative(cfg.spec(a.scope), Prior(s, id), a.now);
    } else {
      OtherBucket(cfg, s, a, id);
    }
  }

  lemma {:induction false} NeverOverdrawn(cfg: Config, states: seq<State>, attempts: seq<Attempt>, id: string, n: nat)
    requires Sound(cfg) && History(cfg, states, attempts) && attempts != [] && n <= |attempts|
    requires forall m | 0 <= m < |states| :: Tidy(states[m])
    requires InCredit(states[0], id, attempts[0].now)
    ensures InCredit(states[n], id, Clock(attempts, n))
  {
    hide TakeOne, IdOf, Tidy, InCredit;
    if n > 0 {
      NeverOverdrawn(cfg, states, attempts, id, n - 1);
      assert states[n - 1 + 1] == TakeOne(cfg, states[n - 1], attempts[n - 1]).0;
      AttemptLeavesCredit(cfg, states[n - 1], attempts[n - 1], id, Clock(attempts, n - 1));
    }
  }

  // ── nobody is refused for nothing ───────────────────────────────────────

  /**
   * The key's level is full, or what some attempt of its own on left of a full bucket: less
   * what it has been granted since, and more by what time has earned.
   */
  ghost predicate Accounted(cfg: Config, states: seq<State>, attempts: seq<Attempt>, a: Attempt, n: nat, level: real,
      later: real)
    requires Sound(cfg) && n <= |attempts| && n <= |states|
  {
    var spec := cfg.spec(a.scope);
    || level == spec.capacity
    || exists m :: 0 <= m < n && AccountedFrom(cfg, states, attempts, a, m, n, level, later)
  }

  ghost predicate AccountedFrom(cfg: Config, states: seq<State>, attempts: seq<Attempt>, a: Attempt, m: nat, n: nat,
      level: real, later: real)
    requires Sound(cfg) && m < n <= |attempts| && n <= |states|
  {
    && IdOf(attempts[m]) == IdOf(a)
    && level + (GrantsTo(cfg, states, attempts, IdOf(a), n) - GrantsTo(cfg, states, attempts, IdOf(a), m)) as real
       >= cfg.spec(a.scope).capacity + Earned(cfg.spec(a.scope), later - attempts[m].now)
  }

  /** Nothing was granted to the key by the last attempt: the account is the same. */
  lemma AccountKept(cfg: Config, states: seq<State>, attempts: seq<Attempt>, a: Attempt, n: nat, level: real,
      later: real)
    requires Sound(cfg) && 0 < n <= |attempts| && n <= |states|
    requires IdOf(attempts[n - 1]) != IdOf(a) || TakeOne(cfg, states[n - 1], attempts[n - 1]).1 != Granted
    requires Accounted(cfg, states, attempts, a, n - 1, level, later)
    ensures Accounted(cfg, states, attempts, a, n, level, later)
  {
    hide TakeOne, IdOf, Earned;
    var before := n - 1;
    if m :| 0 <= m < before && AccountedFrom(cfg, states, attempts, a, m, before, level, later) {
      assert AccountedFrom(cfg, states, attempts, a, m, n, level, later);
    }
  }

  /** The last attempt took a token: the account goes on, or begins with it. */
  lemma AccountSpent(cfg: Config, states: seq<State>, attempts: seq<Attempt>, a: Attempt, n: nat, level: real,
      later: real)
    requires Sound(cfg) && 0 < n <= |attempts| && n <= |states|
    requires IdOf(attempts[n - 1]) == IdOf(a) && TakeOne(cfg, states[n - 1], attempts[n - 1]).1 == Granted
    requires var spec, last := cfg.spec(a.scope), attempts[n - 1].now;
             var had := level + 1.0 - Earned(spec, later - last);
             Accounted(cfg, states, attempts, a, n - 1, had, last)
    ensures Accounted(cfg, states, attempts, a, n, level, later)
  {
    hide TakeOne, IdOf;
    var spec, last := cfg.spec(a.scope), attempts[n - 1].now;
    var had := level + 1.0 - Earned(spec, later - last);
    if had == spec.capacity {
      assert AccountedFrom(cfg, states, attempts, a, n - 1, n, level, later);
    } else {
      var m :| 0 <= m < n - 1 && AccountedFrom(cfg, states, attempts, a, m, n - 1, had, last);
      EarnedAdds(spec, later - last, last - attempts[m].now);
      hide Earned;
      assert AccountedFrom(cfg, states, attempts, a, m, n, level, later);
    }
  }

  /** What a granted attempt leaves at a later instant. */
  lemma LevelAfterGrant(spec: BucketSpec, tokens: real, now: real, later: real)
    requires Refills(spec)
    ensures var level := Level(spec, Some(Bucket(tokens - 1.0, now)), later);
            level == spec.capacity || tokens == level + 1.0 - Earned(spec, later - now)
  {
  }

  lemma {:induction false} EveryLevelIsAccounted(cfg: Config, states: seq<State>, attempts: seq<Attempt>, a: Attempt,
      n: nat, later: real)
    requires Sound(cfg) && History(cfg, states, attempts) && n <= |attempts| && IdOf(a) !in states[0].buckets
    requires forall m | 0 <= m < |states| :: Tidy(states[m])
    requires n > 0 ==> attempts[n - 1].now <= later
    ensures Accounted(cfg, states, attempts, a, n, Level(cfg.spec(a.scope), Prior(states[n], IdOf(a)), later), later)
  {
    hide TakeOne, IdOf, Tidy, Earned, Accounted;
    var spec, id := cfg.spec(a.scope), IdOf(a);
    if id !in states[n].buckets {
      FreshIsFull(spec, later);
      FullIsAccounted(cfg, states, attempts, a, n, later);
    } else if n > 0 {
      hide Level;
      var last, s := attempts[n - 1], states[n - 1];
      assert states[n - 1 + 1] == TakeOne(cfg, s, last).0;
      assert n > 1 ==> attempts[n - 2].now <= last.now;
      if IdOf(last) != id {
        OtherBucket(cfg, s, last, id);
        EveryLevelIsAccounted(cfg, states, attempts, a, n - 1, later);
        AccountKept(cfg, states, attempts, a, n, Level(spec, Prior(s, id), later), later);
      } else {
        ScopesApart(last, a);
        OwnBucket(cfg, s, last);
        var tokens := Level(spec, Prior(s, id), last.now);
        if tokens < 1.0 {
          RefusalIsFree(spec, Prior(s, id), last.now, later);
          EveryLevelIsAccounted(cfg, states, attempts, a, n - 1, later);
          AccountKept(cfg, states, attempts, a, n, Level(spec, Prior(s, id), later), later);
        } else {
          LevelAfterGrant(spec, tokens, last.now, later);
          EveryLevelIsAccounted(cfg, states, attempts, a, n - 1, last.now);
          if Level(spec, Prior(states[n], id), later) == spec.capacity {
            FullIsAccounted(cfg, states, attempts, a, n, later);
          } else {
            AccountSpent(cfg, states, attempts, a, n, Level(spec, Prior(states[n], id), later), later);
          }
        }
      }
    }
  }

  lemma FullIsAccounted(cfg: Config, states: seq<State>, attempts: seq<Attempt>, a: Attempt, n: nat, later: real)
    requires Sound(cfg) && n <= |attempts| && n <= |states|
    ensures Accounted(cfg, states, attempts, a, n, cfg.spec(a.scope).capacity, later)
  {
  }

  /**
   * One more grant would put what the key has been granted since the m-th attempt over
   * its capacity and what it earned.
   */
  ghost predicate Overspent(cfg: Config, states: seq<State>, attempts: seq<Attempt>, a: Attempt, m: nat, n: nat,
      later: real)
    requires Sound(cfg) && m < n <= |attempts| && n <= |states|
  {
    var since := GrantsTo(cfg, states, attempts, IdOf(a), n) - GrantsTo(cfg, states, attempts, IdOf(a), m);
    (since + 1) as real > cfg.spec(a.scope).capacity + Earned(cfg.spec(a.scope), later - attempts[m].now)
  }

  /**
   * The other half of the bound. From a limiter that has not met the key, an attempt is
   * refused only when the key, from some attempt of its own on, has been granted so much
   * that one more would be over its capacity and what time earned since.
   */
  lemma RefusalIsDeserved(cfg: Config, states: seq<State>, attempts: seq<Attempt>, n: nat)
    requires Sound(cfg) && History(cfg, states, attempts) && n < |attempts|
    requires Tidy(states[0]) && |states[0].order| <= cfg.maxKeys && IdOf(attempts[n]) !in states[0].buckets
    requires TakeOne(cfg, states[n], attempts[n]).1.RetryAfter?
    ensures exists m :: 0 <= m < n && IdOf(attempts[m]) == IdOf(attempts[n])
                        && Overspent(cfg, states, attempts, attempts[n], m, n, attempts[n].now)
  {
    hide TakeOne, IdOf, Tidy, Earned, Level, Accounted, GrantsTo;
    var a := attempts[n];
    forall m | 0 <= m < |states| ensures Tidy(states[m]) { HistoryTidy(cfg, states, attempts, m); }
    assert n > 0 ==> attempts[n - 1].now <= a.now;
    EveryLevelIsAccounted(cfg, states, attempts, a, n, a.now);
    OwnBucket(cfg, states[n], a);
    LowIsSpent(cfg, states, attempts, a, n, Level(cfg.spec(a.scope), Prior(states[n], IdOf(a)), a.now), a.now);
  }

  lemma LowIsSpent(cfg: Config, states: seq<State>, attempts: seq<Attempt>, a: Attempt, n: nat, level: real,
      later: real)
    requires Sound(cfg) && n <= |attempts| && n <= |states| && level < 1.0
    requires Accounted(cfg, states, attempts, a, n, level, later)
    ensures exists m :: 0 <= m < n && IdOf(attempts[m]) == IdOf(a) && Overspent(cfg, states, attempts, a, m, n, later)
  {
    hide IdOf, Earned, GrantsTo;
    var m :| 0 <= m < n && AccountedFrom(cfg, states, attempts, a, m, n, level, later);
    assert Overspent(cfg, states, attempts, a, m, n, later);
  }

  // ── few keys are never evicted ──────────────────────────────────────────

  /** Every key the limiter starts with or is asked about. */
  ghost function KeysOf(s: State, attempts: seq<Attempt>): set<string> {
    (set k | k in s.order) + set a | a in attempts :: IdOf(a)
  }

  lemma FewKeysStep(cfg: Config, s: State, a: Attempt, keys: set<string>)
    requires Sound(cfg) && Tidy(s) && (forall k | k in s.order :: k in keys) && IdOf(a) in keys && |keys| <= cfg.maxKeys
    ensures var s' := TakeOne(cfg, s, a).0;
            forall k :: k in s'.buckets <==> k in s.buckets || k == IdOf(a)
    ensures var s' := TakeOne(cfg, s, a).0;
            Tidy(s') && forall k | k in s'.order :: k in keys
  {
    hide Level, WaitFor, IdOf, MovedLast, TakeOne;
    var touched := Without(s.order, IdOf(a)) + [IdOf(a)];
    WithoutDistinct(s.order, IdOf(a));
    TakeEvictsTheOldest(cfg, s, a);
    TakeTidy(cfg, s, a);
    hide Without;
    DistinctSize(touched);
    SubsetSize((set k | k in touched), keys);
  }

  lemma {:induction false} FewKeysStay(cfg: Config, states: seq<State>, attempts: seq<Attempt>, keys: set<string>,
      n: nat)
    requires Sound(cfg) && History(cfg, states, attempts) && n <= |attempts| && Tidy(states[0])
    requires keys == KeysOf(states[0], attempts) && |keys| <= cfg.maxKeys
    ensures Tidy(states[n]) && forall k | k in states[n].order :: k in keys
  {
    hide TakeOne, IdOf, Tidy;
    if n > 0 {
      FewKeysStay(cfg, states, attempts, keys, n - 1);
      assert states[n - 1 + 1] == TakeOne(cfg, states[n - 1], attempts[n - 1]).0;
      assert attempts[n - 1] in attempts;
      FewKeysStep(cfg, states[n - 1], attempts[n - 1], keys);
    }
  }

  /** With no more keys about than the map may hold, no key is ever evicted. */
  lemma FewKeysAreNotEvicted(cfg: Config, states: seq<State>, attempts: seq<Attempt>, id: string)
    requires Sound(cfg) && History(cfg, states, attempts) && Tidy(states[0])
    requires |KeysOf(states[0], attempts)| <= cfg.maxKeys
    ensures NotEvicted(states, attempts, id)
  {
    hide TakeOne, IdOf, Tidy;
    var keys := KeysOf(states[0], attempts);
    forall n | 0 <= n < |attempts| && (id in states[n].buckets || IdOf(attempts[n]) == id)
      ensures id in states[n + 1].buckets
    {
      FewKeysStay(cfg, states, attempts, keys, n);
      assert attempts[n] in attempts;
      FewKeysStep(cfg, states[n], attempts[n], keys);
    }
  }

  /** So the bound on what a key is granted holds of every key. */
  lemma FewKeysAreBounded(cfg: Config, states: seq<State>, attempts: seq<Attempt>, a: Attempt)
    requires Sound(cfg) && History(cfg, states, attempts) && attempts != []
    requires Tidy(states[0]) && |states[0].order| <= cfg.maxKeys
    requires forall id | id in states[0].buckets ::
        states[0].buckets[id].tokens >= 0.0 && states[0].buckets[id].at <= attempts[0].now
    requires |KeysOf(states[0], attempts)| <= cfg.maxKeys
    ensures var spec := cfg.spec(a.scope);
            GrantsTo(cfg, states, attempts, IdOf(a), |attempts|) as real
            <= spec.capacity + Earned(spec, attempts[|attempts| - 1].now - attempts[0].now)
  {
    hide TakeOne, IdOf, Earned, GrantsTo;
    FewKeysAreNotEvicted(cfg, states, attempts, IdOf(a));
    GrantsAreBounded(cfg, states, attempts, a);
  }

  /** And whoever was told to wait is granted again, early retries or not. */
  lemma FewKeysAreRewarded(cfg: Config, states: seq<State>, attempts: seq<Attempt>, m: nat, n: nat)
    requires m < n < |attempts| && IdOf(attempts[n]) == IdOf(attempts[m])
    requires Sound(cfg) && History(cfg, states, attempts) && Tidy(states[0]) && |states[0].order| <= cfg.maxKeys
    requires |KeysOf(states[0], attempts)| <= cfg.maxKeys
    requires TakeOne(cfg, states[m], attempts[m]).1.RetryAfter?
    requires attempts[n].now >= attempts[m].now + TakeOne(cfg, states[m], attempts[m]).1.ms as real
    ensures exists i ::
        m < i <= n && IdOf(attempts[i]) == IdOf(attempts[m]) && TakeOne(cfg, states[i], attempts[i]).1 == Granted
  {
    hide TakeOne, IdOf;
    FewKeysAreNotEvicted(cfg, states, attempts, IdOf(attempts[m]));
    EarlyRetriesDoNotPostpone(cfg, states, attempts, m, n);
  }

  class WriteLimiter {
    const config: Config
    var order: seq<string>
    var buckets: map<string, Bucket>

    function Contents(): State
      reads this
    {
      State(order, buckets)
    }

    constructor (config: Config)
      ensures this.config == config && Contents() == State([], map[]) && Tidy(Contents())
    {
      this.config, order, buckets := config, [], map[];
    }

    /** Spend one token, or be told how long to wait. */
    method Take(a: Attempt) returns (answer: Answer)
      requires Refills(config.spec(a.scope)) && Tidy(Contents())
      modifies this
      ensures (Contents(), answer) == TakeOne(config, old(Contents()), a) && Tidy(Contents())
      ensures EvictsTheOverflow(old(Contents()), IdOf(a), Contents(), answer, config.maxKeys)
    {
      TakeCounts(config, Contents(), a);
      TakeForms(config, Contents(), a);
      hide Level, WaitFor, Without, EvictsTheOverflow, Evicted, Drop, Tidy, IdOf, TakeOne;
      var spec, id := config.spec(a.scope), IdOf(a);
      var prior := if id in buckets then Some(buckets[id]) else None;
      var tokens := Level(spec, prior, a.now);
      TouchTidy(Contents(), id, Bucket(if tokens < 1.0 then tokens else tokens - 1.0, a.now));
      order := Without(order, id) + [id];
      if tokens < 1.0 {
        buckets := buckets[id := Bucket(tokens, a.now)];
        return RetryAfter(WaitFor(spec, tokens));
      }
      buckets := buckets[id := Bucket(tokens - 1.0, a.now)];
      ghost var touched := Contents();
      EvictedTidy(touched, config.maxKeys);
      while |order| > config.maxKeys
        invariant Tidy(Contents()) && Evicted(Contents(), config.maxKeys) == Evicted(touched, config.maxKeys)
      {
        OneOldestLess(Contents(), config.maxKeys);
        buckets := Drop(buckets, order[0]);
        order := order[1..];
      }
      WithinTheBound(Contents(), config.maxKeys);
      return Granted;
    }
  }

  lemma TakeForms(cfg: Config, s: State, a: Attempt)
    requires Refills(cfg.spec(a.scope))
    ensures var spec, id := cfg.spec(a.scope), IdOf(a);
            var tokens := Level(spec, Prior(s, id), a.now);
            TakeOne(cfg, s, a) == if tokens < 1.0
                then (Touch(s, id, Bucket(tokens, a.now)), RetryAfter(WaitFor(spec, tokens)))
                                  else (Evicted(Touch(s, id, Bucket(tokens - 1.0, a.now)), cfg.maxKeys), Granted)
  {
    hide Level, WaitFor, Evicted, Touch, IdOf;
  }

  lemma WithinTheBound(s: State, maxKeys: nat)
    requires |s.order| <= maxKeys
    ensures Evicted(s, maxKeys) == s
  {
  }

  lemma KeptNotOldest(order: seq<string>, n: nat)
    requires 0 < n <= |order| && forall i, j | 0 <= i < j < |order| :: order[i] != order[j]
    ensures order[1..][n - 1..] == order[n..] && order[0] !in order[n..]
  {
  }

  function Drop(buckets: map<string, Bucket>, id: string): map<string, Bucket> {
    map k | k in buckets && k != id :: buckets[k]
  }

  lemma OldestTidy(s: State)
    requires Tidy(s) && s.order != []
    ensures Tidy(State(s.order[1..], Drop(s.buckets, s.order[0])))
  {
    assert s.order == [s.order[0]] + s.order[1..];
  }

  lemma OnlyTheRest(buckets: map<string, Bucket>, oldest: string, kept: seq<string>)
    requires oldest !in kept
    ensures Only(Drop(buckets, oldest), kept) == Only(buckets, kept)
  {
  }

  lemma OnlyAll(s: State)
    requires Tidy(s)
    ensures Only(s.buckets, s.order) == s.buckets
  {
  }

  /** Removing the oldest key is one step of the eviction. */
  lemma OneOldestLess(s: State, maxKeys: nat)
    requires Tidy(s) && |s.order| > maxKeys
    ensures var less := State(s.order[1..], Drop(s.buckets, s.order[0]));
        Tidy(less) && Evicted(less, maxKeys) == Evicted(s, maxKeys)
  {
    OldestTidy(s);
    KeptNotOldest(s.order, |s.order| - maxKeys);
    hide Only, Drop, Tidy;
    var less := State(s.order[1..], Drop(s.buckets, s.order[0]));
    OnlyTheRest(s.buckets, s.order[0], s.order[|s.order| - maxKeys..]);
    OnlyAll(less);
  }
}
