/** The social-call vocabulary: the stored records, and the two rules every store applies to them. */
module Vocabulary {

  datatype Option<+T> = None | Some(value: T) {
    function GetOr(default: T): T { if Some? then value else default }
  }

  type Id = string

  /** The refusal codes of the social layer, plus the two a price or a write can raise. */
  datatype ErrorCode =
    | CALL_INVALID | CALL_ALREADY_MADE | CALL_NOT_FOUND | CALL_PARENT_MISMATCH | CALL_IMMUTABLE
    | CALL_HIDDEN | CALL_NOT_VISIBLE | CALL_MARKET_CLOSED | CALL_MARKET_UNKNOWN
    | RESPONSE_SELF | RESPONSE_DUPLICATE
    | THESIS_NOT_AUTHOR | THESIS_UPDATE_LIMIT | THESIS_UPDATES_UNAVAILABLE
    | RESULT_SERVICE_WRITE_ONLY | RESULT_DERIVATION_VIOLATION
    | VENUE_SCHEMA

  datatype Result<+T> = Ok(value: T) | Err(code: ErrorCode) {
    predicate IsFailure() { Err? }
    function PropagateFailure<U>(): Result<U> requires Err? { Err(code) }
    function Extract(): T requires Ok? { value }
  }

  datatype Side = YES | NO
  datatype Resolution = FOR_YES | FOR_NO | VOID
  datatype Outcome = PENDING | CORRECT | INCORRECT | VOIDED
  datatype Visibility = PUBLIC | FOLLOWERS
  datatype FundingState = NONE | FUNDED
  datatype ResponseKind = BACK | FADE | CHALLENGE
  datatype Actor = SERVICE | CLIENT

  function Opposite(s: Side): Side { if s == YES then NO else YES }

  datatype SharePrice = SharePrice(id: Id, marketId: Id, yesPrice: Option<string>, noPrice: Option<string>,
      observedAt: int)

  datatype Call = Call(
    id: Id, userId: Id, marketId: Id, side: Side,
    confidence: Option<real>, thesis: Option<string>,
    entryProbability: Option<real>, snapshotId: Option<string>, entryPrice: Option<SharePrice>,
    visibility: Visibility, createdAt: int, lockedAt: int,
    parentCallId: Option<Id>, fundingState: FundingState,
    hiddenAt: Option<int>, hiddenReason: Option<string>)

  datatype Response = Response(
    id: Id, actorUserId: Id, targetCallId: Id, kind: ResponseKind,
    resultingCallId: Option<Id>, note: Option<string>, createdAt: int)

  datatype CallResult = CallResult(
    callId: Id, outcome: Outcome, resolution: Option<Resolution>,
    resolvedAt: Option<int>, marketResolutionId: Option<Id>, derivedAt: int)

  datatype ThesisUpdate = ThesisUpdate(id: Id, callId: Id, authorUserId: Id, body: string, createdAt: int)

  /** One venue resolution: the evidence a result is derived from. */
  datatype Evidence = Evidence(id: Id, marketId: Id, resolution: Resolution, resolvedAt: int, recordedAt: int)

  const THESIS_MAX: nat := 280
  const MAX_THESIS_UPDATES_PER_CALL: nat := 20
  const THESIS_UPDATE_MAX: nat := 280
  const SHARE_PRICE_MAX_AGE_MS: int := 600_000

  /** Why a money call was withdrawn: never funded in time, or kept as a free call. */
  const EXPIRED_REASON := "money_call_expired"
  const KEPT_FREE_REASON := "money_call_kept_free"

  /** The derivation rule: the only way an outcome is ever produced. */
  function DeriveOutcome(side: Side, resolution: Option<Resolution>): Outcome {
    match resolution
    case None => PENDING
    case Some(VOID) => VOIDED
    case Some(FOR_YES) => if side == YES then CORRECT else INCORRECT
    case Some(FOR_NO) => if side == NO then CORRECT else INCORRECT
  }

  /** A share price a call may be stamped with at `now`. */
  predicate UsablePrice(p: SharePrice, now: int) {
    p.yesPrice.Some? && p.noPrice.Some? && p.observedAt <= now && now - p.observedAt <= SHARE_PRICE_MAX_AGE_MS
  }

  /** The database's own limit on a thesis. */
  predicate ThesisFits(c: Call) { c.thesis.Some? ==> |c.thesis.value| <= THESIS_MAX }

  predicate Live(c: Call) { c.hiddenAt.None? }

  /** Everything about a call except the two columns a writer may change. */
  function Frozen(c: Call): Call { c.(hiddenAt := None, hiddenReason := None) }

  /**
   * What this layer cannot see: whether a share price passes its schema and
   * its content-derived id, and the UUID a snapshot handle translates to.
   */
  datatype Env = Env(wellFormedPrice: SharePrice -> bool, snapshotUuid: string -> string)

  /** A UUID translates to itself, so translating twice is translating once. */
  ghost predicate StableUuids(e: Env) {
    forall handle :: e.snapshotUuid(e.snapshotUuid(handle)) == e.snapshotUuid(handle)
  }

  // The white space String.prototype.trim and \s agree on.
  predicate IsSpace(c: char) {
    || '\U{0009}' <= c <= '\U{000D}' || c == ' ' || c == '\U{00A0}' || c == '\U{1680}'
    || '\U{2000}' <= c <= '\U{200A}' || c == '\U{2028}' || c == '\U{2029}'
    || c == '\U{202F}' || c == '\U{205F}' || c == '\U{3000}' || c == '\U{FEFF}'
  }

  function TrimStart(s: string): (t: string)
    ensures |t| <= |s|
    ensures t != "" ==> !IsSpace(t[0])
    ensures s == "" || !IsSpace(s[0]) ==> t == s
  {
    if s != "" && IsSpace(s[0]) then TrimStart(s[1..]) else s
  }

  function TrimEnd(s: string): (t: string)
    ensures t <= s
    ensures t != "" ==> !IsSpace(t[|t| - 1])
    ensures s == "" || !IsSpace(s[|s| - 1]) ==> t == s
  {
    if s != "" && IsSpace(s[|s| - 1]) then TrimEnd(s[..|s| - 1]) else s
  }

  function Trim(s: string): (t: string)
    ensures |t| <= |s|
    ensures t != "" ==> !IsSpace(t[0]) && !IsSpace(t[|t| - 1])
  {
    TrimEnd(TrimStart(s))
  }

  ghost predicate AllSpace(s: string) { forall i | 0 <= i < |s| :: IsSpace(s[i]) }

  lemma {:induction false} TrimStartDrops(s: string)
    ensures var t := TrimStart(s); t == s[|s| - |t|..] && AllSpace(s[..|s| - |t|])
  {
    if s != "" && IsSpace(s[0]) {
      TrimStartDrops(s[1..]);
      var n := |s| - |TrimStart(s)|;
      assert s[1..][n - 1..] == s[n..] && s[..n] == [s[0]] + s[1..][..n - 1];
    }
  }

  lemma {:induction false} TrimEndDrops(s: string)
    ensures var t := TrimEnd(s); AllSpace(s[|t|..])
  {
    if s != "" && IsSpace(s[|s| - 1]) {
      var n := |TrimEnd(s)|;
      TrimEndDrops(s[..|s| - 1]);
      assert s[n..] == s[..|s| - 1][n..] + [s[|s| - 1]];
    }
  }

  /** Trimming takes white space off either end, all of it and nothing else. */
  lemma TrimTakesTheEnds(s: string)
    ensures exists i, j :: 0 <= i <= j <= |s| && Trim(s) == s[i..j] && AllSpace(s[..i]) && AllSpace(s[j..])
  {
    var t := TrimStart(s);
    var i := |s| - |t|;
    TrimStartDrops(s);
    TrimEndDrops(t);
    var j := i + |Trim(s)|;
    assert Trim(s) == s[i..j] && s[j..] == t[|Trim(s)|..];
  }

  lemma TrimTwice(s: string)
    ensures Trim(Trim(s)) == Trim(s)
  {
  }
}
