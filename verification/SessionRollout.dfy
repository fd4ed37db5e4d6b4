/**
 * Whose account a session is, while account linking is rolled out account by
 * account. The main results are exactly who gets in, that a session none of
 * whose reachable accounts is in the rollout gets exactly what it would get
 * with linking off, the writes to the store included, and one all of whose are
 * gets exactly what it would get with linking on.
 */
module SessionRollout {
  import opened Vocabulary

  datatype Rollout = ON | ADMINS | OFF

  datatype AuthRefusal = IDENTITY_NOT_CONFIGURED | AUTH_TOKEN_MISSING | AUTH_TOKEN_INVALID | AUTH_USER_UNLINKED

  datatype Answer = Account(userId: Id) | Refusal(why: AuthRefusal)

  datatype Session = Session(authUserId: Id, solanaWallet: Option<string>)

  function Lower(s: string): (r: string)
    ensures |r| == |s|
    ensures forall i | 0 <= i < |s| :: r[i] == if 'A' <= s[i] <= 'Z' then (s[i] as int + 32) as char else s[i]
  {
    if s == "" then ""
    else [if 'A' <= s[0] <= 'Z' then (s[0] as int + 32) as char else s[0]] + Lower(s[1..])
  }

  /** Whether a switch in this rollout is on for this account. */
  predicate RolloutAllows(admins: set<Id>, rollout: Rollout, userId: Id) {
    rollout == ON || (rollout == ADMINS && userId != "" && Lower(userId) in admins)
  }

  // ── the store ───────────────────────────────────────────────────────────

  /**
   * The identity tables, as far as a session can reach: primary sign-ins, additional
   * ones, proven wallet links, wallet profiles.
   */
  datatype Accounts = Accounts(
    primary: map<Id, Id>, additional: map<Id, Id>, walletLinks: map<string, Id>, walletProfiles: map<string, Id>)

  /** A write the service asks the store for. */
  datatype StoreWrite = ResolveWalletSignIn(authUserId: Id, wallet: string) | BindWalletSession(authUserId: Id,
      wallet: string)

  /** What the database's own functions make of a write: not part of this model, so any. None is a refusal. */
  datatype Database = Database(apply: (Accounts, StoreWrite) -> (Accounts, Option<Id>))

  /** `additionalSignIns` is whether the store reads additional sign-ins at all. */
  function ResolveAuthUser(a: Accounts, additionalSignIns: bool, authUserId: Id): (Option<Id>, bool) {
    if authUserId in a.primary then (Some(a.primary[authUserId]), false)
    else if !additionalSignIns || authUserId !in a.additional then (None, false)
    else (Some(a.additional[authUserId]), true)
  }

  // ── the service ─────────────────────────────────────────────────────────

  /** Linking as the service is told of it: one answer for everybody, or one per account. */
  datatype Linking = Fixed(on: bool) | PerAccount(rule: Id -> bool)

  datatype Deps = Deps(
    enabled: bool, additionalSignIns: bool, linking: Linking, hasAccountLinks: bool, hasWalletAccount: bool,
        walletProfileCarry: bool)

  function DepsFor(rollout: Rollout, admins: set<Id>, d: Deps): Deps {
    d.(additionalSignIns := rollout != OFF,
       linking := if rollout == ADMINS then PerAccount((u: Id) => RolloutAllows(admins, ADMINS, u))
           else Fixed(rollout == ON))
  }

  predicate LinkingActive(l: Linking) { l.PerAccount? || l.on }

  predicate LinkingFor(l: Linking, userId: Id) { if l.PerAccount? then l.rule(userId) else l.on }

  /** Where an attempt leaves the store, what it asked it to write, and what it answers. */
  datatype Outcome = Outcome(accounts: Accounts, writes: seq<StoreWrite>, userId: Option<Id>)

  function Ask(db: Database, o: Outcome, w: StoreWrite): (Outcome, Option<Id>) {
    var (accounts, answer) := db.apply(o.accounts, w);
    (o.(accounts := accounts, writes := o.writes + [w]), answer)
  }

  /** The account already reached: the primary sign-in's, or an additional one's that linking is on for. */
  function FirstAccount(d: Deps, a: Accounts, s: Session): Option<Id> {
    var (userId, additional) := ResolveAuthUser(a, d.additionalSignIns, s.authUserId);
    if userId.Some? && additional && !LinkingFor(d.linking, userId.value) then None else userId
  }

  /** Whether a linked wallet's sign-in may be asked for: a staged rollout reads whose wallet it is first. */
  predicate MayLand(d: Deps, a: Accounts, wallet: string) {
    !(d.linking.PerAccount? && d.hasWalletAccount)
        || (wallet in a.walletLinks && LinkingFor(d.linking, a.walletLinks[wallet]))
  }

  function AfterLinkedWallet(d: Deps, db: Database, o: Outcome, s: Session, carry: bool): Outcome {
    if o.userId.None? && carry && s.solanaWallet.Some? && LinkingActive(d.linking) && d.hasAccountLinks && MayLand(d,
        o.accounts, s.solanaWallet.value) then
      var (o', linked) := Ask(db, o, ResolveWalletSignIn(s.authUserId, s.solanaWallet.value));
      if linked.Some? && LinkingFor(d.linking, linked.value) then o'.(userId := linked) else o'
    else o
  }

  function AfterCarry(d: Deps, db: Database, o: Outcome, s: Session, carry: bool): Outcome {
    if o.userId.None? && carry && s.solanaWallet.Some? && d.walletProfileCarry then
      var (o', carried) := Ask(db, o, BindWalletSession(s.authUserId, s.solanaWallet.value));
      o'.(userId := carried)
    else o
  }

  function Resolve(d: Deps, db: Database, a: Accounts, s: Session, carry: bool): Outcome {
    AfterCarry(d, db, AfterLinkedWallet(d, db, Outcome(a, [], FirstAccount(d, a, s)), s, carry), s, carry)
  }

  // ── who gets in ─────────────────────────────────────────────────────────

  /** The sign-in is this account's own: its primary one, or an additional one where linking is on for the account. */
  predicate SignsInTo(d: Deps, a: Accounts, s: Session, u: Id) {
    if s.authUserId in a.primary then u == a.primary[s.authUserId]
    else
      && d.additionalSignIns && s.authUserId in a.additional && u == a.additional[s.authUserId]
      && (match d.linking case Fixed(on) => on case PerAccount(rule) => rule(u))
  }

  /**
   * The database is asked to land this session's wallet: linking is on at all, and, where it
   * is on account by account and the reader knows whose wallet it is, for that account.
   */
  predicate AsksToLand(d: Deps, a: Accounts, s: Session) {
    && s.solanaWallet.Some? && d.hasAccountLinks
    && match d.linking
       case Fixed(on) => on
       case PerAccount(rule) =>
         d.hasWalletAccount ==> s.solanaWallet.value in a.walletLinks && rule(a.walletLinks[s.solanaWallet.value])
  }

  /** The database lands it on this account, and linking is on for that. */
  predicate LandsOn(d: Deps, db: Database, a: Accounts, s: Session, u: Id) {
    && AsksToLand(d, a, s) && db.apply(a, ResolveWalletSignIn(s.authUserId, s.solanaWallet.value)).1 == Some(u)
    && match d.linking case Fixed(on) => on case PerAccount(rule) => rule(u)
  }

  /** The wallet's own profile is carried over to this account, on the tables as the landing left them. */
  predicate CarriesTo(d: Deps, db: Database, a: Accounts, s: Session, u: Id) {
    && s.solanaWallet.Some? && d.walletProfileCarry
    && var landing := ResolveWalletSignIn(s.authUserId, s.solanaWallet.value);
       var tables := if AsksToLand(d, a, s) then db.apply(a, landing).0 else a;
       db.apply(tables, BindWalletSession(s.authUserId, s.solanaWallet.value)).1 == Some(u)
  }

  /**
   * The session's account, if it has one: its own, else with `carry` the one landed on,
   * else the one carried over to.
   */
  ghost predicate GetsInto(d: Deps, db: Database, a: Accounts, s: Session, carry: bool, u: Id) {
    || SignsInTo(d, a, s, u)
    || (carry && (forall w :: !SignsInTo(d, a, s, w))
        && (LandsOn(d, db, a, s, u) || (CarriesTo(d, db, a, s, u) && forall w :: !LandsOn(d, db, a, s, w))))
  }

  /** A session gets into the account it has and no other, and in nowhere when it has none. */
  lemma WhoGetsIn(d: Deps, db: Database, a: Accounts, s: Session, carry: bool)
    ensures var o := Resolve(d, db, a, s, carry);
            && (forall u :: o.userId == Some(u) <==> GetsInto(d, db, a, s, carry, u))
            && (!carry || (exists u :: SignsInTo(d, a, s, u)) ==> o.accounts == a && o.writes == [])
  {
    OwnSignIn(d, a, s);
    hide FirstAccount, SignsInTo;
    var first := Outcome(a, [], FirstAccount(d, a, s));
    if first.userId.None? && carry {
      Landing(d, db, first, s);
      hide LandsOn;
      Carrying(d, db, a, first, s);
      hide CarriesTo, AfterCarry, AfterLinkedWallet;
    }
  }

  lemma OwnSignIn(d: Deps, a: Accounts, s: Session)
    ensures forall u :: FirstAccount(d, a, s) == Some(u) <==> SignsInTo(d, a, s, u)
  {
  }

  lemma Landing(d: Deps, db: Database, o: Outcome, s: Session)
    requires o.userId.None?
    ensures forall u :: AfterLinkedWallet(d, db, o, s, true).userId == Some(u) <==> LandsOn(d, db, o.accounts, s, u)
  {
  }

  lemma Carrying(d: Deps, db: Database, a: Accounts, o: Outcome, s: Session)
    requires o == Outcome(a, [], None)
    ensures var landed := AfterLinkedWallet(d, db, o, s, true);
            if landed.userId.Some? then AfterCarry(d, db, landed, s, true) == landed
            else forall u :: AfterCarry(d, db, landed, s, true).userId == Some(u) <==> CarriesTo(d, db, a, s, u)
  {
  }

  class IdentityStore {
    const db: Database
    var accounts: Accounts
    var writes: seq<StoreWrite>

    constructor (db: Database, accounts: Accounts)
      ensures this.db == db && this.accounts == accounts && writes == []
    {
      this.db, this.accounts, writes := db, accounts, [];
    }

    method Write(w: StoreWrite) returns (answer: Option<Id>)
      modifies this
      ensures (accounts, answer) == db.apply(old(accounts), w) && writes == old(writes) + [w]
    {
      var (next, id) := db.apply(accounts, w);
      accounts, answer, writes := next, id, writes + [w];
    }
  }

  class WalletLinkService {
    const store: IdentityStore
    const deps: Deps
    const verify: string -> Option<Session>

    constructor (store: IdentityStore, deps: Deps, verify: string -> Option<Session>)
      ensures this.store == store && this.deps == deps && this.verify == verify
    {
      this.store, this.deps, this.verify := store, deps, verify;
    }

    /** A linked wallet's sign-in lands on its account, where linking is on for it. */
    method LandLinkedWallet(session: Session, userId: Option<Id>, carry: bool) returns (r: Option<Id>)
      modifies store
      ensures var o := AfterLinkedWallet(deps, store.db, Outcome(old(store.accounts), [], userId), session, carry);
              store.accounts == o.accounts && store.writes == old(store.writes) + o.writes && r == o.userId
    {
      r := userId;
      if userId.None? && carry && session.solanaWallet.Some? && LinkingActive(deps.linking) && deps.hasAccountLinks {
        var wallet := session.solanaWallet.value;
        var asked := true;
        if deps.linking.PerAccount? && deps.hasWalletAccount {
          asked := wallet in store.accounts.walletLinks && LinkingFor(deps.linking, store.accounts.walletLinks[wallet]);
        }
        if asked {
          var linked := store.Write(ResolveWalletSignIn(session.authUserId, wallet));
          if linked.Some? && LinkingFor(deps.linking, linked.value) { r := linked; }
        }
      }
    }

    /** A wallet sign-in reaches the account that wallet already has. */
    method CarryProfile(session: Session, userId: Option<Id>, carry: bool) returns (r: Option<Id>)
      modifies store
      ensures var o := AfterCarry(deps, store.db, Outcome(old(store.accounts), [], userId), session, carry);
              store.accounts == o.accounts && store.writes == old(store.writes) + o.writes && r == o.userId
    {
      r := userId;
      if userId.None? && carry && session.solanaWallet.Some? && deps.walletProfileCarry {
        var carried := store.Write(BindWalletSession(session.authUserId, session.solanaWallet.value));
        if carried.Some? { r := carried; }
      }
    }

    /** Read-only unless `carry` is set. */
    method AuthenticateSession(accessToken: string, carry: bool) returns (r: Answer)
      modifies store
      ensures !deps.enabled ==> r == Refusal(IDENTITY_NOT_CONFIGURED)
      ensures deps.enabled && Trim(accessToken) == "" ==> r == Refusal(AUTH_TOKEN_MISSING)
      ensures deps.enabled && Trim(accessToken) != "" && verify(Trim(accessToken)).None? ==>
          r == Refusal(AUTH_TOKEN_INVALID)
      ensures var proceeds := deps.enabled && Trim(accessToken) != "" && verify(Trim(accessToken)).Some?;
              && (!proceeds ==> store.accounts == old(store.accounts) && store.writes == old(store.writes))
              && (proceeds ==>
                    var o := Resolve(deps, store.db, old(store.accounts), verify(Trim(accessToken)).value, carry);
                    && store.accounts == o.accounts && store.writes == old(store.writes) + o.writes
                    && r == if o.userId.Some? then Account(o.userId.value) else Refusal(AUTH_USER_UNLINKED))
      ensures deps.enabled && Trim(accessToken) != "" && verify(Trim(accessToken)).Some? ==>
                var a, s := old(store.accounts), verify(Trim(accessToken)).value;
                && (forall u :: r == Account(u) <==> GetsInto(deps, store.db, a, s, carry, u))
                && (r == Refusal(AUTH_USER_UNLINKED) <==> forall u :: !GetsInto(deps, store.db, a, s, carry, u))
                && (!carry || (exists u :: SignsInTo(deps, a, s, u)) ==>
                      store.accounts == a && store.writes == old(store.writes))
    {
      hide Trim, AfterLinkedWallet, AfterCarry, LinkingFor, GetsInto, SignsInTo;
      if !deps.enabled { return Refusal(IDENTITY_NOT_CONFIGURED); }
      var token := Trim(accessToken);
      if token == "" { return Refusal(AUTH_TOKEN_MISSING); }
      var verified := verify(token);
      if verified.None? { return Refusal(AUTH_TOKEN_INVALID); }
      var session := verified.value;
      WhoGetsIn(deps, store.db, store.accounts, session, carry);
      var (userId, additional) := ResolveAuthUser(store.accounts, deps.additionalSignIns, session.authUserId);
      if userId.Some? && additional && !LinkingFor(deps.linking, userId.value) { userId := None; }
      ghost var a := store.accounts;
      assert userId == FirstAccount(deps, a, session);
      ghost var first := Outcome(a, [], userId);
      userId := LandLinkedWallet(session, userId, carry);
      ghost var second := AfterLinkedWallet(deps, store.db, first, session, carry);
      CarryFrom(deps, store.db, second, session, carry);
      userId := CarryProfile(session, userId, carry);
      if userId.None? { return Refusal(AUTH_USER_UNLINKED); }
      return Account(userId.value);
    }
  }

  /** Carrying adds its writes to those already made, whatever they were. */
  lemma CarryFrom(d: Deps, db: Database, o: Outcome, s: Session, carry: bool)
    ensures var bare := AfterCarry(d, db, o.(writes := []), s, carry);
            AfterCarry(d, db, o, s, carry) == bare.(writes := o.writes + bare.writes)
  {
  }

  /**
   * A primary sign-in reaches its account under every rollout; an additional one everybody's,
   * nobody's, or that of those listed, however their ids are cased.
   */
  lemma SignInsByRollout(rollout: Rollout, admins: set<Id>, d: Deps, a: Accounts, s: Session)
    ensures s.authUserId in a.primary ==>
              forall u :: SignsInTo(DepsFor(rollout, admins, d), a, s, u) <==> u == a.primary[s.authUserId]
    ensures s.authUserId !in a.primary && s.authUserId in a.additional ==>
              var u := a.additional[s.authUserId];
              SignsInTo(DepsFor(rollout, admins, d), a, s, u) <==>
                rollout == ON || (rollout == ADMINS && u != "" && Lower(u) in admins)
  {
  }

  // ── the claims ──────────────────────────────────────────────────────────

  /** The accounts linking could bring this session to. */
  ghost predicate Reaches(a: Accounts, s: Session, userId: Id) {
    || (s.authUserId in a.additional && a.additional[s.authUserId] == userId)
    || (s.solanaWallet.Some? && s.solanaWallet.value in a.walletLinks && a.walletLinks[s.solanaWallet.value] == userId)
  }

  /** What a write answered, made on tables the session may already have changed. */
  ghost predicate Landed(db: Database, a: Accounts, w: StoreWrite, userId: Id) {
    db.apply(a, w).1 == Some(userId)
  }

  /**
   * How a session comes by its account: as the primary sign-in, as an additional
   * one linking is on for, by a wallet sign-in the database lands on an account
   * linking is on for, or by carrying over the wallet's own profile.
   */
  lemma ReachedOnlyAsAllowed(d: Deps, db: Database, a: Accounts, s: Session, carry: bool)
    ensures var o := Resolve(d, db, a, s, carry);
            o.userId.Some? ==>
              || (s.authUserId in a.primary && a.primary[s.authUserId] == o.userId.value)
              || (s.authUserId in a.additional && a.additional[s.authUserId] == o.userId.value
                  && d.additionalSignIns && LinkingFor(d.linking, o.userId.value))
              || (carry && s.solanaWallet.Some? && LinkingFor(d.linking, o.userId.value)
                  && Landed(db, a, ResolveWalletSignIn(s.authUserId, s.solanaWallet.value), o.userId.value))
              || (carry && s.solanaWallet.Some? && d.walletProfileCarry
                  && exists a' :: Landed(db, a', BindWalletSession(s.authUserId, s.solanaWallet.value), o.userId.value))
  {
    hide LinkingFor, MayLand;
    var first := Outcome(a, [], FirstAccount(d, a, s));
    var second := AfterLinkedWallet(d, db, first, s, carry);
    if second.userId.None? && carry && s.solanaWallet.Some? && d.walletProfileCarry
        && AfterCarry(d, db, second, s, carry).userId.Some? {
      assert Landed(db, second.accounts, BindWalletSession(s.authUserId, s.solanaWallet.value),
          AfterCarry(d, db, second, s, carry).userId.value);
    }
  }

  /**
   * Staged is off, for everybody outside. When none of the accounts a session
   * could reach through linking is in the rollout, the staged rollout gives the
   * answer, the writes and the tables that linking off gives, sign-in or not.
   */
  lemma StagedIsOffOutside(admins: set<Id>, d: Deps, db: Database, a: Accounts, s: Session, carry: bool)
    requires d.hasWalletAccount
    requires forall u | Reaches(a, s, u) :: !RolloutAllows(admins, ADMINS, u)
    ensures Resolve(DepsFor(ADMINS, admins, d), db, a, s, carry) == Resolve(DepsFor(OFF, admins, d), db, a, s, carry)
  {
    NothingReached(admins, d, db, a, s, carry);
    hide FirstAccount, AfterLinkedWallet;
    var first := Outcome(a, [], FirstAccount(DepsFor(OFF, admins, d), a, s));
    CarriedAlike(DepsFor(ADMINS, admins, d), DepsFor(OFF, admins, d), db, first, first, s, carry);
  }

  lemma NothingReached(admins: set<Id>, d: Deps, db: Database, a: Accounts, s: Session, carry: bool)
    requires d.hasWalletAccount
    requires forall u | Reaches(a, s, u) :: !RolloutAllows(admins, ADMINS, u)
    ensures FirstAccount(DepsFor(ADMINS, admins, d), a, s) == FirstAccount(DepsFor(OFF, admins, d), a, s)
    ensures var first := Outcome(a, [], FirstAccount(DepsFor(OFF, admins, d), a, s));
            && AfterLinkedWallet(DepsFor(ADMINS, admins, d), db, first, s, carry) == first
            && AfterLinkedWallet(DepsFor(OFF, admins, d), db, first, s, carry) == first
  {
    hide RolloutAllows;
    if s.authUserId in a.additional { assert Reaches(a, s, a.additional[s.authUserId]); }
    if s.solanaWallet.Some? && s.solanaWallet.value in a.walletLinks {
      assert Reaches(a, s, a.walletLinks[s.solanaWallet.value]);
    }
  }

  /** Carrying looks at nothing of the rollout, nor at the writes already made. */
  lemma CarriedAlike(d: Deps, d': Deps, db: Database, o: Outcome, o': Outcome, s: Session, carry: bool)
    requires d.walletProfileCarry == d'.walletProfileCarry && o.accounts == o'.accounts && o.userId == o'.userId
    ensures var c, c' := AfterCarry(d, db, o, s, carry), AfterCarry(d', db, o', s, carry);
            c.accounts == c'.accounts && c.userId == c'.userId && (o.writes == o'.writes ==> c == c')
  {
  }

  /**
   * The wallet reader is what keeps it so: without it, an outsider's first wallet
   * sign-in asks the store to bind it, which linking off never does.
   */
  lemma WithoutTheReaderItWrites(admins: set<Id>, d: Deps, db: Database, a: Accounts, s: Session)
    requires !d.hasWalletAccount && d.hasAccountLinks && s.solanaWallet.Some?
    requires s.authUserId !in a.primary && s.authUserId !in a.additional
    ensures ResolveWalletSignIn(s.authUserId, s.solanaWallet.value) in Resolve(DepsFor(ADMINS, admins, d), db, a, s,
        true).writes
    ensures ResolveWalletSignIn(s.authUserId, s.solanaWallet.value) !in Resolve(DepsFor(OFF, admins, d), db, a, s,
        true).writes
  {
    var w := ResolveWalletSignIn(s.authUserId, s.solanaWallet.value);
    var staged := Outcome(a, [], None);
    var asked := Ask(db, staged, w).0;
    assert asked.writes == [w];
    assert AfterLinkedWallet(DepsFor(ADMINS, admins, d), db, staged, s, true).writes == [w];
  }

  /**
   * The wallet reader and the database agree about whose wallet it is: the sign-in
   * lands there or nowhere, and nowhere when it is nobody's.
   */
  ghost predicate ReaderAgrees(db: Database, a: Accounts, s: Session) {
    s.solanaWallet.Some? ==>
      var (a', landed) := db.apply(a, ResolveWalletSignIn(s.authUserId, s.solanaWallet.value));
      if s.solanaWallet.value in a.walletLinks then landed.Some? ==> landed.value == a.walletLinks[s.solanaWallet.value]
      else landed.None? && a' == a
  }

  /**
   * Staged is on, for everybody inside. When all of them are in the rollout,
   * and the reader agrees with the database, the answer and the tables are
   * those that linking on gives.
   */
  lemma StagedIsOnInside(admins: set<Id>, d: Deps, db: Database, a: Accounts, s: Session, carry: bool)
    requires d.hasWalletAccount && ReaderAgrees(db, a, s)
    requires forall u | Reaches(a, s, u) :: RolloutAllows(admins, ADMINS, u)
    ensures var staged, on := Resolve(DepsFor(ADMINS, admins, d), db, a, s, carry),
        Resolve(DepsFor(ON, admins, d), db, a, s, carry);
            staged.accounts == on.accounts && staged.userId == on.userId
  {
    EverythingReached(admins, d, db, a, s, carry);
    hide FirstAccount, AfterLinkedWallet;
    var staged, on := DepsFor(ADMINS, admins, d), DepsFor(ON, admins, d);
    var first := Outcome(a, [], FirstAccount(on, a, s));
    CarriedAlike(staged, on, db, AfterLinkedWallet(staged, db, first, s, carry),
        AfterLinkedWallet(on, db, first, s, carry), s, carry);
  }

  lemma EverythingReached(admins: set<Id>, d: Deps, db: Database, a: Accounts, s: Session, carry: bool)
    requires d.hasWalletAccount && ReaderAgrees(db, a, s)
    requires forall u | Reaches(a, s, u) :: RolloutAllows(admins, ADMINS, u)
    ensures FirstAccount(DepsFor(ADMINS, admins, d), a, s) == FirstAccount(DepsFor(ON, admins, d), a, s)
    ensures var first := Outcome(a, [], FirstAccount(DepsFor(ON, admins, d), a, s));
            var staged, on := AfterLinkedWallet(DepsFor(ADMINS, admins, d), db, first, s, carry),
                AfterLinkedWallet(DepsFor(ON, admins, d), db, first, s, carry);
            staged.accounts == on.accounts && staged.userId == on.userId
  {
    hide RolloutAllows;
    if s.authUserId in a.additional { assert Reaches(a, s, a.additional[s.authUserId]); }
    if s.solanaWallet.Some? && s.solanaWallet.value in a.walletLinks {
      assert Reaches(a, s, a.walletLinks[s.solanaWallet.value]);
    }
  }
}
