/**
 * The write-behind store: which writes each accepted mutation queues, and the
 * simulation that ties the mirror to the database through the queue.
 */
module WriteBehind {
  import opened Vocabulary
  import opened Ledgers
  import opened DurableTables

  /** The writes one accepted mutation pushes onto the shared queue. A mutation that changed nothing pushes nothing. */
  function Queued(e: Env, l: Ledger, op: Op): seq<Write> {
    match op
    case AddCall(rec) => [InsertCallRow(Row(e, Frozen(rec)))]
    case Hide(callId, reason, at) =>
      if callId in l.book.calls && Live(l.book.calls[callId]) then [PatchCallRow(callId, Some(at), reason)] else []
    case Unhide(callId) => [PatchCallRow(callId, None, None)]
    case AddResponse(r) => [InsertResponseRow(r)]
    case AddUpdate(u) => [InsertUpdateRow(u.(body := Trim(u.body)))]
    case SetResult(callId, ev, at, actor) => QueuedResult(l, callId, ev, at, actor)
    case Follow(a, b) => if a == b || (a, b) in l.follows then [] else [InsertFollowRow(a, b)]
    case Unfollow(a, b) => if (a, b) in l.follows then [DeleteFollowRow(a, b), DeleteLegacyFollowRow(a, b)] else []
    case Cursor(name, c) => [UpsertCursorRow(name, c)]
  }

  function QueuedResult(l: Ledger, callId: Id, ev: Option<Evidence>, at: int, actor: Actor): seq<Write> {
    var r := WriteResult(l, callId, ev, at, actor);
    if r.Ok? && r.value.1 && callId in r.value.0.book.results then [UpsertResultRow(r.value.0.book.results[callId])]
        else []
  }

  /** What the store answers to a mutation: the mirror's refusal, or that the updates table is missing. */
  function RefusalOf(e: Env, thesisTable: bool, l: Ledger, op: Op): Option<ErrorCode> {
    if op.AddUpdate? && !thesisTable then Some(THESIS_UPDATES_UNAVAILABLE)
    else
      var r := Perform(e, l, op);
      if r.Err? then Some(r.code) else None
  }

  function WithUpdates(l: Ledger, updates: map<Id, ThesisUpdate>): Ledger { l.(book := l.book.(updates := updates)) }

  /** Only appending an update looks at the updates. */
  lemma UpdatesAside(e: Env, l: Ledger, updates: map<Id, ThesisUpdate>, op: Op)
    requires !op.AddUpdate?
    ensures Perform(e, WithUpdates(l, updates), op)
            == var r := Perform(e, l, op); if r.Ok? then Ok(WithUpdates(r.value, updates)) else r
    ensures Perform(e, l, op).Ok? ==> Perform(e, l, op).value.book.updates == l.book.updates
    ensures Queued(e, WithUpdates(l, updates), op) == Queued(e, l, op)
    ensures forall w | w in Queued(e, l, op) :: !w.InsertUpdateRow?
  {
    hide CheckPrice, FirstLive, CheckResulting, Derive;
  }

  /**
   * What the callers and the clock guarantee of a mutation: ids are new, a
   * thesis is within its limit, every instant is later than those already
   * recorded, a back or fade names the call it came from, and a call is shown again only while nothing newer by the
   * same person stands on the same market.
   */
  ghost predicate Timely(l: Ledger, op: Op) {
    match op
    case AddCall(rec) => rec.hiddenReason.None? && ThesisFits(rec) && forall id | id in l.book.calls ::
        l.book.calls[id].lockedAt < rec.lockedAt
    case Hide(callId, _, at) => forall id | id in l.book.updates && l.book.updates[id].callId == callId ::
        l.book.updates[id].createdAt < at
    case Unhide(callId) => callId in l.book.calls ==> ShowSafe(l.book.calls, callId)
    case AddResponse(r) =>
      && r.id !in l.book.responses
      && (r.resultingCallId.Some? && r.resultingCallId.value in l.book.calls ==>
            l.book.calls[r.resultingCallId.value].parentCallId == Some(r.targetCallId))
    case AddUpdate(u) => u.callId in l.book.calls ==> Live(l.book.calls[u.callId])
    case _ => true
  }

  /** Nothing by the same person on the same market is live beside this call, or locked after it. */
  ghost predicate ShowSafe(calls: map<Id, Call>, callId: Id)
    requires callId in calls
  {
    NoOtherLive(calls, calls[callId]) && forall id | id in calls :: !Superseded(calls[callId], calls[id])
  }

  /** The calls are listed in the order they were locked. */
  ghost predicate LockOrder(l: Ledger) {
    Listed(l) && forall i, j | 0 <= i < j < |l.order| ::
      l.order[i] in l.book.calls && l.order[j] in l.book.calls
          && l.book.calls[l.order[i]].lockedAt < l.book.calls[l.order[j]].lockedAt
  }

  /** Each write, against what the earlier ones of the queue left, is one the store was right to queue. */
  ghost predicate FitAll(e: Env, b: Book, ws: seq<Write>)
    decreases |ws|
  {
    ws == [] || (Fit(e, b, ws[0]) && FitAll(e, StoreRecord(b, ws[0]), ws[1..]))
  }

  /** The follow graph hydration reads: either table, canonical pairs only. */
  function FollowGraph(t: Tables): set<(Id, Id)> {
    set p | p in t.personFollows + t.legacyFollows && p.0 != p.1
  }

  /** The tables hold exactly what the mirror shows, in the tables' own encoding. */
  ghost predicate Mirrors(e: Env, t: Tables, l: Ledger) {
    t.book == RowBook(e, l.book) && FollowGraph(t) == l.follows && t.cursors == l.cursors
  }

  // ── queue algebra ───────────────────────────────────────────────────────

  lemma {:induction false} StoreAllAppend(t: Tables, xs: seq<Write>, ys: seq<Write>)
    ensures StoreAll(t, xs + ys) == StoreAll(StoreAll(t, xs), ys)
    decreases |xs|
  {
    if xs == [] {
      assert xs + ys == ys;
    } else {
      assert (xs + ys)[1..] == xs[1..] + ys;
      StoreAllAppend(Store(t, xs[0]), xs[1..], ys);
    }
  }

  lemma {:induction false} FitAllAppend(e: Env, b: Book, xs: seq<Write>, ys: seq<Write>)
    requires FitAll(e, b, xs) && FitAll(e, RecordAll(b, xs), ys)
    ensures FitAll(e, b, xs + ys) && RecordAll(b, xs + ys) == RecordAll(RecordAll(b, xs), ys)
    decreases |xs|
  {
    if xs == [] {
      assert xs + ys == ys;
    } else {
      assert (xs + ys)[1..] == xs[1..] + ys;
      FitAllAppend(e, StoreRecord(b, xs[0]), xs[1..], ys);
    }
  }

  /** Social writes and follow or cursor writes touch different tables. */
  lemma {:induction false} StoreAllBook(t: Tables, ws: seq<Write>)
    ensures StoreAll(t, ws).book == RecordAll(t.book, ws)
    decreases |ws|
  {
    if ws != [] { StoreAllBook(Store(t, ws[0]), ws[1..]); }
  }

  /** Every prefix of a fitting queue is accepted, one write after the other, and leaves sound records. */
  lemma {:induction false} QueueLands(e: Env, b: Book, ws: seq<Write>, k: nat)
    requires Sound(e, b) && FitAll(e, b, ws) && k <= |ws|
    ensures Sound(e, RecordAll(b, ws[..k])) && Keeps(b, RecordAll(b, ws[..k]))
    ensures k < |ws| ==> Accepts(RecordAll(b, ws[..k]), ws[k])
    decreases k
  {
    hide Sound, Fit, Accepts, Keeps, StoreRecord;
    if k == 0 {
      KeepsItself(b);
      if ws != [] { FitLands(e, b, ws[0]); }
    } else {
      FitLands(e, b, ws[0]);
      assert ws[..k][1..] == ws[1..][..k - 1];
      QueueLands(e, StoreRecord(b, ws[0]), ws[1..], k - 1);
      KeepsTransitive(b, StoreRecord(b, ws[0]), RecordAll(b, ws[..k]));
    }
  }

  // ── an accepted mutation and the writes it queues ───────────────────────

  lemma RowFields(e: Env, b: Book)
    ensures RowBook(e, b).calls.Keys == b.calls.Keys
    ensures forall id | id in b.calls :: RowBook(e, b).calls[id] == Row(e, b.calls[id])
    ensures RowBook(e, b) == Book(RowBook(e, b).calls, b.responses, b.results, b.updates)
  {
  }

  lemma RowBookStores(e: Env, b: Book, c: Call)
    ensures RowBook(e, b.(calls := b.calls[c.id := c]))
        == RowBook(e, b).(calls := RowBook(e, b).calls[c.id := Row(e, c)])
  {
  }

  /** The writes fit one after the other, and turn the rows of the one ledger into the rows of the other. */
  ghost predicate Carries(e: Env, l: Ledger, ws: seq<Write>, l': Ledger) {
    FitAll(e, RowBook(e, l.book), ws) && RecordAll(RowBook(e, l.book), ws) == RowBook(e, l'.book)
  }

  lemma OneWriteCarries(e: Env, l: Ledger, w: Write, l': Ledger)
    requires Fit(e, RowBook(e, l.book), w) && StoreRecord(RowBook(e, l.book), w) == RowBook(e, l'.book)
    ensures Carries(e, l, [w], l')
  {
    hide Fit, RowBook;
    RecordOne(e, RowBook(e, l.book), w);
  }

  lemma RecordOne(e: Env, b: Book, w: Write)
    ensures RecordAll(b, [w]) == StoreRecord(b, w)
    ensures FitAll(e, b, [w]) <==> Fit(e, b, w)
  {
    hide Fit;
    assert [w][1..] == [];
    assert RecordAll(StoreRecord(b, w), []) == StoreRecord(b, w);
  }

  lemma CallFits(e: Env, l: Ledger, rec: Call)
    requires Timely(l, AddCall(rec)) && InsertCall(e, l, rec).Ok? && Listed(l)
    ensures Fit(e, RowBook(e, l.book), InsertCallRow(Row(e, rec)))
  {
    var b, row := RowBook(e, l.book), Row(e, rec);
    RowFields(e, l.book);
    hide RowBook;
    assert CallSound(e, b.calls[row.id := row], row.id);
    assert NoOtherLive(b.calls, row);
  }

  lemma CallExtendsOrder(e: Env, l: Ledger, rec: Call)
    requires LockOrder(l) && Timely(l, AddCall(rec)) && InsertCall(e, l, rec).Ok?
    ensures LockOrder(InsertCall(e, l, rec).value)
  {
    hide CheckPrice, PriceSound;
  }

  lemma AddCallFits(e: Env, l: Ledger, rec: Call)
    requires LockOrder(l) && Timely(l, AddCall(rec)) && InsertCall(e, l, rec).Ok?
    ensures Carries(e, l, Queued(e, l, AddCall(rec)), InsertCall(e, l, rec).value)
        && LockOrder(InsertCall(e, l, rec).value)
  {
    CallFits(e, l, rec);
    CallExtendsOrder(e, l, rec);
    RowBookStores(e, l.book, rec);
    assert Frozen(rec) == rec;
    hide Carries, Fit, CheckPrice, PriceSound, LockOrder, FirstLive;
    OneWriteCarries(e, l, InsertCallRow(Row(e, rec)), InsertCall(e, l, rec).value);
  }

  lemma HiddenKeepsOrder(l: Ledger, callId: Id, at: Option<int>, reason: Option<string>)
    requires LockOrder(l) && callId in l.book.calls
    ensures LockOrder(SetHidden(l, callId, at, reason))
  {
  }

  lemma HiddenFits(e: Env, l: Ledger, callId: Id, at: Option<int>, reason: Option<string>)
    requires callId in l.book.calls
    requires at.Some? ==>
        forall id | id in l.book.updates && l.book.updates[id].callId == callId ::
        l.book.updates[id].createdAt < at.value
    requires at.None? ==> reason.None? && ShowSafe(l.book.calls, callId)
    ensures Fit(e, RowBook(e, l.book), PatchCallRow(callId, at, reason))
  {
    RowFields(e, l.book);
    hide RowBook;
  }

  lemma HiddenRow(e: Env, l: Ledger, callId: Id, at: Option<int>, reason: Option<string>)
    requires callId in l.book.calls && l.book.calls[callId].id == callId
    ensures StoreRecord(RowBook(e, l.book), PatchCallRow(callId, at, reason))
        == RowBook(e, SetHidden(l, callId, at, reason).book)
  {
    RowFields(e, l.book);
    RowBookStores(e, l.book, l.book.calls[callId].(hiddenAt := at, hiddenReason := reason));
    hide RowBook;
  }

  lemma PatchFits(e: Env, l: Ledger, callId: Id, at: Option<int>, reason: Option<string>)
    requires Sound(e, RowBook(e, l.book)) && LockOrder(l) && callId in l.book.calls
    requires at.Some? ==>
        forall id | id in l.book.updates && l.book.updates[id].callId == callId ::
        l.book.updates[id].createdAt < at.value
    requires at.None? ==> reason.None? && ShowSafe(l.book.calls, callId)
    ensures Carries(e, l, [PatchCallRow(callId, at, reason)], SetHidden(l, callId, at, reason))
    ensures LockOrder(SetHidden(l, callId, at, reason))
  {
    StoredUnderItsId(e, l.book, callId);
    hide Sound, Carries, Fit, StoreRecord, SetHidden, RowBook, LockOrder, NoOtherLive;
    HiddenKeepsOrder(l, callId, at, reason);
    HiddenFits(e, l, callId, at, reason);
    HiddenRow(e, l, callId, at, reason);
    OneWriteCarries(e, l, PatchCallRow(callId, at, reason), SetHidden(l, callId, at, reason));
  }

  lemma StoredUnderItsId(e: Env, b: Book, callId: Id)
    requires Sound(e, RowBook(e, b)) && callId in b.calls
    ensures b.calls[callId].id == callId
  {
    assert CallSound(e, RowBook(e, b).calls, callId);
  }

  lemma AddResponseFits(e: Env, l: Ledger, r: Response)
    requires LockOrder(l) && Timely(l, AddResponse(r)) && InsertResponse(l, r).Ok?
    ensures Carries(e, l, [InsertResponseRow(r)], InsertResponse(l, r).value) && LockOrder(InsertResponse(l, r).value)
  {
    RowFields(e, l.book);
    OrderBeside(l, InsertResponse(l, r).value);
    hide Carries, LockOrder;
    OneWriteCarries(e, l, InsertResponseRow(r), InsertResponse(l, r).value);
  }

  lemma UpdateFits(e: Env, l: Ledger, u: ThesisUpdate)
    requires Timely(l, AddUpdate(u)) && InsertThesisUpdate(l, u).Ok?
    ensures Fit(e, RowBook(e, l.book), InsertUpdateRow(u.(body := Trim(u.body))))
  {
    RowFields(e, l.book);
    TrimTwice(u.body);
    hide RowBook, Trim;
  }

  /** The rows of a ledger whose calls did not move. */
  lemma RowsBeside(e: Env, b: Book, b': Book)
    requires b'.calls == b.calls
    ensures RowBook(e, b') == RowBook(e, b).(responses := b'.responses, results := b'.results, updates := b'.updates)
  {
  }

  lemma OrderBeside(l: Ledger, l': Ledger)
    requires LockOrder(l) && l'.order == l.order && l'.book.calls == l.book.calls
    ensures LockOrder(l')
  {
  }

  lemma AddUpdateFits(e: Env, l: Ledger, u: ThesisUpdate)
    requires LockOrder(l) && Timely(l, AddUpdate(u)) && InsertThesisUpdate(l, u).Ok?
    ensures Carries(e, l, Queued(e, l, AddUpdate(u)), InsertThesisUpdate(l, u).value)
        && LockOrder(InsertThesisUpdate(l, u).value)
  {
    var l' := InsertThesisUpdate(l, u).value;
    UpdateFits(e, l, u);
    RowsBeside(e, l.book, l'.book);
    RowFields(e, l.book);
    OrderBeside(l, l');
    hide Fit, Carries, Timely, RowBook, LockOrder;
    OneWriteCarries(e, l, InsertUpdateRow(u.(body := Trim(u.body))), l');
  }

  lemma ResultFits(e: Env, l: Ledger, call: Call, ev: Option<Evidence>, at: int, l': Ledger)
    requires call.id in l.book.calls && l.book.calls[call.id] == call
    requires call.id in l.book.results ==> l.book.results[call.id].outcome == PENDING
    requires l'.book == l.book.(results := l.book.results[call.id := Derive(call, ev, at)])
    ensures Carries(e, l, [UpsertResultRow(Derive(call, ev, at))], l')
  {
    var next := Derive(call, ev, at);
    RowFields(e, l.book);
    RowsBeside(e, l.book, l'.book);
    hide RowBook, Carries;
    assert Fit(e, RowBook(e, l.book), UpsertResultRow(next));
    OneWriteCarries(e, l, UpsertResultRow(next), l');
  }

  /** An accepted result write either restates what is there, or derives over nothing or a pending row. */
  lemma WriteResultCases(l: Ledger, callId: Id, ev: Option<Evidence>, at: int, actor: Actor)
    requires WriteResult(l, callId, ev, at, actor).Ok? && l.book.calls[callId].id == callId
    ensures var r, call, ws := WriteResult(l, callId, ev, at, actor).value, l.book.calls[callId],
        QueuedResult(l, callId, ev, at, actor);
            && r.0.order == l.order && r.0.book.calls == l.book.calls
            && (!r.1 ==> r.0 == l && ws == [])
            && (r.1 ==>
                  && (callId in l.book.results ==> l.book.results[callId].outcome == PENDING)
                  && r.0.book == l.book.(results := l.book.results[callId := Derive(call, ev, at)])
                  && ws == [UpsertResultRow(Derive(call, ev, at))])
  {
  }

  lemma SetResultFits(e: Env, l: Ledger, callId: Id, ev: Option<Evidence>, at: int, actor: Actor)
    requires Sound(e, RowBook(e, l.book)) && LockOrder(l) && WriteResult(l, callId, ev, at, actor).Ok?
    ensures callId in l.book.calls
    ensures var l' := WriteResult(l, callId, ev, at, actor).value.0;
            Carries(e, l, QueuedResult(l, callId, ev, at, actor), l') && LockOrder(l')
  {
    StoredUnderItsId(e, l.book, callId);
    WriteResultCases(l, callId, ev, at, actor);
    hide WriteResult, QueuedResult, Sound, RowBook, Carries, Derive, LockOrder;
    var r := WriteResult(l, callId, ev, at, actor).value;
    OrderBeside(l, r.0);
    if r.1 { ResultFits(e, l, l.book.calls[callId], ev, at, r.0); } else { NothingCarries(e, l); }
  }

  lemma FollowFits(e: Env, l: Ledger, op: Op, l': Ledger)
    requires (op.Follow? || op.Unfollow? || op.Cursor?) && l'.book == l.book
    ensures Carries(e, l, Queued(e, l, op), l')
  {
    hide RowBook;
    if op.Follow? && Queued(e, l, op) != [] {
      RecordOne(e, RowBook(e, l.book), InsertFollowRow(op.follower, op.followee));
    }
    if op.Cursor? { RecordOne(e, RowBook(e, l.book), UpsertCursorRow(op.name, op.cursor)); }
    if op.Unfollow? && (op.follower, op.followee) in l.follows {
      var b, first, second := RowBook(e, l.book), DeleteFollowRow(op.follower, op.followee),
          DeleteLegacyFollowRow(op.follower, op.followee);
      RecordOne(e, b, first);
      RecordOne(e, b, second);
      FitAllAppend(e, b, [first], [second]);
      assert Queued(e, l, op) == [first] + [second];
    }
  }

  /**
   * Every accepted mutation queues writes the constraints will accept once the
   * writes before them are in, and those writes turn the rows of the mirror
   * before it into the rows of the mirror after it.
   */
  lemma MutationQueues(e: Env, l: Ledger, op: Op)
    requires Sound(e, RowBook(e, l.book)) && LockOrder(l) && Timely(l, op) && Perform(e, l, op).Ok?
    ensures Carries(e, l, Queued(e, l, op), Perform(e, l, op).value) && LockOrder(Perform(e, l, op).value)
  {
    hide Sound, Carries;
    match op
    case AddCall(rec) => AddCallFits(e, l, rec);
    case Hide(callId, reason, at) =>
      if Live(l.book.calls[callId]) { PatchFits(e, l, callId, Some(at), reason); } else { NothingCarries(e, l); }
    case Unhide(callId) => PatchFits(e, l, callId, None, None);
    case AddResponse(r) => AddResponseFits(e, l, r);
    case AddUpdate(u) => AddUpdateFits(e, l, u);
    case SetResult(callId, ev, at, actor) => SetResultFits(e, l, callId, ev, at, actor);
    case _ => FollowFits(e, l, op, Perform(e, l, op).value);
  }

  lemma NothingCarries(e: Env, l: Ledger)
    ensures Carries(e, l, [], l)
  {
  }
}
