/**
 * Why the service's own mutations are ones the durability machine admits:
 * answers name the call they came from, and with a clock ahead of everything
 * recorded so are locks and withdrawals. Restoring is the exception, and when
 * it is admitted is exact.
 */
module Timeliness {
  import opened Vocabulary
  import opened Ledgers
  import opened Markets
  import opened DurableTables
  import opened WriteBehind
  import opened Service

  /** The clock is past every instant on record. */
  ghost predicate ClockAhead(b: Book, now: int) {
    && (forall id | id in b.calls :: b.calls[id].lockedAt < now)
    && (forall id | id in b.updates :: b.updates[id].createdAt < now)
  }

  /** A lock, then the answer it gives: each is admitted as it is made. */
  lemma AnsweringIsTimely(d: Desk, l: Ledger, targetCallId: Id, back: bool, s: Statement, actor: Id, callId: Id,
      responseId: Id)
    requires ClockAhead(l.book, d.now) && responseId !in l.book.responses
    requires targetCallId in l.book.calls && l.book.calls[targetCallId].marketId in d.markets
        && TrimOrNull(s.thesis).Ok?
    ensures var own := AnswerCall(d, l, targetCallId, back, s, actor, callId);
            && Timely(l, AddCall(own))
            && Timely(Locked(d, l, own),
                AddResponse(AnswerRecord(d, targetCallId, KindOf(back), actor, callId, responseId)))
  {
  }

  /** Publishing a funded call names the call it was made from. */
  lemma PublishingIsTimely(d: Desk, l: Ledger, callId: Id, responseId: Id)
    requires Unpublished(l, callId) && responseId !in l.book.responses
    ensures Timely(l, AddResponse(PublishedAs(d, l, callId, responseId)))
  {
    hide HasResponse;
  }

  lemma WithdrawingIsTimely(d: Desk, l: Ledger, callId: Id, reason: Option<string>)
    requires ClockAhead(l.book, d.now)
    ensures Timely(l, Hide(callId, reason, d.now))
  {
  }

  /**
   * A call that passes the restore guard may be shown with nothing lost at the next
   * hydration exactly when its owner has locked nothing later on the market.
   */
  lemma RestoringIsTimelyIff(e: Env, l: Ledger, callId: Id)
    requires Inv(e, l) && Restorable(l, callId)
    ensures Timely(l, Unhide(callId)) <==>
        forall id | id in l.book.calls :: !Superseded(l.book.calls[callId], l.book.calls[id])
  {
    hide Core;
    var c := l.book.calls[callId];
    assert forall id | id in l.book.calls :: id in l.order;
    assert forall id | id in l.book.calls :: !LiveOn(l.book.calls[id], c.userId, c.marketId);
  }
}
