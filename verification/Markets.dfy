/** The venue's markets as the calls layer reads them, and when one takes new calls. */
module Markets {
  import opened Vocabulary

  datatype VenueName = PANTA | FIXTURE | RETIRED
  datatype MarketStatus = OPEN | PAUSED | CLOSED_PENDING_RESOLUTION | RESOLVED | CANCELLED

  datatype Market = Market(
    id: Id, venue: VenueName, venueMarketId: string, status: MarketStatus, opensAt: Option<int>, closesAt: Option<int>)

  /** At most one resolution per market. */
  type Venue = map<Id, Evidence>

  function GetResolution(v: Venue, marketId: Id): Option<Evidence> { if marketId in v then Some(v[marketId]) else None }

  function Max(a: int, b: int): int { if a < b then b else a }

  predicate AcceptsNewCalls(m: Market, now: int, cutoff: int) {
    && (m.venue == PANTA || m.venue == FIXTURE)
    && m.status == OPEN
    && (m.opensAt.Some? ==> m.opensAt.value <= now)
    && (m.closesAt.Some? ==> m.closesAt.value - Max(0, cutoff) > now)
  }

  /** When a market stops taking calls: its close minus the cut-off. */
  function CallsCloseAt(m: Market, cutoff: int): Option<int> {
    if m.closesAt.None? then None else Some(m.closesAt.value - Max(0, cutoff))
  }
}
