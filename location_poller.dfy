/** `observe`: the poll loop of one monitored location. */
module LocationPolling {
  import opened Results
  import opened LinkDate
  import opened Availability
  import opened Effects

  /** The verdict a poll reaches from the response to its first request: a rejected
      request is an error, otherwise `hasSuitableDate` decides. */
  function PollVerdict(
    response: Result<Payload>, xhrLink: string, secondShotXhrLink: Option<string>,
    inSixWeeks: string, fetch: string -> Result<Payload>): (r: Result<bool>)
    requires IsDateShaped(inSixWeeks)
    ensures response.Err? ==> r == Err(response.error)
    ensures r == Ok(true) ==> response.Ok? && SuitableDate(response.value, xhrLink, secondShotXhrLink, inSixWeeks, fetch) == Ok(true)
  {
    match response
    case Err(e) => Err(e)
    case Ok(data) => SuitableDate(data, xhrLink, secondShotXhrLink, inSixWeeks, fetch)
  }

  /** Once the second-shot link is dropped, the date 42 days ahead plays no part in
      any later verdict, and a truthy `total` alone never decides it. */
  lemma DroppedSecondShotUnused(
    response: Result<Payload>, xhrLink: string, inSixWeeks: string, otherInSixWeeks: string,
    fetch: string -> Result<Payload>)
    requires IsDateShaped(inSixWeeks) && IsDateShaped(otherInSixWeeks)
    ensures PollVerdict(response, xhrLink, None, inSixWeeks, fetch) ==
      PollVerdict(response, xhrLink, None, otherInSixWeeks, fetch)
    ensures response.Ok? ==>
      PollVerdict(response, xhrLink, None, inSixWeeks, fetch) ==
      PollVerdict(Ok(response.value.(total := None)), xhrLink, None, inSixWeeks, fetch)
  {
  }

  /** One location's poller: the arguments `observe` is (re)called with. */
  class LocationPoller {
    var xhrLink: string
    var bookingLink: string
    var secondShotXhrLink: Option<string>

    /** The first call, `observe(xhrLink, bookingLink, secondShotXhrLink)`. */
    constructor (xhrLink: string, bookingLink: string, secondShotXhrLink: Option<string>)
      ensures this.xhrLink == xhrLink && this.bookingLink == bookingLink
      ensures this.secondShotXhrLink == secondShotXhrLink
    {
      this.xhrLink := xhrLink;
      this.bookingLink := bookingLink;
      this.secondShotXhrLink := secondShotXhrLink;
    }

    /** One run of `observe` up to its `reschedule`: fetch the template with today's
        date, decide, react. A suitable result opens the booking link once and notifies
        once, then pauses two minutes; anything else (not suitable, a thrown decision,
        a rejected request) does nothing and pauses `rateLimit`. The next call keeps
        both links and loses the second-shot link. */
    method Step(today: string, inSixWeeks: string, fetch: string -> Result<Payload>)
      returns (effects: seq<Effect>, delay: nat)
      requires IsDateShaped(today) && IsDateShaped(inSixWeeks)
      modifies this
      ensures xhrLink == old(xhrLink) && bookingLink == old(bookingLink)
      ensures secondShotXhrLink == None
      ensures var alert := PollVerdict(fetch(UpdateLinkDate(old(xhrLink), today)), old(xhrLink),
          old(secondShotXhrLink), inSixWeeks, fetch) == Ok(true);
        (alert ==> effects == [OpenLink(bookingLink), Notify] && delay == SuccessPause) &&
        (!alert ==> effects == [] && delay == RateLimit)
    {
      effects, delay := [], RateLimit;
      var response := fetch(UpdateLinkDate(xhrLink, today));
      if response.Ok? {
        var suitable := HasSuitableDate(response.value, xhrLink, secondShotXhrLink, inSixWeeks, fetch);
        if suitable == Ok(true) {
          effects := effects + [OpenLink(bookingLink)];
          effects := effects + [Notify];
          delay := SuccessPause;
        }
      }
      // `reschedule` calls `observe(xhrLink, bookingLink)`: the third argument is lost.
      secondShotXhrLink := None;
    }
  }
}
