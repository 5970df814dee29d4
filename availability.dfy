/** `hasSuitableDate`: does a booking-API payload announce a slot that can be booked now?

    The HTTP client is a parameter `fetch`, a function from the requested URL to the
    parsed body or the error the request was rejected with; the model thereby records
    which URL each follow-up request goes to. */
module Availability {
  import opened Results
  import opened LinkDate

  /** An opaque appointment slot. */
  type Slot = string

  /** One entry of `availabilities`; `slots` may be missing from the JSON. */
  datatype DayAvailability = DayAvailability(slots: Option<seq<Slot>>)

  /** The fields of an `availabilities.json` body that the poller reads. */
  datatype Payload = Payload(
    total: Option<int>,
    nextSlot: Option<string>,
    availabilities: Option<seq<DayAvailability>>)

  /** `data?.total` in a condition: present and not zero. */
  predicate TotalTruthy(total: Option<int>) {
    total.Some? && total.value != 0
  }

  /** A link argument in a condition: given and not the empty string. */
  predicate LinkGiven(link: Option<string>) {
    link.Some? && link.value != ""
  }

  /** `next_slot?.startsWith("2021-05") || next_slot?.startsWith("2021-06")`;
      `<=` on strings is "is a prefix of". */
  predicate NextSlotInWindow(nextSlot: Option<string>) {
    nextSlot.Some? && ("2021-05" <= nextSlot.value || "2021-06" <= nextSlot.value)
  }

  predicate EmptyAt(days: seq<DayAvailability>, k: int)
    requires 0 <= k < |days|
  {
    days[k].slots.Some? && |days[k].slots.value| == 0
  }

  predicate NonEmptyAt(days: seq<DayAvailability>, k: int)
    requires 0 <= k < |days|
  {
    days[k].slots.Some? && |days[k].slots.value| > 0
  }

  /** Every day before the `k`-th carries an empty slot list. */
  predicate EmptyBefore(days: seq<DayAvailability>, k: int)
    requires 0 <= k <= |days|
  {
    forall j :: 0 <= j < k ==> EmptyAt(days, j)
  }

  /** `for (availability of days) if (availability.slots.length > 0) return true`,
      where reading `.length` of missing slots throws. */
  function ScanSlots(days: seq<DayAvailability>): Result<bool> {
    if days == [] then Ok(false)
    else if days[0].slots.None? then Err(TypeError("availability.slots is undefined"))
    else if |days[0].slots.value| > 0 then Ok(true)
    else ScanSlots(days[1..])
  }

  /** The scan answers true exactly when some entry has slots and every entry before it
      has an empty list; false exactly when every entry has an empty list; and it
      throws exactly when an entry without slots comes before any non-empty one. */
  lemma {:induction false} ScanSlotsMeaning(days: seq<DayAvailability>)
    ensures ScanSlots(days) == Ok(true) <==>
      exists k :: 0 <= k < |days| && NonEmptyAt(days, k) && EmptyBefore(days, k)
    ensures ScanSlots(days) == Ok(false) <==> forall k :: 0 <= k < |days| ==> EmptyAt(days, k)
    ensures ScanSlots(days).Err? <==>
      exists k :: 0 <= k < |days| && days[k].slots.None? && EmptyBefore(days, k)
  {
    if days != [] {
      var tail := days[1..];
      ScanSlotsMeaning(tail);
      forall j | 0 <= j < |tail|
        ensures EmptyAt(tail, j) <==> EmptyAt(days, j + 1)
        ensures NonEmptyAt(tail, j) <==> NonEmptyAt(days, j + 1)
        ensures tail[j].slots.None? <==> days[j + 1].slots.None?
      {
      }
      if NonEmptyAt(days, 0) {
        assert EmptyBefore(days, 0);
      } else if ScanSlots(days) == Ok(true) {
        var k :| 0 <= k < |tail| && NonEmptyAt(tail, k) && EmptyBefore(tail, k);
        assert NonEmptyAt(days, k + 1) && EmptyBefore(days, k + 1);
      }
      if k :| 0 <= k < |days| && NonEmptyAt(days, k) && EmptyBefore(days, k) {
        if k > 0 {
          assert EmptyAt(days, 0);
          assert NonEmptyAt(tail, k - 1) && EmptyBefore(tail, k - 1);
        }
      }
      if days[0].slots.None? {
        assert exists k :: 0 <= k < |days| && days[k].slots.None? && EmptyBefore(days, k) by {
          assert days[0].slots.None? && EmptyBefore(days, 0);
        }
      } else if ScanSlots(days).Err? {
        var k :| 0 <= k < |tail| && tail[k].slots.None? && EmptyBefore(tail, k);
        assert days[k + 1].slots.None? && EmptyBefore(days, k + 1);
      }
      if k :| 0 <= k < |days| && days[k].slots.None? && EmptyBefore(days, k) {
        if k > 0 {
          assert EmptyAt(days, 0);
          assert tail[k - 1].slots.None? && EmptyBefore(tail, k - 1);
        }
      }
      if forall k :: 0 <= k < |days| ==> EmptyAt(days, k) {
        assert EmptyAt(days, 0);
        assert forall k :: 0 <= k < |tail| ==> EmptyAt(tail, k);
      }
    }
  }

  /** The last check (demon.js:85-92) on the payload that was polled. */
  function OwnSlots(data: Payload): (r: Result<bool>)
    ensures data.availabilities.None? ==> r == Ok(false)
    ensures r == Ok(true) ==> data.availabilities.Some? && |data.availabilities.value| > 0
    ensures data.availabilities.Some? && |data.availabilities.value| > 0 ==>
      r == ScanSlots(data.availabilities.value)
  {
    if data.availabilities.Some? && |data.availabilities.value| > 0 then ScanSlots(data.availabilities.value)
    else Ok(false)
  }

  /** The URL of the second-shot request: its own first date moved 42 days ahead. */
  function SecondShotUrl(secondShotXhrLink: string, inSixWeeks: string): (url: string)
    requires IsDateShaped(inSixWeeks)
    ensures |url| == |secondShotXhrLink| && FirstDate(url) == FirstDate(secondShotXhrLink)
    ensures FirstDate(secondShotXhrLink).Some? ==>
      var i := FirstDate(secondShotXhrLink).value;
      url[i..i + 10] == inSixWeeks && url[..i] == secondShotXhrLink[..i] && url[i + 10..] == secondShotXhrLink[i + 10..]
  {
    UpdateLinkDatePfizer(secondShotXhrLink, inSixWeeks)
  }

  /** The URL of the re-fetch: the template's first date replaced by `next_slot`. */
  function NextSlotUrl(xhrLink: string, nextSlot: string): (url: string)
    ensures FirstDate(xhrLink).None? ==> url == xhrLink
    ensures FirstDate(xhrLink).Some? && '$' !in nextSlot ==>
      var i := FirstDate(xhrLink).value;
      url == xhrLink[..i] + nextSlot + xhrLink[i + 10..]
  {
    match FirstDate(xhrLink)
    case None => ReplaceFirstDate(xhrLink, nextSlot)
    case Some(i) =>
      ReplaceAtFirstWindow(xhrLink, nextSlot, i);
      ReplaceFirstDate(xhrLink, nextSlot)
  }

  /** The decision of `hasSuitableDate`, branch by branch, in source order. A true
      verdict has one of three reasons: the second-shot payload answered, the re-fetch
      at `next_slot` listed slots, or the polled payload lists slots. */
  function SuitableDate(
    data: Payload, xhrLink: string, secondShotXhrLink: Option<string>,
    inSixWeeks: string, fetch: string -> Result<Payload>): (r: Result<bool>)
    requires IsDateShaped(inSixWeeks)
    ensures r == Ok(true) ==>
      (TotalTruthy(data.total) && LinkGiven(secondShotXhrLink) &&
        fetch(SecondShotUrl(secondShotXhrLink.value, inSixWeeks)).Ok?) ||
      (NextSlotInWindow(data.nextSlot) && fetch(NextSlotUrl(xhrLink, data.nextSlot.value)).Ok? &&
        ScanSlots(fetch(NextSlotUrl(xhrLink, data.nextSlot.value)).value.availabilities.GetOr([])) == Ok(true)) ||
      OwnSlots(data) == Ok(true)
  {
    if TotalTruthy(data.total) && LinkGiven(secondShotXhrLink) then
      match fetch(SecondShotUrl(secondShotXhrLink.value, inSixWeeks))
      case Err(e) => Err(e)
      case Ok(second) => Ok(second.total != Some(0))
    else if NextSlotInWindow(data.nextSlot) then
      match fetch(NextSlotUrl(xhrLink, data.nextSlot.value))
      case Err(e) => Err(e)
      case Ok(newData) =>
        if newData.availabilities.None? then Err(TypeError("newData.availabilities is not iterable"))
        else match ScanSlots(newData.availabilities.value)
          case Err(e) => Err(e)
          case Ok(found) => if found then Ok(true) else OwnSlots(data)
    else OwnSlots(data)
  }

  /** The `for...of` loop of `hasSuitableDate`: stop at the first day with slots, and
      throw at a day without a `slots` list. */
  method ScanDays(days: seq<DayAvailability>) returns (r: Result<bool>)
    ensures r == ScanSlots(days)
  {
    var i := 0;
    while i < |days|
      invariant 0 <= i <= |days|
      invariant ScanSlots(days) == ScanSlots(days[i..])
    {
      if days[i].slots.None? {
        return Err(TypeError("availability.slots is undefined"));
      }
      if |days[i].slots.value| > 0 {
        return Ok(true);
      }
      assert days[i..][1..] == days[i + 1..];
      i := i + 1;
    }
    return Ok(false);
  }

  /** `hasSuitableDate` as the source runs it: the same branches, each `for...of`
      loop a run of `ScanDays` that returns unless it found nothing. */
  method HasSuitableDate(
    data: Payload, xhrLink: string, secondShotXhrLink: Option<string>,
    inSixWeeks: string, fetch: string -> Result<Payload>) returns (r: Result<bool>)
    requires IsDateShaped(inSixWeeks)
    ensures r == SuitableDate(data, xhrLink, secondShotXhrLink, inSixWeeks, fetch)
  {
    if TotalTruthy(data.total) {
      if LinkGiven(secondShotXhrLink) {
        var secondShot := fetch(UpdateLinkDatePfizer(secondShotXhrLink.value, inSixWeeks));
        if secondShot.Err? {
          return Err(secondShot.error);
        }
        return Ok(secondShot.value.total != Some(0));
      }
    }

    if NextSlotInWindow(data.nextSlot) {
      var newData := fetch(ReplaceFirstDate(xhrLink, data.nextSlot.value));
      if newData.Err? {
        return Err(newData.error);
      }
      if newData.value.availabilities.None? {
        return Err(TypeError("newData.availabilities is not iterable"));
      }
      var found := ScanDays(newData.value.availabilities.value);
      if found != Ok(false) {
        return found;
      }
    }

    if data.availabilities.Some? && |data.availabilities.value| > 0 {
      var found := ScanDays(data.availabilities.value);
      if found != Ok(false) {
        return found;
      }
    }
    return Ok(false);
  }

  /** A truthy `total` with a second-shot link: the verdict is the second-shot
      payload's `total !== 0` (a missing `total` counts as suitable), a failed request
      propagates, and the polled payload's other fields play no part. */
  lemma SecondShotDecides(
    data: Payload, xhrLink: string, secondShotXhrLink: Option<string>, inSixWeeks: string,
    fetch: string -> Result<Payload>, otherNextSlot: Option<string>,
    otherDays: Option<seq<DayAvailability>>)
    requires IsDateShaped(inSixWeeks)
    requires TotalTruthy(data.total) && LinkGiven(secondShotXhrLink)
    ensures var second := fetch(SecondShotUrl(secondShotXhrLink.value, inSixWeeks));
      var r := SuitableDate(data, xhrLink, secondShotXhrLink, inSixWeeks, fetch);
      (second.Err? ==> r == Err(second.error)) &&
      (second.Ok? ==> r == Ok(second.value.total != Some(0))) &&
      (second.Ok? && second.value.total.None? ==> r == Ok(true))
    ensures SuitableDate(data, xhrLink, secondShotXhrLink, inSixWeeks, fetch) ==
      SuitableDate(data.(nextSlot := otherNextSlot, availabilities := otherDays),
        xhrLink, secondShotXhrLink, inSixWeeks, fetch)
  {
  }

  /** A truthy `total` without a second-shot link gives no verdict: the decision is
      the one for the same payload without `total`. */
  lemma TotalWithoutSecondShotFallsThrough(
    data: Payload, xhrLink: string, secondShotXhrLink: Option<string>, inSixWeeks: string,
    fetch: string -> Result<Payload>)
    requires IsDateShaped(inSixWeeks)
    requires !LinkGiven(secondShotXhrLink)
    ensures SuitableDate(data, xhrLink, secondShotXhrLink, inSixWeeks, fetch) ==
      SuitableDate(data.(total := None), xhrLink, secondShotXhrLink, inSixWeeks, fetch)
  {
  }

  /** A `next_slot` in May or June 2021 re-fetches the polled template with its first
      date replaced by `next_slot`: a failed request or a body without a list throws,
      a non-empty slot list there is a success, and an empty scan falls through to the
      polled payload's own slots. */
  lemma NextSlotRefetch(
    data: Payload, xhrLink: string, secondShotXhrLink: Option<string>, inSixWeeks: string,
    fetch: string -> Result<Payload>)
    requires IsDateShaped(inSixWeeks)
    requires !(TotalTruthy(data.total) && LinkGiven(secondShotXhrLink))
    requires NextSlotInWindow(data.nextSlot)
    ensures var refetched := fetch(NextSlotUrl(xhrLink, data.nextSlot.value));
      var r := SuitableDate(data, xhrLink, secondShotXhrLink, inSixWeeks, fetch);
      (refetched.Err? ==> r == Err(refetched.error)) &&
      (refetched.Ok? && refetched.value.availabilities.None? ==>
        r == Err(TypeError("newData.availabilities is not iterable"))) &&
      (refetched.Ok? && refetched.value.availabilities.Some? ==>
        var days := refetched.value.availabilities.value;
        (ScanSlots(days) == Ok(true) ==> r == Ok(true)) &&
        (ScanSlots(days) == Ok(false) ==> r == OwnSlots(data)) &&
        (ScanSlots(days).Err? ==> r == ScanSlots(days)))
  {
  }

  /** Outside the second-shot and `next_slot` branches nothing is fetched and the
      answer is true exactly when some listed day has slots and none before it lacks
      its list; a missing or empty list gives false. */
  lemma OwnSlotsDecide(
    data: Payload, xhrLink: string, secondShotXhrLink: Option<string>, inSixWeeks: string,
    fetch: string -> Result<Payload>)
    requires IsDateShaped(inSixWeeks)
    requires !(TotalTruthy(data.total) && LinkGiven(secondShotXhrLink))
    requires !NextSlotInWindow(data.nextSlot)
    ensures var r := SuitableDate(data, xhrLink, secondShotXhrLink, inSixWeeks, fetch);
      (data.availabilities.None? ==> r == Ok(false)) &&
      (data.availabilities.Some? ==>
        var days := data.availabilities.value;
        (r == Ok(true) <==>
          exists k :: 0 <= k < |days| && NonEmptyAt(days, k) && EmptyBefore(days, k)) &&
        (r == Ok(false) <==> forall k :: 0 <= k < |days| ==> EmptyAt(days, k)))
  {
    if data.availabilities.Some? {
      ScanSlotsMeaning(data.availabilities.value);
    }
  }

  /** The decision reads the network only at the second-shot URL and the `next_slot`
      URL: two servers that agree on those answer alike. */
  lemma FetchesOnlyFollowUpUrls(
    data: Payload, xhrLink: string, secondShotXhrLink: Option<string>, inSixWeeks: string,
    fetch: string -> Result<Payload>, fetch': string -> Result<Payload>)
    requires IsDateShaped(inSixWeeks)
    requires TotalTruthy(data.total) && LinkGiven(secondShotXhrLink) ==>
      fetch(SecondShotUrl(secondShotXhrLink.value, inSixWeeks)) ==
      fetch'(SecondShotUrl(secondShotXhrLink.value, inSixWeeks))
    requires NextSlotInWindow(data.nextSlot) ==>
      fetch(NextSlotUrl(xhrLink, data.nextSlot.value)) == fetch'(NextSlotUrl(xhrLink, data.nextSlot.value))
    ensures SuitableDate(data, xhrLink, secondShotXhrLink, inSixWeeks, fetch) ==
      SuitableDate(data, xhrLink, secondShotXhrLink, inSixWeeks, fetch')
  {
  }

  /** A payload with a `total` of 3 and a second-shot link is suitable exactly when the
      second-shot payload's `total` is not 0. */
  lemma SecondShotExample(xhrLink: string, secondShotXhrLink: string, inSixWeeks: string,
    fetch: string -> Result<Payload>)
    requires IsDateShaped(inSixWeeks) && secondShotXhrLink != ""
    requires fetch(SecondShotUrl(secondShotXhrLink, inSixWeeks)) == Ok(Payload(Some(0), None, None))
    ensures SuitableDate(Payload(Some(3), None, None), xhrLink, Some(secondShotXhrLink), inSixWeeks, fetch) == Ok(false)
  {
  }

  /** One empty and one non-empty day, nothing else: suitable, with no request made. */
  lemma OwnSlotsExample(xhrLink: string, inSixWeeks: string, fetch: string -> Result<Payload>)
    requires IsDateShaped(inSixWeeks)
    ensures SuitableDate(Payload(None, None, Some([DayAvailability(Some([])), DayAvailability(Some(["slot"]))])),
      xhrLink, None, inSixWeeks, fetch) == Ok(true)
    ensures SuitableDate(Payload(None, None, Some([DayAvailability(Some([]))])),
      xhrLink, None, inSixWeeks, fetch) == Ok(false)
  {
  }
}
