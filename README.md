# Vaccination appointment poller — a Dafny model of `demon.js`

`demon.js` polls a booking site's `availabilities.json` endpoints for a list of
monitored locations and alerts the user (open the booking page, bell, desktop
notification, sound) when a slot can be booked. Optionally it also polls an
aggregator (`impfstoff.link`). For each reported location that is not marked closed
and whose id is in its lookup table, it opens the booking page, until a `null` entry
ends the list. After an alert it skips its polls for a minute; a request already in
flight is not stopped (see "## Left out"). This project models the logic of that
script with the network, the clock and the operating system turned into inputs
and outputs:

- `LinkDate` (`link_date.dfy`): `link.replace(/\d{4}-\d{2}-\d{2}/, date)`. The
  leftmost ISO-date window is found as the regular expression engine finds it,
  and the replacement string is read as a JavaScript replacement pattern, with
  `$$`, `$&`, `` $` `` and `$'` expanded. `updateLinkDate` and
  `updateLinkDatePfizer` take the formatted date as a parameter.
- `Availability` (`availability.dfy`): the payload fields the script reads, all
  of them optional as in JSON. `SuitableDate` is the decision of
  `hasSuitableDate`, branch by branch. `HasSuitableDate` is the same decision
  written as the source runs it, with each `for...of` loop as a call of the
  `while` loop `ScanDays`, and it is proved equal to `SuitableDate`. The HTTP client is a
  parameter `fetch: string -> Result<Payload>`, a snapshot of the server. So the
  model also states which URL each follow-up request goes to.
- `LocationPolling` (`location_poller.dfy`): class `LocationPoller` holds the
  arguments of `observe`. `Step` is one poll: it returns the effects and the
  delay, and it updates the arguments of the next call.
- `ImpfstoffPolling` (`impfstoff_poller.dfy`): `lookupTable`, and class
  `ImpfstoffPoller`, whose field is the module-level `recentlyOpened` flag.
  `Step` is one run of `observeImpfstoff`. `CooldownElapsed` is the 60-second
  clear timer firing. `Run` folds a sequence of such events, which states the
  cooldown behaviour across polls.
- `Effects` (`effects.dfy`) and `Results` (`results.dfy`): the effect events,
  the delays, and `Option`/`Result`. Besides rejected requests, `Result` carries
  the `TypeError`s that the source's property reads throw.

Three behaviours of the code that its intent does not suggest, which the model keeps:

- One aggregator response can alert for several locations. The flag is set
  inside the `forEach` but never read there (`SeveralAlertsPerResponse`). The
  "no alert storm" guarantee holds across responses only
  (`OneAlertingResponsePerCooldown`).
- Besides rejected requests, the decision also throws when the re-fetched body
  has no `availabilities`, or when it reaches a day without `slots`.
- The `next_slot` replacement is not always a plain date. `next_slot` comes from
  the server, and `replace` expands `$` patterns in it.

## Model

| member | source | states |
|---|---|---|
| `LinkDate.FindDateFrom` | demon.js:44 | the result is the leftmost index at which `\d{4}-\d{2}-\d{2}` matches, and there is none when no window matches |
| `LinkDate.Expand` | demon.js:72 | a replacement string without `$` is inserted literally |
| `LinkDate.ReplaceFirstDate` | demon.js:44 | a string without a date window is returned unchanged; otherwise the text before the first window and the text after it are kept |
| `LinkDate.ReplacementIsPattern` | demon.js:72 | the replacement is a pattern, not plain text: `$&` puts back the date it replaces (the link is unchanged) and `$$` writes one `$` |
| `LinkDate.UpdateLinkDate` | demon.js:43-45 | the first date window becomes `today`, the text around it is kept, the length and the window's position are kept, and a link with no window is returned unchanged |
| `LinkDate.UpdateLinkDatePfizer` | demon.js:47-52 | the same, with the date 42 days ahead as the replacement |
| `LinkDate.ReplaceWithoutWindow` | demon.js:44 | a string without a date window is unchanged, whatever the replacement |
| `LinkDate.ReplaceAtFirstWindow` | demon.js:72 | only the leftmost window is replaced: the prefix and the suffix are kept, and a `$`-free replacement lands verbatim |
| `LinkDate.ReplaceWithDatePreservesWindow` | demon.js:44 | writing a date over the first window leaves the first window at the same index and keeps the length |
| `LinkDate.ReplaceWithDateIdempotent` | demon.js:44 | substituting the same date twice gives the same link as substituting it once |
| `Availability.ScanSlots` | demon.js:77-82 | definition: the early-return scan over the days, throwing at a day without `slots`; its meaning is stated by `ScanSlotsMeaning` |
| `Availability.ScanDays` | demon.js:77-91 | both `for...of` loops (the re-fetch loop at lines 77-82 and the polled-payload loop at lines 86-91), as one `while` loop, return exactly `ScanSlots` of the days, errors included |
| `Availability.OwnSlots` | demon.js:85-92 | a missing list gives false; a true answer needs a non-empty list, and a non-empty list is answered by the scan |
| `Availability.SecondShotUrl` | demon.js:61 | the second-shot URL is the link with its first date replaced by the date 42 days ahead, same length, everything else kept |
| `Availability.NextSlotUrl` | demon.js:72 | a template without a date is requested as is; otherwise a `$`-free `next_slot` takes the place of the first date |
| `Availability.SuitableDate` | demon.js:54-97 | a true verdict has one of three reasons: a second-shot payload was fetched, the re-fetch at `next_slot` found slots, or the polled payload lists slots |
| `Availability.ScanSlotsMeaning` | demon.js:77-82 | the slot scan is true iff some day has slots and all days before it have empty lists, false iff every day has an empty list, and throws iff a day without `slots` comes first |
| `Availability.HasSuitableDate` | demon.js:54-97 | the loop implementation returns exactly the decision `SuitableDate`, including its errors |
| `Availability.SecondShotDecides` | demon.js:56-67 | with a truthy `total` and a second-shot link, the verdict is the second-shot payload's `total !== 0` (missing counts as suitable), a failed request propagates, and `next_slot`/`availabilities` are ignored |
| `Availability.TotalWithoutSecondShotFallsThrough` | demon.js:59-68 | without a second-shot link, `total` has no influence: the verdict equals the one for the payload without `total` |
| `Availability.NextSlotRefetch` | demon.js:70-83 | a May/June 2021 `next_slot` re-fetches the template with its date replaced by `next_slot`: a failed request propagates its error, a missing list throws the "not iterable" TypeError, a day without `slots` throws the scan's TypeError, slots give true, an empty scan falls through to the own slots |
| `Availability.OwnSlotsDecide` | demon.js:85-96 | otherwise the verdict is true iff some day of the polled payload has slots before any day without a list, and false for a missing or all-empty list |
| `Availability.FetchesOnlyFollowUpUrls` | demon.js:60-73 | the decision reads the network only at the second-shot URL, and only with a truthy `total` and a link, and at the `next_slot` URL, and only for a May/June 2021 `next_slot` |
| `Availability.SecondShotExample` | demon.js:56-66 | `{total: 3}` with a second-shot payload `{total: 0}` is not suitable |
| `Availability.OwnSlotsExample` | demon.js:85-96 | days `[[], [slot]]` are suitable, days `[[]]` are not |
| `LocationPolling.PollVerdict` | demon.js:122-147 | a rejected request yields its error, never a verdict; a true verdict is `hasSuitableDate`'s true verdict on the response |
| `LocationPolling.DroppedSecondShotUnused` | demon.js:116-118 | once the second-shot link is dropped, neither the 42-day date nor `total` affects the verdict |
| `LocationPolling.LocationPoller.constructor` | demon.js:233 | the poller starts with the configured links |
| `LocationPolling.LocationPoller.Step` | demon.js:114-152 | a suitable verdict emits exactly one open of the booking link and then one notify, and the next delay is 120000 ms; anything else emits nothing, and the next delay is 5000 ms; the next call keeps both links and drops the second-shot link |
| `ImpfstoffPolling.LookupTableEntries` | demon.js:7-32 | the table has exactly the six ids, each mapped to a different booking page |
| `ImpfstoffPolling.AlertLinks` | demon.js:162-172 | definition: the pages the `forEach` opens, in order, stopping at a `null` entry; at most one per stat; its meaning is stated by `AlertLinksMeaning` |
| `ImpfstoffPolling.ResponseAlerts` | demon.js:159-183 | a rejected request alerts for nothing |
| `ImpfstoffPolling.AlertEffects` | demon.js:168-180 | each alert gives exactly three effects |
| `ImpfstoffPolling.OnEvent` | demon.js:155-187 | a poll while the flag is set does nothing and keeps it set; any effect leaves the flag set; the clear timer resets it and does nothing else |
| `ImpfstoffPolling.Run` | demon.js:176-186 | a run whose last event is the clear timer ends with the flag cleared |
| `ImpfstoffPolling.AlertLinksMeaning` | demon.js:162-172 | each stat reached by `forEach` adds its `lookupTable` page once, after those of the stats before it, exactly when it is not closed and has a known id; a `null` entry ends the alerts; a response alerts iff some reached stat does; every opened link is a `lookupTable` page |
| `ImpfstoffPolling.AlertEffectsAt` | demon.js:168-180 | the k-th alert opens its link, arms the 60000 ms clear and notifies, in that order |
| `ImpfstoffPolling.SeveralAlertsPerResponse` | demon.js:162-181 | two open, known stats in one response both alert, in response order |
| `ImpfstoffPolling.CooldownSuppressesAlerts` | demon.js:155-157 | while the flag is set and no clear fires, polls emit nothing and the flag stays set |
| `ImpfstoffPolling.OneAlertingResponsePerCooldown` | demon.js:155-187 | between clears, only the first response with alerts emits effects, and all of its alerts; the flag ends set |
| `ImpfstoffPolling.ImpfstoffPoller.constructor` | demon.js:154 | the flag starts cleared |
| `ImpfstoffPolling.ImpfstoffPoller.Step` | demon.js:155-187 | the step requests the stats URL only when the flag is clear; its effects and new flag are those of `OnEvent` for the fetched response; the next run is `rateLimit` away |
| `ImpfstoffPolling.ImpfstoffPoller.CooldownElapsed` | demon.js:176-178 | the clear timer resets the flag |

## Left out

- HTTP through axios is not modelled. A request is a call of the `fetch` parameter. The aggregator step fetches and handles the response as one atomic step. In the source, a response slower than `rateLimit` lets a second request start while the flag is still clear, and both responses can alert.
- Every request of one step is answered by the same `fetch` function. When `next_slot` equals today's date, the re-fetch URL is the polled URL, so the model gives the re-fetch the first response's body; in the source these are two requests whose answers can differ.
- Response bodies that are not JSON objects (`null`, plain text) are not modelled. For the polled payload, a missing body acts as a payload with every field missing.
- Only the field types the script expects are modelled: `total` an integer (a fractional total is not modelled; it would act like any non-zero integer in both tests), `next_slot` a string, `slots` an array. Other JSON types (`startsWith` on a non-string, `.length` of a string) are not modelled.
- `open`, `node-notifier`, `play-sound` and the terminal bell are effect events only. Failures of these calls are not modelled. Neither is the `if (error)` test in the sound callback, which only affects logging.
- The clock and date-fns are parameters. `today` and the date 42 days ahead are passed in as `yyyy-MM-dd` strings. The calendar arithmetic and years outside 0000-9999 are not modelled.
- Real timers are not modelled. Delays are returned numbers, and the cooldown clear is the `CooldownElapsed` event. The `Math.random()` fallback in `reschedule` is not modelled, because every call passes a positive time.
- Logging, the hard-coded location list and the startup loop are wiring, not logic. The shipped start-up passes no second-shot link.
- Interleaving of the location pollers is not modelled, because they share no state that is read across an `await`. The undeclared loop variable `availability` (demon.js:77, 86) is an implicit global shared by all pollers, but each loop writes and reads it without yielding, so no poller sees another's value. Each `Step` is one poller's cycle.
