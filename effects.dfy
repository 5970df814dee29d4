/** What a poll step does to the outside world, and the delays it schedules. */
module Effects {

  /** An effect a poll step asks for, in the order the source performs them. */
  datatype Effect =
    | OpenLink(url: string)             // `open(url)`: the booking page in the browser
    | Notify                            // `notify()`: bell, desktop notification, sound
    | ScheduleCooldownClear(ms: nat)    // `setTimeout(() => recentlyOpened = false, ms)`

  /** `rateLimit`: the pause between two polls when nothing was found. */
  const RateLimit: nat := 1000 * 5

  /** The pause after a per-location success ("2 Minutes break"). */
  const SuccessPause: nat := 1000 * 60 * 2

  /** How long the aggregator poller stays quiet after an alert. */
  const CooldownMs: nat := 60000
}
