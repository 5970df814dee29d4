/** `observeImpfstoff`: the aggregator poller and its shared `recentlyOpened` flag. */
module ImpfstoffPolling {
  import opened Results
  import opened Effects

  /** The aggregator's statistics endpoint. */
  const StatsUrl: string := "https://api.impfstoff.link/?robot=1"

  /** `lookupTable`: the aggregator's location ids and their booking pages. */
  const LookupTable: map<string, string> := map[
    "arena" := "https://www.doctolib.de/institut/berlin/ciz-berlin-berlin?pid=practice-158431",
    "tempelhof" := "https://www.doctolib.de/institut/berlin/ciz-berlin-berlin?pid=practice-158433",
    "messe" := "https://www.doctolib.de/institut/berlin/ciz-berlin-berlin?pid=practice-158434",
    "velodrom" := "https://www.doctolib.de/institut/berlin/ciz-berlin-berlin?pid=practice-158435",
    "tegel" := "https://www.doctolib.de/institut/berlin/ciz-berlin-berlin?pid=practice-158436",
    "erika" := "https://www.doctolib.de/institut/berlin/ciz-berlin-berlin?pid=practice-158437"
  ]

  /** The table has exactly the six ids, each mapped to a distinct booking page. */
  lemma LookupTableEntries()
    ensures LookupTable.Keys == {"arena", "tempelhof", "messe", "velodrom", "tegel", "erika"}
    ensures forall x, y :: x in LookupTable && y in LookupTable && x != y ==> LookupTable[x] != LookupTable[y]
  {
  }

  /** One entry of `stats`; both fields may be missing from the JSON. */
  datatype Stat = Stat(id: Option<string>, open: Option<bool>)

  /** `response.data`, whose `stats` may be missing; an entry may be `null`. */
  datatype StatsBody = StatsBody(stats: Option<seq<Option<Stat>>>)

  /** The response; `data` may be missing. */
  datatype StatsResponse = StatsResponse(data: Option<StatsBody>)

  /** A stat alerts when it is not explicitly closed and its id is in the table. */
  predicate Alerting(stat: Stat) {
    stat.open != Some(false) && stat.id.Some? && stat.id.value in LookupTable
  }

  /** The booking links that `stats.forEach` opens, in order. A `null` entry throws
      out of the `forEach` (reading `stat.open`), so nothing after it is looked at. */
  function AlertLinks(stats: seq<Option<Stat>>): (links: seq<string>)
    ensures |links| <= |stats|
  {
    if stats == [] || stats[0].None? then []
    else if Alerting(stats[0].value) then [LookupTable[stats[0].value.id.value]] + AlertLinks(stats[1..])
    else AlertLinks(stats[1..])
  }

  /** The links a response leads to: none for a rejected request or a missing `data`;
      none for a missing `stats`, where `forEach` of `undefined` throws. */
  function ResponseAlerts(response: Result<StatsResponse>): (links: seq<string>)
    ensures response.Err? ==> links == []
  {
    if response.Err? || response.value.data.None? || response.value.data.value.stats.None? then []
    else AlertLinks(response.value.data.value.stats.value)
  }

  /** Each alert opens its link, arms the cooldown clear and notifies. */
  function AlertEffects(links: seq<string>): (effects: seq<Effect>)
    ensures |effects| == 3 * |links|
  {
    if links == [] then []
    else [OpenLink(links[0]), ScheduleCooldownClear(CooldownMs), Notify] + AlertEffects(links[1..])
  }

  /** Every stats entry up to the `k`-th is present. */
  predicate ReachedAt(stats: seq<Option<Stat>>, k: int)
    requires 0 <= k <= |stats|
  {
    forall j :: 0 <= j < k ==> stats[j].Some?
  }

  lemma {:induction false} AlertLinksAppend(p: seq<Option<Stat>>, q: seq<Option<Stat>>)
    requires ReachedAt(p, |p|)
    ensures AlertLinks(p + q) == AlertLinks(p) + AlertLinks(q)
  {
    if p != [] {
      assert (p + q)[1..] == p[1..] + q;
      AlertLinksAppend(p[1..], q);
    } else {
      assert p + q == q;
    }
  }

  lemma {:induction false} AlertEffectsAppend(a: seq<string>, b: seq<string>)
    ensures AlertEffects(a + b) == AlertEffects(a) + AlertEffects(b)
  {
    if a != [] {
      assert (a + b)[1..] == a[1..] + b;
      AlertEffectsAppend(a[1..], b);
    } else {
      assert a + b == b;
    }
  }

  /** The `forEach` reaching stat `k`: its link, if it alerts, follows the earlier ones. */
  lemma AlertLinksNext(stats: seq<Option<Stat>>, k: nat)
    requires k < |stats| && ReachedAt(stats, k + 1)
    ensures AlertLinks(stats[..k + 1]) == AlertLinks(stats[..k]) +
      (if Alerting(stats[k].value) then [LookupTable[stats[k].value.id.value]] else [])
  {
    assert stats[..k + 1] == stats[..k] + [stats[k]];
    AlertLinksAppend(stats[..k], [stats[k]]);
    assert [stats[k]][1..] == [];
  }

  /** A `null` entry at `k` ends the alerts. */
  lemma AlertLinksStop(stats: seq<Option<Stat>>, k: nat)
    requires k < |stats| && ReachedAt(stats, k) && stats[k].None?
    ensures AlertLinks(stats) == AlertLinks(stats[..k])
  {
    assert stats[..k] + stats[k..] == stats;
    AlertLinksAppend(stats[..k], stats[k..]);
    assert stats[k..][0] == stats[k];
  }

  /** One more alert adds its three effects at the end. */
  lemma AlertEffectsSnoc(links: seq<string>, link: string)
    ensures AlertEffects(links + [link]) == AlertEffects(links) + [OpenLink(link), ScheduleCooldownClear(CooldownMs), Notify]
  {
    AlertEffectsAppend(links, [link]);
    assert [link][1..] == [];
  }

  /** A response alerts exactly when some stat reached by the `forEach` is alerting;
      each reached stat adds its own booking page, once, after those of the stats
      before it, when it is alerting, and nothing otherwise; a `null` entry ends the
      alerts; and every link opened is a booking page of the table. */
  lemma {:induction false} AlertLinksMeaning(stats: seq<Option<Stat>>)
    ensures forall k :: 0 <= k < |stats| && ReachedAt(stats, k + 1) ==>
      AlertLinks(stats[..k + 1]) == AlertLinks(stats[..k]) +
        (if Alerting(stats[k].value) then [LookupTable[stats[k].value.id.value]] else [])
    ensures forall k :: 0 <= k < |stats| && ReachedAt(stats, k) && stats[k].None? ==>
      AlertLinks(stats) == AlertLinks(stats[..k])
    ensures AlertLinks(stats) != [] <==>
      exists k :: 0 <= k < |stats| && ReachedAt(stats, k + 1) && Alerting(stats[k].value)
    ensures |AlertLinks(stats)| <= |stats|
    ensures forall l :: l in AlertLinks(stats) ==> l in LookupTable.Values
  {
    forall k | 0 <= k < |stats| && ReachedAt(stats, k + 1)
      ensures AlertLinks(stats[..k + 1]) == AlertLinks(stats[..k]) +
        (if Alerting(stats[k].value) then [LookupTable[stats[k].value.id.value]] else [])
    {
      AlertLinksNext(stats, k);
    }
    forall k | 0 <= k < |stats| && ReachedAt(stats, k) && stats[k].None?
      ensures AlertLinks(stats) == AlertLinks(stats[..k])
    {
      AlertLinksStop(stats, k);
    }
    if stats != [] && stats[0].Some? {
      var tail := stats[1..];
      AlertLinksMeaning(tail);
      if Alerting(stats[0].value) {
        assert ReachedAt(stats, 1);
      } else if AlertLinks(stats) != [] {
        var k :| 0 <= k < |tail| && ReachedAt(tail, k + 1) && Alerting(tail[k].value);
        assert ReachedAt(stats, k + 2) && Alerting(stats[k + 1].value);
      }
      if k :| 0 <= k < |stats| && ReachedAt(stats, k + 1) && Alerting(stats[k].value) {
        if k > 0 && !Alerting(stats[0].value) {
          assert ReachedAt(tail, k) && Alerting(tail[k - 1].value);
        }
      }
    }
  }

  /** The `k`-th alert's effects are the `k`-th triple: open, arm the clear, notify. */
  lemma {:induction false} AlertEffectsAt(links: seq<string>, k: nat)
    requires k < |links|
    ensures |AlertEffects(links)| == 3 * |links|
    ensures AlertEffects(links)[3 * k] == OpenLink(links[k])
    ensures AlertEffects(links)[3 * k + 1] == ScheduleCooldownClear(CooldownMs)
    ensures AlertEffects(links)[3 * k + 2] == Notify
  {
    if k > 0 {
      AlertEffectsAt(links[1..], k - 1);
    } else if |links| > 1 {
      AlertEffectsAt(links[1..], 0);
    }
  }

  /** The flag is not read inside the `forEach`: two open known locations in one
      response both alert. */
  lemma SeveralAlertsPerResponse()
    ensures AlertLinks([Some(Stat(Some("arena"), Some(true))), Some(Stat(Some("tegel"), None))]) ==
      [LookupTable["arena"], LookupTable["tegel"]]
  {
  }

  /** The outside events the aggregator poller reacts to. */
  datatype Event =
    | Poll(response: Result<StatsResponse>)   // the `rateLimit` timer fires
    | CooldownElapsed                         // a cooldown-clear timer fires

  /** What a run does: the effects it asks for and the flag afterwards. */
  datatype Outcome = Outcome(effects: seq<Effect>, recentlyOpened: bool)

  /** One event. A poll while the flag is set does nothing; otherwise the response's
      alerts happen and set the flag if there are any. */
  function OnEvent(recentlyOpened: bool, e: Event): (o: Outcome)
    ensures recentlyOpened && e.Poll? ==> o == Outcome([], true)
    ensures o.effects != [] ==> o.recentlyOpened
    ensures e.CooldownElapsed? ==> o == Outcome([], false)
  {
    match e
    case Poll(response) =>
      var links := if recentlyOpened then [] else ResponseAlerts(response);
      Outcome(AlertEffects(links), recentlyOpened || links != [])
    case CooldownElapsed => Outcome([], false)
  }

  /** A sequence of events, from the flag `recentlyOpened`. */
  function Run(recentlyOpened: bool, events: seq<Event>): (o: Outcome)
    decreases |events|
    ensures events != [] && events[|events| - 1].CooldownElapsed? ==> !o.recentlyOpened
  {
    if events == [] then Outcome([], recentlyOpened)
    else
      var first := OnEvent(recentlyOpened, events[0]);
      var rest := Run(first.recentlyOpened, events[1..]);
      Outcome(first.effects + rest.effects, rest.recentlyOpened)
  }

  /** While the flag is set and no cooldown clear fires, nothing alerts and the flag
      stays set, however many qualifying stats the polled responses carry. */
  lemma {:induction false} CooldownSuppressesAlerts(events: seq<Event>)
    requires forall k :: 0 <= k < |events| ==> events[k].Poll?
    ensures Run(true, events) == Outcome([], true)
  {
    if events != [] {
      CooldownSuppressesAlerts(events[1..]);
    }
  }

  /** Between two cooldown clears, at most one response alerts: after polls that found
      nothing, the first response with alerts produces all of them (possibly several)
      and every later poll is silent. */
  lemma {:induction false} OneAlertingResponsePerCooldown(
    quiet: seq<Event>, response: Result<StatsResponse>, later: seq<Event>)
    requires forall k :: 0 <= k < |quiet| ==> quiet[k].Poll? && ResponseAlerts(quiet[k].response) == []
    requires ResponseAlerts(response) != []
    requires forall k :: 0 <= k < |later| ==> later[k].Poll?
    ensures Run(false, quiet + [Poll(response)] + later) ==
      Outcome(AlertEffects(ResponseAlerts(response)), true)
  {
    if quiet == [] {
      assert quiet + [Poll(response)] + later == [Poll(response)] + later;
      assert ([Poll(response)] + later)[1..] == later;
      CooldownSuppressesAlerts(later);
    } else {
      assert (quiet + [Poll(response)] + later)[1..] == quiet[1..] + [Poll(response)] + later;
      OneAlertingResponsePerCooldown(quiet[1..], response, later);
    }
  }

  /** The aggregator poller: the module-level `recentlyOpened` flag. */
  class ImpfstoffPoller {
    var recentlyOpened: bool

    constructor ()
      ensures !recentlyOpened
    {
      recentlyOpened := false;
    }

    /** One run of `observeImpfstoff`: skip while the flag is set, otherwise fetch the
        statistics and alert for each open stat whose id is in the table, in response
        order; the next run is always `rateLimit` away. */
    method Step(fetch: string -> Result<StatsResponse>)
      returns (requested: seq<string>, effects: seq<Effect>, delay: nat)
      modifies this
      ensures requested == if old(recentlyOpened) then [] else [StatsUrl]
      ensures Outcome(effects, recentlyOpened) == OnEvent(old(recentlyOpened), Poll(fetch(StatsUrl)))
      ensures delay == RateLimit
    {
      requested, effects := [], [];
      if !recentlyOpened {
        requested := [StatsUrl];
        var response := fetch(StatsUrl);
        if response.Ok? && response.value.data.Some? && response.value.data.value.stats.Some? {
          var stats := response.value.data.value.stats.value;
          var i := 0;
          while i < |stats|
            invariant 0 <= i <= |stats|
            invariant ReachedAt(stats, i)
            invariant effects == AlertEffects(AlertLinks(stats[..i]))
            invariant recentlyOpened == (AlertLinks(stats[..i]) != [])
          {
            if stats[i].None? {
              // reading `open` of a null entry throws; `.catch(error)` logs it
              AlertLinksStop(stats, i);
              break;
            }
            var stat := stats[i].value;
            AlertLinksNext(stats, i);
            if Alerting(stat) {
              var link := LookupTable[stat.id.value];
              AlertEffectsSnoc(AlertLinks(stats[..i]), link);
              ghost var before := effects;
              effects := effects + [OpenLink(link)];
              recentlyOpened := true;
              effects := effects + [ScheduleCooldownClear(CooldownMs)];
              effects := effects + [Notify];
              assert effects == before + [OpenLink(link), ScheduleCooldownClear(CooldownMs), Notify];
            } else {
              assert AlertLinks(stats[..i]) + [] == AlertLinks(stats[..i]);
            }
            i := i + 1;
          }
          if i == |stats| {
            assert stats[..i] == stats;
          }
          assert effects == AlertEffects(ResponseAlerts(response));
        } else {
          assert ResponseAlerts(response) == [];
        }
      }
      delay := RateLimit;
    }

    /** The cooldown-clear timer fires. */
    method CooldownElapsed()
      modifies this
      ensures Outcome([], recentlyOpened) == OnEvent(old(recentlyOpened), Event.CooldownElapsed)
    {
      recentlyOpened := false;
    }
  }
}
