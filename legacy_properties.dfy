/**
 * What the tracker of background.js guarantees, and how it differs from the
 * one of src/background/tracker.ts.
 */
module LegacyProperties {
  import opened Wrappers
  import opened Text
  import opened Storage
  import opened Aggregates
  import Background
  import opened Legacy

  /** The part of a later-version session the earlier version has: the triple and the two records. */
  function Project(s: Background.Session): Legacy.Session {
    Legacy.Session(s.live, s.store.timeData, s.store.dailyData)
  }

  /** Without a truthy domain and a truthy start, a flush changes nothing. */
  lemma FlushIdleIsNoOp(s: Legacy.Session, now: int, todayKey: string, cutoffKey: string)
    requires !Background.Tracking(s.live)
    ensures Legacy.Flushed(s, now, todayKey, cutoffKey) == s
  {
  }

  /**
   * A flush advances the start to `now`; an interval under 500 ms (or
   * negative) is dropped, and any longer one, however long, is credited in
   * full to the domain's total and to its entry in today's record; other
   * domains keep their totals and no day before the cutoff remains.
   */
  lemma FlushCredits(s: Legacy.Session, now: int, todayKey: string, cutoffKey: string)
    requires Background.Tracking(s.live)
    ensures var d := s.live.activeDomain.value;
            var elapsed := now - s.live.activeStart.value;
            var old_day := if todayKey in s.dailyData then s.dailyData[todayKey] else [];
            var r := Legacy.Flushed(s, now, todayKey, cutoffKey);
      && r.live == s.live.(activeStart := Some(now))
      && (elapsed < 500 ==> r.timeData == s.timeData && r.dailyData == s.dailyData)
      && (elapsed >= 500 ==>
            && r.timeData.Keys == s.timeData.Keys + {d}
            && r.timeData[d] == (if d in s.timeData then s.timeData[d] else 0) + elapsed
            && (forall x :: x in s.timeData && x != d ==> r.timeData[x] == s.timeData[x])
            && (forall k :: k in r.dailyData ==> !LexLess(k, cutoffKey))
            && (forall k :: k in s.dailyData && k != todayKey && !LexLess(k, cutoffKey) ==>
                  k in r.dailyData && r.dailyData[k] == s.dailyData[k])
            && (!LexLess(todayKey, cutoffKey) ==>
                  && todayKey in r.dailyData
                  && Lookup(r.dailyData[todayKey], d) == Some(Lookup(old_day, d).GetOr(0) + elapsed)
                  && (forall x :: x != d ==> Lookup(r.dailyData[todayKey], x) == Lookup(old_day, x))))
  {
    var d := s.live.activeDomain.value;
    var elapsed := now - s.live.activeStart.value;
    if elapsed >= 500 {
      var day := CreditedBucket(s.dailyData, todayKey, d, elapsed);
      assert Legacy.Flushed(s, now, todayKey, cutoffKey) ==
        Legacy.Session(s.live.(activeStart := Some(now)), AddMs(s.timeData, d, elapsed),
                       Retain(s.dailyData[todayKey := day], cutoffKey));
      AddMsFrame(s.timeData, d, elapsed);
      CreditDayFrame(s.dailyData, todayKey, d, elapsed, cutoffKey);
    }
  }

  /** Two flushes at the same instant credit the interval once. */
  lemma FlushTwiceCreditsOnce(s: Legacy.Session, now: int, todayKey: string, cutoffKey: string)
    ensures var f := Legacy.Flushed(s, now, todayKey, cutoffKey);
            Legacy.Flushed(f, now, todayKey, cutoffKey) == f
  {
    var f := Legacy.Flushed(s, now, todayKey, cutoffKey);
    if Background.Tracking(s.live) && Background.Tracking(f.live) {
      assert f.live.activeStart == Some(now);
    }
  }

  /**
   * Up to 10 minutes the two versions credit the same records; beyond
   * 10 minutes the later version discards the interval while the earlier
   * one credits all of it.
   */
  lemma FlushVersionsCompared(s: Background.Session, now: int, todayKey: string, cutoffKey: string)
    ensures var elapsed := now - s.live.activeStart.GetOr(0);
            var later := Project(Background.Flushed(s, now, todayKey, cutoffKey));
            var earlier := Legacy.Flushed(Project(s), now, todayKey, cutoffKey);
      && later.live == earlier.live
      && (!Background.Tracking(s.live) || elapsed <= 600000 ==> later == earlier)
      && (Background.Tracking(s.live) && elapsed > 600000 ==>
            var d := s.live.activeDomain.value;
            && later.timeData == s.store.timeData
            && earlier.timeData[d] == (if d in s.store.timeData then s.store.timeData[d] else 0) + elapsed)
  {
  }

  /** The two getDomain versions agree whenever the URL parser rejects "" and "undefined", as a URL parser does. */
  lemma GetDomainVersionsAgree(url: Option<string>, hostOf: string -> Option<string>)
    requires hostOf("") == None && hostOf("undefined") == None
    ensures Legacy.GetDomain(url, hostOf) == Background.GetDomain(url, hostOf)
  {
  }

  /**
   * switchTo of the earlier version: a falsy tab id (none, or 0) and a failed
   * lookup clear the triple; a found tab is followed, with a start only when
   * its domain is truthy. The flush before it is the only write.
   */
  lemma SwitchOutcome(s: Legacy.Session, tabId: Option<int>, lookup: Background.TabLookup,
                      hostOf: string -> Option<string>, now: int, todayKey: string, cutoffKey: string)
    ensures var f := Legacy.Flushed(s, now, todayKey, cutoffKey);
            var r := Legacy.Switched(s, tabId, lookup, hostOf, now, todayKey, cutoffKey);
      && r.timeData == f.timeData && r.dailyData == f.dailyData
      && (!TruthyNum(tabId) || lookup.Failed? ==> r.live == Idle)
      && (TruthyNum(tabId) && lookup.Found? ==>
            var d := Legacy.GetDomain(lookup.url, hostOf);
            && r.live.activeTabId == tabId
            && r.live.activeDomain == d
            && (r.live.activeStart == Some(now) <==> TruthyStr(d))
            && (r.live.activeStart.None? <==> !TruthyStr(d)))
  {
  }

  /**
   * Tab id 0 pauses the earlier version, while the later one looks the tab
   * up and follows it.
   */
  lemma TabZeroDiffers(s: Background.Session, url: string, hostOf: string -> Option<string>,
                       now: int, todayKey: string, cutoffKey: string)
    requires now != 0 && url != "" && TruthyStr(hostOf(url))
    ensures Legacy.Switched(Project(s), Some(0), Background.Found(Some(url)), hostOf, now, todayKey, cutoffKey).live == Idle
    ensures Background.Switched(s, Some(0), Background.Found(Some(url)), hostOf, now, todayKey, cutoffKey).live
            == WorkerState(Some(0), hostOf(url), Some(now))
  {
  }
}
