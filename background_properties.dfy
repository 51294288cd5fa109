/** What the tracker of src/background/tracker.ts guarantees, proved on its specification functions. */
module BackgroundProperties {
  import opened Wrappers
  import opened Text
  import opened Storage
  import opened Aggregates
  import opened Summary
  import opened Background

  // ---- flushTime ----

  /** Without a truthy domain and a truthy start, a flush changes nothing at all. */
  lemma FlushIdleIsNoOp(s: Session, now: int, todayKey: string, cutoffKey: string)
    requires !Tracking(s.live)
    ensures Flushed(s, now, todayKey, cutoffKey) == s
  {
  }

  /**
   * A flush always claims the interval up to `now` by advancing the start,
   * and a discarded interval (under 500 ms, negative, or over 10 minutes)
   * leaves every storage record untouched.
   */
  lemma FlushClaimsInterval(s: Session, now: int, todayKey: string, cutoffKey: string)
    requires Tracking(s.live)
    ensures var r := Flushed(s, now, todayKey, cutoffKey);
      && r.live == s.live.(activeStart := Some(now))
      && (!Credited(now - s.live.activeStart.value) ==> r.store == s.store)
      && (now - s.live.activeStart.value < 500 || now - s.live.activeStart.value > 600000 ==> r.store == s.store)
  {
  }

  /** Two flushes at the same instant credit the interval once: the second one changes nothing. */
  lemma FlushTwiceCreditsOnce(s: Session, now: int, todayKey: string, cutoffKey: string)
    ensures var f := Flushed(s, now, todayKey, cutoffKey);
            Flushed(f, now, todayKey, cutoffKey) == f
  {
    var f := Flushed(s, now, todayKey, cutoffKey);
    if Tracking(s.live) && Tracking(f.live) {
      assert f.live.activeStart == Some(now);
      assert !Credited(now - now);
    }
  }

  /** The session a crediting flush produces, field by field. */
  lemma CreditedShape(s: Session, now: int, todayKey: string, cutoffKey: string)
    requires Tracking(s.live) && Credited(now - s.live.activeStart.value)
    ensures var d := s.live.activeDomain.value;
            var elapsed := now - s.live.activeStart.value;
            var day := CreditedBucket(s.store.dailyData, todayKey, d, elapsed);
            var live := s.live.(activeStart := Some(now));
            Flushed(s, now, todayKey, cutoffKey) ==
              Session(live, Store(AddMs(s.store.timeData, d, elapsed), Retain(s.store.dailyData[todayKey := day], cutoffKey),
                                  s.store.dailySummaries[todayKey := Summarize(day)], Some(live)))
  {
  }

  /**
   * A crediting flush adds exactly `elapsed` to the domain's all-time total
   * and to its entry in today's record (both starting from 0 when absent),
   * changes no other domain, rebuilds today's summary from today's record,
   * leaves every other summary alone, and persists the live triple.
   */
  lemma FlushCredits(s: Session, now: int, todayKey: string, cutoffKey: string)
    requires Tracking(s.live) && Credited(now - s.live.activeStart.value)
    ensures var d := s.live.activeDomain.value;
            var elapsed := now - s.live.activeStart.value;
            var old_day := if todayKey in s.store.dailyData then s.store.dailyData[todayKey] else [];
            var r := Flushed(s, now, todayKey, cutoffKey);
      && r.store.timeData.Keys == s.store.timeData.Keys + {d}
      && r.store.timeData[d] == (if d in s.store.timeData then s.store.timeData[d] else 0) + elapsed
      && (forall x :: x in s.store.timeData && x != d ==> r.store.timeData[x] == s.store.timeData[x])
      && (!LexLess(todayKey, cutoffKey) ==>
            && todayKey in r.store.dailyData
            && Lookup(r.store.dailyData[todayKey], d) == Some(Lookup(old_day, d).GetOr(0) + elapsed)
            && (forall x :: x != d ==> Lookup(r.store.dailyData[todayKey], x) == Lookup(old_day, x))
            && r.store.dailySummaries[todayKey] == Summarize(r.store.dailyData[todayKey]))
      && todayKey in r.store.dailySummaries
      && (forall k :: k != todayKey ==>
            (k in r.store.dailySummaries <==> k in s.store.dailySummaries) &&
            (k in s.store.dailySummaries ==> r.store.dailySummaries[k] == s.store.dailySummaries[k]))
      && r.store.savedState == Some(r.live)
  {
    FlushCreditsTotal(s, now, todayKey, cutoffKey);
    FlushCreditsToday(s, now, todayKey, cutoffKey);
    FlushCreditsSummaries(s, now, todayKey, cutoffKey);
  }

  /** The all-time totals part of `FlushCredits`. */
  lemma FlushCreditsTotal(s: Session, now: int, todayKey: string, cutoffKey: string)
    requires Tracking(s.live) && Credited(now - s.live.activeStart.value)
    ensures var d := s.live.activeDomain.value;
            var elapsed := now - s.live.activeStart.value;
            var r := Flushed(s, now, todayKey, cutoffKey);
      && r.store.timeData.Keys == s.store.timeData.Keys + {d}
      && r.store.timeData[d] == (if d in s.store.timeData then s.store.timeData[d] else 0) + elapsed
      && (forall x :: x in s.store.timeData && x != d ==> r.store.timeData[x] == s.store.timeData[x])
  {
    CreditedShape(s, now, todayKey, cutoffKey);
    AddMsFrame(s.store.timeData, s.live.activeDomain.value, now - s.live.activeStart.value);
  }

  /** The today's-record part of `FlushCredits`. */
  lemma FlushCreditsToday(s: Session, now: int, todayKey: string, cutoffKey: string)
    requires Tracking(s.live) && Credited(now - s.live.activeStart.value)
    ensures var d := s.live.activeDomain.value;
            var elapsed := now - s.live.activeStart.value;
            var old_day := if todayKey in s.store.dailyData then s.store.dailyData[todayKey] else [];
            var r := Flushed(s, now, todayKey, cutoffKey);
      !LexLess(todayKey, cutoffKey) ==>
        && todayKey in r.store.dailyData
        && Lookup(r.store.dailyData[todayKey], d) == Some(Lookup(old_day, d).GetOr(0) + elapsed)
        && (forall x :: x != d ==> Lookup(r.store.dailyData[todayKey], x) == Lookup(old_day, x))
        && r.store.dailySummaries[todayKey] == Summarize(r.store.dailyData[todayKey])
  {
    CreditedShape(s, now, todayKey, cutoffKey);
    CreditDayFrame(s.store.dailyData, todayKey, s.live.activeDomain.value, now - s.live.activeStart.value, cutoffKey);
  }

  /** The summaries and persisted-triple part of `FlushCredits`. */
  lemma FlushCreditsSummaries(s: Session, now: int, todayKey: string, cutoffKey: string)
    requires Tracking(s.live) && Credited(now - s.live.activeStart.value)
    ensures var r := Flushed(s, now, todayKey, cutoffKey);
      && todayKey in r.store.dailySummaries
      && (forall k :: k != todayKey ==>
            (k in r.store.dailySummaries <==> k in s.store.dailySummaries) &&
            (k in s.store.dailySummaries ==> r.store.dailySummaries[k] == s.store.dailySummaries[k]))
      && r.store.savedState == Some(r.live)
  {
    CreditedShape(s, now, todayKey, cutoffKey);
  }

  /**
   * After a crediting flush no day key is before the cutoff, and every other
   * day at or after the cutoff keeps its record exactly.
   */
  lemma FlushRetention(s: Session, now: int, todayKey: string, cutoffKey: string)
    requires Tracking(s.live) && Credited(now - s.live.activeStart.value)
    ensures var r := Flushed(s, now, todayKey, cutoffKey);
      && (forall k :: k in r.store.dailyData ==> !LexLess(k, cutoffKey))
      && (forall k :: k in s.store.dailyData && k != todayKey && !LexLess(k, cutoffKey) ==>
            k in r.store.dailyData && r.store.dailyData[k] == s.store.dailyData[k])
      && (forall k :: k in r.store.dailyData ==> k == todayKey || k in s.store.dailyData)
  {
  }

  /** When the cutoff is today or before it, today's record always survives the pruning. */
  lemma FlushKeepsToday(s: Session, now: int, todayKey: string, cutoffKey: string)
    requires Tracking(s.live) && Credited(now - s.live.activeStart.value)
    requires cutoffKey == todayKey || LexLess(cutoffKey, todayKey)
    ensures todayKey in Flushed(s, now, todayKey, cutoffKey).store.dailyData
  {
    if cutoffKey == todayKey {
      LexLessIrreflexive(todayKey);
    } else {
      LexLessAsymmetric(cutoffKey, todayKey);
    }
  }

  // ---- Invariants kept by every operation ----

  /**
   * The store is consistent: every day record lists each domain once, and
   * every summary of a day still on record is the summary of that record.
   */
  ghost predicate ConsistentStore(st: Store) {
    && (forall k :: k in st.dailyData ==> DistinctSites(st.dailyData[k]))
    && (forall k :: k in st.dailySummaries && k in st.dailyData ==>
          st.dailySummaries[k] == Summarize(st.dailyData[k]))
  }

  /**
   * A triple never has a start without a truthy domain, nor a domain without
   * a tab id.
   */
  predicate Coherent(w: WorkerState) {
    && (w.activeStart.Some? ==> TruthyStr(w.activeDomain))
    && (w.activeDomain.Some? ==> w.activeTabId.Some?)
  }

  ghost predicate Valid(s: Session) {
    && ConsistentStore(s.store)
    && Coherent(s.live)
    && (s.store.savedState.Some? ==> Coherent(s.store.savedState.value))
  }

  /**
   * Recording a day's bucket that lists each domain once, together with its
   * summary, and pruning keeps the store consistent.
   */
  lemma RecordDayKeepsConsistent(st: Store, dayKey: string, day: Bucket, cutoffKey: string, next: Store)
    requires ConsistentStore(st) && DistinctSites(day)
    requires next.dailyData == Retain(st.dailyData[dayKey := day], cutoffKey)
    requires next.dailySummaries == st.dailySummaries[dayKey := Summarize(day)]
    ensures ConsistentStore(next)
  {
    var data := Retain(st.dailyData[dayKey := day], cutoffKey);
    var sums := st.dailySummaries[dayKey := Summarize(day)];
    forall k | k in data
      ensures DistinctSites(data[k])
      ensures k in sums ==> sums[k] == Summarize(data[k])
    {
      if k == dayKey {
        assert data[k] == day;
      } else {
        assert data[k] == st.dailyData[k];
      }
    }
  }

  lemma FlushPreservesValid(s: Session, now: int, todayKey: string, cutoffKey: string)
    requires Valid(s)
    ensures Valid(Flushed(s, now, todayKey, cutoffKey))
  {
    if Tracking(s.live) && Credited(now - s.live.activeStart.value) {
      CreditedFlushKeepsConsistent(s, now, todayKey, cutoffKey);
    }
  }

  /** A crediting flush keeps the store consistent. */
  lemma CreditedFlushKeepsConsistent(s: Session, now: int, todayKey: string, cutoffKey: string)
    requires ConsistentStore(s.store) && Tracking(s.live) && Credited(now - s.live.activeStart.value)
    ensures ConsistentStore(Flushed(s, now, todayKey, cutoffKey).store)
  {
    var d := s.live.activeDomain.value;
    var elapsed := now - s.live.activeStart.value;
    var day := CreditedBucket(s.store.dailyData, todayKey, d, elapsed);
    CreditedBucketDistinct(s.store.dailyData, todayKey, d, elapsed);
    var r := Flushed(s, now, todayKey, cutoffKey);
    assert r.store.dailyData == Retain(s.store.dailyData[todayKey := day], cutoffKey);
    assert r.store.dailySummaries == s.store.dailySummaries[todayKey := Summarize(day)];
    RecordDayKeepsConsistent(s.store, todayKey, day, cutoffKey, r.store);
  }

  lemma RestorePreservesValid(s: Session)
    requires Valid(s)
    ensures Valid(Restored(s))
  {
  }

  lemma SwitchPreservesValid(s: Session, tabId: Option<int>, lookup: TabLookup, hostOf: string -> Option<string>,
                             now: int, todayKey: string, cutoffKey: string)
    requires Valid(s)
    ensures Valid(Switched(s, tabId, lookup, hostOf, now, todayKey, cutoffKey))
  {
    FlushPreservesValid(s, now, todayKey, cutoffKey);
  }

  // ---- switchTo and restoreState ----

  /**
   * switchTo flushes the interval that was running (its records are those
   * of a flush), then: no tab or a failed lookup clears the triple; a found
   * tab is followed, with a start only when its domain is truthy. In every
   * case the persisted `_state` is the new triple.
   */
  lemma SwitchOutcome(s: Session, tabId: Option<int>, lookup: TabLookup, hostOf: string -> Option<string>,
                      now: int, todayKey: string, cutoffKey: string)
    ensures var f := Flushed(s, now, todayKey, cutoffKey);
            var r := Switched(s, tabId, lookup, hostOf, now, todayKey, cutoffKey);
      && r.store == f.store.(savedState := Some(r.live))
      && (tabId.None? || lookup.Failed? ==> r.live == Idle)
      && (tabId.Some? && lookup.Found? ==>
            var d := GetDomain(lookup.url, hostOf);
            && r.live.activeTabId == tabId
            && r.live.activeDomain == d
            && (r.live.activeStart == Some(now) <==> TruthyStr(d))
            && (r.live.activeStart.None? <==> !TruthyStr(d)))
  {
  }

  /** After a switch, a resumed flush happens only for a tab whose domain was truthy. */
  lemma SwitchThenTracking(s: Session, tabId: Option<int>, lookup: TabLookup, hostOf: string -> Option<string>,
                           now: int, todayKey: string, cutoffKey: string)
    requires now != 0
    ensures var r := Switched(s, tabId, lookup, hostOf, now, todayKey, cutoffKey);
            Tracking(r.live) <==> tabId.Some? && lookup.Found? && TruthyStr(GetDomain(lookup.url, hostOf))
  {
  }

  /**
   * restoreState adopts the persisted triple exactly when its domain and
   * start are both truthy, and otherwise keeps the live triple; it writes
   * nothing.
   */
  lemma RestoreOutcome(s: Session)
    ensures var r := Restored(s);
      && r.store == s.store
      && (s.store.savedState.Some? && Tracking(s.store.savedState.value) ==> r.live == s.store.savedState.value)
      && (s.store.savedState.None? || !Tracking(s.store.savedState.value) ==> r.live == s.live)
  {
  }

  /**
   * A restart with `_state` = {tab, domain, t0} persisted, followed by a flush
   * at t0 + elapsed within the crediting window, credits `elapsed` to that
   * domain before any new event arrives.
   */
  lemma RestoreThenFlushCredits(s: Session, tab: int, domain: string, t0: int, elapsed: int,
                                todayKey: string, cutoffKey: string)
    requires domain != "" && t0 != 0 && 500 <= elapsed <= 600000
    requires s.store.savedState == Some(WorkerState(Some(tab), Some(domain), Some(t0)))
    ensures var r := Flushed(Restored(s), t0 + elapsed, todayKey, cutoffKey);
      && r.store.timeData[domain] == (if domain in s.store.timeData then s.store.timeData[domain] else 0) + elapsed
      && r.live == WorkerState(Some(tab), Some(domain), Some(t0 + elapsed))
  {
    var w := Restored(s);
    assert w.live == WorkerState(Some(tab), Some(domain), Some(t0));
    FlushCredits(w, t0 + elapsed, todayKey, cutoffKey);
  }

  /**
   * Switching away from a domain credits its interval to it, not to the
   * domain switched to; a flush later credits the new domain from the
   * switch instant.
   */
  lemma SwitchThenFlushCredits(s: Session, tab: int, url: string, hostOf: string -> Option<string>,
                               t1: int, t2: int, todayKey: string, cutoffKey: string)
    requires Tracking(s.live) && Credited(t1 - s.live.activeStart.value)
    requires t1 != 0 && Credited(t2 - t1)
    requires hostOf(url) == Some("b.example") && s.live.activeDomain != Some("b.example") && url != ""
    ensures var a := s.live.activeDomain.value;
            var r1 := Switched(s, Some(tab), Found(Some(url)), hostOf, t1, todayKey, cutoffKey);
            var r2 := Flushed(r1, t2, todayKey, cutoffKey);
      && r1.store.timeData[a] == (if a in s.store.timeData then s.store.timeData[a] else 0) + (t1 - s.live.activeStart.value)
      && r2.store.timeData[a] == r1.store.timeData[a]
      && r2.store.timeData["b.example"] ==
           (if "b.example" in r1.store.timeData then r1.store.timeData["b.example"] else 0) + (t2 - t1)
  {
    FlushCredits(s, t1, todayKey, cutoffKey);
    SwitchOutcome(s, Some(tab), Found(Some(url)), hostOf, t1, todayKey, cutoffKey);
    var r1 := Switched(s, Some(tab), Found(Some(url)), hostOf, t1, todayKey, cutoffKey);
    assert r1.live == WorkerState(Some(tab), Some("b.example"), Some(t1));
    FlushCredits(r1, t2, todayKey, cutoffKey);
  }

  /**
   * A worker restarted over storage whose `_state` is {tab, domain, t0}
   * restores the interval, and its first flush at t0 + elapsed credits
   * elapsed to that domain's all-time total.
   */
  method RestartResumesInterval(st: Store, tab: int, domain: string, t0: int, elapsed: int,
                                todayKey: string, cutoffKey: string) returns (total: int)
    requires domain != "" && t0 != 0 && 500 <= elapsed <= 600000
    requires st.savedState == Some(WorkerState(Some(tab), Some(domain), Some(t0)))
    ensures total == (if domain in st.timeData then st.timeData[domain] else 0) + elapsed
  {
    var worker := new Tracker(st);
    worker.RestoreState();
    worker.FlushTime(t0 + elapsed, todayKey, cutoffKey);
    RestoreThenFlushCredits(Session(Idle, st), tab, domain, t0, elapsed, todayKey, cutoffKey);
    total := worker.timeData[domain];
  }
}
