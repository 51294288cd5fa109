/**
 * The active-interval tracker of src/background/tracker.ts.
 *
 * The live triple (tab, domain, start) says which domain is accruing time
 * since when. `FlushTime` turns the elapsed time into the all-time totals,
 * the per-day records and today's summary, and prunes old days; `SwitchTo`
 * flushes and then moves to another tab or to idle; `RestoreState` resumes
 * an interval persisted before a restart.
 *
 * The storage records are fields of the tracker object. The clock reading,
 * today's key, the retention cutoff key, the outcome of the tab lookup and
 * the URL parser are parameters of the operations.
 */
module Background {
  import opened Wrappers
  import opened Text
  import opened Storage
  import opened Aggregates
  import opened Summary

  /** Intervals shorter than this are ignored. */
  const FLUSH_THRESHOLD_MS := 500
  /** Gaps longer than this (10 minutes) are taken for system sleep and discarded. */
  const MAX_TRACKABLE_ELAPSED_MS := 10 * 60 * 1000

  /** The outcome of `chrome.tabs.get(tabId)`: the tab's URL (possibly undefined), or a rejection. */
  datatype TabLookup = Found(url: Option<string>) | Failed

  /**
   * getDomain of src/utils/domain.ts: no domain for a missing or empty URL,
   * otherwise what the URL parser `hostOf` yields (None when it throws).
   */
  function GetDomain(url: Option<string>, hostOf: string -> Option<string>): (d: Option<string>)
    ensures url.None? || url.value == "" ==> d.None?
    ensures url.Some? && url.value != "" ==> d == hostOf(url.value)
  {
    if url.None? || url.value == "" then None else hostOf(url.value)
  }

  /** Everything the four storage keys hold. */
  datatype Store = Store(
    timeData: map<string, int>,
    dailyData: map<string, Bucket>,
    dailySummaries: map<string, DailySummary>,
    savedState: Option<WorkerState>)

  /** The live tracking triple together with the store. */
  datatype Session = Session(live: WorkerState, store: Store)

  /** `activeDomain && activeStart`: an interval is accruing. */
  predicate Tracking(w: WorkerState) {
    TruthyStr(w.activeDomain) && TruthyNum(w.activeStart)
  }

  /** The elapsed times that are credited rather than discarded. */
  predicate Credited(elapsed: int) {
    FLUSH_THRESHOLD_MS <= elapsed <= MAX_TRACKABLE_ELAPSED_MS
  }

  // ---- The operations, on values ----

  /** flushTime, as a function of the session before it. */
  function Flushed(s: Session, now: int, todayKey: string, cutoffKey: string): Session {
    if !Tracking(s.live) then s
    else
      var domain := s.live.activeDomain.value;
      var elapsed := now - s.live.activeStart.value;
      var live := s.live.(activeStart := Some(now));
      if !Credited(elapsed) then Session(live, s.store)
      else
        var day := CreditedBucket(s.store.dailyData, todayKey, domain, elapsed);
        Session(live, Store(
          AddMs(s.store.timeData, domain, elapsed),
          Retain(s.store.dailyData[todayKey := day], cutoffKey),
          s.store.dailySummaries[todayKey := Summarize(day)],
          Some(live)))
  }

  /** saveState: the live triple is persisted as `_state`. */
  function Saved(s: Session): Session {
    s.(store := s.store.(savedState := Some(s.live)))
  }

  /** restoreState: a persisted interval is adopted when its domain and start are both truthy. */
  function Restored(s: Session): Session {
    match s.store.savedState
    case Some(w) => if Tracking(w) then s.(live := w) else s
    case None => s
  }

  /** switchTo: flush, then pause (no tab, or the lookup failed) or follow the tab; then save. */
  function Switched(s: Session, tabId: Option<int>, lookup: TabLookup, hostOf: string -> Option<string>,
                    now: int, todayKey: string, cutoffKey: string): Session
  {
    var f := Flushed(s, now, todayKey, cutoffKey);
    var live :=
      if tabId.None? then Idle
      else match lookup
        case Failed => Idle
        case Found(url) =>
          var d := GetDomain(url, hostOf);
          WorkerState(tabId, d, if TruthyStr(d) then Some(now) else None);
    Saved(f.(live := live))
  }

  // ---- The tracker object ----

  class Tracker {
    var activeTabId: Option<int>
    var activeDomain: Option<string>
    var activeStart: Option<int>
    var timeData: map<string, int>
    var dailyData: map<string, Bucket>
    var dailySummaries: map<string, DailySummary>
    var savedState: Option<WorkerState>

    function Live(): WorkerState
      reads this
    {
      WorkerState(activeTabId, activeDomain, activeStart)
    }

    function Snapshot(): Session
      reads this
    {
      Session(Live(), Store(timeData, dailyData, dailySummaries, savedState))
    }

    /**
     * A worker (re)started over the persisted storage `st`: the live triple
     * starts null, the storage records are whatever survived.
     */
    constructor (st: Store)
      ensures Snapshot() == Session(Idle, st)
    {
      activeTabId, activeDomain, activeStart := None, None, None;
      timeData, dailyData, dailySummaries, savedState := st.timeData, st.dailyData, st.dailySummaries, st.savedState;
    }

    /** getActiveTabId: reads the live tab id and changes nothing. */
    function ActiveTabId(): (r: Option<int>)
      reads this
      ensures r == Snapshot().live.activeTabId
    {
      activeTabId
    }

    method FlushTime(now: int, todayKey: string, cutoffKey: string)
      modifies this
      ensures Snapshot() == Flushed(old(Snapshot()), now, todayKey, cutoffKey)
      ensures Tracking(old(Live())) ==> activeStart == Some(now)
    {
      // The snapshot is taken, and the start advanced, before any storage access.
      var domain := activeDomain;
      var start := activeStart;
      if !TruthyStr(domain) || !TruthyNum(start) {
        return;
      }
      var elapsed := now - start.value;
      activeStart := Some(now);
      if elapsed < FLUSH_THRESHOLD_MS {
        return;
      }
      if elapsed > MAX_TRACKABLE_ELAPSED_MS {
        return;
      }
      timeData := AddMs(timeData, domain.value, elapsed);
      var day := CreditedBucket(dailyData, todayKey, domain.value, elapsed);
      dailyData := dailyData[todayKey := day];
      var summary := BuildSummary(day);
      dailySummaries := dailySummaries[todayKey := summary];
      dailyData := Prune(dailyData, cutoffKey);
      savedState := Some(Live());
    }

    method SaveState()
      modifies this
      ensures Snapshot() == Saved(old(Snapshot()))
    {
      savedState := Some(Live());
    }

    method RestoreState()
      modifies this
      ensures Snapshot() == Restored(old(Snapshot()))
    {
      if savedState.Some? && TruthyStr(savedState.value.activeDomain) && TruthyNum(savedState.value.activeStart) {
        activeTabId := savedState.value.activeTabId;
        activeDomain := savedState.value.activeDomain;
        activeStart := savedState.value.activeStart;
      }
    }

    method SwitchTo(tabId: Option<int>, lookup: TabLookup, hostOf: string -> Option<string>,
                    now: int, todayKey: string, cutoffKey: string)
      modifies this
      ensures Snapshot() == Switched(old(Snapshot()), tabId, lookup, hostOf, now, todayKey, cutoffKey)
      ensures savedState == Some(Live())
    {
      FlushTime(now, todayKey, cutoffKey);
      if tabId.None? {
        activeDomain := None;
        activeTabId := None;
        activeStart := None;
        SaveState();
        return;
      }
      match lookup {
        case Found(url) =>
          activeTabId := tabId;
          activeDomain := GetDomain(url, hostOf);
          activeStart := if TruthyStr(activeDomain) then Some(now) else None;
        case Failed =>
          activeDomain := None;
          activeTabId := None;
          activeStart := None;
      }
      SaveState();
    }
  }
}
