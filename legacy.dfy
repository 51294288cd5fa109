/**
 * The earlier tracker of background.js. Same state machine as the one of
 * src/background/tracker.ts, with a different policy: no upper bound on a
 * credited interval, no summaries, no persisted `_state`, and any falsy tab
 * id (null or 0) pauses.
 */
module Legacy {
  import opened Wrappers
  import opened Text
  import opened Storage
  import opened Aggregates
  import Background

  const FLUSH_THRESHOLD_MS := 500

  /**
   * getDomain of background.js: `new URL(url).hostname`, None when the parser
   * throws. An undefined URL is parsed as the text "undefined", as the URL
   * constructor stringifies its argument.
   */
  function GetDomain(url: Option<string>, hostOf: string -> Option<string>): (d: Option<string>)
    ensures url.Some? ==> d == hostOf(url.value)
    ensures url.None? ==> d == hostOf("undefined")
  {
    hostOf(url.GetOr("undefined"))
  }

  /** The live triple with the two records this version stores. */
  datatype Session = Session(live: WorkerState, timeData: map<string, int>, dailyData: map<string, Bucket>)

  /** flushTime of background.js, as a function of the session before it. */
  function Flushed(s: Session, now: int, todayKey: string, cutoffKey: string): Session {
    if !TruthyStr(s.live.activeDomain) || !TruthyNum(s.live.activeStart) then s
    else
      var domain := s.live.activeDomain.value;
      var elapsed := now - s.live.activeStart.value;
      var live := s.live.(activeStart := Some(now));
      if elapsed < FLUSH_THRESHOLD_MS then s.(live := live)
      else
        var day := CreditedBucket(s.dailyData, todayKey, domain, elapsed);
        Session(live, AddMs(s.timeData, domain, elapsed), Retain(s.dailyData[todayKey := day], cutoffKey))
  }

  /** switchTo of background.js: flush, then pause on a falsy tab id or a failed lookup, else follow the tab. */
  function Switched(s: Session, tabId: Option<int>, lookup: Background.TabLookup, hostOf: string -> Option<string>,
                    now: int, todayKey: string, cutoffKey: string): Session
  {
    var f := Flushed(s, now, todayKey, cutoffKey);
    if !TruthyNum(tabId) then f.(live := Idle)
    else match lookup
      case Failed => f.(live := Idle)
      case Found(url) =>
        var d := GetDomain(url, hostOf);
        f.(live := WorkerState(tabId, d, if TruthyStr(d) then Some(now) else None))
  }

  class Tracker {
    var activeTabId: Option<int>
    var activeDomain: Option<string>
    var activeStart: Option<int>
    var timeData: map<string, int>
    var dailyData: map<string, Bucket>

    function Snapshot(): Session
      reads this
    {
      Session(WorkerState(activeTabId, activeDomain, activeStart), timeData, dailyData)
    }

    /** A worker (re)started over the persisted records: the live triple starts null. */
    constructor (timeData: map<string, int>, dailyData: map<string, Bucket>)
      ensures Snapshot() == Session(Idle, timeData, dailyData)
    {
      activeTabId, activeDomain, activeStart := None, None, None;
      this.timeData, this.dailyData := timeData, dailyData;
    }

    method FlushTime(now: int, todayKey: string, cutoffKey: string)
      modifies this
      ensures Snapshot() == Flushed(old(Snapshot()), now, todayKey, cutoffKey)
    {
      if !TruthyStr(activeDomain) || !TruthyNum(activeStart) {
        return;
      }
      var elapsed := now - activeStart.value;
      activeStart := Some(now);
      if elapsed < FLUSH_THRESHOLD_MS {
        return;
      }
      timeData := AddMs(timeData, activeDomain.value, elapsed);
      var day := CreditedBucket(dailyData, todayKey, activeDomain.value, elapsed);
      dailyData := dailyData[todayKey := day];
      dailyData := Prune(dailyData, cutoffKey);
    }

    method SwitchTo(tabId: Option<int>, lookup: Background.TabLookup, hostOf: string -> Option<string>,
                    now: int, todayKey: string, cutoffKey: string)
      modifies this
      ensures Snapshot() == Switched(old(Snapshot()), tabId, lookup, hostOf, now, todayKey, cutoffKey)
    {
      FlushTime(now, todayKey, cutoffKey);
      if !TruthyNum(tabId) {
        activeDomain := None;
        activeTabId := None;
        activeStart := None;
        return;
      }
      match lookup {
        case Found(url) =>
          activeTabId := tabId;
          activeDomain := GetDomain(url, hostOf);
          activeStart := if TruthyStr(activeDomain) then Some(now) else None;
        case Failed =>
          activeDomain := None;
          activeTabId := None;
          activeStart := None;
      }
    }
  }
}
