/**
 * The record shapes kept in the browser's local storage (src/types/storage.ts),
 * and JavaScript truthiness of the nullable fields the tracker tests.
 */
module Storage {
  import opened Wrappers

  /** The persisted tracking triple `_state`; each field may be null. */
  datatype WorkerState = WorkerState(activeTabId: Option<int>, activeDomain: Option<string>, activeStart: Option<int>)

  /** The state with all three fields null. */
  const Idle := WorkerState(None, None, None)

  /** The compact per-day summary. */
  datatype DailySummary = DailySummary(totalMs: int, sites: nat, topSite: Option<string>, topSiteMs: int)

  /** One `domain: ms` property of a day's record. */
  datatype Entry = Entry(site: string, ms: int)

  /** `!!s` for a nullable string: null and "" are falsy. */
  predicate TruthyStr(s: Option<string>) {
    s.Some? && s.value != ""
  }

  /** `!!n` for a nullable number: null and 0 are falsy. */
  predicate TruthyNum(n: Option<int>) {
    n.Some? && n.value != 0
  }
}
