/** `buildSummary` of src/background/tracker.ts: total, site count and top site of one day. */
module Summary {
  import opened Wrappers
  import opened Storage
  import opened Aggregates

  /** The left-to-right scan buildSummary performs, with its strict `>` for the top site. */
  function Summarize(entries: seq<Entry>): DailySummary
    decreases |entries|
  {
    if |entries| == 0 then DailySummary(0, 0, None, 0)
    else
      var p := Summarize(entries[..|entries| - 1]);
      var e := entries[|entries| - 1];
      if e.ms > p.topSiteMs then DailySummary(p.totalMs + e.ms, p.sites + 1, Some(e.site), e.ms)
      else DailySummary(p.totalMs + e.ms, p.sites + 1, p.topSite, p.topSiteMs)
  }

  /** The sum of all values, the reference for `totalMs`. */
  function Total(entries: seq<Entry>): int
    decreases |entries|
  {
    if |entries| == 0 then 0 else Total(entries[..|entries| - 1]) + entries[|entries| - 1].ms
  }

  /** `k` is the first position holding value `v`, and everything before it is smaller. */
  predicate FirstAt(entries: seq<Entry>, k: int, v: int) {
    0 <= k < |entries| && entries[k].ms == v && forall j :: 0 <= j < k ==> entries[j].ms < v
  }

  /**
   * What a day's summary means: the sum of its values, its number of entries,
   * the largest value or 0 if none is positive, and as top site the first
   * entry holding that largest value, or none when no value is positive.
   */
  lemma {:induction false} SummarizeSpec(entries: seq<Entry>)
    ensures var s := Summarize(entries);
      && s.totalMs == Total(entries)
      && s.sites == |entries|
      && s.topSiteMs >= 0
      && (forall i :: 0 <= i < |entries| ==> entries[i].ms <= s.topSiteMs)
      && (s.topSite.None? <==> forall i :: 0 <= i < |entries| ==> entries[i].ms <= 0)
      && (s.topSite.None? ==> s.topSiteMs == 0)
      && (s.topSite.Some? ==> exists k :: FirstAt(entries, k, s.topSiteMs) && entries[k].site == s.topSite.value)
    decreases |entries|
  {
    if |entries| > 0 {
      var n := |entries|;
      var pre := entries[..n - 1];
      SummarizeSpec(pre);
      var p := Summarize(pre);
      assert forall i :: 0 <= i < n - 1 ==> entries[i] == pre[i];
      if p.topSite.Some? && entries[n - 1].ms <= p.topSiteMs {
        var k :| FirstAt(pre, k, p.topSiteMs) && pre[k].site == p.topSite.value;
        assert FirstAt(entries, k, p.topSiteMs);
      }
    }
  }

  /** With distinct sites (a JavaScript record), the top site's own value is `topSiteMs`. */
  lemma TopSiteValue(entries: seq<Entry>)
    requires DistinctSites(entries)
    ensures var s := Summarize(entries);
            s.topSite.Some? ==> Lookup(entries, s.topSite.value) == Some(s.topSiteMs)
  {
    SummarizeSpec(entries);
    var s := Summarize(entries);
    if s.topSite.Some? {
      var k :| FirstAt(entries, k, s.topSiteMs) && entries[k].site == s.topSite.value;
      LookupAt(entries, k);
    }
  }

  /** The buildSummary loop over `Object.entries(dayData)`. */
  method BuildSummary(entries: seq<Entry>) returns (s: DailySummary)
    ensures s == Summarize(entries)
  {
    var totalMs := 0;
    var topSite: Option<string> := None;
    var topSiteMs := 0;
    var i := 0;
    while i < |entries|
      invariant 0 <= i <= |entries|
      invariant DailySummary(totalMs, i, topSite, topSiteMs) == Summarize(entries[..i])
    {
      var e := entries[i];
      assert entries[..i + 1][..i] == entries[..i];
      totalMs := totalMs + e.ms;
      if e.ms > topSiteMs {
        topSite := Some(e.site);
        topSiteMs := e.ms;
      }
      i := i + 1;
    }
    assert entries[..|entries|] == entries;
    s := DailySummary(totalMs, |entries|, topSite, topSiteMs);
  }
}
