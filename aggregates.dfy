/**
 * The aggregate records both trackers update: a day's domain -> ms record,
 * kept as its property list in insertion order, the all-time totals, and
 * the retention filter over day keys.
 */
module Aggregates {
  import opened Wrappers
  import opened Text
  import opened Storage

  /** A day's record `{ domain: ms }`, in the insertion order JavaScript iterates it. */
  type Bucket = seq<Entry>

  predicate DistinctSites(b: Bucket) {
    forall i, j :: 0 <= i < j < |b| ==> b[i].site != b[j].site
  }

  /** `b[site]`: the value of the first property named `site`, if any. */
  function Lookup(b: Bucket, site: string): (r: Option<int>)
    decreases |b|
  {
    if |b| == 0 then None
    else if b[0].site == site then Some(b[0].ms)
    else Lookup(b[1..], site)
  }

  /** A domain has a value exactly when the record has an entry for it, and the value is that entry's. */
  lemma {:induction false} LookupFound(b: Bucket, site: string)
    ensures Lookup(b, site).Some? <==> exists i :: 0 <= i < |b| && b[i].site == site
    ensures Lookup(b, site).Some? ==> exists i :: 0 <= i < |b| && b[i] == Entry(site, Lookup(b, site).value)
    decreases |b|
  {
    if |b| > 0 && b[0].site != site {
      LookupFound(b[1..], site);
      assert forall i :: 1 <= i < |b| ==> b[i] == b[1..][i - 1];
    }
  }

  /** With distinct sites, the entry at position `i` is what `Lookup` finds. */
  lemma {:induction false} LookupAt(b: Bucket, i: int)
    requires DistinctSites(b) && 0 <= i < |b|
    ensures Lookup(b, b[i].site) == Some(b[i].ms)
    decreases |b|
  {
    if i > 0 {
      LookupAt(b[1..], i - 1);
    }
  }

  /**
   * `b[site] = ms`: an existing property keeps its position and takes the new
   * value; a new one is appended at the end.
   */
  function Put(b: Bucket, site: string, ms: int): (r: Bucket)
    ensures Lookup(r, site) == Some(ms)
    ensures forall x :: x != site ==> Lookup(r, x) == Lookup(b, x)
    ensures Lookup(b, site).Some? ==> |r| == |b|
    ensures Lookup(b, site).None? ==> r == b + [Entry(site, ms)]
    ensures forall i :: 0 <= i < |b| ==> r[i].site == b[i].site
    decreases |b|
  {
    if |b| == 0 then [Entry(site, ms)]
    else if b[0].site == site then
      var r := [Entry(site, ms)] + b[1..];
      assert r[1..] == b[1..];
      r
    else
      var t := Put(b[1..], site, ms);
      var r := [b[0]] + t;
      assert r[1..] == t;
      r
  }

  /** A domain `Lookup` does not find has no entry in the record. */
  lemma {:induction false} LookupAbsent(b: Bucket, site: string)
    requires Lookup(b, site).None?
    ensures forall i :: 0 <= i < |b| ==> b[i].site != site
    decreases |b|
  {
    if |b| > 0 {
      LookupAbsent(b[1..], site);
      assert forall i :: 1 <= i < |b| ==> b[i] == b[1..][i - 1];
    }
  }

  /** Setting a property never duplicates a domain in a record. */
  lemma PutKeepsDistinct(b: Bucket, site: string, ms: int)
    requires DistinctSites(b)
    ensures DistinctSites(Put(b, site, ms))
  {
    var r := Put(b, site, ms);
    if Lookup(b, site).None? {
      LookupAbsent(b, site);
      forall i, j | 0 <= i < j < |r|
        ensures r[i].site != r[j].site
      {
        if j == |b| {
          assert r[j].site == site && r[i].site == b[i].site;
        } else {
          assert r[i].site == b[i].site && r[j].site == b[j].site;
        }
      }
    }
  }

  /** `m[key] = (m[key] ?? 0) + elapsed`. */
  function AddMs(m: map<string, int>, key: string, elapsed: int): map<string, int> {
    m[key := (if key in m then m[key] else 0) + elapsed]
  }

  /** The day's record after `elapsed` ms are credited to `site`; a missing day starts empty. */
  function CreditedBucket(dailyData: map<string, Bucket>, dayKey: string, site: string, elapsed: int): Bucket {
    var day := if dayKey in dailyData then dailyData[dayKey] else [];
    Put(day, site, Lookup(day, site).GetOr(0) + elapsed)
  }

  /** Crediting a day whose records list each domain once keeps its record that way. */
  lemma CreditedBucketDistinct(dailyData: map<string, Bucket>, dayKey: string, site: string, elapsed: int)
    requires dayKey in dailyData ==> DistinctSites(dailyData[dayKey])
    ensures DistinctSites(CreditedBucket(dailyData, dayKey, site, elapsed))
  {
    var day := if dayKey in dailyData then dailyData[dayKey] else [];
    var ms := Lookup(day, site).GetOr(0) + elapsed;
    PutKeepsDistinct(day, site, ms);
    assert CreditedBucket(dailyData, dayKey, site, elapsed) == Put(day, site, ms);
  }

  /** Crediting adds `elapsed` to one key, created at 0, and changes no other key. */
  lemma AddMsFrame(m: map<string, int>, key: string, elapsed: int)
    ensures var r := AddMs(m, key, elapsed);
      && r.Keys == m.Keys + {key}
      && r[key] == (if key in m then m[key] else 0) + elapsed
      && (forall x :: x in m && x != key ==> r[x] == m[x])
  {
  }

  /**
   * Crediting `site` in the record of `dayKey` and then pruning before
   * `cutoffKey`: no key before the cutoff remains, every other day at or
   * after it keeps its record, and the credited day, when kept, has `site`
   * raised by `elapsed` and every other domain as it was.
   */
  lemma CreditDayFrame(dailyData: map<string, Bucket>, dayKey: string, site: string, elapsed: int,
                       cutoffKey: string)
    ensures var old_day := if dayKey in dailyData then dailyData[dayKey] else [];
            var r := Retain(dailyData[dayKey := CreditedBucket(dailyData, dayKey, site, elapsed)], cutoffKey);
      && (forall k :: k in r ==> !LexLess(k, cutoffKey))
      && (forall k :: k in r ==> k == dayKey || k in dailyData)
      && (forall k :: k in dailyData && k != dayKey && !LexLess(k, cutoffKey) ==> k in r && r[k] == dailyData[k])
      && (!LexLess(dayKey, cutoffKey) ==>
            && dayKey in r
            && Lookup(r[dayKey], site) == Some(Lookup(old_day, site).GetOr(0) + elapsed)
            && (forall x :: x != site ==> Lookup(r[dayKey], x) == Lookup(old_day, x)))
  {
  }

  /** The day records whose key is not before `cutoffKey`. */
  function Retain<V>(m: map<string, V>, cutoffKey: string): map<string, V> {
    map k | k in m && !LexLess(k, cutoffKey) :: m[k]
  }

  /**
   * Pruning with a cutoff makes any earlier pruning redundant: the records
   * kept under a later cutoff are the same whether or not an earlier cutoff
   * was applied first, so successive flushes with advancing cutoffs keep a
   * sliding window.
   */
  lemma RetainLaterCutoff<V>(m: map<string, V>, earlier: string, later: string)
    requires !LexLess(later, earlier)
    ensures Retain(Retain(m, earlier), later) == Retain(m, later)
  {
    forall k | k in m && !LexLess(k, later)
      ensures !LexLess(k, earlier)
    {
      LexLessTotal(earlier, later);
      if LexLess(k, earlier) {
        if earlier != later {
          LexLessTransitive(k, earlier, later);
        }
      }
    }
  }

  /**
   * The retention loop `for (key of Object.keys(m)) if (key < cutoffKey) delete m[key]`:
   * afterwards no key is before the cutoff, and every other record is kept as it was.
   */
  method Prune<V>(m: map<string, V>, cutoffKey: string) returns (r: map<string, V>)
    ensures forall k :: k in r <==> k in m && !LexLess(k, cutoffKey)
    ensures forall k :: k in r ==> r[k] == m[k]
    ensures r == Retain(m, cutoffKey)
  {
    r := m;
    var keys := m.Keys;
    while keys != {}
      invariant keys <= m.Keys
      invariant forall k :: k in r <==> k in m && (k in keys || !LexLess(k, cutoffKey))
      invariant forall k :: k in r ==> r[k] == m[k]
      decreases keys
    {
      var key :| key in keys;
      if LexLess(key, cutoffKey) {
        r := r - {key};
      }
      keys := keys - {key};
    }
  }
}
