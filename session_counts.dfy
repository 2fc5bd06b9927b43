/** The date-to-count dictionary behind the heatmap: one entry per day on
    which a work session was completed. */
module SessionCounts {
  import opened Heatmap

  /** The dictionary after `_dailySessionCounts[today]++`, where a missing
      entry is first created with 0. */
  function RecordSession(counts: map<int, int>, today: int): (r: map<int, int>)
    ensures r.Keys == counts.Keys + {today}
    ensures CountOn(r, today) == CountOn(counts, today) + 1
    ensures forall d :: d != today ==> CountOn(r, d) == CountOn(counts, d)
  {
    var c := if today in counts then counts[today] else 0;
    counts[today := c + 1]
  }

  /** Every entry of the dictionary records at least one session. */
  predicate AllPositive(counts: map<int, int>) {
    forall d :: d in counts ==> counts[d] >= 1
  }

  /** The sum of all counts in the dictionary. */
  ghost function TotalCount(counts: map<int, int>): int
    decreases |counts.Keys|
  {
    if counts == map[] then 0
    else
      HasKey(counts);
      var d :| d in counts;
      counts[d] + TotalCount(counts - {d})
  }

  lemma HasKey(counts: map<int, int>)
    requires counts != map[]
    ensures exists d :: d in counts
  {
    assert (forall d :: d !in counts) ==> counts == map[];
  }

  /** The sum can be split at any key. */
  lemma {:induction false} TotalCountSplit(counts: map<int, int>, d: int)
    requires d in counts
    ensures TotalCount(counts) == counts[d] + TotalCount(counts - {d})
    decreases |counts.Keys|
  {
    HasKey(counts);
    var e :| e in counts && TotalCount(counts) == counts[e] + TotalCount(counts - {e});
    if e != d {
      var rest := counts - {e};
      TotalCountSplit(rest, d);
      var both := rest - {d};
      TotalCountSplit(counts - {d}, e);
      assert (counts - {d}) - {e} == both;
    }
  }

  /** Recording a session adds exactly one to the total and keeps every
      entry positive. */
  lemma RecordSessionTotal(counts: map<int, int>, today: int)
    ensures TotalCount(RecordSession(counts, today)) == TotalCount(counts) + 1
    ensures AllPositive(counts) ==> AllPositive(RecordSession(counts, today))
  {
    var r := RecordSession(counts, today);
    TotalCountSplit(r, today);
    if today in counts {
      TotalCountSplit(counts, today);
      assert r - {today} == counts - {today};
    } else {
      assert r - {today} == counts;
    }
  }
}
