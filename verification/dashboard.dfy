/** The vulnerability dashboard page: the CVE ordering, paging, the risk
    statistics, the severity and status bars, the CVSS distribution and the
    sort and load-more controls. */
module Dashboard {
  import opened Wrappers
  import opened Lists
  import opened Vulnerabilities
  import Helpers

  // ---------------------------------------------------------------------
  // CVE ordering
  // ---------------------------------------------------------------------

  /** CVEs published in 2024 or 2025 come first. */
  predicate Prioritized(d: PublishedDate) {
    d.year == 2025 || d.year == 2024
  }

  /** `customCveSort`: negative when `a` is to be shown before `b`. */
  function CompareCves(a: PublishedDate, b: PublishedDate): (r: int)
    ensures Prioritized(a) && !Prioritized(b) ==> r < 0
    ensures !Prioritized(a) && Prioritized(b) ==> r > 0
    ensures Prioritized(a) == Prioritized(b) && a.year != b.year ==> (r < 0 <==> a.year > b.year)
    ensures Prioritized(a) == Prioritized(b) && a.year == b.year ==> (r < 0 <==> a.time > b.time)
  {
    if Prioritized(a) && !Prioritized(b) then -1
    else if !Prioritized(a) && Prioritized(b) then 1
    else if a.year != b.year then b.year - a.year
    else b.time - a.time
  }

  /** The order the comparator describes: prioritised first, then later
      year, then later instant. */
  predicate ShownBefore(a: PublishedDate, b: PublishedDate) {
    (Prioritized(a) && !Prioritized(b)) ||
    (Prioritized(a) == Prioritized(b) && (a.year > b.year || (a.year == b.year && a.time > b.time)))
  }

  /** The comparator is consistent, as `Array.prototype.sort` needs: it is
      negative exactly on the strict order above, antisymmetric, zero only
      on equal keys, and that order is transitive. */
  lemma CompareCvesIsConsistent(a: PublishedDate, b: PublishedDate, c: PublishedDate)
    ensures CompareCves(a, b) < 0 <==> ShownBefore(a, b)
    ensures CompareCves(a, b) < 0 <==> CompareCves(b, a) > 0
    ensures CompareCves(a, b) == 0 <==> a == b
    ensures ShownBefore(a, b) && ShownBefore(b, c) ==> ShownBefore(a, c)
    ensures !ShownBefore(a, a)
  {
  }

  // ---------------------------------------------------------------------
  // Paging
  // ---------------------------------------------------------------------

  const PageSize := 500

  /** `Math.ceil(total_count / pageSize)`. */
  function TotalPages(totalCount: nat, pageSize: nat): (p: nat)
    requires pageSize > 0
    ensures p * pageSize >= totalCount
    ensures p > 0 ==> (p - 1) * pageSize < totalCount
  {
    var p := (totalCount + pageSize - 1) / pageSize;
    assert p * pageSize >= totalCount;
    p
  }

  /** Pages only as many as needed: 0 for no results, 1 for up to a page. */
  lemma TotalPagesExamples(pageSize: nat)
    requires pageSize > 0
    ensures TotalPages(0, pageSize) == 0
    ensures TotalPages(pageSize, pageSize) == 1
    ensures TotalPages(pageSize + 1, pageSize) == 2
  {
    Helpers.DivUnique(pageSize + 1 + pageSize - 1, pageSize, 2, 0);
    Helpers.DivUnique(pageSize + pageSize - 1, pageSize, 1, pageSize - 1);
  }

  /** The list after a page arrives: appended to, or replaced. */
  function MergePage(previous: seq<Vulnerability>, page: seq<Vulnerability>, append: bool): (r: seq<Vulnerability>)
    ensures append ==> |r| == |previous| + |page| && r[..|previous|] == previous && r[|previous|..] == page
    ensures !append ==> r == page
  {
    if append then previous + page else page
  }

  /** `handleLoadMore`: the page it asks for, if any. */
  function LoadMore(currentPage: nat, totalPages: nat, isLoadingMore: bool): (next: Option<nat>)
    ensures next.Some? <==> currentPage < totalPages && !isLoadingMore
    ensures next.Some? ==> next.value == currentPage + 1 && next.value <= totalPages
  {
    if currentPage < totalPages && !isLoadingMore then Some(currentPage + 1) else None
  }

  /** Loading more, one page at a time from page 1, never goes past the
      last page. */
  lemma LoadMoreStaysInRange(currentPage: nat, totalPages: nat)
    requires 1 <= currentPage <= totalPages || totalPages == 0
    ensures var n := LoadMore(currentPage, totalPages, false);
            n.Some? ==> 1 <= n.value <= totalPages
  {
  }

  // ---------------------------------------------------------------------
  // Sort control
  // ---------------------------------------------------------------------

  datatype Direction = Asc | Desc

  /** `handleSort`: the same field flips the direction, a new field sorts it
      descending. */
  function HandleSort(sortField: string, dir: Direction, field: string): (r: (string, Direction))
    ensures r.0 == field
    ensures field == sortField ==> r.1 != dir
    ensures field != sortField ==> r.1 == Desc
  {
    (field, if field == sortField then (if dir == Asc then Desc else Asc) else Desc)
  }

  /** Clicking the same header twice restores the direction. */
  lemma HandleSortTwice(sortField: string, dir: Direction, field: string)
    ensures var r := HandleSort(sortField, dir, field);
            HandleSort(r.0, r.1, field) == (field, if field == sortField then dir else Asc)
  {
  }

  // ---------------------------------------------------------------------
  // Risk statistics
  // ---------------------------------------------------------------------

  /** CVSS 9.0 and above, or 7.0 and above when the CVE is known exploited
      or has a proof of concept. */
  predicate HighRisk(v: Vulnerability) {
    v.cvss >= 90 || (v.isKev && v.cvss >= 70) || (v.hasPoc && v.cvss >= 70)
  }

  predicate Exploitable(v: Vulnerability) {
    v.hasPoc || v.hasTemplate
  }

  datatype RiskStats = RiskStats(highRiskCount: nat, hasPocCount: nat, exploitPercent: nat)

  /** `setRiskStats`. */
  function ComputeRiskStats(vs: seq<Vulnerability>): (s: RiskStats)
    ensures s.highRiskCount == |Filter(vs, HighRisk)| <= |vs|
    ensures s.hasPocCount == |Filter(vs, Exploitable)| <= |vs|
    ensures s.exploitPercent <= 100 && (|vs| == 0 ==> s.exploitPercent == 0)
    ensures |vs| > 0 ==> 2 * |vs| * s.exploitPercent <= 200 * s.hasPocCount + |vs| < 2 * |vs| * s.exploitPercent + 2 * |vs|
  {
    var exploitable := CountIf(vs, Exploitable);
    RiskStats(CountIf(vs, HighRisk), exploitable, Helpers.RoundedPercent(exploitable, |vs|))
  }

  /** The high-risk rule: a score of 9.0 suffices; between 7.0 and 9.0 it
      takes a known exploit or a proof of concept; below 7.0 nothing does.
      Raising a score never makes a CVE less risky. */
  lemma HighRiskRule(v: Vulnerability, higher: int)
    ensures HighRisk(v) <==> v.cvss >= 90 || (v.cvss >= 70 && (v.isKev || v.hasPoc))
    ensures v.cvss < 70 ==> !HighRisk(v)
    ensures HighRisk(v) && higher >= v.cvss ==> HighRisk(v.(cvss := higher))
  {
  }

  // ---------------------------------------------------------------------
  // Severity and status bars
  // ---------------------------------------------------------------------

  /** The severity bars: CRITICAL, HIGH, MEDIUM, LOW, and UNKNOWN, which
      also takes an empty severity. */
  const SeverityBars: seq<string> := ["CRITICAL", "HIGH", "MEDIUM", "LOW", "UNKNOWN"]

  /** The bar a vulnerability is counted in. */
  predicate InSeverityBar(v: Vulnerability, bar: string) {
    if bar == "UNKNOWN" then v.severity == "" || v.severity == "UNKNOWN" else v.severity == bar
  }

  function BarTest(bar: string): Vulnerability -> bool {
    (v: Vulnerability) => InSeverityBar(v, bar)
  }

  function SeverityData(vs: seq<Vulnerability>): (r: seq<(string, nat)>)
    ensures |r| == |SeverityBars|
    ensures forall i :: 0 <= i < |r| ==> r[i].0 == SeverityBars[i] && r[i].1 == CountIf(vs, BarTest(SeverityBars[i]))
  {
    seq(|SeverityBars|, i requires 0 <= i < |SeverityBars| => (SeverityBars[i], CountIf(vs, BarTest(SeverityBars[i]))))
  }

  function BarTotal(r: seq<(string, nat)>): nat
    decreases |r|
  {
    if |r| == 0 then 0 else r[0].1 + BarTotal(r[1..])
  }

  lemma BarTotalOfFive(r: seq<(string, nat)>)
    requires |r| == 5
    ensures BarTotal(r) == r[0].1 + r[1].1 + r[2].1 + r[3].1 + r[4].1
  {
    var r1, r2, r3, r4 := r[1..], r[2..], r[3..], r[4..];
    assert r1[1..] == r2 && r2[1..] == r3 && r3[1..] == r4 && r4[1..] == [];
    assert BarTotal(r4) == r[4].1;
    assert BarTotal(r3) == r[3].1 + r[4].1;
    assert BarTotal(r2) == r[2].1 + r[3].1 + r[4].1;
  }

  /** A vulnerability whose severity is one of the five words or empty lies
      in exactly one bar. */
  predicate KnownSeverity(v: Vulnerability) {
    v.severity in {"CRITICAL", "HIGH", "MEDIUM", "LOW", "UNKNOWN", ""}
  }

  /** The bars never count a vulnerability twice, and count every one whose
      severity is known. */
  lemma {:induction false} SeverityBarsPartition(vs: seq<Vulnerability>)
    ensures BarTotal(SeverityData(vs)) == CountIf(vs, KnownSeverity)
    decreases |vs|
  {
    BarTotalOfFive(SeverityData(vs));
    if |vs| > 0 {
      var init := vs[..|vs| - 1];
      SeverityBarsPartition(init);
      BarTotalOfFive(SeverityData(init));
    }
  }

  /** The status bars. */
  const StatusBars: seq<string> := ["OPEN", "IN_PROGRESS", "CLOSED"]

  function StatusData(vs: seq<Vulnerability>): (r: seq<(string, nat)>)
    ensures |r| == |StatusBars|
    ensures forall i :: 0 <= i < |r| ==> r[i].0 == StatusBars[i] && r[i].1 == |Filter(vs, (v: Vulnerability) => v.status == StatusBars[i])|
  {
    seq(|StatusBars|, i requires 0 <= i < |StatusBars| => (StatusBars[i], CountIf(vs, (v: Vulnerability) => v.status == StatusBars[i])))
  }

  // ---------------------------------------------------------------------
  // CVSS distribution (scores in tenths)
  // ---------------------------------------------------------------------

  /** The bucket of a score: 0 for [0, 4], 1 for (4, 7], 2 for (7, 9], 3 for
      (9, 10]; `None` outside [0, 10]. */
  function CvssBucket(score: int): (b: Option<nat>)
    ensures b.Some? <==> 0 <= score <= 100
    ensures b.Some? ==> b.value < 4
    ensures b == Some(0) <==> 0 <= score <= 40
    ensures b == Some(1) <==> 40 < score <= 70
    ensures b == Some(2) <==> 70 < score <= 90
    ensures b == Some(3) <==> 90 < score <= 100
  {
    if 0 <= score <= 40 then Some(0)
    else if 40 < score <= 70 then Some(1)
    else if 70 < score <= 90 then Some(2)
    else if 90 < score <= 100 then Some(3)
    else None
  }

  predicate InBucket(v: Vulnerability, b: nat) {
    CvssBucket(v.cvss) == Some(b)
  }

  function BucketTest(b: nat): Vulnerability -> bool {
    (v: Vulnerability) => InBucket(v, b)
  }

  predicate InCvssRange(v: Vulnerability) {
    0 <= v.cvss <= 100
  }

  /** `calculateCvssDistribution`: the four bucket counts. */
  function CvssDistribution(vs: seq<Vulnerability>): (d: seq<nat>)
    ensures |d| == 4
    ensures forall b :: 0 <= b < 4 ==> d[b] == CountIf(vs, BucketTest(b))
    ensures |vs| == 0 ==> d == [0, 0, 0, 0]
  {
    if |vs| == 0 then [0, 0, 0, 0]
    else seq(4, b requires 0 <= b < 4 => CountIf(vs, BucketTest(b)))
  }

  /** The buckets are disjoint and cover [0, 10]: the four counts add up to
      the number of scores in range. */
  lemma {:induction false} CvssDistributionPartition(vs: seq<Vulnerability>)
    ensures var d := CvssDistribution(vs); d[0] + d[1] + d[2] + d[3] == CountIf(vs, InCvssRange)
    decreases |vs|
  {
    if |vs| > 0 {
      CvssDistributionPartition(vs[..|vs| - 1]);
    }
  }
}
