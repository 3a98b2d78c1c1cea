/** The vulnerability helpers of the front end: the headline summary,
    per-value tallies, top-N rankings, the severity and status colours and
    their French labels. */
module Helpers {
  import opened Text
  import opened Lists
  import opened Vulnerabilities

  // ---------------------------------------------------------------------
  // Rounded percentages
  // ---------------------------------------------------------------------

  /** `Math.round(k / n * 100)`, or 0 for an empty list, taken on the exact
      ratio: the nearest integer to `100 * k / n`, halves rounded up. The
      source divides and multiplies in doubles first, which can fall just
      short of a half (23 of 40 gives 57.49999999999999, so 57 where this
      gives 58). */
  function RoundedPercent(k: nat, n: nat): (p: nat)
    requires k <= n
    ensures n == 0 ==> p == 0
    ensures n > 0 ==> 2 * n * p <= 200 * k + n < 2 * n * p + 2 * n
    ensures p <= 100
  {
    if n == 0 then 0
    else
      DivBounds(200 * k + n, 2 * n);
      QuotientAtMost(200 * k + n, 2 * n, 100);
      (200 * k + n) / (2 * n)
  }

  /** Euclidean division brackets its dividend. */
  lemma DivBounds(a: nat, b: nat)
    requires b > 0
    ensures b * (a / b) <= a < b * (a / b) + b
  {
  }

  /** A dividend below `d * (b + 1)` has a quotient of at most `b`. */
  lemma QuotientAtMost(a: nat, d: nat, b: nat)
    requires d > 0 && a < d * (b + 1)
    ensures a / d <= b
  {
    DivBounds(a, d);
    if a / d > b {
      MulLe(d, b + 1, a / d);
    }
  }

  lemma MulLe(c: nat, x: int, y: int)
    requires x <= y
    ensures c * x <= c * y
  {
    assert c * y - c * x == c * (y - x);
  }

  lemma MulSucc(c: nat, x: int)
    ensures c * (x + 1) == c * x + c
  {
  }

  /** The rounding is monotone in the count. */
  lemma RoundedPercentMonotone(k1: nat, k2: nat, n: nat)
    requires k1 <= k2 <= n
    ensures RoundedPercent(k1, n) <= RoundedPercent(k2, n)
  {
    if n > 0 {
      var p1, p2 := RoundedPercent(k1, n), RoundedPercent(k2, n);
      if p1 > p2 {
        MulSucc(2 * n, p2);
        MulLe(2 * n, p2 + 1, p1);
      }
    }
  }

  /** None of `n` is 0 percent and all of it is 100 percent. */
  lemma RoundedPercentEnds(n: nat)
    requires n > 0
    ensures RoundedPercent(0, n) == 0 && RoundedPercent(n, n) == 100
  {
    DivUnique(200 * 0 + n, 2 * n, 0, n);
    DivUnique(200 * n + n, 2 * n, 100, n);
  }

  lemma DivUnique(a: int, d: int, q: int, r: int)
    requires d > 0 && 0 <= r < d && a == q * d + r
    ensures a / d == q
  {
    var q', r' := a / d, a % d;
    assert a == q' * d + r';
    if q' > q {
      MulMonoInt(q + 1, q', d);
    } else if q' < q {
      MulMonoInt(q' + 1, q, d);
    }
  }

  lemma MulMonoInt(a: int, b: int, n: nat)
    requires a <= b
    ensures a * n <= b * n
  {
    assert b * n - a * n == (b - a) * n;
  }

  // ---------------------------------------------------------------------
  // Headline summary
  // ---------------------------------------------------------------------

  datatype Summary = Summary(total: nat, critical: nat, closed: nat, inProgress: nat, open: nat, percentageClosed: nat)

  predicate IsCritical(v: Vulnerability) { v.severity == "CRITICAL" }
  predicate IsClosed(v: Vulnerability) { v.status == "CLOSED" }
  predicate IsInProgress(v: Vulnerability) { v.status == "IN_PROGRESS" }
  predicate IsOpen(v: Vulnerability) { v.status == "OPEN" }

  /** `calculateVulnerabilitySummary`. */
  function VulnerabilitySummary(vs: seq<Vulnerability>): (s: Summary)
    ensures s.total == |vs|
    ensures s.critical == |Filter(vs, IsCritical)| && s.closed == |Filter(vs, IsClosed)|
    ensures s.inProgress == |Filter(vs, IsInProgress)| && s.open == |Filter(vs, IsOpen)|
    ensures s.closed + s.inProgress + s.open <= s.total
    ensures s.percentageClosed <= 100 && (s.total == 0 ==> s.percentageClosed == 0)
    ensures s.total > 0 ==> 2 * s.total * s.percentageClosed <= 200 * s.closed + s.total < 2 * s.total * s.percentageClosed + 2 * s.total
  {
    var closed := CountIf(vs, IsClosed);
    var inProgress := CountIf(vs, IsInProgress);
    var open := CountIf(vs, IsOpen);
    StatusCountsBounded(vs);
    Summary(|vs|, CountIf(vs, IsCritical), closed, inProgress, open, RoundedPercent(closed, |vs|))
  }

  /** The three statuses exclude each other, so their counts add up to at
      most the number of vulnerabilities. */
  lemma {:induction false} StatusCountsBounded(vs: seq<Vulnerability>)
    ensures CountIf(vs, IsClosed) + CountIf(vs, IsInProgress) + CountIf(vs, IsOpen) <= |vs|
    decreases |vs|
  {
    if |vs| > 0 {
      StatusCountsBounded(vs[..|vs| - 1]);
    }
  }

  // ---------------------------------------------------------------------
  // Tallies: `reduce` into a record of counts, then `Object.entries`
  // ---------------------------------------------------------------------

  /** The counts of a tally, one entry per distinct value, in the order the
      values were first met. */
  type Tally = seq<(string, nat)>

  function Keys(t: Tally): set<string>
    decreases |t|
  {
    if |t| == 0 then {} else {t[0].0} + Keys(t[1..])
  }

  predicate DistinctKeys(t: Tally)
    decreases |t|
  {
    |t| == 0 || (t[0].0 !in Keys(t[1..]) && DistinctKeys(t[1..]))
  }

  predicate Positive(t: Tally) {
    forall p :: p in t ==> p.1 > 0
  }

  /** The count recorded for `k`, 0 when it has no entry. */
  function CountFor(t: Tally, k: string): nat
    decreases |t|
  {
    if |t| == 0 then 0 else if t[0].0 == k then t[0].1 else CountFor(t[1..], k)
  }

  function Total(t: Tally): nat
    decreases |t|
  {
    if |t| == 0 then 0 else t[0].1 + Total(t[1..])
  }

  /** `acc[x] = (acc[x] || 0) + 1`: the entry for `x` is incremented, or a
      new entry with count 1 is added at the end. */
  function Bump(t: Tally, x: string): (r: Tally)
    ensures x in Keys(t) ==> |r| == |t|
    ensures x !in Keys(t) ==> r == t + [(x, 1)]
    decreases |t|
  {
    if |t| == 0 then [(x, 1)]
    else if t[0].0 == x then [(x, t[0].1 + 1)] + t[1..]
    else [t[0]] + Bump(t[1..], x)
  }

  lemma {:induction false} BumpCount(t: Tally, x: string, k: string)
    ensures CountFor(Bump(t, x), k) == CountFor(t, k) + (if k == x then 1 else 0)
    decreases |t|
  {
    if |t| > 0 {
      var r := Bump(t, x);
      if t[0].0 == x {
        assert r[1..] == t[1..];
      } else {
        assert r[1..] == Bump(t[1..], x);
        BumpCount(t[1..], x, k);
      }
    }
  }

  lemma {:induction false} BumpShape(t: Tally, x: string)
    ensures Keys(Bump(t, x)) == Keys(t) + {x}
    ensures Total(Bump(t, x)) == Total(t) + 1
    ensures DistinctKeys(t) ==> DistinctKeys(Bump(t, x))
    ensures Positive(t) ==> Positive(Bump(t, x))
    decreases |t|
  {
    if |t| > 0 {
      var r := Bump(t, x);
      if t[0].0 == x {
        assert r[1..] == t[1..];
      } else {
        assert r[1..] == Bump(t[1..], x);
        BumpShape(t[1..], x);
      }
    } else {
      assert Bump(t, x)[1..] == [];
    }
  }

  /** The tally of `xs`: every value of `xs` exactly once, with its number of
      occurrences. */
  function TallyOf(xs: seq<string>): (t: Tally)
    ensures DistinctKeys(t)
    ensures Keys(t) == set x | x in xs
    ensures forall k :: CountFor(t, k) == Occurrences(xs, k)
    ensures Total(t) == |xs|
    ensures Positive(t)
    decreases |xs|
  {
    if |xs| == 0 then []
    else
      var init := xs[..|xs| - 1];
      var last := xs[|xs| - 1];
      assert xs == init + [last];
      assert (set x | x in xs) == (set x | x in init) + {last};
      var t := TallyOf(init);
      BumpShape(t, last);
      forall k ensures CountFor(Bump(t, last), k) == Occurrences(xs, k) {
        BumpCount(t, last, k);
      }
      Bump(t, last)
  }

  lemma {:induction false} KeyOfEntry(t: Tally, i: nat)
    requires i < |t|
    ensures t[i].0 in Keys(t)
    decreases i
  {
    if i > 0 {
      KeyOfEntry(t[1..], i - 1);
    }
  }

  /** With distinct keys, an entry's count is the count recorded for its
      key. */
  lemma {:induction false} EntryCount(t: Tally, i: nat)
    requires DistinctKeys(t) && i < |t|
    ensures CountFor(t, t[i].0) == t[i].1
    decreases i
  {
    if i > 0 {
      KeyOfEntry(t[1..], i - 1);
      EntryCount(t[1..], i - 1);
    }
  }

  /** Every key has an entry. */
  lemma {:induction false} EntryOfKey(t: Tally, k: string)
    requires k in Keys(t)
    ensures exists i :: 0 <= i < |t| && t[i].0 == k
    decreases |t|
  {
    if t[0].0 != k {
      EntryOfKey(t[1..], k);
      var i :| 0 <= i < |t[1..]| && t[1..][i].0 == k;
      assert t[i + 1].0 == k;
    }
  }

  /** `calculateSeveritySummary` and `calculateStatusSummary`. */
  function SeveritySummary(vs: seq<Vulnerability>): (t: Tally)
    ensures DistinctKeys(t) && Total(t) == |vs|
    ensures forall i :: 0 <= i < |t| ==> t[i].1 == Occurrences(Severities(vs), t[i].0) && t[i].1 >= 1
    ensures forall v :: v in vs ==> v.severity in Keys(t)
  {
    var t := TallyOf(Severities(vs));
    forall i | 0 <= i < |t| ensures t[i].1 == Occurrences(Severities(vs), t[i].0) && t[i].1 >= 1 {
      EntryCount(t, i);
      assert t[i] in t;
    }
    forall v | v in vs ensures v.severity in Keys(t) {
      var j :| 0 <= j < |vs| && vs[j] == v;
      assert Severities(vs)[j] == v.severity;
      assert v.severity in Severities(vs);
    }
    t
  }

  function StatusSummary(vs: seq<Vulnerability>): (t: Tally)
    ensures DistinctKeys(t) && Total(t) == |vs|
    ensures forall i :: 0 <= i < |t| ==> t[i].1 == Occurrences(Statuses(vs), t[i].0) && t[i].1 >= 1
    ensures forall v :: v in vs ==> v.status in Keys(t)
  {
    var t := TallyOf(Statuses(vs));
    forall i | 0 <= i < |t| ensures t[i].1 == Occurrences(Statuses(vs), t[i].0) && t[i].1 >= 1 {
      EntryCount(t, i);
      assert t[i] in t;
    }
    forall v | v in vs ensures v.status in Keys(t) {
      var j :| 0 <= j < |vs| && vs[j] == v;
      assert Statuses(vs)[j] == v.status;
      assert v.status in Statuses(vs);
    }
    t
  }

  // ---------------------------------------------------------------------
  // Top-N rankings: a stable sort by decreasing count, then `slice(0, limit)`
  // ---------------------------------------------------------------------

  predicate SortedByCount(t: Tally) {
    forall i, j :: 0 <= i < j < |t| ==> t[i].1 >= t[j].1
  }

  /** Inserts `x` after every entry whose count is at least its own, which
      keeps entries of equal count in their original order. */
  function InsertByCount(s: Tally, x: (string, nat)): (r: Tally)
    ensures |r| == |s| + 1
    decreases |s|
  {
    if |s| == 0 then [x]
    else if s[0].1 >= x.1 then [s[0]] + InsertByCount(s[1..], x)
    else [x] + s
  }

  lemma {:induction false} InsertByCountElements(s: Tally, x: (string, nat))
    ensures multiset(InsertByCount(s, x)) == multiset(s) + multiset{x}
    decreases |s|
  {
    if |s| > 0 && s[0].1 >= x.1 {
      InsertByCountElements(s[1..], x);
      assert s == [s[0]] + s[1..];
    }
  }

  lemma {:induction false} InsertByCountSorted(s: Tally, x: (string, nat))
    requires SortedByCount(s)
    ensures SortedByCount(InsertByCount(s, x))
    decreases |s|
  {
    if |s| > 0 && s[0].1 >= x.1 {
      var rest := InsertByCount(s[1..], x);
      InsertByCountSorted(s[1..], x);
      InsertByCountMembers(s[1..], x);
      var r := [s[0]] + rest;
      assert r == InsertByCount(s, x);
      forall i, j | 0 <= i < j < |r| ensures r[i].1 >= r[j].1 {
        if i == 0 {
          assert r[j] == rest[j - 1];
          assert rest[j - 1] == x || s[0].1 >= rest[j - 1].1;
        } else {
          assert r[i] == rest[i - 1] && r[j] == rest[j - 1];
        }
      }
    } else if |s| > 0 {
      var r := [x] + s;
      assert r == InsertByCount(s, x);
      forall i, j | 0 <= i < j < |r| ensures r[i].1 >= r[j].1 {
        assert r[j] == s[j - 1];
        if i > 0 {
          assert r[i] == s[i - 1];
        }
      }
    }
  }

  /** Every entry of the insertion is `x` or an entry of `s` that counts
      at most as much as the first one. */
  lemma {:induction false} InsertByCountMembers(s: Tally, x: (string, nat))
    requires SortedByCount(s)
    ensures forall k :: 0 <= k < |InsertByCount(s, x)| ==>
              InsertByCount(s, x)[k] == x || (|s| > 0 && s[0].1 >= InsertByCount(s, x)[k].1)
    decreases |s|
  {
    if |s| > 0 && s[0].1 >= x.1 && |s| > 1 {
      InsertByCountMembers(s[1..], x);
    }
  }

  /** `entries.sort((a, b) => b.count - a.count)`; the sort is stable. */
  function SortByCount(t: Tally): (r: Tally)
    ensures SortedByCount(r)
    ensures multiset(r) == multiset(t)
    ensures |r| == |t|
    decreases |t|
  {
    if |t| == 0 then []
    else
      var init := SortByCount(t[..|t| - 1]);
      assert t == t[..|t| - 1] + [t[|t| - 1]];
      InsertByCountSorted(init, t[|t| - 1]);
      InsertByCountElements(init, t[|t| - 1]);
      InsertByCount(init, t[|t| - 1])
  }

  /** The end index of `slice(0, limit)`: a negative limit counts from the
      end. */
  function SliceEnd(n: nat, limit: int): (e: nat)
    ensures e <= n
    ensures 0 <= limit ==> e == if limit < n then limit else n
    ensures limit < 0 ==> e == if n + limit > 0 then n + limit else 0
  {
    if limit >= 0 then (if limit < n then limit else n)
    else if n + limit > 0 then n + limit else 0
  }

  lemma SplitElements(s: Tally, e: nat)
    requires e <= |s|
    ensures multiset(s) == multiset(s[..e]) + multiset(s[e..])
  {
    assert s == s[..e] + s[e..];
  }

  /** In a list sorted by decreasing count, every entry of a prefix counts
      at least as much as every entry after it. */
  lemma PrefixOfSortedIsTop(s: Tally, e: nat)
    requires SortedByCount(s) && e <= |s|
    ensures SortedByCount(s[..e])
    ensures forall p, q :: p in s[..e] && q in multiset(s[e..]) ==> p.1 >= q.1
  {
    forall p, q | p in s[..e] && q in multiset(s[e..]) ensures p.1 >= q.1 {
      var i :| 0 <= i < e && s[..e][i] == p;
      assert q in s[e..];
      var j :| 0 <= j < |s[e..]| && s[e..][j] == q;
      assert s[i] == p && s[e + j] == q;
    }
  }

  /** The top entries of a tally. */
  function TopN(t: Tally, limit: int): (r: Tally)
    ensures SortedByCount(r)
    ensures |r| == SliceEnd(|t|, limit)
    ensures multiset(r) <= multiset(t)
    ensures forall p, q :: p in r && q in multiset(t) - multiset(r) ==> p.1 >= q.1
  {
    var s := SortByCount(t);
    var e := SliceEnd(|t|, limit);
    SplitElements(s, e);
    PrefixOfSortedIsTop(s, e);
    assert multiset(t) - multiset(s[..e]) == multiset(s[e..]);
    s[..e]
  }

  /** `getTopVendors`: every ranked vendor with its number of
      vulnerabilities, most frequent first. */
  function TopVendors(vs: seq<Vulnerability>, limit: int): (r: Tally)
    ensures SortedByCount(r)
    ensures |r| <= |vs| && |r| == SliceEnd(|TallyOf(Vendors(vs))|, limit)
    ensures forall i :: 0 <= i < |r| ==> r[i].1 == Occurrences(Vendors(vs), r[i].0) && r[i].0 in Vendors(vs)
  {
    RankedCounts(Vendors(vs), limit)
  }

  /** `getTopProducts`. */
  function TopProducts(vs: seq<Vulnerability>, limit: int): (r: Tally)
    ensures SortedByCount(r)
    ensures |r| <= |vs| && |r| == SliceEnd(|TallyOf(Products(vs))|, limit)
    ensures forall i :: 0 <= i < |r| ==> r[i].1 == Occurrences(Products(vs), r[i].0) && r[i].0 in Products(vs)
  {
    RankedCounts(Products(vs), limit)
  }

  function RankedCounts(xs: seq<string>, limit: int): (r: Tally)
    ensures SortedByCount(r)
    ensures |r| <= |xs| && |r| == SliceEnd(|TallyOf(xs)|, limit)
    ensures forall i :: 0 <= i < |r| ==> r[i].1 == Occurrences(xs, r[i].0) && r[i].0 in xs
  {
    var t := TallyOf(xs);
    var r := TopN(t, limit);
    TallyLength(t, xs);
    forall i | 0 <= i < |r| ensures r[i].1 == Occurrences(xs, r[i].0) && r[i].0 in xs {
      assert r[i] in multiset(t);
      var j :| 0 <= j < |t| && t[j] == r[i];
      EntryCount(t, j);
      KeyOfEntry(t, j);
    }
    r
  }

  /** The ranking keeps the most frequent values: a value of `xs` that is
      not ranked occurs no more often than any ranked one. */
  lemma RankedCountsKeepMostFrequent(xs: seq<string>, limit: int, x: string, i: nat)
    requires x in xs && i < |RankedCounts(xs, limit)|
    requires forall j :: 0 <= j < |RankedCounts(xs, limit)| ==> RankedCounts(xs, limit)[j].0 != x
    ensures Occurrences(xs, x) <= RankedCounts(xs, limit)[i].1
  {
    UnrankedCountAtMost(xs, RankedCounts(xs, limit), x, i);
  }

  /** A value left out of a top-N cut occurs no more often than any value
      kept. */
  lemma UnrankedCountAtMost(xs: seq<string>, r: Tally, x: string, i: nat)
    requires forall p, q :: p in r && q in multiset(TallyOf(xs)) - multiset(r) ==> p.1 >= q.1
    requires x in xs && i < |r| && forall j :: 0 <= j < |r| ==> r[j].0 != x
    ensures Occurrences(xs, x) <= r[i].1
  {
    var t := TallyOf(xs);
    EntryOfKey(t, x);
    var j :| 0 <= j < |t| && t[j].0 == x;
    EntryCount(t, j);
    assert t[j] !in r;
    assert t[j] in multiset(t) - multiset(r);
    assert r[i] in r;
  }


  /** A tally has at most as many entries as values were counted. */
  lemma {:induction false} TallyLength(t: Tally, xs: seq<string>)
    requires Positive(t)
    requires Total(t) == |xs|
    ensures |t| <= |xs|
  {
    TotalAtLeastLength(t);
  }

  lemma {:induction false} TotalAtLeastLength(t: Tally)
    requires Positive(t)
    ensures Total(t) >= |t|
    decreases |t|
  {
    if |t| > 0 {
      assert t[0] in t;
      TotalAtLeastLength(t[1..]);
    }
  }

  // ---------------------------------------------------------------------
  // Colours and labels
  // ---------------------------------------------------------------------

  const Gray := "#6b7280"

  /** The severities with a colour of their own. */
  const ColouredSeverities := {"CRITICAL", "HIGH", "MEDIUM", "LOW", "UNKNOWN", "NONE", "N/A"}

  /** `getSeverityColor`. */
  function SeverityColor(severity: string): (c: string)
    ensures c in {"#b91c1c", "#ea580c", "#eab308", "#1d4ed8", Gray, "#9ca3af", "#d1d5db"}
    ensures Upper(severity) !in ColouredSeverities ==> c == Gray
  {
    var s := Upper(severity);
    if s == "CRITICAL" then "#b91c1c"
    else if s == "HIGH" then "#ea580c"
    else if s == "MEDIUM" then "#eab308"
    else if s == "LOW" then "#1d4ed8"
    else if s == "UNKNOWN" then Gray
    else if s == "NONE" then "#9ca3af"
    else if s == "N/A" then "#d1d5db"
    else Gray
  }

  /** The colour ignores case, and a severity without a colour of its own is
      drawn like `UNKNOWN`. */
  lemma SeverityColorIgnoresCase(severity: string)
    ensures SeverityColor(Upper(severity)) == SeverityColor(severity)
    ensures Upper(severity) !in ColouredSeverities ==> SeverityColor(severity) == SeverityColor("UNKNOWN")
  {
    UpperIdempotent(severity);
    assert Upper("UNKNOWN") == "UNKNOWN";
  }

  /** Distinct known severities get distinct colours, except that
      `UNKNOWN` shares the fallback grey. */
  lemma SeverityColorsDistinct(a: string, b: string)
    requires a in ColouredSeverities && b in ColouredSeverities && a != b
    ensures SeverityColor(a) != SeverityColor(b)
  {
    UpperOfUpperCaseWord(a);
    UpperOfUpperCaseWord(b);
  }

  /** The severity and status words are already upper-case. */
  lemma UpperOfUpperCaseWord(w: string)
    requires w in ColouredSeverities || w in StatusWords
    ensures Upper(w) == w
  {
  }

  const StatusWords := {"OPEN", "CLOSED", "IN_PROGRESS"}

  /** `getStatusColor`. */
  function StatusColor(status: string): (c: string)
    ensures c in {"#b91c1c", "#16a34a", "#d97706", Gray}
    ensures c == Gray <==> Upper(status) !in StatusWords
  {
    var s := Upper(status);
    if s == "OPEN" then "#b91c1c"
    else if s == "CLOSED" then "#16a34a"
    else if s == "IN_PROGRESS" then "#d97706"
    else Gray
  }

  lemma StatusColorIgnoresCase(status: string)
    ensures StatusColor(Upper(status)) == StatusColor(status)
  {
    UpperIdempotent(status);
  }

  /** `translateSeverity`: a French label for the four graded severities,
      the input itself (case untouched) for anything else. */
  function TranslateSeverity(severity: string): (r: string)
    ensures Upper(severity) !in {"CRITICAL", "HIGH", "MEDIUM", "LOW"} ==> r == severity
    ensures Upper(severity) in {"CRITICAL", "HIGH", "MEDIUM", "LOW"} ==> r in {"Critique", "Élevée", "Moyenne", "Faible"}
  {
    var s := Upper(severity);
    if s == "CRITICAL" then "Critique"
    else if s == "HIGH" then "Élevée"
    else if s == "MEDIUM" then "Moyenne"
    else if s == "LOW" then "Faible"
    else severity
  }

  /** `translateStatus`. */
  function TranslateStatus(status: string): (r: string)
    ensures Upper(status) !in StatusWords ==> r == status
    ensures Upper(status) in StatusWords ==> r in {"Ouvert", "Fermé", "En cours"}
  {
    var s := Upper(status);
    if s == "OPEN" then "Ouvert"
    else if s == "CLOSED" then "Fermé"
    else if s == "IN_PROGRESS" then "En cours"
    else status
  }

  /** A recognised value is translated whatever its case; translating a
      translation leaves it alone. */
  lemma TranslationsIgnoreCase(severity: string, status: string)
    ensures Upper(severity) in {"CRITICAL", "HIGH", "MEDIUM", "LOW"} ==>
              TranslateSeverity(Upper(severity)) == TranslateSeverity(severity)
    ensures Upper(status) in StatusWords ==> TranslateStatus(Upper(status)) == TranslateStatus(status)
    ensures TranslateStatus(TranslateStatus(status)) == TranslateStatus(status)
  {
    UpperIdempotent(severity);
    UpperIdempotent(status);
    var t := TranslateStatus(status);
    if Upper(status) in StatusWords {
      assert Upper(t) !in StatusWords by {
        assert Upper(t)[1] == UpperChar(t[1]);
      }
    }
  }
}
