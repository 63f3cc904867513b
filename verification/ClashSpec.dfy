/**
  Clash detection over the rows of a table: which pairs are compared, which are reported, and how
  the report relates to the rows. Each row carries its index label; the code compares labels.
 */
module ClashSpec {
  import opened Common
  import opened Decimals
  import opened ClashGeometry

  datatype Element = Element(index: nat, id: Option<string>, category: Option<string>, min: Option<Point>, max: Option<Point>)

  datatype Severity = Critical | Major | Minor

  datatype ClashType = HardClash | SoftClash

  datatype Clash = Clash(clashId: string, element1: Option<string>, element2: Option<string>,
                         clashType: ClashType, severity: Severity, volume: real, location: Point)

  datatype Resolution = Resolution(clashId: string, priority: nat)

  const CRITICAL_CATEGORIES: set<string> := {"Structural Columns", "Structural Framing", "Electrical Equipment"}

  /** Missing corners default to those of the unit cube. */
  function BoxOf(e: Element): Box {
    Box(if e.min.Some? then e.min.value else Point(0.0, 0.0, 0.0), if e.max.Some? then e.max.value else Point(1.0, 1.0, 1.0))
  }

  function VolumeOf(e: Element, f: Element): real { OverlapVolume(BoxOf(e), BoxOf(f)) }

  predicate IsCritical(e: Element) { e.category.Some? && e.category.value in CRITICAL_CATEGORIES }

  function SeverityOf(volume: real, e: Element, f: Element): Severity {
    if IsCritical(e) || IsCritical(f) then Critical else if volume > 0.1 then Major else Minor
  }

  function ClashId(i: nat, j: nat): string { "clash_" + Decimal(i) + "_" + Decimal(j) }

  function ClashOf(e: Element, f: Element, tolerance: real): Clash {
    var volume := VolumeOf(e, f);
    Clash(ClashId(e.index, f.index), e.id, f.id, if volume > tolerance then HardClash else SoftClash,
          SeverityOf(volume, e, f), volume, Center(BoxOf(e), BoxOf(f)))
  }

  /** The pair is compared, and found to clash. */
  predicate Clashes(e: Element, f: Element) { e.index < f.index && VolumeOf(e, f) > 0.0 }

  type Pair = (nat, nat)

  /** The pairs (p, q) that hit, for a given p and all q below `n`, in order. */
  function RowPairs(hit: (nat, nat) -> bool, p: nat, n: nat): seq<Pair> {
    if n == 0 then [] else RowPairs(hit, p, n - 1) + if hit(p, n - 1) then [(p, n - 1)] else []
  }

  /** The pairs that hit, row by row: p below `m` and q below `n`. */
  function HitPairs(hit: (nat, nat) -> bool, m: nat, n: nat): seq<Pair> {
    if m == 0 then [] else HitPairs(hit, m - 1, n) + RowPairs(hit, m - 1, n)
  }

  function Hits(rows: seq<Element>): (nat, nat) -> bool {
    (p: nat, q: nat) => p < |rows| && q < |rows| && Clashes(rows[p], rows[q])
  }

  function ClashPairs(rows: seq<Element>): seq<Pair> { HitPairs(Hits(rows), |rows|, |rows|) }

  predicate InRange(pairs: seq<Pair>, n: nat) { forall k | 0 <= k < |pairs| :: pairs[k].0 < n && pairs[k].1 < n }

  function Reports(rows: seq<Element>, pairs: seq<Pair>, tolerance: real): (r: seq<Clash>)
    requires InRange(pairs, |rows|)
  {
    seq(|pairs|, k requires 0 <= k < |pairs| => ClashOf(rows[pairs[k].0], rows[pairs[k].1], tolerance))
  }

  /** `reports` describes `pairs`, one report each, in order. */
  ghost predicate Reported(rows: seq<Element>, pairs: seq<Pair>, tolerance: real, reports: seq<Clash>) {
    InRange(pairs, |rows|) && reports == Reports(rows, pairs, tolerance)
  }

  lemma OneMoreReport(rows: seq<Element>, pairs: seq<Pair>, tolerance: real, reports: seq<Clash>, p: nat, q: nat)
    requires Reported(rows, pairs, tolerance, reports) && p < |rows| && q < |rows|
    ensures Reported(rows, pairs + [(p, q)], tolerance, reports + [ClashOf(rows[p], rows[q], tolerance)])
  {
  }

  /** What the inner loop adds when it reaches column `q`. */
  lemma ReportedGrows(rows: seq<Element>, done: seq<Pair>, tolerance: real, reports: seq<Clash>, p: nat, q: nat)
    requires p < |rows| && q < |rows|
    requires Reported(rows, done + RowPairs(Hits(rows), p, q), tolerance, reports)
    ensures Reported(rows, done + RowPairs(Hits(rows), p, q + 1), tolerance,
                     if Clashes(rows[p], rows[q]) then reports + [ClashOf(rows[p], rows[q], tolerance)] else reports)
  {
    var before := done + RowPairs(Hits(rows), p, q);
    if Hits(rows)(p, q) {
      OneMoreReport(rows, before, tolerance, reports, p, q);
      assert before + [(p, q)] == done + RowPairs(Hits(rows), p, q + 1);
    } else {
      assert before == done + RowPairs(Hits(rows), p, q + 1);
    }
  }

  // ---------- which pairs are reported ----------

  predicate Before(a: Pair, b: Pair) { a.0 < b.0 || (a.0 == b.0 && a.1 < b.1) }

  predicate Increasing(pairs: seq<Pair>) { forall i, j | 0 <= i < j < |pairs| :: Before(pairs[i], pairs[j]) }

  lemma {:induction false} RowPairsInOrder(hit: (nat, nat) -> bool, p: nat, n: nat)
    ensures Increasing(RowPairs(hit, p, n))
    ensures forall k | 0 <= k < |RowPairs(hit, p, n)| :: RowPairs(hit, p, n)[k].0 == p && RowPairs(hit, p, n)[k].1 < n
  {
    if n > 0 { RowPairsInOrder(hit, p, n - 1); }
  }

  lemma {:induction false} RowPairsAre(hit: (nat, nat) -> bool, row: nat, n: nat, p: nat, q: nat)
    ensures (p, q) in RowPairs(hit, row, n) <==> p == row && q < n && hit(p, q)
  {
    if n > 0 { RowPairsAre(hit, row, n - 1, p, q); }
  }

  /** The pairs come in lexicographic order, so none is listed twice. */
  lemma {:induction false} PairsInOrder(hit: (nat, nat) -> bool, m: nat, n: nat)
    ensures Increasing(HitPairs(hit, m, n))
    ensures forall k | 0 <= k < |HitPairs(hit, m, n)| :: HitPairs(hit, m, n)[k].0 < m && HitPairs(hit, m, n)[k].1 < n
  {
    if m > 0 {
      PairsInOrder(hit, m - 1, n);
      RowPairsInOrder(hit, m - 1, n);
    }
  }

  lemma {:induction false} ListedIffHit(hit: (nat, nat) -> bool, m: nat, n: nat, p: nat, q: nat)
    ensures (p, q) in HitPairs(hit, m, n) <==> p < m && q < n && hit(p, q)
  {
    if m > 0 {
      var before, row := HitPairs(hit, m - 1, n), RowPairs(hit, m - 1, n);
      ListedIffHit(hit, m - 1, n, p, q);
      RowPairsAre(hit, m - 1, n, p, q);
      InConcat(before, row, (p, q));
    }
  }

  lemma InConcat<T>(a: seq<T>, b: seq<T>, x: T)
    ensures x in a + b <==> x in a || x in b
  {
  }

  /** Reported are exactly the clashing pairs, each once, in lexicographic order of their rows. */
  lemma ReportedIffClashing(rows: seq<Element>, p: nat, q: nat)
    requires p < |rows| && q < |rows|
    ensures (p, q) in ClashPairs(rows) <==> Clashes(rows[p], rows[q])
    ensures Increasing(ClashPairs(rows)) && InRange(ClashPairs(rows), |rows|)
  {
    ListedIffHit(Hits(rows), |rows|, |rows|, p, q);
    PairsInOrder(Hits(rows), |rows|, |rows|);
  }

  /** Two rows whose boxes overlap are reported exactly once between them, unless they share a
      label; rows sharing a label are never compared. */
  lemma OverlapIsReportedOnce(rows: seq<Element>, p: nat, q: nat)
    requires p < |rows| && q < |rows| && VolumeOf(rows[p], rows[q]) > 0.0
    ensures (p, q) in ClashPairs(rows) <==> rows[p].index < rows[q].index
    ensures (q, p) in ClashPairs(rows) <==> rows[q].index < rows[p].index
  {
    ReportedIffClashing(rows, p, q);
    ReportedIffClashing(rows, q, p);
    OverlapIsSymmetric(BoxOf(rows[p]), BoxOf(rows[q]));
  }

  predicate RangeLabels(rows: seq<Element>) { forall p | 0 <= p < |rows| :: rows[p].index == p }

  /** For the usual index 0, 1, 2, ...: reported are the pairs p < q whose interiors meet. */
  lemma ReportedIffInteriorsMeet(rows: seq<Element>, p: nat, q: nat)
    requires p < |rows| && q < |rows| && RangeLabels(rows)
    ensures (p, q) in ClashPairs(rows)
      <==> p < q && exists x :: Inside(x, BoxOf(rows[p])) && Inside(x, BoxOf(rows[q]))
  {
    ReportedIffClashing(rows, p, q);
    PositiveIffInteriorsMeet(BoxOf(rows[p]), BoxOf(rows[q]));
  }

  // ---------- how many pairs are compared ----------

  function Smaller(rows: seq<Element>, x: nat, n: nat): nat
    requires n <= |rows|
  {
    if n == 0 then 0 else Smaller(rows, x, n - 1) + if rows[n - 1].index < x then 1 else 0
  }

  function Larger(rows: seq<Element>, x: nat, n: nat): nat
    requires n <= |rows|
  {
    if n == 0 then 0 else Larger(rows, x, n - 1) + if x < rows[n - 1].index then 1 else 0
  }

  function Equal(rows: seq<Element>, x: nat, n: nat): nat
    requires n <= |rows|
  {
    if n == 0 then 0 else Equal(rows, x, n - 1) + if rows[n - 1].index == x then 1 else 0
  }

  /** The comparisons the two loops make: outer rows below `m` against inner rows below `n`. */
  function Compared(rows: seq<Element>, m: nat, n: nat): nat
    requires m <= |rows| && n <= |rows|
  {
    if m == 0 then 0 else Compared(rows, m - 1, n) + Larger(rows, rows[m - 1].index, n)
  }

  /** The pairs among the first `n` rows that share a label. */
  function Shadowed(rows: seq<Element>, n: nat): nat
    requires n <= |rows|
  {
    if n == 0 then 0 else Shadowed(rows, n - 1) + Equal(rows, rows[n - 1].index, n - 1)
  }

  lemma {:induction false} Trichotomy(rows: seq<Element>, x: nat, n: nat)
    requires n <= |rows|
    ensures Smaller(rows, x, n) + Equal(rows, x, n) + Larger(rows, x, n) == n
  {
    if n > 0 { Trichotomy(rows, x, n - 1); }
  }

  lemma {:induction false} OneMoreColumn(rows: seq<Element>, m: nat, n: nat)
    requires m <= |rows| && n < |rows|
    ensures Compared(rows, m, n + 1) == Compared(rows, m, n) + Smaller(rows, rows[n].index, m)
  {
    if m > 0 { OneMoreColumn(rows, m - 1, n); }
  }

  /** The number of unordered pairs of n rows. */
  function PairCount(n: nat): nat {
    n * (n - 1) / 2
  }

  lemma Halves(n: nat)
    ensures PairCount(n) + n == PairCount(n + 1)
  {
    assert (n + 1) * n == n * (n - 1) + 2 * n;
  }

  /** Every pair of rows is compared once, unless the two share a label. */
  lemma {:induction false} ComparedCount(rows: seq<Element>, n: nat)
    requires n <= |rows|
    ensures Compared(rows, n, n) + Shadowed(rows, n) == PairCount(n)
  {
    if n > 0 {
      ComparedCount(rows, n - 1);
      OneMoreColumn(rows, n - 1, n - 1);
      Trichotomy(rows, rows[n - 1].index, n - 1);
      Halves(n - 1);
    }
  }

  predicate DistinctLabels(rows: seq<Element>, n: nat)
    requires n <= |rows|
  {
    forall p, q | 0 <= p < q < n :: rows[p].index != rows[q].index
  }

  lemma {:induction false} EqualIsZeroIff(rows: seq<Element>, x: nat, n: nat)
    requires n <= |rows|
    ensures Equal(rows, x, n) == 0 <==> forall p | 0 <= p < n :: rows[p].index != x
  {
    if n > 0 { EqualIsZeroIff(rows, x, n - 1); }
  }

  lemma {:induction false} ShadowedIsZeroIff(rows: seq<Element>, n: nat)
    requires n <= |rows|
    ensures Shadowed(rows, n) == 0 <==> DistinctLabels(rows, n)
  {
    if n > 0 {
      ShadowedIsZeroIff(rows, n - 1);
      EqualIsZeroIff(rows, rows[n - 1].index, n - 1);
    }
  }

  /** The reported number of comparisons, n(n-1)/2, is right exactly if all labels differ. */
  lemma ComparisonsMadeIsRightIff(rows: seq<Element>)
    ensures Compared(rows, |rows|, |rows|) == PairCount(|rows|) <==> DistinctLabels(rows, |rows|)
  {
    ComparedCount(rows, |rows|);
    ShadowedIsZeroIff(rows, |rows|);
  }

  // ---------- counting and resolving ----------

  function CountOf(reports: seq<Clash>, severity: Severity): nat {
    if reports == [] then 0
    else CountOf(reports[..|reports| - 1], severity) + if reports[|reports| - 1].severity == severity then 1 else 0
  }

  /** The severity counts add up to the number of reports. */
  lemma {:induction false} CountsAddUp(reports: seq<Clash>)
    ensures CountOf(reports, Critical) + CountOf(reports, Major) + CountOf(reports, Minor) == |reports|
  {
    if reports != [] { CountsAddUp(reports[..|reports| - 1]); }
  }

  lemma {:induction false} AllCriticalIff(reports: seq<Clash>)
    ensures CountOf(reports, Critical) == |reports| <==> forall k | 0 <= k < |reports| :: reports[k].severity == Critical
  {
    if reports != [] {
      AllCriticalIff(reports[..|reports| - 1]);
      CountsAddUp(reports[..|reports| - 1]);
    }
  }

  /** The critical ratio is a proportion, and 1 exactly if there are reports and all are critical. */
  lemma CriticalRatioIsProportion(reports: seq<Clash>)
    ensures var ratio := CriticalRatio(CountOf(reports, Critical), |reports|);
            && 0.0 <= ratio <= 1.0
            && (ratio == 1.0 <==> reports != [] && forall k | 0 <= k < |reports| :: reports[k].severity == Critical)
  {
    CountsAddUp(reports);
    AllCriticalIff(reports);
    Quotient(CountOf(reports, Critical), if |reports| < 1 then 1 else |reports|);
  }

  function CriticalRatio(critical: nat, total: nat): real { critical as real / (if total < 1 then 1 else total) as real }

  lemma Quotient(a: nat, b: nat)
    requires a <= b && b > 0
    ensures 0.0 <= a as real / b as real <= 1.0
    ensures a as real / b as real == 1.0 <==> a == b
  {
    var q := a as real / b as real;
    assert q * b as real == a as real;
  }

  function PriorityOf(severity: Severity): nat {
    match severity case Critical => 1 case Major => 2 case Minor => 3
  }

  /** One resolution for each report, in order. */
  predicate Resolves(resolutions: seq<Resolution>, reports: seq<Clash>) {
    && |resolutions| == |reports|
    && forall k | 0 <= k < |reports| :: resolutions[k] == Resolution(reports[k].clashId, PriorityOf(reports[k].severity))
  }

  lemma ClashIdIsInjective(i: nat, j: nat, k: nat, l: nat)
    requires ClashId(i, j) == ClashId(k, l)
    ensures i == k && j == l
  {
    assert ClashId(i, j)[6..] == Decimal(i) + "_" + Decimal(j) && ClashId(k, l)[6..] == Decimal(k) + "_" + Decimal(l);
    DigitsBeforeBar(Decimal(i), Decimal(j), Decimal(k), Decimal(l));
    ValueOfDecimal(i);
    ValueOfDecimal(j);
    ValueOfDecimal(k);
    ValueOfDecimal(l);
  }

  /** Under distinct labels no two reports share an id, so each resolution names its report. */
  lemma ClashIdsAreDistinct(rows: seq<Element>, tolerance: real, k: nat, l: nat)
    requires DistinctLabels(rows, |rows|) && InRange(ClashPairs(rows), |rows|)
    requires k < l < |ClashPairs(rows)|
    ensures var reports := Reports(rows, ClashPairs(rows), tolerance); reports[k].clashId != reports[l].clashId
  {
    var pairs := ClashPairs(rows);
    var reports := Reports(rows, pairs, tolerance);
    PairsInOrder(Hits(rows), |rows|, |rows|);
    var a, b := pairs[k], pairs[l];
    assert Before(a, b);
    if reports[k].clashId == reports[l].clashId {
      ClashIdIsInjective(rows[a.0].index, rows[a.1].index, rows[b.0].index, rows[b.1].index);
    }
  }

  function Rank(severity: Severity): nat { 3 - PriorityOf(severity) }

  /** Had the two elements come in the other order, the report would differ in the order of its
      ids alone; and a larger overlap, all else equal, is never less severe. */
  lemma ReportsAreSymmetricAndMonotone(e: Element, f: Element, tolerance: real, larger: real)
    requires larger >= VolumeOf(e, f)
    ensures var c, d := ClashOf(e, f, tolerance), ClashOf(f, e, tolerance);
            c == d.(clashId := ClashId(e.index, f.index), element1 := e.id, element2 := f.id)
    ensures Rank(SeverityOf(larger, e, f)) >= Rank(ClashOf(e, f, tolerance).severity)
    ensures IsCritical(e) ==> ClashOf(e, f, tolerance).severity == Critical
  {
    OverlapIsSymmetric(BoxOf(e), BoxOf(f));
  }

  /** Two elements without geometry always clash, with volume 1. */
  lemma MissingGeometryClashes(e: Element, f: Element)
    requires e.min.None? && e.max.None? && f.min.None? && f.max.None?
    ensures VolumeOf(e, f) == 1.0
  {
  }
}
