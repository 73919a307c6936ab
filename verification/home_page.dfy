/** `HomePage`: the dashboard. Besides paging through four tiles at a time,
    it aggregates the employees of the current page: a count per class for
    the pie chart, a count per attendance range for the bar chart, and the
    number of distinct classes. The page's employee list is `None` while the
    query has no data. */
module HomePage {
  import opened Common
  import Pagination

  const PAGE_SIZE: nat := 4

  function HandlePrevPage(page: int): int {
    Pagination.PrevPage(page)
  }

  function HandleNextPage(page: int, totalCount: Option<nat>): int {
    Pagination.NextPage(page, totalCount, PAGE_SIZE)
  }

  function TotalPages(totalCount: Option<nat>): nat {
    Pagination.TotalPages(totalCount, PAGE_SIZE)
  }

  /** Page 1 onwards is kept by both handlers, and Next advances only while
      `page * 4 < totalCount`, which is exactly when its button is enabled. */
  lemma PagingStaysValid(page: int, totalCount: Option<nat>)
    requires page >= 1
    ensures HandlePrevPage(page) >= 1 && HandleNextPage(page, totalCount) >= 1
    ensures HandleNextPage(page, totalCount) != page <==> totalCount.Some? && page * 4 < totalCount.value
    ensures HandleNextPage(page, totalCount) != page <==> !Pagination.NextDisabled(page, totalCount, PAGE_SIZE)
  {
    Pagination.NextMatchesButton(page, totalCount, PAGE_SIZE);
  }

  // ---- Class distribution ----

  /** One pie slice: a class name and how many employees are in it. */
  datatype Slice = Slice(name: string, value: nat)

  /** How many employees of `emps` are in class `c`. */
  function CountIn(emps: seq<Employee>, c: string): nat
    decreases |emps|
  {
    if |emps| == 0 then 0
    else CountIn(emps[..|emps| - 1], c) + (if emps[|emps| - 1].className == c then 1 else 0)
  }

  /** The distinct classes of `emps`. */
  function Classes(emps: seq<Employee>): set<string> {
    set i | 0 <= i < |emps| :: emps[i].className
  }

  function Names(dist: seq<Slice>): set<string> {
    set i | 0 <= i < |dist| :: dist[i].name
  }

  predicate DistinctNames(dist: seq<Slice>) {
    forall i, j :: 0 <= i < j < |dist| ==> dist[i].name != dist[j].name
  }

  function Total(dist: seq<Slice>): nat
    decreases |dist|
  {
    if |dist| == 0 then 0 else Total(dist[..|dist| - 1]) + dist[|dist| - 1].value
  }

  /** Raising one slice's value raises the total by the same amount. */
  lemma {:induction false} TotalBump(dist: seq<Slice>, j: nat)
    requires j < |dist|
    ensures Total(dist[j := dist[j].(value := dist[j].value + 1)]) == Total(dist) + 1
    decreases |dist|
  {
    var d2 := dist[j := dist[j].(value := dist[j].value + 1)];
    if j < |dist| - 1 {
      assert d2[..|d2| - 1] == dist[..|dist| - 1][j := dist[j].(value := dist[j].value + 1)];
      TotalBump(dist[..|dist| - 1], j);
    } else {
      assert d2[..|d2| - 1] == dist[..|dist| - 1];
    }
  }

  /** Where `name` sits in `dist`, if anywhere. */
  function IndexOf(dist: seq<Slice>, name: string): (r: Option<nat>)
    ensures r.Some? ==> r.value < |dist| && dist[r.value].name == name
    ensures r.None? ==> name !in Names(dist)
    decreases |dist|
  {
    if |dist| == 0 then None
    else if dist[|dist| - 1].name == name then Some(|dist| - 1)
    else
      var r := IndexOf(dist[..|dist| - 1], name);
      assert Names(dist) == Names(dist[..|dist| - 1]) + {dist[|dist| - 1].name};
      r
  }

  /** The slices tally `emps`: distinct names, exactly the classes present,
      each value the positive count of its class, the values summing to the
      number of employees. */
  predicate Tallies(dist: seq<Slice>, emps: seq<Employee>) {
    && DistinctNames(dist)
    && Names(dist) == Classes(emps)
    && (forall i :: 0 <= i < |dist| ==> dist[i].value == CountIn(emps, dist[i].name) > 0)
    && Total(dist) == |emps|
  }

  /** The `forEach` body for one employee of class `c`:
      `if (!classCounts[c]) classCounts[c] = 0; classCounts[c]++`. */
  function AddOne(dist: seq<Slice>, c: string): seq<Slice> {
    var at := IndexOf(dist, c);
    if at.Some? then dist[at.value := Slice(c, dist[at.value].value + 1)] else dist + [Slice(c, 1)]
  }

  lemma CountSnoc(emps: seq<Employee>, e: Employee)
    ensures forall x :: CountIn(emps + [e], x) == CountIn(emps, x) + (if e.className == x then 1 else 0)
  {
    assert (emps + [e])[..|emps|] == emps;
  }

  lemma ClassesSnoc(emps: seq<Employee>, e: Employee)
    ensures Classes(emps + [e]) == Classes(emps) + {e.className}
  {
    assert forall i :: 0 <= i < |emps| ==> (emps + [e])[i] == emps[i];
    assert (emps + [e])[|emps|] == e;
  }

  /** An employee of a class already present bumps that slice. */
  lemma BumpStep(dist: seq<Slice>, emps: seq<Employee>, e: Employee)
    requires Tallies(dist, emps)
    requires IndexOf(dist, e.className).Some?
    ensures Tallies(AddOne(dist, e.className), emps + [e])
  {
    var c := e.className;
    var j := IndexOf(dist, c).value;
    var r := AddOne(dist, c);
    CountSnoc(emps, e);
    ClassesSnoc(emps, e);
    TotalBump(dist, j);
    assert r == dist[j := dist[j].(value := dist[j].value + 1)];
    assert forall i :: 0 <= i < |r| ==> r[i].name == dist[i].name;
    assert Names(r) == Names(dist);
  }

  /** An employee of a new class appends a slice of one. */
  lemma AppendStep(dist: seq<Slice>, emps: seq<Employee>, e: Employee)
    requires Tallies(dist, emps)
    requires IndexOf(dist, e.className).None?
    ensures Tallies(AddOne(dist, e.className), emps + [e])
  {
    var c := e.className;
    var r := AddOne(dist, c);
    CountSnoc(emps, e);
    ClassesSnoc(emps, e);
    CountAbsent(emps, c);
    assert r == dist + [Slice(c, 1)];
    assert r[..|r| - 1] == dist;
    assert forall i :: 0 <= i < |dist| ==> r[i] == dist[i];
    assert Names(r) == Names(dist) + {c} by {
      assert r[|dist|].name == c;
    }
  }

  /** `classDistribution`: the `classCounts` object built by the `forEach`,
      read back with `Object.keys`, in first-occurrence order. */
  method ClassDistribution(data: Option<seq<Employee>>) returns (dist: seq<Slice>)
    ensures data.None? ==> dist == []
    ensures data.Some? ==> Names(dist) == Classes(data.value)
    ensures DistinctNames(dist)
    ensures data.Some? ==> forall i :: 0 <= i < |dist| ==> dist[i].value == CountIn(data.value, dist[i].name) > 0
    ensures data.Some? ==> Total(dist) == |data.value|
  {
    dist := [];
    if data.None? {
      return;
    }
    var emps := data.value;
    assert emps[..0] == [];
    var k := 0;
    while k < |emps|
      invariant 0 <= k <= |emps|
      invariant Tallies(dist, emps[..k])
    {
      var e := emps[k];
      assert emps[..k + 1] == emps[..k] + [e];
      if IndexOf(dist, e.className).Some? {
        BumpStep(dist, emps[..k], e);
      } else {
        AppendStep(dist, emps[..k], e);
      }
      dist := AddOne(dist, e.className);
      k := k + 1;
    }
    assert emps[..k] == emps;
  }

  /** A class no employee has has count zero. */
  lemma {:induction false} CountAbsent(emps: seq<Employee>, c: string)
    requires c !in Classes(emps)
    ensures CountIn(emps, c) == 0
    decreases |emps|
  {
    if |emps| > 0 {
      var init := emps[..|emps| - 1];
      assert Classes(init) <= Classes(emps) by {
        assert forall i :: 0 <= i < |init| ==> init[i] == emps[i];
      }
      CountAbsent(init, c);
    }
  }

  /** `classesCount`: `new Set(employees.map(emp => emp.class)).size`, with
      `employees` empty while there is no data. */
  function ClassesCount(data: Option<seq<Employee>>): nat {
    if data.Some? then |Classes(data.value)| else 0
  }

  /** Distinct names are as many as the slices. */
  lemma {:induction false} DistinctNamesCount(dist: seq<Slice>)
    requires DistinctNames(dist)
    ensures |Names(dist)| == |dist|
    decreases |dist|
  {
    if |dist| > 0 {
      var init := dist[..|dist| - 1];
      var last := dist[|dist| - 1].name;
      assert Names(dist) == Names(init) + {last};
      assert last !in Names(init);
      DistinctNamesCount(init);
    }
  }

  /** The stat card and the pie chart agree: one slice per distinct class. */
  method ClassesCountMatchesChart(data: Option<seq<Employee>>) returns (slices: nat, count: nat)
    ensures slices == count == ClassesCount(data)
  {
    var dist := ClassDistribution(data);
    DistinctNamesCount(dist);
    slices := |dist|;
    count := ClassesCount(data);
  }

  // ---- Attendance distribution ----

  /** One bar: its name, its closed range and its count. */
  datatype Bucket = Bucket(name: string, lo: int, hi: int, count: nat)

  /** The five `ranges`, in order. */
  const RANGES: seq<Bucket> := [
    Bucket("0-25%", 0, 25, 0),
    Bucket("26-50%", 26, 50, 0),
    Bucket("51-75%", 51, 75, 0),
    Bucket("76-90%", 76, 90, 0),
    Bucket("91-100%", 91, 100, 0)]

  predicate InRange(a: real, b: Bucket) {
    b.lo as real <= a <= b.hi as real
  }

  /** The first range from `from` on that holds `a`: the inner `for` with its `break`. */
  function FirstMatch(a: real, from: nat): (r: Option<nat>)
    requires from <= |RANGES|
    ensures r.Some? ==> from <= r.value < |RANGES| && InRange(a, RANGES[r.value])
    ensures r.Some? ==> forall i :: from <= i < r.value ==> !InRange(a, RANGES[i])
    ensures r.None? ==> forall i :: from <= i < |RANGES| ==> !InRange(a, RANGES[i])
    decreases |RANGES| - from
  {
    if from == |RANGES| then None
    else if InRange(a, RANGES[from]) then Some(from)
    else FirstMatch(a, from + 1)
  }

  function Bucketed(a: real): Option<nat> {
    FirstMatch(a, 0)
  }

  /** How many employees land in range `i`. */
  function Hits(emps: seq<Employee>, i: nat): nat
    decreases |emps|
  {
    if |emps| == 0 then 0
    else Hits(emps[..|emps| - 1], i) + (if Bucketed(emps[|emps| - 1].attendance) == Some(i) then 1 else 0)
  }

  /** How many employees land in no range. */
  function Misses(emps: seq<Employee>): nat
    decreases |emps|
  {
    if |emps| == 0 then 0
    else Misses(emps[..|emps| - 1]) + (if Bucketed(emps[|emps| - 1].attendance).None? then 1 else 0)
  }

  function SumCounts(bs: seq<Bucket>): nat
    decreases |bs|
  {
    if |bs| == 0 then 0 else SumCounts(bs[..|bs| - 1]) + bs[|bs| - 1].count
  }

  function Sum5(c: seq<nat>): nat
    requires |c| == 5
  {
    c[0] + c[1] + c[2] + c[3] + c[4]
  }

  /** The five counters tally `emps`: counter `i` is the employees landing
      in range `i`, and with the misses they account for every employee. */
  predicate Counted(counts: seq<nat>, emps: seq<Employee>) {
    && |counts| == 5
    && (forall i :: 0 <= i < 5 ==> counts[i] == Hits(emps, i))
    && Sum5(counts) + Misses(emps) == |emps|
  }

  /** The inner loop for one employee: `range.count++` on the first match. */
  function CountOne(counts: seq<nat>, a: real): seq<nat>
    requires |counts| == 5
  {
    var b := Bucketed(a);
    if b.Some? then counts[b.value := counts[b.value] + 1] else counts
  }

  lemma CountStep(counts: seq<nat>, emps: seq<Employee>, e: Employee)
    requires Counted(counts, emps)
    ensures Counted(CountOne(counts, e.attendance), emps + [e])
  {
    var p := emps + [e];
    assert p[..|p| - 1] == emps;
    assert p[|p| - 1] == e;
  }

  /** `attendanceDistribution`: the five ranges, each counting the employees
      whose attendance it is the first to hold. */
  method AttendanceDistribution(data: Option<seq<Employee>>) returns (buckets: seq<Bucket>)
    ensures data.None? ==> buckets == []
    ensures data.Some? ==> |buckets| == |RANGES|
    ensures data.Some? ==> forall i :: 0 <= i < |buckets| ==>
              buckets[i] == RANGES[i].(count := Hits(data.value, i))
    ensures data.Some? ==> SumCounts(buckets) + Misses(data.value) == |data.value|
  {
    if data.None? {
      return [];
    }
    var emps := data.value;
    var counts: seq<nat> := [0, 0, 0, 0, 0];
    assert emps[..0] == [];
    var k := 0;
    while k < |emps|
      invariant 0 <= k <= |emps|
      invariant Counted(counts, emps[..k])
    {
      assert emps[..k + 1] == emps[..k] + [emps[k]];
      CountStep(counts, emps[..k], emps[k]);
      counts := CountOne(counts, emps[k].attendance);
      k := k + 1;
    }
    assert emps[..k] == emps;
    buckets := seq(5, i requires 0 <= i < 5 => RANGES[i].(count := counts[i]));
    SumCountsFive(buckets);
  }

  lemma SumCountsFive(bs: seq<Bucket>)
    requires |bs| == 5
    ensures SumCounts(bs) == bs[0].count + bs[1].count + bs[2].count + bs[3].count + bs[4].count
  {
    assert SumCounts(bs[..0]) == 0;
    assert bs[..1][..0] == bs[..0];
    assert SumCounts(bs[..1]) == bs[0].count;
    assert bs[..2][..1] == bs[..1];
    assert SumCounts(bs[..2]) == SumCounts(bs[..1]) + bs[1].count;
    assert bs[..3][..2] == bs[..2];
    assert SumCounts(bs[..3]) == SumCounts(bs[..2]) + bs[2].count;
    assert bs[..4][..3] == bs[..3];
    assert SumCounts(bs[..4]) == SumCounts(bs[..3]) + bs[3].count;
    assert bs[..4] == bs[..|bs| - 1];
  }

  /** The ranges do not overlap, so the `break` never changes which range
      counts an employee: at most one range holds any value. */
  lemma RangesDisjoint(a: real, i: nat, j: nat)
    requires i < j < |RANGES|
    ensures !(InRange(a, RANGES[i]) && InRange(a, RANGES[j]))
  {
  }

  /** An integer attendance in [0, 100] lands in exactly one range, the one
      that holds it. */
  lemma IntegerAttendanceBucketed(n: int)
    requires 0 <= n <= 100
    ensures Bucketed(n as real).Some?
    ensures forall i :: 0 <= i < |RANGES| ==> (InRange(n as real, RANGES[i]) <==> Bucketed(n as real) == Some(i))
  {
    var r := Bucketed(n as real);
    if r.Some? {
      forall i | 0 <= i < |RANGES| && i != r.value
        ensures !InRange(n as real, RANGES[i])
      {
        if i < r.value { RangesDisjoint(n as real, i, r.value); } else { RangesDisjoint(n as real, r.value, i); }
      }
    }
  }

  /** Values strictly between two ranges, such as 25.5, and values outside
      [0, 100] land in no range. */
  lemma GapsAreMissed(a: real)
    requires a < 0.0 || (25.0 < a < 26.0) || (50.0 < a < 51.0) || (75.0 < a < 76.0)
             || (90.0 < a < 91.0) || a > 100.0
    ensures Bucketed(a).None?
  {
  }

  /** The bar chart never counts more employees than the page holds. */
  method AttendanceTotalBounded(data: Option<seq<Employee>>) returns (total: nat)
    requires data.Some?
    ensures total <= |data.value|
  {
    var buckets := AttendanceDistribution(data);
    total := SumCounts(buckets);
  }
}
