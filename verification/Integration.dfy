/** Parallel integration of 4 / (x^2 + 1) over [0, 1]: the partition of the work, the threads under any
    interleaving, and the distance of the result from the area. */
module Integration {
  import opened Division
  import opened Quadrature

  function F(x: real): real
  {
    4.0 / (x * x + 1.0)
  }

  // ----- the partition of the work -----

  /** id * n / k */
  function First(id: nat, n: nat, k: nat): nat
    requires k > 0
  {
    id * n / k
  }

  lemma RangeSizes(n: nat, k: nat, id: nat)
    requires k > 0
    ensures n / k <= First(id + 1, n, k) - First(id, n, k) <= (n + k - 1) / k
  {
    var a := id * n;
    assert (id + 1) * n == a + n;
    QuotientOfSum(a, n, k);
  }

  lemma RangeBelow(n: nat, k: nat, id: nat)
    requires id <= k && k > 0
    ensures First(id, n, k) <= n && (id == k ==> First(id, n, k) == n)
  {
    MulMonotone(id, k, n);
    QuotientBound(id * n, k, n);
  }

  lemma NoOverflow(n: nat, k: nat, id: nat)
    requires id < k <= 1024 && n < 0x20_0000_0000_0000
    ensures (id + 1) * n < 0x8000_0000_0000_0000
  {
    MulMonotone(id + 1, 1024, n);
  }

  /** The ranges of the k threads tile 0..n without gap or overlap, every thread gets n / k rectangles rounded
      down or up, and no product overflows 63 bits for at most 1024 threads and fewer than 2^53 rectangles. */
  lemma RangesTile(n: nat, k: nat, id: nat)
    requires id < k
    ensures First(0, n, k) == 0 && First(k, n, k) == n
    ensures n / k <= First(id + 1, n, k) - First(id, n, k) <= (n + k - 1) / k
    ensures First(id, n, k) <= First(id + 1, n, k) <= n
    ensures k <= 1024 && n < 0x20_0000_0000_0000 ==> (id + 1) * n < 0x8000_0000_0000_0000
  {
    FirstOf(n, k);
    RangeBelow(n, k, k);
    RangeBelow(n, k, id + 1);
    RangeSizes(n, k, id);
    if k <= 1024 && n < 0x20_0000_0000_0000 {
      NoOverflow(n, k, id);
    }
  }

  lemma FirstOf(n: nat, k: nat)
    requires k > 0
    ensures First(0, n, k) == 0
  {
    QuotientBound(0, k, 0);
  }

  // ----- the threads -----

  datatype Thread =
    | Pending
    | Adding(i: nat, x: real, localSum: real)
    | Finished

  datatype State = State(dx: real, n: nat, threads: seq<Thread>, results: seq<real>)

  predicate Shape(s: State)
  {
    |s.threads| == |s.results| > 0
  }

  function Init(dx: real, n: nat, k: nat): State
  {
    State(dx, n, seq(k, _ => Pending), seq(k, _ => 0.0))
  }

  predicate Enabled(s: State, id: nat)
  {
    id < |s.threads| && s.threads[id] != Finished
  }

  /** Where a thread that begins with rectangle number `first` begins. */
  function Edge(first: nat, dx: real): real
  {
    first as real * dx
  }

  /** A thread starts, adds one rectangle, or is done. */
  function Advance(thread: Thread, first: nat, last: nat, dx: real): Thread
  {
    match thread
    case Pending => Adding(first, Edge(first, dx), 0.0)
    case Adding(i, x, localSum) => if i < last then Adding(i + 1, x + dx, localSum + Rect(F(x), dx)) else Finished
    case Finished => Finished
  }

  /** A thread that is done has stored its sum. */
  function Store(thread: Thread, last: nat, result: real): real
  {
    if thread.Adding? && thread.i >= last then thread.localSum else result
  }

  function Next(s: State, id: nat): State
    requires Shape(s) && Enabled(s, id)
  {
    var first, last := First(id, s.n, |s.threads|), First(id + 1, s.n, |s.threads|);
    s.(threads := s.threads[id := Advance(s.threads[id], first, last, s.dx)],
       results := s.results[id := Store(s.threads[id], last, s.results[id])])
  }

  /** `schedule` lists which thread makes each step. */
  ghost predicate Run(s: State, schedule: seq<nat>, t: State)
    decreases |schedule|
  {
    if schedule == [] then s == t
    else Shape(s) && Enabled(s, schedule[0]) && Run(Next(s, schedule[0]), schedule[1..], t)
  }

  /** A thread has added up the rectangles of its range up to where it is. */
  ghost predicate InRange(thread: Thread, result: real, first: nat, last: nat, dx: real)
  {
    first <= last &&
    match thread
    case Pending => true
    case Adding(i, x, localSum) => first <= i <= last && x == Point(i, dx) && localSum == LeftSum(F, first, i, dx)
    case Finished => result == LeftSum(F, first, last, dx)
  }

  ghost predicate Inv(s: State)
  {
    && Shape(s)
    && forall id :: 0 <= id < |s.threads| ==>
      InRange(s.threads[id], s.results[id], First(id, s.n, |s.threads|), First(id + 1, s.n, |s.threads|), s.dx)
  }

  lemma InitInv(dx: real, n: nat, k: nat)
    requires k > 0
    ensures Inv(Init(dx, n, k))
  {
    var s := Init(dx, n, k);
    forall id | 0 <= id < k ensures InRange(s.threads[id], s.results[id], First(id, n, k), First(id + 1, n, k), dx) {
      RangesTile(n, k, id);
    }
  }

  lemma AdvanceKeepsRange(thread: Thread, result: real, first: nat, last: nat, dx: real)
    requires InRange(thread, result, first, last, dx)
    ensures InRange(Advance(thread, first, last, dx), Store(thread, last, result), first, last, dx)
  {
    PointIsProduct(first, dx);
  }

  lemma StepKeepsInv(s: State, id: nat)
    requires Inv(s) && Enabled(s, id)
    ensures Inv(Next(s, id)) && |Next(s, id).threads| == |s.threads| && Next(s, id).dx == s.dx && Next(s, id).n == s.n
  {
    var k := |s.threads|;
    AdvanceKeepsRange(s.threads[id], s.results[id], First(id, s.n, k), First(id + 1, s.n, k), s.dx);
  }

  lemma {:induction false} RunKeepsInv(s: State, schedule: seq<nat>, t: State)
    requires Inv(s) && Run(s, schedule, t)
    ensures Inv(t) && |t.threads| == |s.threads| && t.dx == s.dx && t.n == s.n
    decreases |schedule|
  {
    if schedule != [] {
      StepKeepsInv(s, schedule[0]);
      RunKeepsInv(Next(s, schedule[0]), schedule[1..], t);
    }
  }

  lemma {:induction false} RunExtends(s: State, schedule: seq<nat>, t: State, id: nat)
    requires Run(s, schedule, t) && Shape(t) && Enabled(t, id)
    ensures Run(s, schedule + [id], Next(t, id))
    decreases |schedule|
  {
    if schedule == [] {
      assert [id][1..] == [];
      assert Run(Next(t, id), [id][1..], Next(t, id));
      assert schedule + [id] == [id];
    } else {
      assert (schedule + [id])[1..] == schedule[1..] + [id];
      RunExtends(Next(s, schedule[0]), schedule[1..], t, id);
    }
  }

  /** How many steps a thread has still to make, at most. */
  function Remaining(thread: Thread, last: nat, n: nat): nat
  {
    match thread
    case Pending => n + 2
    case Adding(i, x, localSum) => if i < last then last - i + 1 else 1
    case Finished => 0
  }

  /** main's loop over the results. */
  ghost function Total(results: seq<real>): real
  {
    if results == [] then 0.0 else Total(results[..|results| - 1]) + results[|results| - 1]
  }

  lemma {:induction false} TotalOfRanges(results: seq<real>, n: nat, k: nat, dx: real)
    requires |results| <= k && k > 0
    requires forall id :: 0 <= id < |results| ==> First(id, n, k) <= First(id + 1, n, k) && results[id] == LeftSum(F, First(id, n, k), First(id + 1, n, k), dx)
    ensures Total(results) == LeftSum(F, 0, First(|results|, n, k), dx)
  {
    var m := |results|;
    if m == 0 {
      FirstOf(n, k);
    } else {
      TotalOfRanges(results[..m - 1], n, k, dx);
      SplitSum(F, 0, First(m - 1, n, k), First(m, n, k), dx);
    }
  }

  /** Whatever the number of threads and however they interleave, once all have finished the total is the sum a
      single loop over all rectangles would have computed. */
  lemma ScheduleDoesNotMatter(dx: real, n: nat, k: nat, schedule: seq<nat>, s: State)
    requires k > 0 && Run(Init(dx, n, k), schedule, s)
    requires forall id :: 0 <= id < |s.threads| ==> s.threads[id] == Finished
    ensures Total(s.results) == LeftSum(F, 0, n, dx)
  {
    InitInv(dx, n, k);
    RunKeepsInv(Init(dx, n, k), schedule, s);
    forall id | 0 <= id < |s.results|
      ensures First(id, n, k) <= First(id + 1, n, k) && s.results[id] == LeftSum(F, First(id, n, k), First(id + 1, n, k), dx)
    {
      assert s.threads[id] == Finished;
    }
    TotalOfRanges(s.results, n, k, dx);
    RangesTile(n, k, 0);
  }

  // ----- how good the result is -----

  lemma Inverse(a: real, b: real)
    requires 0.0 < a <= b
    ensures 0.0 < 4.0 / b <= 4.0 / a
  {
    assert 4.0 / a * a == 4.0 && 4.0 / b * b == 4.0;
    assert 4.0 / b > 0.0;
    Scale(a, b, 4.0 / b);
  }

  lemma FFalls(x: real, y: real)
    requires 0.0 <= x <= y
    ensures 0.0 <= F(y) <= F(x)
  {
    Scale(x, y, x);
    Scale(x, y, y);
    Inverse(x * x + 1.0, y * y + 1.0);
  }

  lemma FIsFalling()
    ensures Falling(F)
  {
    forall x, y | 0.0 <= x <= y ensures 0.0 <= F(y) <= F(x) {
      FFalls(x, y);
    }
  }

  lemma FValues()
    ensures F(0.0) == 4.0 && F(0.5) == 3.2 && F(1.0) == 2.0
  {
  }

  /** (long long)(1.0L / dx) */
  function Intervals(dx: real): nat
    requires 0.0 < dx
  {
    assert 1.0 / dx > 0.0;
    (1.0 / dx).Floor
  }

  /** All threads of a run of the program with width dx and k threads have finished. */
  ghost predicate Complete(dx: real, k: nat, schedule: seq<nat>, s: State)
  {
    && 0.0 < dx && k > 0 && Run(Init(dx, Intervals(dx), k), schedule, s)
    && forall id :: 0 <= id < |s.threads| ==> s.threads[id] == Finished
  }

  /** What a complete run computes. */
  lemma ResultIsUnitSum(dx: real, k: nat, schedule: seq<nat>, s: State)
    requires Complete(dx, k, schedule, s)
    ensures Total(s.results) == UnitSum(F, dx)
  {
    ScheduleDoesNotMatter(dx, Intervals(dx), k, schedule, s);
  }

  lemma GapBounds(dx: real)
    requires 0.0 < dx <= 1.0
    ensures 0.0 <= Gap(dx) < dx && Gap(dx) <= 0.5
  {
    var j := StepOf(dx, 1.0);
    QuotientTimes(1.0, dx);
    QuotientsOrdered(1.0, 1.0 / dx, dx);
    PointIsProduct(j + 1, dx);
    Expand((j + 1) as real, 1.0 / dx, dx);
    PointsIncrease(1, j, dx);
    assert Point(1, dx) == dx;
  }

  lemma ErrorTerms(dx: real)
    requires 0.0 < dx <= 1.0
    ensures Overshoot(F, dx) <= 2.0 * dx
    ensures Missing(F, dx) <= 3.2 * Gap(dx)
  {
    GapBounds(dx);
    FValues();
    FFalls(0.5, 1.0 - Gap(dx));
    FFalls(1.0 - Gap(dx), 1.0);
    Scale(F(0.0) - F(1.0 - Gap(dx)), 2.0, dx);
    Scale(F(1.0 - Gap(dx)), 3.2, Gap(dx));
  }

  /** The printed result is the area under the curve up to an error proportional to the rectangle width: at
      most 2 dx too much, and too little at most by the strip of width less than dx that no whole rectangle
      covers, where the curve is at most 3.2 high. */
  lemma Accuracy(area: real, dx: real, k: nat, schedule: seq<nat>, s: State)
    requires IsArea(F, area) && 0.0 < dx <= 1.0
    requires Complete(dx, k, schedule, s)
    ensures area - 3.2 * Gap(dx) <= Total(s.results) <= area + 2.0 * dx
    ensures 0.0 <= Gap(dx) < dx
  {
    ResultIsUnitSum(dx, k, schedule, s);
    FIsFalling();
    SumNearArea(F, area, dx);
    ErrorTerms(dx);
    GapBounds(dx);
  }

  lemma SumEnclosed(dx: real, m: nat)
    requires 0.0 < dx <= 1.0 && m > 0
    ensures RightSum(F, m, Part(m)) - 3.2 * Gap(dx) <= UnitSum(F, dx) <= LeftSum(F, 0, m, Part(m)) + 2.0 * dx
  {
    FIsFalling();
    ErrorTerms(dx);
    ExactGrid(m);
    ExactGridTerms(F, m);
    Compare(F, dx, Part(m));
    RightBelowSteps(F, Part(m), m, dx);
    StepsToOne(F, dx, 1.0);
  }

  /** The same without speaking of the area: up to its error, the printed result lies between every lower and
      every upper sum. */
  lemma Enclosure(dx: real, k: nat, schedule: seq<nat>, s: State, m: nat)
    requires 0.0 < dx <= 1.0 && m > 0
    requires Complete(dx, k, schedule, s)
    ensures RightSum(F, m, Part(m)) - 3.2 * Gap(dx) <= Total(s.results) <= LeftSum(F, 0, m, Part(m)) + 2.0 * dx
  {
    ResultIsUnitSum(dx, k, schedule, s);
    SumEnclosed(dx, m);
  }

  lemma SumsAgree(dx: real, dx': real)
    requires 0.0 < dx <= 1.0 && 0.0 < dx' <= 1.0
    ensures UnitSum(F, dx) - UnitSum(F, dx') <= 2.0 * dx + 3.2 * Gap(dx')
  {
    FIsFalling();
    Compare(F, dx, dx');
    ErrorTerms(dx);
    ErrorTerms(dx');
  }

  /** Two runs with any two widths, numbers of threads and interleavings agree up to the sum of their errors. */
  lemma ResultsAgree(dx: real, k: nat, schedule: seq<nat>, s: State, dx': real, k': nat, schedule': seq<nat>, s': State)
    requires 0.0 < dx <= 1.0 && 0.0 < dx' <= 1.0
    requires Complete(dx, k, schedule, s) && Complete(dx', k', schedule', s')
    ensures Total(s.results) - Total(s'.results) <= 2.0 * dx + 3.2 * Gap(dx')
    ensures Total(s'.results) - Total(s.results) <= 2.0 * dx' + 3.2 * Gap(dx)
  {
    ResultIsUnitSum(dx, k, schedule, s);
    ResultIsUnitSum(dx', k', schedule', s');
    SumsAgree(dx, dx');
    SumsAgree(dx', dx);
  }

  lemma ReciprocalsOrdered(x: real, y: real)
    requires 0.0 < x <= y
    ensures 1.0 / y <= 1.0 / x
  {
    Reciprocal(x);
    Reciprocal(y);
    Scale(x, y, 1.0 / y);
    QuotientsOrdered(1.0 / y, 1.0 / x, x);
  }

  lemma ExactSumsAgree(m: nat, n: nat)
    requires 0 < m <= n
    ensures 0.0 < Part(n) <= Part(m) <= 1.0
    ensures -2.0 * Part(m) <= UnitSum(F, Part(m)) - UnitSum(F, Part(n)) <= 2.0 * Part(m)
  {
    ExactGrid(m);
    ExactGrid(n);
    ReciprocalsOrdered(1.0, m as real);
    ReciprocalsOrdered(m as real, n as real);
    SumsAgree(Part(m), Part(n));
    SumsAgree(Part(n), Part(m));
    assert UnitSum(F, Part(m)) - UnitSum(F, Part(n)) <= 2.0 * Part(m);
    assert UnitSum(F, Part(n)) - UnitSum(F, Part(m)) <= 2.0 * Part(n);
  }

  /** With widths 1/m and 1/n, which leave no gap, two runs agree up to twice the larger width. */
  lemma ExactResultsAgree(m: nat, k: nat, schedule: seq<nat>, s: State, n: nat, k': nat, schedule': seq<nat>, s': State)
    requires 0 < m <= n
    requires Complete(Part(m), k, schedule, s) && Complete(Part(n), k', schedule', s')
    ensures -2.0 * Part(m) <= Total(s.results) - Total(s'.results) <= 2.0 * Part(m)
  {
    ExactSumsAgree(m, n);
    ResultIsUnitSum(Part(m), k, schedule, s);
    ResultIsUnitSum(Part(n), k', schedule', s');
  }
}
