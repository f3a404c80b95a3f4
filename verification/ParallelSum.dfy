/** The parallel integration as code: `ThreadRuns` executes the next step of one thread, `Sum` is main's last
    loop, and `Integrate` is the whole program under a given interleaving. */
module ParallelSum {
  import opened Quadrature
  import opened Integration

  class Program {
    const dx: real
    const n: nat                  // num_intervals
    const results: array<real>
    var threads: seq<Thread>

    ghost function Snapshot(): State
      reads this, results
    {
      State(dx, n, threads, results[..])
    }

    constructor (dx: real, numThreads: nat)
      requires 0.0 < dx && numThreads > 0
      ensures Inv(Snapshot()) && fresh(results)
      ensures Snapshot() == Init(dx, Intervals(dx), numThreads)
    {
      this.dx := dx;
      n := Intervals(dx);
      results := new real[numThreads](_ => 0.0);
      threads := seq(numThreads, _ => Pending);
      new;
      assert results[..] == seq(numThreads, _ => 0.0);
      InitInv(dx, n, numThreads);
    }

    method ThreadRuns(id: nat)
      requires Shape(Snapshot()) && Enabled(Snapshot(), id)
      modifies this, results
      ensures Snapshot() == Next(old(Snapshot()), id)
    {
      var k := |threads|;
      ghost var stored := Store(threads[id], First(id + 1, n, k), results[id]);
      assert stored == results[id] ==> results[..][id := stored] == results[..];
      match threads[id]
      case Pending =>
        var start := First(id, n, k);
        threads := threads[id := Adding(start, Edge(start, dx), 0.0)];
      case Adding(i, x, localSum) =>
        var end := First(id + 1, n, k);
        if i < end {
          threads := threads[id := Adding(i + 1, x + dx, localSum + Rect(F(x), dx))];
        } else {
          results[id] := localSum;
          threads := threads[id := Finished];
        }
      case Finished =>
    }

    method Sum() returns (total: real)
      ensures total == Total(results[..])
    {
      total := 0.0;
      var i := 0;
      while i < results.Length
        invariant i <= results.Length
        invariant total == Total(results[..i])
      {
        total := total + results[i];
        assert results[..i + 1][..i] == results[..i];
        i := i + 1;
      }
      assert results[..i] == results[..];
    }

    /** Any interleaving: the threads make one step each in the given order, those that are done none. */
    method Interleave(order: seq<nat>) returns (ghost performed: seq<nat>)
      requires Inv(Snapshot())
      modifies this, results
      ensures Inv(Snapshot()) && |threads| == |old(threads)| && Run(old(Snapshot()), performed, Snapshot())
    {
      performed := [];
      var j := 0;
      while j < |order|
        invariant j <= |order|
        invariant Inv(Snapshot()) && |threads| == |old(threads)| && Run(old(Snapshot()), performed, Snapshot())
      {
        if order[j] < |threads| && threads[order[j]] != Finished {
          performed := Continue(order[j], old(Snapshot()), performed);
        }
        j := j + 1;
      }
    }

    /** One more step of a run that began in `start`. */
    method Continue(id: nat, ghost start: State, ghost sofar: seq<nat>) returns (ghost performed: seq<nat>)
      requires Inv(Snapshot()) && Enabled(Snapshot(), id) && Run(start, sofar, Snapshot())
      modifies this, results
      ensures Inv(Snapshot()) && Snapshot() == Next(old(Snapshot()), id)
      ensures performed == sofar + [id] && Run(start, performed, Snapshot())
    {
      StepKeepsInv(Snapshot(), id);
      RunExtends(start, sofar, Snapshot(), id);
      performed := sofar + [id];
      ThreadRuns(id);
    }

    /** One thread runs to its end. */
    method Finish(id: nat, ghost start: State, ghost sofar: seq<nat>) returns (ghost performed: seq<nat>)
      requires Inv(Snapshot()) && id < |threads| && Run(start, sofar, Snapshot())
      modifies this, results
      ensures Inv(Snapshot()) && Run(start, performed, Snapshot())
      ensures |threads| == |old(threads)| && threads == old(threads)[id := Finished]
    {
      performed := sofar;
      ghost var last := First(id + 1, n, |threads|);
      RangesTile(n, |threads|, id);
      while threads[id] != Finished
        invariant Inv(Snapshot()) && Run(start, performed, Snapshot())
        invariant |threads| == |old(threads)| && threads == old(threads)[id := threads[id]]
        decreases Remaining(threads[id], last, n)
      {
        performed := Continue(id, start, performed);
      }
    }

    /** main joins the threads one after the other. */
    method JoinAll(ghost start: State, ghost sofar: seq<nat>) returns (ghost performed: seq<nat>)
      requires Inv(Snapshot()) && Run(start, sofar, Snapshot())
      modifies this, results
      ensures Inv(Snapshot()) && |threads| == |old(threads)| && Run(start, performed, Snapshot())
      ensures forall t :: 0 <= t < |threads| ==> threads[t] == Finished
    {
      performed := sofar;
      var id := 0;
      while id < |threads|
        invariant id <= |threads| == |old(threads)|
        invariant Inv(Snapshot()) && Run(start, performed, Snapshot())
        invariant forall t :: 0 <= t < id ==> threads[t] == Finished
      {
        performed := Finish(id, start, performed);
        id := id + 1;
      }
    }

    /** The whole program: the threads interleave in any way, main joins them and adds up their results. */
    method Integrate(order: seq<nat>) returns (total: real)
      requires 0.0 < dx && Snapshot() == Init(dx, Intervals(dx), |threads|) && Inv(Snapshot())
      modifies this, results
      ensures total == UnitSum(F, dx)
    {
      ghost var start := Snapshot();
      ghost var k := |threads|;
      ghost var performed := Interleave(order);
      performed := JoinAll(start, performed);
      ResultIsUnitSum(dx, k, performed, Snapshot());
      total := Sum();
    }
  }
}
