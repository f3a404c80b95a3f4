/** The reaper as code: the table and the counters are the fields of a class; `MainRuns` and `WorkerRuns`
    execute the next step of main and of threadFunc. */
module Reaper {
  import opened ReaperProtocol
  import opened ReaperCorrect

  class Program {
    const states: array<ThreadState>   // thread[].state
    var totThreads: nat
    var numLive: int
    var numUnjoined: int
    var locked: bool
    var main: MainPc
    var workers: seq<WorkerPc>
    ghost var joined: seq<nat>
    ghost var roundLive: int
    ghost var roundUnjoined: int

    ghost function Snapshot(): State
      reads this, states
    {
      State(main, workers, states[..], locked, totThreads, numLive, numUnjoined, joined, roundLive, roundUnjoined)
    }

    constructor (n: nat)
      ensures Inv(Snapshot()) && fresh(states)
      ensures Snapshot() == Init(n)
    {
      states := new ThreadState[n](_ => ALIVE);
      totThreads, numLive, numUnjoined := 0, 0, 0;
      locked := false;
      main := Creating(0);
      workers := seq(n, _ => Unborn);
      joined, roundLive, roundUnjoined := [], 0, 0;
      new;
      assert states[..] == seq(n, _ => ALIVE);
      InitInv(n);
    }

    method MainRuns()
      requires Shape(Snapshot())
      modifies this, states
      ensures Snapshot() == MainStep(old(Snapshot()))
    {
      match main
      case Creating(idx) =>
        if idx < |workers| {
          states[idx] := ALIVE;
          workers := workers[idx := Working];
          main := Creating(idx + 1);
        } else {
          totThreads := |workers|;
          numLive := totThreads;
          main := Looping;
        }
      case Looping =>
        if numLive > 0 {
          Wait();
        } else {
          main := Exited;
        }
      case Roused => Wait();
      case Scanning(idx) =>
        if idx < totThreads {
          main := if states[idx] == TERMINATED then Joining(idx) else Scanning(idx + 1);
        } else {
          locked := false;
          main := Looping;
        }
      case Joining(idx) =>
        states[idx] := JOINED;
        numLive := numLive - 1;
        numUnjoined := numUnjoined - 1;
        joined := joined + [idx];
        main := Scanning(idx + 1);
      case _ =>
    }

    /** Lock, and wait if there is nobody to join. */
    method Wait()
      modifies this
      ensures Snapshot() == AwaitReport(old(Snapshot()))
    {
      if numUnjoined == 0 {
        locked := false;
        main := Sleeping;
      } else {
        locked := true;
        main := Scanning(0);
        roundLive, roundUnjoined := numLive, numUnjoined;
      }
    }

    method WorkerRuns(w: nat)
      requires Shape(Snapshot()) && w < |workers|
      modifies this, states
      ensures Snapshot() == WorkerStep(old(Snapshot()), w)
    {
      match workers[w]
      case Working =>
        numUnjoined := numUnjoined + 1;
        states[w] := TERMINATED;
        workers := workers[w := Reported];
      case Reported =>
        if main == Sleeping {
          main := Roused;
        }
        workers := workers[w := Ended];
      case _ =>
    }

    method Perform(a: Action)
      requires Inv(Snapshot()) && Enabled(Snapshot(), a)
      modifies this, states
      ensures Inv(Snapshot()) && Snapshot() == Next(old(Snapshot()), a)
    {
      StepKeepsInv(Snapshot(), a);
      match a
      case MainRuns => MainRuns();
      case WorkerRuns(w) => WorkerRuns(w);
      case MainWakesUp => main := Roused;
    }

    /** The next thread that can run, if any; workers come first. */
    method Pick() returns (found: bool, a: Action)
      requires Inv(Snapshot())
      ensures found ==> Enabled(Snapshot(), a) && !a.MainWakesUp?
      ensures !found ==> Stuck(Snapshot())
    {
      var w := 0;
      while w < |workers|
        invariant w <= |workers|
        invariant forall v: nat :: v < w ==> !Enabled(Snapshot(), ReaperProtocol.WorkerRuns(v))
      {
        if (workers[w] == Working && !locked) || workers[w] == Reported {
          return true, ReaperProtocol.WorkerRuns(w);
        }
        w := w + 1;
      }
      a := ReaperProtocol.MainRuns;
      found := match main
        case Looping => !(numLive > 0) || !locked
        case Roused => !locked
        case Joining(i) => workers[i] == Ended
        case Sleeping => false
        case Exited => false
        case _ => true;
    }

    /** The whole program under one scheduler; it terminates with every thread joined. */
    method RunToTheEnd()
      requires Inv(Snapshot())
      modifies this, states
      ensures Complete(Snapshot(), |old(workers)|)
    {
      ghost var n := |workers|;
      while true
        invariant Inv(Snapshot()) && |workers| == n
        decreases Work(Snapshot())
      {
        ghost var before := Snapshot();
        var found, a := Pick();
        WorkIsNonNegative(before);
        if !found {
          assert Stuck(before);
          EndIsComplete(before);
          return;
        }
        StepWork(before, a);
        StepKeepsInv(before, a);
        Perform(a);
        WorkIsNonNegative(Snapshot());
      }
    }
  }
}
