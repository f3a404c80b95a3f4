/** Total correctness of the reaper: every run is bounded, no run gets stuck before the end, and at the end
    every thread has been joined exactly once. */
module ReaperCorrect {
  import opened Sums
  import opened Sequences
  import opened ReaperProtocol

  function IsTerminated(t: ThreadState): int { if t == TERMINATED then 1 else 0 }
  function NotJoined(t: ThreadState): int { if t == JOINED then 0 else 1 }

  predicate MainHoldsMutex(s: State)
  {
    s.main.Scanning? || s.main.Joining?
  }

  /** The table tells how far each worker is; a worker is joined only after it has ended. */
  ghost predicate Entry(main: MainPc, w: int, pc: WorkerPc, t: ThreadState)
  {
    match pc
    case Unborn => t == ALIVE && main.Creating? && main.next <= w
    case Working => t == ALIVE
    case Reported => t == TERMINATED
    case Ended => t != ALIVE
  }

  ghost predicate Table(s: State)
  {
    && Shape(s)
    && (forall w :: 0 <= w < |s.workers| ==> Entry(s.main, w, s.workers[w], s.states[w]))
    && (s.main.Creating? ==> forall w :: s.main.next <= w < |s.workers| ==> s.workers[w] == Unborn)
  }

  ghost predicate Counters(s: State)
  {
    && (s.locked <==> MainHoldsMutex(s))
    && s.numUnjoined == Sum(IsTerminated, s.states)
    && (if s.main.Creating? then s.numLive == 0 && s.totThreads == 0
        else s.numLive == Sum(NotJoined, s.states) && s.totThreads == |s.workers|)
    && (s.main.Sleeping? || s.main.Roused? ==> s.numLive > 0)
    && (s.main.Exited? ==> s.numLive == 0)
  }

  /** Behind the scan nobody is left to be joined, and nobody reports while the mutex is held. */
  ghost predicate Scan(s: State)
  {
    && Shape(s)
    && (MainHoldsMutex(s) ==>
      && (forall w :: 0 <= w < s.main.at ==> s.states[w] != TERMINATED)
      && s.numLive - s.numUnjoined == s.roundLive - s.roundUnjoined
      && s.roundUnjoined > 0)
    && (s.main.Joining? ==> s.states[s.main.at] == TERMINATED)
  }

  /** If main sleeps although there is somebody to join, a broadcast is still to come. */
  ghost predicate WakeUp(s: State)
  {
    s.main == Sleeping && s.numUnjoined > 0 ==> Reported in s.workers
  }

  ghost predicate Joins(s: State)
  {
    && Shape(s)
    && NoRepeats(s.joined)
    && (forall w :: w in s.joined ==> w < |s.states|)
    && (forall w: nat :: w < |s.states| ==> (s.states[w] == JOINED <==> w in s.joined))
    && (s.main.Creating? ==> s.joined == [])
  }

  ghost predicate Inv(s: State)
  {
    Table(s) && Counters(s) && Scan(s) && WakeUp(s) && Joins(s)
  }

  // ----- every step keeps it -----

  lemma NonNegative(s: State)
    ensures 0 <= Sum(IsTerminated, s.states) && 0 <= Sum(NotJoined, s.states)
  {
    SumNonNegative(IsTerminated, s.states);
    SumNonNegative(NotJoined, s.states);
  }

  lemma CreateKeepsInv(s: State)
    requires Inv(s) && s.main.Creating?
    ensures Inv(MainStep(s))
  {
    var i := s.main.next;
    if i < |s.workers| {
      assert s.workers[i] == Unborn;
      assert s.states[i := ALIVE] == s.states;
    } else {
      forall w | 0 <= w < |s.states| ensures s.states[w] != JOINED {
        assert w !in s.joined;
      }
      SumConstant(NotJoined, s.states, 1);
    }
  }

  lemma JoinKeepsInv(s: State)
    requires Inv(s) && s.main.Joining? && Enabled(s, MainRuns)
    ensures Inv(MainStep(s))
  {
    SumUpdate(IsTerminated, s.states, s.main.at, JOINED);
    SumUpdate(NotJoined, s.states, s.main.at, JOINED);
  }

  lemma LoopKeepsInv(s: State)
    requires Inv(s) && !s.main.Creating? && !s.main.Joining? && Enabled(s, MainRuns)
    ensures Inv(MainStep(s))
  {
    NonNegative(s);
  }

  lemma WorkerKeepsInv(s: State, w: nat)
    requires Inv(s) && Enabled(s, WorkerRuns(w))
    ensures Inv(WorkerStep(s, w))
  {
    var t := WorkerStep(s, w);
    if s.workers[w] == Working {
      SumUpdate(IsTerminated, s.states, w, TERMINATED);
      SumUpdate(NotJoined, s.states, w, TERMINATED);
      assert t.workers[w] == Reported;
    }
  }

  lemma StepKeepsInv(s: State, a: Action)
    requires Inv(s) && Enabled(s, a)
    ensures Inv(Next(s, a)) && |Next(s, a).workers| == |s.workers|
  {
    match a
    case MainRuns =>
      if s.main.Creating? {
        CreateKeepsInv(s);
      } else if s.main.Joining? {
        JoinKeepsInv(s);
      } else {
        LoopKeepsInv(s);
      }
    case WorkerRuns(w) => WorkerKeepsInv(s, w);
    case MainWakesUp =>
  }

  lemma InitInv(n: nat)
    ensures Inv(Init(n))
  {
    SumConstant(IsTerminated, Init(n).states, 0);
  }

  lemma {:induction false} RunKeepsInv(s: State, acts: seq<Action>, t: State)
    requires Inv(s) && Run(s, acts, t)
    ensures Inv(t) && |t.workers| == |s.workers|
    decreases |acts|
  {
    if acts != [] {
      StepKeepsInv(s, acts[0]);
      RunKeepsInv(Next(s, acts[0]), acts[1..], t);
    }
  }

  lemma Always(n: nat, acts: seq<Action>, s: State)
    requires Run(Init(n), acts, s)
    ensures Inv(s) && |s.workers| == n
  {
    InitInv(n);
    RunKeepsInv(Init(n), acts, s);
  }

  lemma {:induction false} RunExtends(s: State, acts: seq<Action>, t: State, a: Action)
    requires Run(s, acts, t) && Shape(t) && Enabled(t, a)
    ensures Run(s, acts + [a], Next(t, a))
    decreases |acts|
  {
    if acts == [] {
      assert [a][1..] == [];
      assert Run(Next(t, a), [a][1..], Next(t, a));
      assert acts + [a] == [a];
    } else {
      assert (acts + [a])[1..] == acts[1..] + [a];
      RunExtends(Next(s, acts[0]), acts[1..], t, a);
    }
  }

  // ----- what holds all along -----

  /** The counters mean what their comments say, and if main sleeps while there is somebody to join, the
      broadcast that wakes it is still to come although the mutex was released long ago. */
  lemma CountersAndWakeUps(n: nat, acts: seq<Action>, s: State)
    requires Run(Init(n), acts, s)
    ensures s.numUnjoined == Sum(IsTerminated, s.states)
    ensures !s.main.Creating? ==> s.numLive == Sum(NotJoined, s.states)
    ensures s.main == Sleeping && s.numUnjoined > 0 ==> exists w :: 0 <= w < |s.workers| && s.workers[w] == Reported
  {
    Always(n, acts, s);
  }

  /** Joining with the mutex held cannot deadlock: the thread being joined has already given the mutex back
      for the last time. */
  lemma JoinedThreadNeedsNoMutex(n: nat, acts: seq<Action>, s: State)
    requires Run(Init(n), acts, s) && s.main.Joining?
    ensures s.main.at < |s.workers| && s.workers[s.main.at] in {Reported, Ended}
    ensures Shape(s) && (Enabled(s, MainRuns) || Enabled(s, WorkerRuns(s.main.at)))
  {
    Always(n, acts, s);
  }

  /** When a scan is over, everybody who had terminated when it began has been joined, and that was somebody. */
  lemma EveryRoundJoins(n: nat, acts: seq<Action>, s: State)
    requires Run(Init(n), acts, s) && s.main == Scanning(n)
    ensures s.numUnjoined == 0
    ensures s.numLive == s.roundLive - s.roundUnjoined < s.roundLive
  {
    Always(n, acts, s);
    SumConstant(IsTerminated, s.states, 0);
  }

  // ----- termination -----

  function WorkerRank(pc: WorkerPc): int
  {
    match pc
    case Unborn => 3
    case Working => 3
    case Reported => 2
    case Ended => 0
  }

  /** k rounds of main, each of which takes at most 2n + 2 steps. */
  ghost function Rounds(n: nat, k: int): int
    decreases k
  {
    if k <= 0 then 0 else Rounds(n, k - 1) + 2 * n + 2
  }

  lemma {:induction false} MoreRounds(n: nat, j: int, k: int)
    requires j <= k
    ensures 0 <= Rounds(n, j) <= Rounds(n, k)
    decreases k
  {
    if 0 < k {
      MoreRounds(n, if j < k then j else j - 1, k - 1);
    }
  }

  lemma {:induction false} RoundsProduct(n: nat, k: nat)
    ensures Rounds(n, k) == (2 * n + 2) * k
  {
    if k > 0 {
      RoundsProduct(n, k - 1);
      assert (2 * n + 2) * k == (2 * n + 2) * (k - 1) + (2 * n + 2);
    }
  }

  /** While a round is under way the thread it is sure to join is already paid for. */
  ghost function MainRank(s: State): int
  {
    var n := |s.workers|;
    match s.main
    case Creating(i) => Rounds(n, n) + 2 + n - i
    case Looping => Rounds(n, s.numLive) + 1
    case Sleeping => Rounds(n, s.numLive)
    case Roused => Rounds(n, s.numLive) + 1
    case Scanning(i) => Rounds(n, s.roundLive - 1) + 2 + 2 * (n - i)
    case Joining(i) => Rounds(n, s.roundLive - 1) + 1 + 2 * (n - i)
    case Exited => 0
  }

  ghost function Work(s: State): int
  {
    MainRank(s) + Sum(WorkerRank, s.workers)
  }

  lemma WorkIsNonNegative(s: State)
    requires Inv(s)
    ensures Work(s) >= 0
  {
    SumNonNegative(WorkerRank, s.workers);
    var n := |s.workers|;
    MoreRounds(n, n, n);
    MoreRounds(n, s.numLive, s.numLive);
    MoreRounds(n, s.roundLive - 1, s.roundLive - 1);
  }

  lemma {:induction false} TerminatedAreNotJoined(states: seq<ThreadState>)
    ensures Sum(IsTerminated, states) <= Sum(NotJoined, states)
  {
    if states != [] {
      TerminatedAreNotJoined(states[1..]);
    }
  }

  lemma CreateWork(s: State)
    requires Inv(s) && s.main.Creating?
    ensures Work(MainStep(s)) < Work(s)
  {
    if s.main.next < |s.workers| {
      assert s.workers[s.main.next] == Unborn;
      SumUpdate(WorkerRank, s.workers, s.main.next, Working);
    }
  }

  lemma ScanWork(s: State)
    requires Inv(s) && MainHoldsMutex(s) && Enabled(s, MainRuns)
    ensures Work(MainStep(s)) < Work(s)
  {
    var n := |s.workers|;
    if s.main == Scanning(n) {
      forall t | t in s.states ensures IsTerminated(t) == 0 {
      }
      SumConstant(IsTerminated, s.states, 0);
      MoreRounds(n, s.numLive, s.roundLive - 1);
    }
  }

  lemma LoopWork(s: State)
    requires Inv(s) && s.main in {Looping, Roused} && Enabled(s, MainRuns)
    ensures Work(MainStep(s)) < Work(s)
  {
    MoreRounds(|s.workers|, s.numLive, s.numLive);
  }

  /** Every step does some of the work, except that a spurious wake-up adds one unit. */
  lemma StepWork(s: State, a: Action)
    requires Inv(s) && Enabled(s, a)
    ensures if a.MainWakesUp? then Work(Next(s, a)) == Work(s) + 1 else Work(Next(s, a)) < Work(s)
  {
    match a
    case MainRuns =>
      if s.main.Creating? {
        CreateWork(s);
      } else if MainHoldsMutex(s) {
        ScanWork(s);
      } else {
        LoopWork(s);
      }
    case WorkerRuns(w) => SumUpdate(WorkerRank, s.workers, w, WorkerStep(s, w).workers[w]);
    case MainWakesUp =>
  }

  ghost function CountSpurious(acts: seq<Action>): nat
  {
    if acts == [] then 0 else (if acts[0].MainWakesUp? then 1 else 0) + CountSpurious(acts[1..])
  }

  lemma {:induction false} RunWork(s: State, acts: seq<Action>, t: State)
    requires Inv(s) && Run(s, acts, t)
    ensures |acts| <= Work(s) - Work(t) + 2 * CountSpurious(acts)
    decreases |acts|
  {
    if acts != [] {
      StepWork(s, acts[0]);
      StepKeepsInv(s, acts[0]);
      RunWork(Next(s, acts[0]), acts[1..], t);
    }
  }

  /** The program ends: with n workers every run has at most 2n^2 + 6n + 2 steps, plus two for every spurious
      wake-up. */
  lemma RunsAreBounded(n: nat, acts: seq<Action>, s: State)
    requires Run(Init(n), acts, s)
    ensures |acts| <= 2 * n * n + 6 * n + 2 + 2 * CountSpurious(acts)
  {
    InitInv(n);
    RunWork(Init(n), acts, s);
    Always(n, acts, s);
    WorkIsNonNegative(s);
    SumConstant(WorkerRank, Init(n).workers, 3);
    RoundsProduct(n, n);
  }

  // ----- no run gets stuck -----

  /** Without a spurious wake-up nothing can happen any more. */
  ghost predicate Stuck(s: State)
    requires Shape(s)
  {
    forall a :: Enabled(s, a) ==> a.MainWakesUp?
  }

  /** Main has exited, the counters are 0, and every thread has ended and has been joined exactly once. */
  ghost predicate Complete(s: State, n: nat)
  {
    && s.main == Exited && s.numLive == 0 && s.numUnjoined == 0
    && |s.workers| == |s.states| == n
    && (forall w :: 0 <= w < n ==> s.workers[w] == Ended && s.states[w] == JOINED)
    && NoRepeats(s.joined) && (forall w :: w in s.joined <==> 0 <= w < n)
  }

  lemma ExitIsComplete(s: State)
    requires Inv(s) && s.main == Exited
    ensures Complete(s, |s.workers|)
  {
    TerminatedAreNotJoined(s.states);
    NonNegative(s);
    forall w: nat | w < |s.workers| ensures s.workers[w] == Ended && s.states[w] == JOINED {
      SumMember(NotJoined, s.states, w);
    }
  }

  lemma SomebodyCanRun(s: State)
    requires Inv(s) && s.main != Exited
    ensures Enabled(s, MainRuns) || exists w: nat :: Enabled(s, WorkerRuns(w))
  {
    if s.main.Joining? {
        assert Enabled(s, MainRuns) || Enabled(s, WorkerRuns(s.main.at));
    } else if s.main == Sleeping {
      if s.numUnjoined > 0 {
        var w :| 0 <= w < |s.workers| && s.workers[w] == Reported;
        assert Enabled(s, WorkerRuns(w));
      } else {
        var w := SumWitness(NotJoined, s.states);
        NonNegative(s);
        SumMember(IsTerminated, s.states, w);
        assert Enabled(s, WorkerRuns(w));
      }
    }
  }

  lemma EndIsComplete(s: State)
    requires Inv(s)
    ensures Stuck(s) <==> Complete(s, |s.workers|)
  {
    if s.main == Exited {
      ExitIsComplete(s);
    } else {
      SomebodyCanRun(s);
    }
  }

  /** Total correctness: a run that cannot go on has reached the end, and a run that has reached the end
      cannot go on. */
  lemma StuckExactlyAtTheEnd(n: nat, acts: seq<Action>, s: State)
    requires Run(Init(n), acts, s)
    ensures Shape(s) && (Stuck(s) <==> Complete(s, n))
  {
    Always(n, acts, s);
    EndIsComplete(s);
  }
}
