/** The thread reaper: main creates workers, waits on a condition variable, and joins the workers that have
    terminated, holding the mutex while it scans the table and while it joins.  Workers report under the mutex
    and broadcast after releasing it. */
module ReaperProtocol {

  datatype ThreadState = ALIVE | TERMINATED | JOINED

  datatype WorkerPc =
    | Unborn
    | Working            // has still to take the mutex and report
    | Reported           // has released the mutex and has still to broadcast
    | Ended

  datatype MainPc =
    | Creating(next: nat)
    | Looping            // about to test numLive
    | Sleeping           // waiting on threadDied
    | Roused             // woken, about to retake the mutex
    | Scanning(at: nat)  // holds the mutex
    | Joining(at: nat)   // holds the mutex, inside pthread_join
    | Exited

  datatype State = State(
    main: MainPc,
    workers: seq<WorkerPc>,
    states: seq<ThreadState>,
    locked: bool,               // threadMutex is held across steps, by main
    totThreads: nat,
    numLive: int,
    numUnjoined: int,
    // history
    joined: seq<nat>,
    roundLive: int,             // numLive and numUnjoined when the scan in progress began
    roundUnjoined: int)

  datatype Action = MainRuns | WorkerRuns(w: nat) | MainWakesUp

  function Init(n: nat): State
  {
    State(Creating(0), seq(n, _ => Unborn), seq(n, _ => ALIVE), false, 0, 0, 0, [], 0, 0)
  }

  /** Table and program counters fit together. */
  predicate Shape(s: State)
  {
    && |s.states| == |s.workers|
    && (s.main.Creating? ==> s.main.next <= |s.workers|)
    && (s.main.Scanning? ==> s.totThreads == |s.workers| && s.main.at <= |s.workers|)
    && (s.main.Joining? ==> s.totThreads == |s.workers| && s.main.at < |s.workers|)
  }

  predicate Enabled(s: State, a: Action)
    requires Shape(s)
  {
    match a
    case MainRuns =>
      (match s.main
       case Looping => s.numLive > 0 ==> !s.locked
       case Roused => !s.locked
       case Joining(i) => s.workers[i] == Ended
       case Sleeping => false
       case Exited => false
       case _ => true)
    case WorkerRuns(w) =>
      w < |s.workers| && ((s.workers[w] == Working && !s.locked) || s.workers[w] == Reported)
    case MainWakesUp => s.main == Sleeping
  }

  /** With the mutex held: the inner wait loop. */
  function AwaitReport(s: State): State
  {
    if s.numUnjoined == 0 then s.(main := Sleeping, locked := false)
    else s.(main := Scanning(0), locked := true, roundLive := s.numLive, roundUnjoined := s.numUnjoined)
  }

  function MainStep(s: State): State
    requires Shape(s)
  {
    match s.main
    case Creating(i) =>
      if i < |s.workers| then
        s.(main := Creating(i + 1), states := s.states[i := ALIVE], workers := s.workers[i := Working])
      else
        s.(main := Looping, totThreads := |s.workers|, numLive := |s.workers|)
    case Looping => if s.numLive > 0 then AwaitReport(s) else s.(main := Exited)
    case Roused => AwaitReport(s)
    case Scanning(i) =>
      if i < s.totThreads then
        if s.states[i] == TERMINATED then s.(main := Joining(i)) else s.(main := Scanning(i + 1))
      else
        s.(main := Looping, locked := false)
    case Joining(i) =>
      s.(main := Scanning(i + 1), states := s.states[i := JOINED],
         numLive := s.numLive - 1, numUnjoined := s.numUnjoined - 1, joined := s.joined + [i])
    case _ => s
  }

  function WorkerStep(s: State, w: nat): State
    requires Shape(s) && w < |s.workers|
  {
    match s.workers[w]
    case Working =>
      s.(numUnjoined := s.numUnjoined + 1, states := s.states[w := TERMINATED], workers := s.workers[w := Reported])
    case Reported =>
      s.(main := if s.main == Sleeping then Roused else s.main, workers := s.workers[w := Ended])
    case _ => s
  }

  function Next(s: State, a: Action): State
    requires Shape(s) && Enabled(s, a)
  {
    match a
    case MainRuns => MainStep(s)
    case WorkerRuns(w) => WorkerStep(s, w)
    case MainWakesUp => s.(main := Roused)
  }

  ghost predicate Run(s: State, acts: seq<Action>, t: State)
    decreases |acts|
  {
    if acts == [] then s == t
    else Shape(s) && Enabled(s, acts[0]) && Run(Next(s, acts[0]), acts[1..], t)
  }
}
