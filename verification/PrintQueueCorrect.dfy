/** The ring behaves as an atomic bounded first-in first-out queue and never deadlocks. */
module PrintQueueCorrect {
  import opened Sums
  import opened PrintQueueProtocol

  // ----- regions -----

  function UserInside(u: User): int { if u.pc in {Entered, Copied, Advanced} then 1 else 0 }
  function UserHoldsSlot(u: User): int { if u.pc in {GotEmpty, Entered, Copied} then 1 else 0 }
  function UserOwesFull(u: User): int { if u.pc in {Advanced, Left} then 1 else 0 }
  function PrinterInside(p: Printer): int { if p.pc in {Reading, Fetched, Moved} then 1 else 0 }
  function PrinterHoldsJob(p: Printer): int { if p.pc in {GotFull, Reading, Fetched} then 1 else 0 }
  function PrinterOwesEmpty(p: Printer): int { if p.pc in {Moved, Released} then 1 else 0 }

  // ----- the invariant -----

  /** Every slot is accounted for: what is in the ring has a unit of sem_full or somebody on the way to
      give or use one, what is free has a unit of sem_empty or somebody on the way. */
  ghost predicate Accounts(s: State)
  {
    && s.semMutex + Sum(UserInside, s.users) + Sum(PrinterInside, s.printers) == 1
    && |s.written| - |s.read| == s.semFull + Sum(UserOwesFull, s.users) + Sum(PrinterHoldsJob, s.printers)
    && |s.jobs| - (|s.written| - |s.read|) == s.semEmpty + Sum(UserHoldsSlot, s.users) + Sum(PrinterOwesEmpty, s.printers)
  }

  /** The slot of the k-th job: k steps round a ring of n slots. */
  ghost function Slot(k: nat, n: nat): (slot: nat)
    requires n > 0
    ensures slot < n
  {
    if k == 0 then 0 else if Slot(k - 1, n) + 1 == n then 0 else Slot(k - 1, n) + 1
  }

  /** The index update of the code moves to the next slot. */
  lemma NextSlot(k: nat, n: nat)
    requires n > 0
    ensures Slot(k + 1, n) == (Slot(k, n) + 1) % n
  {
  }

  /** The slots from head on hold the jobs written and not yet read, in order. */
  ghost predicate Ring(s: State)
  {
    && Shape(s)
    && |s.read| <= |s.written| <= |s.read| + |s.jobs|
    && s.head == Slot(|s.read|, |s.jobs|) && s.tail == Slot(|s.written|, |s.jobs|)
    && s.read == s.written[..|s.read|]
    && (forall k :: |s.read| <= k < |s.written| ==> s.jobs[Slot(k, |s.jobs|)] == s.written[k])
  }

  /** Whoever is between copying and moving its index has copied the right thing. */
  ghost predicate Copies(s: State)
  {
    && Shape(s)
    && (forall u :: 0 <= u < |s.users| && s.users[u].pc == Copied ==> s.jobs[s.tail] == s.users[u].job)
    && (forall p :: 0 <= p < |s.printers| && s.printers[p].pc == Fetched ==> s.printers[p].buffer == s.jobs[s.head])
  }

  ghost predicate Inv(s: State)
  {
    Accounts(s) && Ring(s) && Copies(s)
  }

  lemma NonNegative(s: State)
    ensures 0 <= Sum(UserInside, s.users) && 0 <= Sum(PrinterInside, s.printers)
    ensures 0 <= Sum(UserHoldsSlot, s.users) && 0 <= Sum(PrinterOwesEmpty, s.printers)
    ensures 0 <= Sum(UserOwesFull, s.users) && 0 <= Sum(PrinterHoldsJob, s.printers)
  {
    SumNonNegative(UserInside, s.users);
    SumNonNegative(PrinterInside, s.printers);
    SumNonNegative(UserHoldsSlot, s.users);
    SumNonNegative(PrinterOwesEmpty, s.printers);
    SumNonNegative(UserOwesFull, s.users);
    SumNonNegative(PrinterHoldsJob, s.printers);
  }

  // ----- accounting -----

  lemma UserKeepsAccounts(s: State, u: nat, job: Job)
    requires Shape(s) && Accounts(s) && Enabled(s, UserRuns(u, job))
    ensures Accounts(UserStep(s, u, job))
  {
    var me := UserStep(s, u, job).users[u];
    SumUpdate(UserInside, s.users, u, me);
    SumUpdate(UserHoldsSlot, s.users, u, me);
    SumUpdate(UserOwesFull, s.users, u, me);
  }

  lemma PrinterKeepsAccounts(s: State, p: nat)
    requires Shape(s) && Accounts(s) && Enabled(s, PrinterRuns(p))
    ensures Accounts(PrinterStep(s, p))
  {
    var me := PrinterStep(s, p).printers[p];
    SumUpdate(PrinterInside, s.printers, p, me);
    SumUpdate(PrinterHoldsJob, s.printers, p, me);
    SumUpdate(PrinterOwesEmpty, s.printers, p, me);
  }

  // ----- mutual exclusion -----

  /** At most one process is between sem_wait(sem_mutex) and sem_post(sem_mutex). */
  lemma UserAlone(s: State, u: nat)
    requires Accounts(s) && u < |s.users| && UserInside(s.users[u]) == 1
    ensures s.semMutex == 0
    ensures forall v :: 0 <= v < |s.users| && v != u ==> UserInside(s.users[v]) == 0
    ensures forall p :: 0 <= p < |s.printers| ==> PrinterInside(s.printers[p]) == 0
  {
    NonNegative(s);
    SumMember(UserInside, s.users, u);
    forall v | 0 <= v < |s.users| && v != u ensures UserInside(s.users[v]) == 0 {
      SumTwo(UserInside, s.users, if u < v then u else v, if u < v then v else u);
    }
    forall p | 0 <= p < |s.printers| ensures PrinterInside(s.printers[p]) == 0 {
      SumMember(PrinterInside, s.printers, p);
    }
  }

  lemma PrinterAlone(s: State, p: nat)
    requires Accounts(s) && p < |s.printers| && PrinterInside(s.printers[p]) == 1
    ensures s.semMutex == 0
    ensures forall q :: 0 <= q < |s.printers| && q != p ==> PrinterInside(s.printers[q]) == 0
    ensures forall u :: 0 <= u < |s.users| ==> UserInside(s.users[u]) == 0
  {
    NonNegative(s);
    SumMember(PrinterInside, s.printers, p);
    forall q | 0 <= q < |s.printers| && q != p ensures PrinterInside(s.printers[q]) == 0 {
      SumTwo(PrinterInside, s.printers, if p < q then p else q, if p < q then q else p);
    }
    forall u | 0 <= u < |s.users| ensures UserInside(s.users[u]) == 0 {
      SumMember(UserInside, s.users, u);
    }
  }

  // ----- the ring -----

  lemma {:induction false} SlotAhead(a: nat, d: nat, n: nat)
    requires d <= n && n > 0
    ensures Slot(a + d, n) == if Slot(a, n) + d < n then Slot(a, n) + d else Slot(a, n) + d - n
  {
    if d > 0 {
      SlotAhead(a, d - 1, n);
    }
  }

  /** Positions less than a lap apart have different slots. */
  lemma DistinctSlots(a: nat, b: nat, n: nat)
    requires a < b < a + n
    ensures Slot(a, n) != Slot(b, n)
  {
    SlotAhead(a, b - a, n);
  }

  lemma WriteKeepsRing(s: State, u: nat, job: Job)
    requires Ring(s) && Accounts(s) && Enabled(s, UserRuns(u, job)) && s.users[u].pc == Entered
    ensures Ring(UserStep(s, u, job))
  {
    NonNegative(s);
    SumMember(UserHoldsSlot, s.users, u);
    forall k | |s.read| <= k < |s.written| ensures Slot(k, |s.jobs|) != s.tail {
      DistinctSlots(k, |s.written|, |s.jobs|);
    }
  }

  lemma UserKeepsRing(s: State, u: nat, job: Job)
    requires Inv(s) && Enabled(s, UserRuns(u, job))
    ensures Ring(UserStep(s, u, job))
  {
    if s.users[u].pc == Entered {
      WriteKeepsRing(s, u, job);
    } else if s.users[u].pc == Copied {
      NonNegative(s);
      SumMember(UserHoldsSlot, s.users, u);
      var t := UserStep(s, u, job);
      NextSlot(|s.written|, |s.jobs|);
      assert t.written[..|t.read|] == s.written[..|s.read|];
    }
  }

  lemma PrinterKeepsRing(s: State, p: nat)
    requires Inv(s) && Enabled(s, PrinterRuns(p))
    ensures Ring(PrinterStep(s, p))
  {
    if s.printers[p].pc == Fetched {
      NonNegative(s);
      SumMember(PrinterHoldsJob, s.printers, p);
      var t := PrinterStep(s, p);
      NextSlot(|s.read|, |s.jobs|);
      assert s.printers[p].buffer == s.written[|s.read|];
      assert t.written[..|t.read|] == s.written[..|s.read|] + [s.written[|s.read|]];
    }
  }

  // ----- the copies -----

  lemma UserKeepsCopies(s: State, u: nat, job: Job)
    requires Inv(s) && Enabled(s, UserRuns(u, job))
    ensures Copies(UserStep(s, u, job))
  {
    if UserInside(s.users[u]) == 1 {
      UserAlone(s, u);
    }
  }

  lemma PrinterKeepsCopies(s: State, p: nat)
    requires Inv(s) && Enabled(s, PrinterRuns(p))
    ensures Copies(PrinterStep(s, p))
  {
    if PrinterInside(s.printers[p]) == 1 {
      PrinterAlone(s, p);
    }
  }

  // ----- over whole runs -----

  lemma InitInv(size: nat, users: nat, printers: nat)
    requires size > 0
    ensures Inv(Init(size, users, printers))
  {
    var s := Init(size, users, printers);
    SumConstant(UserInside, s.users, 0);
    SumConstant(UserHoldsSlot, s.users, 0);
    SumConstant(UserOwesFull, s.users, 0);
    SumConstant(PrinterInside, s.printers, 0);
    SumConstant(PrinterHoldsJob, s.printers, 0);
    SumConstant(PrinterOwesEmpty, s.printers, 0);
  }

  lemma StepKeepsInv(s: State, a: Action)
    requires Inv(s) && Enabled(s, a)
    ensures Inv(Next(s, a))
    ensures |Next(s, a).jobs| == |s.jobs| && |Next(s, a).users| == |s.users| && |Next(s, a).printers| == |s.printers|
  {
    match a
    case UserRuns(u, job) =>
      UserKeepsAccounts(s, u, job);
      UserKeepsRing(s, u, job);
      UserKeepsCopies(s, u, job);
    case PrinterRuns(p) =>
      PrinterKeepsAccounts(s, p);
      PrinterKeepsRing(s, p);
      PrinterKeepsCopies(s, p);
  }

  lemma {:induction false} RunKeepsInv(s: State, acts: seq<Action>, t: State)
    requires Inv(s) && Run(s, acts, t)
    ensures Inv(t)
    ensures |t.jobs| == |s.jobs| && |t.users| == |s.users| && |t.printers| == |s.printers|
    decreases |acts|
  {
    if acts != [] {
      StepKeepsInv(s, acts[0]);
      RunKeepsInv(Next(s, acts[0]), acts[1..], t);
    }
  }

  lemma {:induction false} RunExtends(s: State, acts: seq<Action>, t: State, a: Action)
    requires Run(s, acts, t) && Shape(t) && Enabled(t, a)
    ensures Run(s, acts + [a], Next(t, a))
    decreases |acts|
  {
    if acts == [] {
      assert [a][1..] == [];
      assert Run(Next(t, a), [a][1..], Next(t, a));
      assert acts + [a] == [a];
    } else {
      assert (acts + [a])[1..] == acts[1..] + [a];
      RunExtends(Next(s, acts[0]), acts[1..], t, a);
    }
  }

  /** What is in the ring, read off the shared memory from head on. */
  ghost function Contents(s: State): seq<Job>
    requires Ring(s)
  {
    seq(|s.written| - |s.read|, i requires 0 <= i < |s.written| - |s.read| => s.jobs[Slot(|s.read| + i, |s.jobs|)])
  }

  lemma ContentsAreUnread(s: State)
    requires Ring(s)
    ensures Contents(s) == s.written[|s.read|..] && |Contents(s)| <= |s.jobs|
    ensures s.written == s.read + Contents(s)
  {
    assert s.written == s.written[..|s.read|] + s.written[|s.read|..];
  }

  /** The tail is as far behind the head, round the ring, as there are jobs in it. */
  lemma TailFollows(s: State, n: nat)
    requires Ring(s) && n == |s.written| - |s.read|
    ensures s.tail == (if s.head + n < |s.jobs| then s.head + n else s.head + n - |s.jobs|)
  {
    assert |s.read| + n == |s.written|;
    SlotAhead(|s.read|, n, |s.jobs|);
  }

  /** No job is lost, duplicated, reordered, or overwritten before it is read: in every state of every run the
      jobs the printers took out, followed by the ring from head to tail, are the jobs the users put in. */
  lemma NothingLost(size: nat, users: nat, printers: nat, acts: seq<Action>, s: State)
    requires size > 0 && Run(Init(size, users, printers), acts, s)
    ensures Ring(s) && s.written == s.read + Contents(s)
    ensures |Contents(s)| <= size == |s.jobs|
    ensures s.tail == (if s.head + |Contents(s)| < size then s.head + |Contents(s)| else s.head + |Contents(s)| - size)
  {
    InitInv(size, users, printers);
    RunKeepsInv(Init(size, users, printers), acts, s);
    ContentsAreUnread(s);
    TailFollows(s, |Contents(s)|);
  }

  /** The semaphores count what they should, and at most one process is in a critical section. */
  lemma SemaphoreAccounting(size: nat, users: nat, printers: nat, acts: seq<Action>, s: State)
    requires size > 0 && Run(Init(size, users, printers), acts, s)
    ensures s.semMutex + Sum(UserInside, s.users) + Sum(PrinterInside, s.printers) == 1
    ensures s.semEmpty + s.semFull
      + Sum(UserHoldsSlot, s.users) + Sum(UserOwesFull, s.users)
      + Sum(PrinterHoldsJob, s.printers) + Sum(PrinterOwesEmpty, s.printers) == size
    ensures s.semFull <= |s.written| - |s.read| <= size - s.semEmpty
  {
    InitInv(size, users, printers);
    RunKeepsInv(Init(size, users, printers), acts, s);
    NonNegative(s);
  }

  // ----- refinement of an atomic queue -----

  datatype Event = Put(job: Job) | Take(job: Job) | Silent

  /** What an atomic queue of the given capacity allows: putting into a queue that is not full, taking the
      oldest job from a queue that is not empty. */
  ghost predicate Accepts(capacity: nat, queue: seq<Job>, events: seq<Event>, end: seq<Job>)
    decreases |events|
  {
    if events == [] then queue == end
    else match events[0]
      case Put(job) => |queue| < capacity && Accepts(capacity, queue + [job], events[1..], end)
      case Take(job) => queue != [] && job == queue[0] && Accepts(capacity, queue[1..], events[1..], end)
      case Silent => Accepts(capacity, queue, events[1..], end)
  }

  /** What an observer sees of a step: a job appears when tail moves and disappears when head moves. */
  ghost function Visible(s: State, a: Action): Event
    requires Enabled(s, a)
  {
    match a
    case UserRuns(u, job) => if s.users[u].pc == Copied then Put(s.users[u].job) else Silent
    case PrinterRuns(p) => if s.printers[p].pc == Fetched then Take(s.printers[p].buffer) else Silent
  }

  ghost function Trace(s: State, acts: seq<Action>, t: State): seq<Event>
    requires Run(s, acts, t)
    decreases |acts|
  {
    if acts == [] then [] else [Visible(s, acts[0])] + Trace(Next(s, acts[0]), acts[1..], t)
  }

  lemma UserUnread(s: State, u: nat, job: Job)
    requires Ring(s) && Accounts(s) && Enabled(s, UserRuns(u, job))
    ensures var t := UserStep(s, u, job);
      if s.users[u].pc == Copied
      then |s.written| - |s.read| < |s.jobs| && t.written[|t.read|..] == s.written[|s.read|..] + [s.users[u].job]
      else t.written == s.written && t.read == s.read
  {
    if s.users[u].pc == Copied {
      NonNegative(s);
      SumMember(UserHoldsSlot, s.users, u);
    }
  }

  lemma PrinterUnread(s: State, p: nat)
    requires Ring(s) && Accounts(s) && Copies(s) && Enabled(s, PrinterRuns(p))
    ensures var t := PrinterStep(s, p);
      if s.printers[p].pc == Fetched
      then |s.read| < |s.written| && s.written[|s.read|..] == [s.printers[p].buffer] + t.written[|t.read|..]
      else t.written == s.written && t.read == s.read
  {
    if s.printers[p].pc == Fetched {
      NonNegative(s);
      SumMember(PrinterHoldsJob, s.printers, p);
      assert s.printers[p].buffer == s.written[|s.read|];
    }
  }

  /** Each step is silent or puts or takes one job, and the room or the job it needs is there. */
  lemma StepContents(s: State, a: Action)
    requires Inv(s) && Enabled(s, a) && Ring(Next(s, a))
    ensures match Visible(s, a)
      case Put(job) => |Contents(s)| < |s.jobs| && Contents(Next(s, a)) == Contents(s) + [job]
      case Take(job) => Contents(s) == [job] + Contents(Next(s, a))
      case Silent => Contents(Next(s, a)) == Contents(s)
  {
    ContentsAreUnread(s);
    ContentsAreUnread(Next(s, a));
    match a
    case UserRuns(u, job) => UserUnread(s, u, job);
    case PrinterRuns(p) => PrinterUnread(s, p);
  }

  lemma {:induction false} RunRefines(s: State, acts: seq<Action>, t: State)
    requires Inv(s) && Run(s, acts, t)
    ensures Inv(t) && Accepts(|s.jobs|, Contents(s), Trace(s, acts, t), Contents(t))
    decreases |acts|
  {
    if acts != [] {
      StepKeepsInv(s, acts[0]);
      RunRefines(Next(s, acts[0]), acts[1..], t);
      StepContents(s, acts[0]);
      assert Trace(s, acts, t)[1..] == Trace(Next(s, acts[0]), acts[1..], t);
    }
  }

  /** Refinement: whatever users and printers do in whatever interleaving, an observer of the ring sees a run
      of an atomic bounded queue that starts empty and ends with the contents of the ring. */
  lemma RefinesAtomicQueue(size: nat, users: nat, printers: nat, acts: seq<Action>, s: State)
    requires size > 0 && Run(Init(size, users, printers), acts, s)
    ensures Ring(s) && Accepts(size, [], Trace(Init(size, users, printers), acts, s), Contents(s))
  {
    InitInv(size, users, printers);
    RunRefines(Init(size, users, printers), acts, s);
    assert Contents(Init(size, users, printers)) == [];
  }

  // ----- deadlock freedom -----

  /** With a slot, a user and a printer, some process can always take a step. */
  lemma NoDeadlock(size: nat, users: nat, printers: nat, acts: seq<Action>, s: State)
    requires size > 0 && users > 0 && printers > 0
    requires Run(Init(size, users, printers), acts, s)
    ensures exists a :: Enabled(s, a)
  {
    SemaphoreAccounting(size, users, printers, acts, s);
    InitInv(size, users, printers);
    RunKeepsInv(Init(size, users, printers), acts, s);
    if forall a :: !Enabled(s, a) {
      forall u | 0 <= u < users ensures s.users[u].pc in {Outside, GotEmpty} {
        assert !Enabled(s, UserRuns(u, ""));
      }
      forall p | 0 <= p < printers ensures s.printers[p].pc in {Printing, GotFull} {
        assert !Enabled(s, PrinterRuns(p));
      }
      SumConstant(UserInside, s.users, 0);
      SumConstant(PrinterInside, s.printers, 0);
      forall u | 0 <= u < users ensures s.users[u].pc == Outside && s.semEmpty == 0 {
        assert !Enabled(s, UserRuns(u, ""));
      }
      forall p | 0 <= p < printers ensures s.printers[p].pc == Printing && s.semFull == 0 {
        assert !Enabled(s, PrinterRuns(p));
      }
      SumConstant(UserHoldsSlot, s.users, 0);
      SumConstant(UserOwesFull, s.users, 0);
      SumConstant(PrinterHoldsJob, s.printers, 0);
      SumConstant(PrinterOwesEmpty, s.printers, 0);
      assert false;
    }
  }

  // ----- throughput -----

  /** How many steps a user is away from its next update of tail. */
  function UserDistance(u: User): int
  {
    match u.pc
    case Copied => 0
    case Entered => 1
    case GotEmpty => 2
    case Outside => 3
    case Left => 4
    case Advanced => 5
  }

  /** How many steps a printer is away from its next update of head. */
  function PrinterDistance(p: Printer): int
  {
    match p.pc
    case Fetched => 0
    case Reading => 1
    case GotFull => 2
    case Printing => 3
    case Released => 4
    case Moved => 5
  }

  ghost function Distance(s: State): int
  {
    Sum(UserDistance, s.users) + Sum(PrinterDistance, s.printers)
  }

  lemma StepDistance(s: State, a: Action)
    requires Shape(s) && Enabled(s, a)
    ensures Distance(Next(s, a)) + 1 == Distance(s) + 6 * (|Next(s, a).written| - |s.written| + |Next(s, a).read| - |s.read|)
  {
    match a
    case UserRuns(u, job) => SumUpdate(UserDistance, s.users, u, Next(s, a).users[u]);
    case PrinterRuns(p) => SumUpdate(PrinterDistance, s.printers, p, Next(s, a).printers[p]);
  }

  lemma {:induction false} RunDistance(s: State, acts: seq<Action>, t: State)
    requires Run(s, acts, t)
    ensures |acts| + Distance(t) == Distance(s) + 6 * (|t.written| - |s.written| + |t.read| - |s.read|)
    decreases |acts|
  {
    if acts != [] {
      StepDistance(s, acts[0]);
      RunDistance(Next(s, acts[0]), acts[1..], t);
    }
  }

  /** Processes never just keep busy: every run prints a job at least every twelve steps, apart from a constant
      that depends on the numbers of processes and slots only.  With NoDeadlock, printing goes on for ever. */
  lemma Throughput(size: nat, users: nat, printers: nat, acts: seq<Action>, s: State)
    requires size > 0 && Run(Init(size, users, printers), acts, s)
    ensures |acts| <= 3 * (users + printers) + 6 * size + 12 * |s.read|
  {
    var init := Init(size, users, printers);
    NothingLost(size, users, printers, acts, s);
    RunDistance(init, acts, s);
    SumConstant(UserDistance, init.users, 3);
    SumConstant(PrinterDistance, init.printers, 3);
    SumNonNegative(UserDistance, s.users);
    SumNonNegative(PrinterDistance, s.printers);
  }
}
