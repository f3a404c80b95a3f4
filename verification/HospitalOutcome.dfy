/** How runs of the hospital end: every run is bounded, and the states in which nothing more can happen
    are classified. */
module HospitalOutcome {
  import opened Sums
  import opened Sequences
  import opened HospitalProtocol
  import opened HospitalInvariant

  // ----- work still to be done -----

  function DoctorRank(pc: DoctorPc): int
  {
    match pc
    case Gone => 0
    case GoneFromWait => 0
    case TakingDelivery => 1
    case Asleep => 3
    case Top => 4
    case Woken => 4
    case Consulting => 5
  }

  function PatientRank(pc: PatientPc): int
  {
    match pc
    case Travelling => 4
    case Waiting => 2
    case Called => 1
    case Finished => 0
  }

  function PharmacistRank(pc: PharmacistPc): int
  {
    match pc
    case OnTheWay => 7
    case NotFullWoken => 6
    case NotFullWait => 5
    case QueueWoken => 4
    case QueueWait => 3
    case DoneWoken => 2
    case DoneWait => 1
    case _ => 0
  }

  /** What is left of the doctor's budget: it falls by at least 3 in every consultation and every delivery. */
  function Budget(s: State): int
  {
    2 * (|s.patients| - s.treated) + (CAPACITY - s.meds)
  }

  /** The broadcast at shutdown may wake every pharmacist once. */
  function ShutdownCredit(s: State): int
  {
    if s.doctor in {Gone, GoneFromWait} then 0 else |s.pharmacists| + 1
  }

  ghost function Work(s: State): int
  {
    2 * Budget(s) + DoctorRank(s.doctor) + ShutdownCredit(s)
    + Sum(PatientRank, s.patients) + Sum(PharmacistRank, s.pharmacists)
  }

  predicate Spurious(a: Action)
  {
    a.DoctorWakesUp? || a.PatientWakesUp? || a.PharmacistWakesUp?
  }

  /** A patient finds the waiting room full and roams: the only step that changes nothing. */
  predicate Roams(s: State, a: Action)
  {
    a.PatientRuns? && a.p < |s.patients| && s.patients[a.p] == Travelling && s.waitingPatients == GROUP
  }

  lemma WorkIsNonNegative(s: State)
    requires Inv(s)
    ensures Work(s) >= 0
  {
    Pigeonhole(s.arrivals, |s.patients|);
    SumNonNegative(PatientRank, s.patients);
    SumNonNegative(PharmacistRank, s.pharmacists);
  }

  lemma SignalWork(pcs: seq<PharmacistPc>, sleeping: PharmacistPc, wake: int)
    ensures Sum(PharmacistRank, Signal(pcs, sleeping, wake)) <= Sum(PharmacistRank, pcs) + 1
    ensures |Signal(pcs, sleeping, wake)| == |pcs|
  {
    if 0 <= wake < |pcs| && pcs[wake] == sleeping {
      SumUpdate(PharmacistRank, pcs, wake, WokenFrom(sleeping));
    }
  }

  lemma RoundWork(s: State, wake: int)
    requires Shape(s) && s.doctor in {Top, Woken} && HasWork(s)
    ensures Work(StartConsultation(s, wake)) < Work(s)
    ensures Work(StartDelivery(s, wake)) < Work(s)
  {
    SignalWork(s.pharmacists, NotFullWait, wake);
    SignalWork(s.pharmacists, QueueWait, wake);
  }

  lemma EndOfRoundWork(s: State, wake: int)
    ensures s.doctor == Consulting ==> Work(EndConsultation(s)) < Work(s)
    ensures s.doctor == TakingDelivery && s.meds <= GROUP ==> Work(EndDelivery(s, wake)) < Work(s)
  {
    SumPointwise(PatientRank, EndConsultation(s).patients, PatientRank, s.patients, 0);
    SignalWork(s.pharmacists, DoneWait, wake);
  }

  lemma ShutdownWork(s: State, exit: DoctorPc)
    requires s.doctor in {Top, Woken} && exit in {Gone, GoneFromWait}
    ensures Work(Shutdown(s, exit)) < Work(s)
  {
    SumPointwise(PharmacistRank, Shutdown(s, exit).pharmacists, PharmacistRank, s.pharmacists, 1);
  }

  lemma DoctorWork(s: State, wake: int)
    requires Inv(s) && Enabled(s, DoctorRuns(wake))
    ensures Work(DoctorStep(s, wake)) < Work(s)
  {
    if s.doctor in {Consulting, TakingDelivery} {
      EndOfRoundWork(s, wake);
    } else if s.treated >= |s.patients| {
      ShutdownWork(s, DoctorStep(s, wake).doctor);
    } else if HasWork(s) {
      RoundWork(s, wake);
    }
  }

  lemma PatientWork(s: State, p: nat)
    requires Inv(s) && Enabled(s, PatientRuns(p)) && !Roams(s, PatientRuns(p))
    ensures Work(PatientStep(s, p)) < Work(s)
  {
    SumUpdate(PatientRank, s.patients, p, PatientStep(s, p).patients[p]);
  }

  /** A pharmacist gets further even if it wakes the doctor. */
  lemma PharmacistGetsOn(s: State, f: nat)
    requires Enabled(s, PharmacistRuns(f))
    ensures var t := PharmacistStep(s, f);
      PharmacistRank(t.pharmacists[f]) + DoctorRank(t.doctor) < PharmacistRank(s.pharmacists[f]) + DoctorRank(s.doctor)
  {
  }

  lemma PharmacistWork(s: State, f: nat)
    requires Inv(s) && Enabled(s, PharmacistRuns(f))
    ensures Work(PharmacistStep(s, f)) < Work(s)
  {
    PharmacistFrame(s, f);
    PharmacistMoves(s, f);
    PharmacistGetsOn(s, f);
    SumUpdate(PharmacistRank, s.pharmacists, f, PharmacistStep(s, f).pharmacists[f]);
  }

  /** Every step does some of the work, except that roaming does none and a spurious wake-up adds one unit. */
  lemma StepWork(s: State, a: Action)
    requires Inv(s) && Enabled(s, a)
    ensures Roams(s, a) ==> Next(s, a) == s
    ensures Spurious(a) ==> Work(Next(s, a)) <= Work(s) + 1
    ensures !Roams(s, a) && !Spurious(a) ==> Work(Next(s, a)) < Work(s)
  {
    match a
    case DoctorRuns(wake) => DoctorWork(s, wake);
    case PatientRuns(p) => if !Roams(s, a) { PatientWork(s, p); }
    case PharmacistRuns(f) => PharmacistWork(s, f);
    case DoctorWakesUp =>
    case PatientWakesUp(p) => SumUpdate(PatientRank, s.patients, p, Called);
    case PharmacistWakesUp(f) => SumUpdate(PharmacistRank, s.pharmacists, f, WokenFrom(s.pharmacists[f]));
  }

  ghost function CountSpurious(acts: seq<Action>): nat
  {
    if acts == [] then 0 else (if Spurious(acts[0]) then 1 else 0) + CountSpurious(acts[1..])
  }

  lemma {:induction false} RunConcat(s: State, acts: seq<Action>, t: State, more: seq<Action>, u: State)
    requires Run(s, acts, t) && Run(t, more, u)
    ensures Run(s, acts + more, u)
    ensures CountSpurious(acts + more) == CountSpurious(acts) + CountSpurious(more)
    decreases |acts|
  {
    if acts == [] {
      assert acts + more == more;
    } else {
      assert (acts + more)[1..] == acts[1..] + more;
      RunConcat(Next(s, acts[0]), acts[1..], t, more, u);
    }
  }

  lemma RunExtends(s: State, acts: seq<Action>, t: State, a: Action)
    requires Run(s, acts, t) && Shape(t) && Enabled(t, a)
    ensures Run(s, acts + [a], Next(t, a))
    ensures CountSpurious(acts + [a]) == CountSpurious(acts) + (if Spurious(a) then 1 else 0)
  {
    assert [a][1..] == [];
    assert Run(Next(t, a), [a][1..], Next(t, a));
    RunConcat(s, acts, t, [a], Next(t, a));
  }

  ghost function CountRoaming(s: State, acts: seq<Action>, t: State): nat
    requires Run(s, acts, t)
    decreases |acts|
  {
    if acts == [] then 0
    else (if Roams(s, acts[0]) then 1 else 0) + CountRoaming(Next(s, acts[0]), acts[1..], t)
  }

  lemma {:induction false} RunWork(s: State, acts: seq<Action>, t: State)
    requires Inv(s) && Run(s, acts, t)
    ensures |acts| <= Work(s) - Work(t) + CountRoaming(s, acts, t) + 2 * CountSpurious(acts)
    decreases |acts|
  {
    if acts != [] {
      StepWork(s, acts[0]);
      StepKeepsInv(s, acts[0]);
      RunWork(Next(s, acts[0]), acts[1..], t);
    }
  }

  /** Every run is bounded: apart from roaming patients and spurious wake-ups, m patients and n pharmacists
      make at most 8m + 8n + 5 steps, whatever the schedule. */
  lemma RunsAreBounded(m: nat, n: nat, acts: seq<Action>, s: State)
    requires Run(Init(m, n), acts, s)
    ensures |acts| <= 8 * m + 8 * n + 5 + CountRoaming(Init(m, n), acts, s) + 2 * CountSpurious(acts)
  {
    var init := Init(m, n);
    InitInv(m, n);
    RunWork(init, acts, s);
    Always(m, n, acts, s);
    WorkIsNonNegative(s);
    SumConstant(PatientRank, init.patients, 4);
    SumConstant(PharmacistRank, init.pharmacists, 7);
  }

  // ----- where runs end -----

  /** Without a spurious wake-up nothing can change any more. */
  ghost predicate Stuck(s: State)
  {
    forall a :: Enabled(s, a) && !Spurious(a) ==> Roams(s, a)
  }

  predicate HasLeft(pc: PharmacistPc)
  {
    pc in {LeftEarly, LeftUnneeded, LeftQueue, LeftDelivering, Delivered}
  }

  /** The doctor has gone home, every patient has been consulted and has left, and the pharmacists have left
      too, except those waiting for the end of a delivery. */
  ghost predicate AllTreated(s: State)
  {
    && s.doctor == Gone && s.treated == |s.patients|
    && (forall p :: 0 <= p < |s.patients| ==> s.patients[p] == Finished)
    && (forall f :: 0 <= f < |s.pharmacists| ==> HasLeft(s.pharmacists[f]) || s.pharmacists[f] == DoneWait)
  }

  /** The last group of fewer than three fills the waiting-room array and is never consulted; everybody else
      has been.  Only its members can still be waiting: some may have left. */
  ghost predicate LastGroupTooSmall(s: State)
  {
    && Shape(s) && s.doctor == Asleep
    && s.waitingPatients == |s.patients| % GROUP != 0
    && s.treated == |s.patients| - |s.patients| % GROUP
    && (forall p :: 0 <= p < |s.patients| ==>
      s.patients[p] == Finished || (s.patients[p] == Waiting && p + 1 in s.ids[..s.waitingPatients]))
    && (forall f :: 0 <= f < |s.pharmacists| ==> HasLeft(s.pharmacists[f]) || SleepsInVain(s, s.pharmacists[f]))
  }

  /** Asleep, and what the pharmacist waits for is not there: a shortage, its turn, or the flag at the end of a
      delivery. */
  predicate SleepsInVain(s: State, pc: PharmacistPc)
  {
    || (pc == NotFullWait && s.meds > 0)
    || (pc == QueueWait && s.meds == CAPACITY && !s.served)
    || (pc == DoneWait && !s.handedOver)
  }

  /** A full group waits, the stock is empty, and no pharmacist is left to refill it: all the drugs there
      ever were have been spent. */
  ghost predicate OutOfDrugs(s: State)
  {
    && s.doctor == Asleep
    && s.waitingPatients == GROUP && s.meds == 0
    && s.treated == CAPACITY + s.refilled < |s.patients|
    && (forall f :: 0 <= f < |s.pharmacists| ==>
      (HasLeft(s.pharmacists[f]) && s.pharmacists[f] != LeftQueue) || (s.pharmacists[f] == DoneWait && !s.handedOver))
  }

  lemma StuckThreads(s: State)
    requires Inv(s) && Stuck(s)
    ensures s.doctor in {Asleep, Gone}
    ensures forall p :: 0 <= p < |s.patients| ==> s.patients[p] in {Waiting, Finished} || (s.patients[p] == Travelling && s.waitingPatients == GROUP)
    ensures forall f :: 0 <= f < |s.pharmacists| ==> HasLeft(s.pharmacists[f]) || s.pharmacists[f] in {NotFullWait, QueueWait, DoneWait}
  {
    if s.doctor !in {Asleep, Gone} {
      var sleeping := DoctorSignals(s);
      var wake := 0;
      if sleeping in s.pharmacists {
        wake :| 0 <= wake < |s.pharmacists| && s.pharmacists[wake] == sleeping;
      }
      assert Enabled(s, DoctorRuns(wake));
    }
    forall p | 0 <= p < |s.patients|
      ensures s.patients[p] in {Waiting, Finished} || (s.patients[p] == Travelling && s.waitingPatients == GROUP)
    {
      assert Enabled(s, PatientRuns(p)) ==> Roams(s, PatientRuns(p));
    }
    forall f | 0 <= f < |s.pharmacists|
      ensures HasLeft(s.pharmacists[f]) || s.pharmacists[f] in {NotFullWait, QueueWait, DoneWait}
    {
      var a := PharmacistRuns(f);
      match s.pharmacists[f]
      case OnTheWay => assert Enabled(s, a);
      case NotFullWoken => assert Enabled(s, a);
      case QueueWoken => assert Enabled(s, a);
      case DoneWoken => assert Enabled(s, a);
      case _ =>
    }
  }

  lemma StuckAfterShutdown(s: State)
    requires Inv(s) && Stuck(s) && s.doctor == Gone
    ensures AllTreated(s)
  {
    StuckThreads(s);
    Pigeonhole(s.arrivals, |s.patients|);
    assert s.ids[..0] == [];
    forall p | 0 <= p < |s.patients| ensures s.patients[p] == Finished {
      assert p + 1 in s.arrivals;
    }
    forall f | 0 <= f < |s.pharmacists| ensures HasLeft(s.pharmacists[f]) || s.pharmacists[f] == DoneWait {
      assert s.pharmacists[f] in s.pharmacists;
    }
  }

  lemma StuckOutOfDrugs(s: State)
    requires Inv(s) && Stuck(s) && s.doctor == Asleep && s.waitingPatients == GROUP
    ensures OutOfDrugs(s)
  {
    StuckThreads(s);
    SumNonNegative(InQueue, s.pharmacists);
    forall f | 0 <= f < |s.pharmacists|
      ensures (HasLeft(s.pharmacists[f]) && s.pharmacists[f] != LeftQueue) || (s.pharmacists[f] == DoneWait && !s.handedOver)
    {
      var pc := s.pharmacists[f];
      SumMember(InQueue, s.pharmacists, f);
      assert pc in s.pharmacists;
      assert DoneWoken !in s.pharmacists && NotFullWoken !in s.pharmacists;
    }
  }

  lemma StuckPharmacists(s: State)
    requires Inv(s) && Stuck(s) && s.doctor == Asleep
    ensures forall f :: 0 <= f < |s.pharmacists| ==> HasLeft(s.pharmacists[f]) || SleepsInVain(s, s.pharmacists[f])
  {
    StuckThreads(s);
    SumNonNegative(InQueue, s.pharmacists);
    forall f | 0 <= f < |s.pharmacists| ensures HasLeft(s.pharmacists[f]) || SleepsInVain(s, s.pharmacists[f]) {
      SumMember(InQueue, s.pharmacists, f);
      assert s.pharmacists[f] in s.pharmacists;
      assert QueueWoken !in s.pharmacists && DoneWoken !in s.pharmacists && NotFullWoken !in s.pharmacists;
    }
  }

  lemma StuckLastGroup(s: State)
    requires Inv(s) && Stuck(s) && s.doctor == Asleep && s.waitingPatients < GROUP
    ensures LastGroupTooSmall(s)
  {
    StuckThreads(s);
    forall x | 1 <= x <= |s.patients| ensures x in s.arrivals {
      assert s.patients[x - 1] != Travelling;
    }
    Pigeonhole(s.arrivals, |s.patients|);
    EverybodyArrived(s.arrivals, |s.patients|);
    forall p | 0 <= p < |s.patients|
      ensures s.patients[p] == Finished || (s.patients[p] == Waiting && p + 1 in s.ids[..s.waitingPatients])
    {
    }
    StuckPharmacists(s);
  }

  lemma EverybodyArrived(xs: seq<int>, n: nat)
    requires forall x :: 1 <= x <= n ==> x in xs
    ensures |xs| >= n
  {
    var members := set x | x in xs;
    forall x ensures x in Range(n) <==> 1 <= x <= n {
      InRange(n, x);
    }
    RangeSize(n);
    SubsetSize(Range(n), members);
    SetOfSeq(xs);
  }

  lemma {:induction false} SetOfSeq<T>(xs: seq<T>)
    ensures |set x | x in xs| <= |xs|
  {
    if xs != [] {
      SetOfSeq(xs[1..]);
      assert (set x | x in xs) == (set x | x in xs[1..]) + {xs[0]};
    }
  }

  /** The hospital can only come to rest in three ways, and the number of patients tells which two to expect. */
  lemma Outcomes(m: nat, n: nat, acts: seq<Action>, s: State)
    requires Run(Init(m, n), acts, s) && Stuck(s)
    ensures AllTreated(s) || LastGroupTooSmall(s) || OutOfDrugs(s)
    ensures m % 3 == 0 ==> AllTreated(s) || OutOfDrugs(s)
    ensures m % 3 != 0 ==> LastGroupTooSmall(s) || OutOfDrugs(s)
  {
    Always(m, n, acts, s);
    StuckThreads(s);
    if s.doctor == Gone {
      StuckAfterShutdown(s);
    } else if s.waitingPatients == GROUP {
      StuckOutOfDrugs(s);
    } else {
      StuckLastGroup(s);
    }
  }

  // ----- every run can come to rest -----

  lemma {:induction false} ComesToRest(s: State) returns (acts: seq<Action>, t: State)
    requires Inv(s)
    ensures Run(s, acts, t) && CountSpurious(acts) == 0 && Stuck(t)
    decreases Work(s)
  {
    if Stuck(s) {
      return [], s;
    }
    var a :| Enabled(s, a) && !Spurious(a) && !Roams(s, a);
    StepWork(s, a);
    StepKeepsInv(s, a);
    WorkIsNonNegative(Next(s, a));
    acts, t := ComesToRest(Next(s, a));
    acts := [a] + acts;
  }

  lemma PharmacistsOnward(s: State, a: Action)
    requires Shape(s) && Enabled(s, a)
    ensures |Next(s, a).pharmacists| == |s.pharmacists|
    ensures forall f :: 0 <= f < |s.pharmacists| && HasLeft(s.pharmacists[f]) ==> Next(s, a).pharmacists[f] == s.pharmacists[f]
  {
    match a
    case PharmacistRuns(f) =>
      PharmacistFrame(s, f);
      PharmacistMoves(s, f);
    case DoctorRuns(wake) => DoctorOnlyWakes(s, wake);
    case _ =>
  }

  lemma StepOnward(s: State, a: Action)
    requires Shape(s) && Enabled(s, a)
    ensures s.treated <= Next(s, a).treated && s.consulted <= Next(s, a).consulted
    ensures s.doctor == Gone ==> Next(s, a).doctor == Gone
    ensures |Next(s, a).patients| == |s.patients|
    ensures forall p :: 0 <= p < |s.patients| && s.patients[p] == Finished ==> Next(s, a).patients[p] == Finished
    ensures forall p :: 0 <= p < |s.patients| && s.patients[p] == Called ==> Next(s, a).patients[p] in {Called, Finished}
  {
    match a
    case PharmacistRuns(f) => PharmacistFrame(s, f);
    case _ =>
  }

  /** Nothing is undone: consultations are not forgotten, and whoever has left stays away. */
  lemma {:induction false} RunOnward(s: State, acts: seq<Action>, t: State)
    requires Run(s, acts, t)
    ensures s.treated <= t.treated && s.consulted <= t.consulted
    ensures s.doctor == Gone ==> t.doctor == Gone
    ensures |t.patients| == |s.patients| && |t.pharmacists| == |s.pharmacists|
    ensures forall p :: 0 <= p < |s.patients| && s.patients[p] == Finished ==> t.patients[p] == Finished
    ensures forall p :: 0 <= p < |s.patients| && s.patients[p] == Called ==> t.patients[p] in {Called, Finished}
    ensures forall f :: 0 <= f < |s.pharmacists| && HasLeft(s.pharmacists[f]) ==> t.pharmacists[f] == s.pharmacists[f]
    decreases |acts|
  {
    if acts != [] {
      StepOnward(s, acts[0]);
      PharmacistsOnward(s, acts[0]);
      RunOnward(Next(s, acts[0]), acts[1..], t);
    }
  }
}
