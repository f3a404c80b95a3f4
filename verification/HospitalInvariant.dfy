/** What every state of every run of the hospital satisfies. */
module HospitalInvariant {
  import opened Sums
  import opened Sequences
  import opened HospitalProtocol

  // ----- regions of the pharmacist's code -----

  /** Counted by waiting_pharmacists: in the queue, or gone from it on done_flag without decrementing. */
  function InQueue(pc: PharmacistPc): int
  {
    if pc in {QueueWait, QueueWoken, LeftQueue} then 1 else 0
  }

  /** Past the point where pharmacist_served is taken back. */
  function TookTurn(pc: PharmacistPc): int
  {
    if pc in {DoneWait, DoneWoken, LeftDelivering, Delivered} then 1 else 0
  }

  function Completed(pc: PharmacistPc): int
  {
    if pc == Delivered then 1 else 0
  }

  function Flag(b: bool): int
  {
    if b then 1 else 0
  }

  // ----- the invariant, part by part -----

  /** Patients are consulted in the order in which they registered, nobody twice. */
  ghost predicate Room(s: State)
  {
    && Shape(s)
    && s.arrivals == s.consulted + s.ids[..s.waitingPatients]
    && s.treated == |s.consulted| == GROUP * s.consultations
    && NoRepeats(s.arrivals)
    && (forall x :: x in s.arrivals ==> 1 <= x <= |s.patients|)
    && (forall p {:trigger s.patients[p]} :: 0 <= p < |s.patients| ==> (s.patients[p] == Travelling <==> p + 1 !in s.arrivals))
  }

  /** Except during a consultation, whoever waits on cond_patient sits in the waiting room. */
  ghost predicate Seats(s: State)
  {
    && Shape(s)
    && (s.doctor != Consulting ==>
      forall p :: 0 <= p < |s.patients| && s.patients[p] == Waiting ==> p + 1 in s.ids[..s.waitingPatients])
  }

  ghost predicate Doctor(s: State)
  {
    && (s.doneFlag <==> s.doctor == Gone)
    && s.doctor != GoneFromWait
    && (s.doctor == Gone ==> s.treated >= |s.patients|)
    && (s.doctor == Asleep ==> !HasWork(s))
    && (s.doctor in {Asleep, Woken} ==> s.treated < |s.patients|)
    && (s.doctor == TakingDelivery ==> s.meds < CAPACITY)
  }

  ghost predicate Tokens(s: State)
  {
    && s.waitingPharmacists == Sum(InQueue, s.pharmacists)
    && (s.served ==> s.waitingPharmacists >= 1)
    && Sum(TookTurn, s.pharmacists) + Flag(s.served) <= s.deliveriesStarted
    && Sum(Completed, s.pharmacists) + Flag(s.handedOver) <= s.deliveriesFinished
    && s.deliveriesStarted == s.deliveriesFinished + Flag(s.doctor == TakingDelivery)
  }

  ghost predicate Stock(s: State)
  {
    && s.meds in {0, GROUP, CAPACITY}
    && s.treated + s.meds == CAPACITY + s.refilled
    && GROUP * s.deliveriesFinished <= s.refilled <= CAPACITY * s.deliveriesFinished
  }

  /** Nobody sleeps through the event it waits for, unless another pharmacist is already up for it. */
  ghost predicate WakeUps(s: State)
  {
    && (s.served && QueueWait in s.pharmacists ==> QueueWoken in s.pharmacists)
    && (s.handedOver && !s.doneFlag && DoneWait in s.pharmacists ==> DoneWoken in s.pharmacists)
    && (s.meds == 0 && s.doctor != TakingDelivery && NotFullWait in s.pharmacists ==>
      NotFullWoken in s.pharmacists || (s.waitingPharmacists > 0 && !s.served))
    && (s.doneFlag ==> NotFullWait !in s.pharmacists && QueueWait !in s.pharmacists)
  }

  ghost predicate Inv(s: State)
  {
    Room(s) && Seats(s) && Doctor(s) && Tokens(s) && Stock(s) && WakeUps(s)
  }

  // ----- every step keeps it -----

  lemma RegisterKeepsRoom(s: State, p: nat)
    requires Room(s) && p < |s.patients| && s.patients[p] == Travelling && s.waitingPatients < GROUP
    ensures Room(Register(s, p))
  {
    var t := Register(s, p);
    assert t.ids[..t.waitingPatients] == s.ids[..s.waitingPatients] + [p + 1];
    assert t.arrivals == t.consulted + t.ids[..t.waitingPatients];
  }

  /** A pharmacist touches neither the patients nor the stock. */
  lemma PharmacistFrame(s: State, f: nat)
    requires f < |s.pharmacists|
    ensures var t := PharmacistStep(s, f);
      && t.patients == s.patients && t.ids == s.ids && t.waitingPatients == s.waitingPatients
      && t.arrivals == s.arrivals && t.consulted == s.consulted && t.consultations == s.consultations
      && t.treated == s.treated && t.meds == s.meds && t.refilled == s.refilled && t.doneFlag == s.doneFlag
      && t.deliveriesStarted == s.deliveriesStarted && t.deliveriesFinished == s.deliveriesFinished
      && |t.pharmacists| == |s.pharmacists|
      && (t.doctor == s.doctor || (s.doctor == Asleep && t.doctor == Woken))
  {
  }

  lemma ConsultationKeepsRoom(s: State, wake: int)
    requires Room(s) && s.waitingPatients == GROUP
    ensures Room(StartConsultation(s, wake))
  {
    var t := StartConsultation(s, wake);
    assert s.ids[..s.waitingPatients] == s.ids;
    assert t.consulted + t.ids[..0] == t.consulted;
  }

  lemma BroadcastKeepsRoom(s: State)
    requires Room(s)
    ensures Room(EndConsultation(s))
  {
  }

  lemma DoctorKeepsRoom(s: State, wake: int)
    requires Room(s)
    ensures Room(DoctorStep(s, wake))
  {
    if s.doctor == Consulting {
      BroadcastKeepsRoom(s);
    } else if s.doctor in {Top, Woken} && s.treated < |s.patients| && s.waitingPatients >= GROUP && s.meds >= GROUP {
      ConsultationKeepsRoom(s, wake);
    }
  }

  lemma KeepsRoom(s: State, a: Action)
    requires Room(s) && Enabled(s, a)
    ensures Room(Next(s, a))
  {
    match a
    case PatientRuns(p) =>
      if s.patients[p] == Travelling && s.waitingPatients < GROUP {
        RegisterKeepsRoom(s, p);
      }
    case DoctorRuns(wake) => DoctorKeepsRoom(s, wake);
    case PharmacistRuns(f) => PharmacistFrame(s, f);
    case _ =>
  }

  lemma RegisterKeepsSeats(s: State, p: nat)
    requires Seats(s) && p < |s.patients| && s.waitingPatients < GROUP
    ensures Seats(Register(s, p))
  {
    var t := Register(s, p);
    assert t.ids[..t.waitingPatients] == s.ids[..s.waitingPatients] + [p + 1];
  }

  lemma DoctorKeepsSeats(s: State, wake: int)
    requires Seats(s)
    ensures Seats(DoctorStep(s, wake))
  {
    if s.doctor == Consulting {
      assert forall p :: 0 <= p < |s.patients| ==> CallEverybody(s.patients)[p] != Waiting;
    }
  }

  lemma KeepsSeats(s: State, a: Action)
    requires Seats(s) && Enabled(s, a)
    ensures Seats(Next(s, a))
  {
    match a
    case PatientRuns(p) =>
      if s.patients[p] == Travelling && s.waitingPatients < GROUP {
        RegisterKeepsSeats(s, p);
      }
    case DoctorRuns(wake) => DoctorKeepsSeats(s, wake);
    case PharmacistRuns(f) => PharmacistFrame(s, f);
    case _ =>
  }

  lemma KeepsDoctor(s: State, a: Action)
    requires Shape(s) && Doctor(s) && Enabled(s, a)
    ensures Doctor(Next(s, a))
  {
    match a
    case PharmacistRuns(f) => PharmacistFrame(s, f);
    case _ =>
  }

  lemma DoctorKeepsStock(s: State, wake: int)
    requires Shape(s) && Doctor(s) && Stock(s)
    ensures Stock(DoctorStep(s, wake))
  {
  }

  lemma KeepsStock(s: State, a: Action)
    requires Shape(s) && Doctor(s) && Stock(s) && Enabled(s, a)
    ensures Stock(Next(s, a))
  {
    match a
    case DoctorRuns(wake) => DoctorKeepsStock(s, wake);
    case PharmacistRuns(f) => PharmacistFrame(s, f);
    case _ =>
  }

  // ----- counting pharmacists -----

  lemma Moves(pcs: seq<PharmacistPc>, f: nat, pc: PharmacistPc)
    requires f < |pcs|
    ensures Sum(InQueue, pcs[f := pc]) == Sum(InQueue, pcs) - InQueue(pcs[f]) + InQueue(pc)
    ensures Sum(TookTurn, pcs[f := pc]) == Sum(TookTurn, pcs) - TookTurn(pcs[f]) + TookTurn(pc)
    ensures Sum(Completed, pcs[f := pc]) == Sum(Completed, pcs) - Completed(pcs[f]) + Completed(pc)
  {
    SumUpdate(InQueue, pcs, f, pc);
    SumUpdate(TookTurn, pcs, f, pc);
    SumUpdate(Completed, pcs, f, pc);
  }

  /** Waking pharmacists changes nobody's region. */
  ghost predicate SameRegions(pcs: seq<PharmacistPc>, qcs: seq<PharmacistPc>)
  {
    && |pcs| == |qcs|
    && forall i :: 0 <= i < |pcs| ==> qcs[i] == pcs[i] || qcs[i] == WokenFrom(pcs[i])
  }

  lemma SameCounts(pcs: seq<PharmacistPc>, qcs: seq<PharmacistPc>)
    requires SameRegions(pcs, qcs)
    ensures Sum(InQueue, pcs) == Sum(InQueue, qcs)
    ensures Sum(TookTurn, pcs) == Sum(TookTurn, qcs)
    ensures Sum(Completed, pcs) == Sum(Completed, qcs)
  {
    SumPointwise(InQueue, pcs, InQueue, qcs, 0);
    SumPointwise(InQueue, qcs, InQueue, pcs, 0);
    SumPointwise(TookTurn, pcs, TookTurn, qcs, 0);
    SumPointwise(TookTurn, qcs, TookTurn, pcs, 0);
    SumPointwise(Completed, pcs, Completed, qcs, 0);
    SumPointwise(Completed, qcs, Completed, pcs, 0);
  }

  lemma PharmacistMoves(s: State, f: nat)
    requires f < |s.pharmacists|
    ensures var t := PharmacistStep(s, f);
      t.pharmacists == s.pharmacists[f := t.pharmacists[f]]
  {
  }

  /** The counter and the two flags change as the pharmacist moves between the regions. */
  lemma PharmacistCounts(s: State, f: nat)
    requires Enabled(s, PharmacistRuns(f))
    ensures var t := PharmacistStep(s, f);
      var pc, qc := s.pharmacists[f], t.pharmacists[f];
      && t.waitingPharmacists - s.waitingPharmacists == InQueue(qc) - InQueue(pc)
      && Flag(s.served) - Flag(t.served) == TookTurn(qc) - TookTurn(pc)
      && Flag(s.handedOver) - Flag(t.handedOver) == Completed(qc) - Completed(pc)
      && (t.served ==> s.served && t.waitingPharmacists >= s.waitingPharmacists)
  {
  }

  lemma PharmacistKeepsTokens(s: State, f: nat)
    requires Tokens(s) && Enabled(s, PharmacistRuns(f))
    ensures Tokens(PharmacistStep(s, f))
  {
    PharmacistFrame(s, f);
    PharmacistMoves(s, f);
    PharmacistCounts(s, f);
    Moves(s.pharmacists, f, PharmacistStep(s, f).pharmacists[f]);
  }

  lemma WakingKeepsRegions(pcs: seq<PharmacistPc>, sleeping: PharmacistPc, wake: int)
    ensures SameRegions(pcs, Signal(pcs, sleeping, wake))
    ensures SameRegions(pcs, SendEverybodyHome(pcs))
  {
  }

  /** The doctor sends everybody home, signals somebody, or leaves the pharmacists alone. */
  lemma DoctorWakes(s: State, wake: int)
    requires Shape(s)
    ensures var t := DoctorStep(s, wake);
      && t.waitingPharmacists == s.waitingPharmacists
      && t.pharmacists in {s.pharmacists, SendEverybodyHome(s.pharmacists), Signal(s.pharmacists, DoctorSignals(s), wake)}
  {
  }

  lemma DoctorOnlyWakes(s: State, wake: int)
    requires Shape(s)
    ensures SameRegions(s.pharmacists, DoctorStep(s, wake).pharmacists)
    ensures DoctorStep(s, wake).waitingPharmacists == s.waitingPharmacists
  {
    DoctorWakes(s, wake);
    WakingKeepsRegions(s.pharmacists, DoctorSignals(s), wake);
  }

  /** A delivery is counted when it starts, its token is issued with it, and its end issues the other. */
  lemma DoctorCounts(s: State, wake: int)
    requires Shape(s)
    ensures var t := DoctorStep(s, wake);
      var start := Flag(s.doctor in {Top, Woken} && t.doctor == TakingDelivery);
      var finish := Flag(s.doctor == TakingDelivery);
      && t.deliveriesStarted == s.deliveriesStarted + start
      && t.deliveriesFinished == s.deliveriesFinished + finish
      && t.served == (s.served || start == 1)
      && t.handedOver == (s.handedOver || finish == 1)
      && (start == 1 ==> s.waitingPharmacists > 0)
      && (t.doctor == TakingDelivery <==> start == 1)
  {
  }

  lemma DoctorKeepsTokens(s: State, wake: int)
    requires Shape(s) && Tokens(s) && Enabled(s, DoctorRuns(wake))
    ensures Tokens(DoctorStep(s, wake))
  {
    DoctorOnlyWakes(s, wake);
    DoctorCounts(s, wake);
    SameCounts(s.pharmacists, DoctorStep(s, wake).pharmacists);
  }

  lemma KeepsTokens(s: State, a: Action)
    requires Shape(s) && Tokens(s) && Enabled(s, a)
    ensures Tokens(Next(s, a))
  {
    match a
    case DoctorRuns(wake) => DoctorKeepsTokens(s, wake);
    case PharmacistRuns(f) => PharmacistKeepsTokens(s, f);
    case PharmacistWakesUp(f) => SameCounts(s.pharmacists, Next(s, a).pharmacists);
    case _ =>
  }

  // ----- wake-ups -----

  lemma SignalWakes(pcs: seq<PharmacistPc>, sleeping: PharmacistPc, wake: int)
    requires sleeping in {NotFullWait, QueueWait, DoneWait}
    requires SignalAllowed(pcs, sleeping, wake) && sleeping in pcs
    ensures WokenFrom(sleeping) in Signal(pcs, sleeping, wake)
  {
    assert Signal(pcs, sleeping, wake)[wake] == WokenFrom(sleeping);
  }

  /** An update elsewhere leaves a thread where it is. */
  lemma Stays(pcs: seq<PharmacistPc>, f: nat, pc: PharmacistPc, x: PharmacistPc)
    requires f < |pcs|
    ensures x in pcs && pcs[f] != x ==> x in pcs[f := pc]
    ensures x in pcs[f := pc] && pc != x ==> x in pcs
    ensures pc in pcs[f := pc]
  {
    var qcs := pcs[f := pc];
    assert qcs[f] == pc;
    if x in pcs && pcs[f] != x {
      var i :| 0 <= i < |pcs| && pcs[i] == x;
      assert qcs[i] == x;
    }
    if x in qcs && pc != x {
      var i :| 0 <= i < |qcs| && qcs[i] == x;
      assert pcs[i] == x;
    }
  }

  /** A pharmacist goes to sleep only if what it waits for is not there, and one that was up for an event has used it
      or made up for it. */
  ghost predicate Settles(s: State, t: State, f: nat)
  {
    && f < |s.pharmacists| == |t.pharmacists| && t.pharmacists == s.pharmacists[f := t.pharmacists[f]]
    && t.meds == s.meds && t.doneFlag == s.doneFlag && (t.doctor == TakingDelivery <==> s.doctor == TakingDelivery)
    && (t.served ==> s.served) && (t.handedOver ==> s.handedOver)
    && (s.waitingPharmacists > 0 && !s.served ==> t.waitingPharmacists > 0 && !t.served)
    && (t.pharmacists[f] == QueueWait ==> !t.served && !t.doneFlag)
    && (t.pharmacists[f] == DoneWait ==> !t.handedOver && !t.doneFlag)
    && (t.pharmacists[f] == NotFullWait ==> t.meds == CAPACITY && !t.doneFlag)
    && (!t.doneFlag ==>
      && (s.pharmacists[f] == QueueWoken ==> !t.served)
      && (s.pharmacists[f] == DoneWoken ==> !t.handedOver)
      && (s.pharmacists[f] == NotFullWoken && t.meds == 0 ==> t.waitingPharmacists > 0 && !t.served))
  }

  lemma PharmacistSettles(s: State, f: nat)
    requires Tokens(s) && Enabled(s, PharmacistRuns(f))
    ensures Settles(s, PharmacistStep(s, f), f)
  {
    SumNonNegative(InQueue, s.pharmacists);
    PharmacistMoves(s, f);
  }

  lemma SettlingKeepsWakeUps(s: State, t: State, f: nat)
    requires WakeUps(s) && Settles(s, t, f)
    ensures WakeUps(t)
  {
    forall x ensures
      && (x in s.pharmacists && s.pharmacists[f] != x ==> x in t.pharmacists)
      && (x in t.pharmacists && t.pharmacists[f] != x ==> x in s.pharmacists)
    {
      Stays(s.pharmacists, f, t.pharmacists[f], x);
    }
  }

  lemma PharmacistKeepsWakeUps(s: State, f: nat)
    requires Inv(s) && Enabled(s, PharmacistRuns(f))
    ensures WakeUps(PharmacistStep(s, f))
  {
    PharmacistSettles(s, f);
    SettlingKeepsWakeUps(s, PharmacistStep(s, f), f);
  }

  /** A signal moves one sleeper on, and nobody else. */
  lemma SignalMoves(pcs: seq<PharmacistPc>, sleeping: PharmacistPc, wake: int)
    requires SignalAllowed(pcs, sleeping, wake) && sleeping in {NotFullWait, QueueWait, DoneWait}
    ensures var qcs := Signal(pcs, sleeping, wake);
      && (sleeping in pcs ==> WokenFrom(sleeping) in qcs)
      && (forall x :: x in pcs && x != sleeping ==> x in qcs)
      && (forall x :: x in qcs && x != WokenFrom(sleeping) ==> x in pcs)
      && (sleeping !in pcs ==> qcs == pcs)
  {
    if sleeping in pcs {
      SignalWakes(pcs, sleeping, wake);
      forall x ensures x in pcs && x != sleeping ==> x in Signal(pcs, sleeping, wake) {
        Stays(pcs, wake, WokenFrom(sleeping), x);
      }
      forall x ensures x in Signal(pcs, sleeping, wake) && x != WokenFrom(sleeping) ==> x in pcs {
        Stays(pcs, wake, WokenFrom(sleeping), x);
      }
    }
  }

  lemma DoctorKeepsWakeUps(s: State, wake: int)
    requires Inv(s) && Enabled(s, DoctorRuns(wake))
    ensures WakeUps(DoctorStep(s, wake))
  {
    DoctorCounts(s, wake);
    var sleeping := DoctorSignals(s);
    if sleeping in {NotFullWait, QueueWait, DoneWait} {
      assert DoctorStep(s, wake).pharmacists == Signal(s.pharmacists, sleeping, wake);
      SignalMoves(s.pharmacists, sleeping, wake);
    }
  }

  lemma WakeUpKeepsWakeUps(s: State, f: nat)
    requires WakeUps(s) && Enabled(s, PharmacistWakesUp(f))
    ensures WakeUps(s.(pharmacists := s.pharmacists[f := WokenFrom(s.pharmacists[f])]))
  {
    forall x ensures var qcs := s.pharmacists[f := WokenFrom(s.pharmacists[f])];
      && (x in s.pharmacists && s.pharmacists[f] != x ==> x in qcs)
      && (x in qcs && WokenFrom(s.pharmacists[f]) != x ==> x in s.pharmacists)
      && WokenFrom(s.pharmacists[f]) in qcs
    {
      Stays(s.pharmacists, f, WokenFrom(s.pharmacists[f]), x);
    }
  }

  lemma KeepsWakeUps(s: State, a: Action)
    requires Inv(s) && Enabled(s, a)
    ensures WakeUps(Next(s, a))
  {
    match a
    case DoctorRuns(wake) => DoctorKeepsWakeUps(s, wake);
    case PharmacistRuns(f) => PharmacistKeepsWakeUps(s, f);
    case PharmacistWakesUp(f) => WakeUpKeepsWakeUps(s, f);
    case _ =>
  }

  // ----- over whole runs -----

  lemma InitInv(totalPatients: nat, totalPharmacists: nat)
    ensures Inv(Init(totalPatients, totalPharmacists))
  {
    var s := Init(totalPatients, totalPharmacists);
    SumConstant(InQueue, s.pharmacists, 0);
    SumConstant(TookTurn, s.pharmacists, 0);
    SumConstant(Completed, s.pharmacists, 0);
    assert s.ids[..0] == [];
  }

  lemma StepKeepsSizes(s: State, a: Action)
    requires Shape(s) && Enabled(s, a)
    ensures |Next(s, a).patients| == |s.patients| && |Next(s, a).pharmacists| == |s.pharmacists|
  {
    match a
    case DoctorRuns(wake) => DoctorOnlyWakes(s, wake);
    case PharmacistRuns(f) => PharmacistFrame(s, f);
    case _ =>
  }

  lemma StepKeepsInv(s: State, a: Action)
    requires Inv(s) && Enabled(s, a)
    ensures Inv(Next(s, a))
  {
    KeepsRoom(s, a);
    KeepsSeats(s, a);
    KeepsDoctor(s, a);
    KeepsTokens(s, a);
    KeepsStock(s, a);
    KeepsWakeUps(s, a);
  }

  lemma {:induction false} RunKeepsInv(s: State, acts: seq<Action>, t: State)
    requires Inv(s) && Run(s, acts, t)
    ensures Inv(t)
    ensures |t.patients| == |s.patients| && |t.pharmacists| == |s.pharmacists|
    decreases |acts|
  {
    if acts != [] {
      StepKeepsInv(s, acts[0]);
      StepKeepsSizes(s, acts[0]);
      RunKeepsInv(Next(s, acts[0]), acts[1..], t);
    }
  }

  lemma Always(m: nat, n: nat, acts: seq<Action>, s: State)
    requires Run(Init(m, n), acts, s)
    ensures Inv(s) && |s.patients| == m && |s.pharmacists| == n
  {
    InitInv(m, n);
    RunKeepsInv(Init(m, n), acts, s);
  }

  /** The waiting-room array is never indexed out of bounds, the patients are consulted in the order of
      their arrival, nobody twice, and the doctor never counts more patients than there are. */
  lemma ArrivalOrder(m: nat, n: nat, acts: seq<Action>, s: State)
    requires Run(Init(m, n), acts, s)
    ensures 0 <= s.waitingPatients <= 3 == |s.ids|
    ensures s.consulted + s.ids[..s.waitingPatients] == s.arrivals && NoRepeats(s.arrivals)
    ensures s.treated == |s.consulted| && s.treated % 3 == 0
    ensures s.treated + s.waitingPatients == |s.arrivals| <= m
  {
    Always(m, n, acts, s);
    Pigeonhole(s.arrivals, m);
  }

  /** Shutdown means success: the room is empty and every patient was consulted exactly once.  Hence the
      doctor never leaves when the number of patients is not a multiple of three. */
  lemma ShutdownIsComplete(m: nat, n: nat, acts: seq<Action>, s: State)
    requires Run(Init(m, n), acts, s)
    requires s.doneFlag
    ensures m % 3 == 0 && s.treated == m && s.waitingPatients == 0
    ensures s.consulted == s.arrivals && NoRepeats(s.consulted)
    ensures forall x :: x in s.consulted <==> 1 <= x <= m
    ensures s.doctor == Gone && |s.patients| == m && forall p :: 0 <= p < m ==> s.patients[p] in {Called, Finished}
  {
    Always(m, n, acts, s);
    Pigeonhole(s.arrivals, m);
    assert s.ids[..0] == [];
    forall p | 0 <= p < m ensures s.patients[p] in {Called, Finished} {
      assert p + 1 in s.arrivals;
      assert s.patients[p] != Travelling;
    }
  }

  /** No lost wake-up for the doctor, hence the shutdown branch inside its wait loop is dead code. */
  lemma DoctorNeverOversleeps(m: nat, n: nat, acts: seq<Action>, s: State)
    requires Run(Init(m, n), acts, s)
    ensures s.doctor == Asleep ==> !(s.waitingPatients >= 3 && s.meds >= 3) && !(s.waitingPharmacists > 0 && s.meds < 6)
    ensures s.doctor == Woken ==> s.treated < |s.patients|
    ensures s.doctor != GoneFromWait
  {
    Always(m, n, acts, s);
  }

  /** Drugs are conserved, the stock is always 0, 3 or 6, and every delivery brings 3 or 6. */
  lemma DrugConservation(m: nat, n: nat, acts: seq<Action>, s: State)
    requires Run(Init(m, n), acts, s)
    ensures s.meds in {0, 3, 6} && s.treated + s.meds == 6 + s.refilled
    ensures 3 * s.deliveriesFinished <= s.treated <= 6 * (s.deliveriesFinished + 1)
  {
    Always(m, n, acts, s);
  }

  /** The doctor's rounds are bounded: consultations and deliveries, started ones included, are at most
      two thirds of the number of patients. */
  lemma RoundsBound(m: nat, n: nat, acts: seq<Action>, s: State)
    requires Run(Init(m, n), acts, s)
    ensures 3 * (s.consultations + s.deliveriesStarted) <= 2 * m
  {
    ArrivalOrder(m, n, acts, s);
    Always(m, n, acts, s);
  }

  /** The queue counter counts exactly the pharmacists in the queue (and those who left it on shutdown);
      the two tokens are never handed to more pharmacists than the doctor issued. */
  lemma TokenProtocol(m: nat, n: nat, acts: seq<Action>, s: State)
    requires Run(Init(m, n), acts, s)
    ensures s.waitingPharmacists == Sum(InQueue, s.pharmacists) >= 0
    ensures s.served ==> s.waitingPharmacists >= 1
    ensures Sum(TookTurn, s.pharmacists) + Flag(s.served) <= s.deliveriesStarted
    ensures Sum(Completed, s.pharmacists) + Flag(s.handedOver) <= s.deliveriesFinished <= s.deliveriesStarted
    ensures s.deliveriesStarted <= s.deliveriesFinished + 1
  {
    Always(m, n, acts, s);
    SumNonNegative(InQueue, s.pharmacists);
  }
}
