/** What deliveries there can be, and who can be waiting for the end of one when the hospital shuts down. */
module HospitalDeliveries {
  import opened Sums
  import opened HospitalProtocol
  import opened HospitalInvariant

  /** Pharmacists come for an empty stock only, so the first delivery fills it from nothing; a later one may
      find half of it. */
  ghost predicate Refills(s: State)
  {
    && (s.pharmacists == [] ==> s.deliveriesStarted == 0)
    && (s.deliveriesStarted == 0 && s.waitingPharmacists > 0 ==> s.meds == 0)
    && (s.doctor == TakingDelivery ==> s.treated < |s.patients|)
    && (s.doctor == TakingDelivery && s.deliveriesFinished == 0 ==> s.meds == 0)
    && (s.deliveriesFinished >= 1 ==> s.refilled >= GROUP * s.deliveriesFinished + GROUP)
    && (s.meds == CAPACITY && s.treated >= |s.patients| ==> s.treated == 0)
  }

  /** The flag set at the end of a delivery is only ever taken back by a pharmacist that leaves with it. */
  ghost predicate Handover(s: State)
  {
    s.deliveriesFinished >= 1 ==> s.handedOver || Delivered in s.pharmacists
  }

  /** Whoever shutdown leaves behind is not the only one that was in a delivery. */
  ghost predicate NotAlone(s: State)
  {
    s.doneFlag && DoneWait in s.pharmacists ==> Sum(TookTurn, s.pharmacists) >= 2
  }

  // ----- every step keeps it -----

  lemma PharmacistQueues(s: State, f: nat)
    requires Stock(s) && f < |s.pharmacists|
    ensures PharmacistStep(s, f).waitingPharmacists > s.waitingPharmacists ==> s.meds == 0
  {
  }

  lemma PharmacistKeepsRefills(s: State, f: nat)
    requires Inv(s) && Refills(s) && f < |s.pharmacists|
    ensures Refills(PharmacistStep(s, f))
  {
    PharmacistFrame(s, f);
    PharmacistQueues(s, f);
  }

  /** What the doctor's stretches do to the numbers. */
  lemma DoctorRounds(s: State, wake: int)
    requires Shape(s) && Doctor(s)
    ensures var t := DoctorStep(s, wake);
      && |t.patients| == |s.patients|
      && (t.doctor == TakingDelivery ==> s.waitingPharmacists > 0 && s.treated < |s.patients| && t.meds == s.meds)
      && (if s.doctor == TakingDelivery then t.meds == CAPACITY && t.treated == s.treated && t.refilled == s.refilled + CAPACITY - s.meds
          else t.refilled == s.refilled && t.treated + t.meds == s.treated + s.meds && t.meds in {s.meds, s.meds - GROUP})
  {
  }

  lemma DoctorKeepsRefills(s: State, wake: int)
    requires Inv(s) && Refills(s)
    ensures Refills(DoctorStep(s, wake))
  {
    DoctorOnlyWakes(s, wake);
    DoctorCounts(s, wake);
    DoctorRounds(s, wake);
  }

  lemma KeepsRefills(s: State, a: Action)
    requires Inv(s) && Refills(s) && Enabled(s, a)
    ensures Refills(Next(s, a))
  {
    match a
    case DoctorRuns(wake) => DoctorKeepsRefills(s, wake);
    case PharmacistRuns(f) => PharmacistKeepsRefills(s, f);
    case _ =>
  }

  /** A pharmacist that takes back the flag leaves with it. */
  lemma PharmacistTakesFlag(s: State, f: nat)
    requires f < |s.pharmacists|
    ensures var t := PharmacistStep(s, f);
      && (s.handedOver && !t.handedOver ==> t.pharmacists[f] == Delivered)
      && (s.pharmacists[f] == Delivered ==> t.pharmacists[f] == Delivered)
  {
  }

  lemma PharmacistKeepsHandover(s: State, f: nat)
    requires Handover(s) && f < |s.pharmacists|
    ensures Handover(PharmacistStep(s, f))
  {
    PharmacistFrame(s, f);
    PharmacistMoves(s, f);
    PharmacistTakesFlag(s, f);
    Stays(s.pharmacists, f, PharmacistStep(s, f).pharmacists[f], Delivered);
  }

  lemma WakingKeepsDelivered(pcs: seq<PharmacistPc>, qcs: seq<PharmacistPc>)
    requires SameRegions(pcs, qcs) && Delivered in pcs
    ensures Delivered in qcs
  {
    var i :| 0 <= i < |pcs| && pcs[i] == Delivered;
    assert qcs[i] == Delivered;
  }

  lemma KeepsHandover(s: State, a: Action)
    requires Shape(s) && Handover(s) && Enabled(s, a)
    ensures Handover(Next(s, a))
  {
    match a
    case DoctorRuns(wake) =>
      DoctorOnlyWakes(s, wake);
      DoctorCounts(s, wake);
      if Delivered in s.pharmacists {
        WakingKeepsDelivered(s.pharmacists, DoctorStep(s, wake).pharmacists);
      }
    case PharmacistRuns(f) => PharmacistKeepsHandover(s, f);
    case PharmacistWakesUp(f) => Stays(s.pharmacists, f, WokenFrom(s.pharmacists[f]), Delivered);
    case _ =>
  }

  lemma TwoTookTurns(pcs: seq<PharmacistPc>, pc: PharmacistPc)
    requires DoneWait in pcs && pc in pcs && pc != DoneWait && TookTurn(pc) == 1
    ensures Sum(TookTurn, pcs) >= 2
  {
    var i :| 0 <= i < |pcs| && pcs[i] == DoneWait;
    var j :| 0 <= j < |pcs| && pcs[j] == pc;
    SumTwo(TookTurn, pcs, if i < j then i else j, if i < j then j else i);
  }

  /** When the doctor leaves, a pharmacist that sleeps waiting for the end of a delivery is not the only one
      that had its turn: the flag is there and another is up for it, or another has left with it. */
  lemma ShutdownLeavesNotAlone(s: State)
    requires Inv(s) && Handover(s) && s.doctor == Top && DoneWait in s.pharmacists
    ensures Sum(TookTurn, s.pharmacists) >= 2
  {
    SumNonNegative(TookTurn, s.pharmacists);
    var i :| 0 <= i < |s.pharmacists| && s.pharmacists[i] == DoneWait;
    SumMember(TookTurn, s.pharmacists, i);
    assert s.deliveriesFinished >= 1;
    TwoTookTurns(s.pharmacists, if Delivered in s.pharmacists then Delivered else DoneWoken);
  }

  lemma DoctorKeepsNotAlone(s: State, wake: int)
    requires Inv(s) && Handover(s) && NotAlone(s) && Enabled(s, DoctorRuns(wake))
    ensures NotAlone(DoctorStep(s, wake))
  {
    var t := DoctorStep(s, wake);
    if t.doneFlag && DoneWait in t.pharmacists {
      assert s.doctor == Top && t == Shutdown(s, Gone);
      var i :| 0 <= i < |t.pharmacists| && t.pharmacists[i] == DoneWait;
      assert s.pharmacists[i] == DoneWait;
      ShutdownLeavesNotAlone(s);
      DoctorOnlyWakes(s, wake);
      SameCounts(s.pharmacists, t.pharmacists);
    }
  }

  /** After shutdown no pharmacist's turn begins, and none goes to sleep. */
  lemma PharmacistAfterShutdown(s: State, f: nat)
    requires s.doneFlag && f < |s.pharmacists|
    ensures var pc := PharmacistStep(s, f).pharmacists[f];
      TookTurn(pc) == TookTurn(s.pharmacists[f]) && (pc == DoneWait ==> s.pharmacists[f] == DoneWait)
  {
  }

  lemma PharmacistKeepsNotAlone(s: State, f: nat)
    requires NotAlone(s) && Enabled(s, PharmacistRuns(f))
    ensures NotAlone(PharmacistStep(s, f))
  {
    PharmacistFrame(s, f);
    if s.doneFlag {
      var pc := PharmacistStep(s, f).pharmacists[f];
      PharmacistMoves(s, f);
      PharmacistAfterShutdown(s, f);
      Moves(s.pharmacists, f, pc);
      Stays(s.pharmacists, f, pc, DoneWait);
    }
  }

  lemma KeepsNotAlone(s: State, a: Action)
    requires Inv(s) && Handover(s) && NotAlone(s) && Enabled(s, a)
    ensures NotAlone(Next(s, a))
  {
    match a
    case DoctorRuns(wake) => DoctorKeepsNotAlone(s, wake);
    case PharmacistRuns(f) => PharmacistKeepsNotAlone(s, f);
    case PharmacistWakesUp(f) =>
      Moves(s.pharmacists, f, WokenFrom(s.pharmacists[f]));
      Stays(s.pharmacists, f, WokenFrom(s.pharmacists[f]), DoneWait);
    case _ =>
  }

  // ----- over whole runs -----

  ghost predicate Deliveries(s: State)
  {
    Refills(s) && Handover(s) && NotAlone(s)
  }

  lemma {:induction false} RunKeepsDeliveries(s: State, acts: seq<Action>, t: State)
    requires Inv(s) && Deliveries(s) && Run(s, acts, t)
    ensures Inv(t) && Deliveries(t)
    decreases |acts|
  {
    if acts != [] {
      StepKeepsInv(s, acts[0]);
      KeepsRefills(s, acts[0]);
      KeepsHandover(s, acts[0]);
      KeepsNotAlone(s, acts[0]);
      RunKeepsDeliveries(Next(s, acts[0]), acts[1..], t);
    }
  }

  lemma AlwaysDeliveries(m: nat, n: nat, acts: seq<Action>, s: State)
    requires Run(Init(m, n), acts, s)
    ensures Inv(s) && Deliveries(s) && |s.patients| == m && |s.pharmacists| == n
  {
    Always(m, n, acts, s);
    InitInv(m, n);
    RunKeepsDeliveries(Init(m, n), acts, s);
  }

  /** Without pharmacists only the first stock is ever spent. */
  lemma NoPharmacistsNoDelivery(m: nat, acts: seq<Action>, s: State)
    requires Run(Init(m, 0), acts, s)
    ensures s.treated <= 6
  {
    AlwaysDeliveries(m, 0, acts, s);
  }

  /** Fewer than twelve patients are treated with at most one delivery. */
  lemma OneDelivery(s: State)
    requires Inv(s) && Refills(s) && s.treated == |s.patients| < 12 && |s.patients| % 3 == 0 && s.doctor == Gone
    ensures s.deliveriesStarted <= 1
  {
  }

  /** With fewer than twelve patients, or fewer than two pharmacists, shutdown leaves nobody behind, whatever
      the schedule and whoever wakes up spuriously. */
  lemma NobodyLeftBehind(m: nat, n: nat, acts: seq<Action>, s: State)
    requires Run(Init(m, n), acts, s) && s.doneFlag && (m < 12 || n < 2)
    ensures DoneWait !in s.pharmacists
  {
    AlwaysDeliveries(m, n, acts, s);
    ShutdownIsComplete(m, n, acts, s);
    if n < 2 {
      AtMostAll(s.pharmacists);
    } else {
      OneDelivery(s);
    }
  }

  lemma {:induction false} AtMostAll(pcs: seq<PharmacistPc>)
    ensures Sum(TookTurn, pcs) <= |pcs|
  {
    if pcs != [] {
      AtMostAll(pcs[1..]);
    }
  }
}
