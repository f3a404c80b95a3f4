/** Who wakes whom in the hospital: nobody is woken but by the event it waits for, and the event does wake somebody. */
module HospitalWaking {
  import opened HospitalProtocol
  import opened HospitalInvariant

  /** One thread asleep at `sleeping` is woken, if there is any; nobody else moves. */
  ghost predicate OneWoken(pcs: seq<PharmacistPc>, qcs: seq<PharmacistPc>, sleeping: PharmacistPc, woken: PharmacistPc)
  {
    if sleeping in pcs then exists f :: 0 <= f < |pcs| && pcs[f] == sleeping && qcs == pcs[f := woken] else qcs == pcs
  }

  /** The sleepers at the first two condition variables are woken; nobody else moves. */
  ghost predicate AllWoken(pcs: seq<PharmacistPc>, qcs: seq<PharmacistPc>)
  {
    && |qcs| == |pcs|
    && forall f :: 0 <= f < |pcs| ==>
      qcs[f] == if pcs[f] == NotFullWait then NotFullWoken else if pcs[f] == QueueWait then QueueWoken else pcs[f]
  }

  lemma SignalWakesOne(pcs: seq<PharmacistPc>, sleeping: PharmacistPc, wake: int)
    requires sleeping in {NotFullWait, QueueWait, DoneWait} && SignalAllowed(pcs, sleeping, wake)
    ensures OneWoken(pcs, Signal(pcs, sleeping, wake), sleeping, WokenFrom(sleeping))
  {
  }

  lemma DoctorAndPharmacists(s: State, wake: int)
    requires Shape(s) && Doctor(s) && Enabled(s, DoctorRuns(wake))
    ensures var t := DoctorStep(s, wake);
      if s.doctor == TakingDelivery then OneWoken(s.pharmacists, t.pharmacists, DoneWait, DoneWoken)
      else if t.doctor == Consulting then OneWoken(s.pharmacists, t.pharmacists, NotFullWait, NotFullWoken)
      else if t.doctor == TakingDelivery then OneWoken(s.pharmacists, t.pharmacists, QueueWait, QueueWoken)
      else if t.doneFlag then AllWoken(s.pharmacists, t.pharmacists)
      else t.pharmacists == s.pharmacists
  {
    var sleeping := DoctorSignals(s);
    if sleeping in {NotFullWait, QueueWait, DoneWait} {
      SignalWakesOne(s.pharmacists, sleeping, wake);
    }
  }

  lemma DoctorAndPatients(s: State, wake: int)
    requires Shape(s)
    ensures var t := DoctorStep(s, wake);
      && |t.patients| == |s.patients|
      && forall p :: 0 <= p < |s.patients| ==>
        t.patients[p] == if s.doctor == Consulting && s.patients[p] == Waiting then Called else s.patients[p]
  {
  }

  /** The doctor wakes one pharmacist that waits for a shortage when it starts a consultation, one that waits for its
      turn when it starts a delivery, and one that waits for the end of a delivery when it ends one; it wakes all that
      wait for the first two when it goes home; and nobody else.  It calls the patients when it ends a consultation,
      all that wait and nobody else, and leaves them alone otherwise. */
  lemma WhomTheDoctorWakes(m: nat, n: nat, acts: seq<Action>, s: State, wake: int)
    requires Run(Init(m, n), acts, s) && Enabled(s, DoctorRuns(wake))
    ensures Shape(s)
    ensures var t := Next(s, DoctorRuns(wake));
      && (if s.doctor == TakingDelivery then OneWoken(s.pharmacists, t.pharmacists, DoneWait, DoneWoken)
          else if t.doctor == Consulting then OneWoken(s.pharmacists, t.pharmacists, NotFullWait, NotFullWoken)
          else if t.doctor == TakingDelivery then OneWoken(s.pharmacists, t.pharmacists, QueueWait, QueueWoken)
          else if t.doneFlag then AllWoken(s.pharmacists, t.pharmacists)
          else t.pharmacists == s.pharmacists)
      && |t.patients| == |s.patients|
      && (forall p :: 0 <= p < |s.patients| ==>
          t.patients[p] == if s.doctor == Consulting && s.patients[p] == Waiting then Called else s.patients[p])
  {
    Always(m, n, acts, s);
    DoctorAndPharmacists(s, wake);
    DoctorAndPatients(s, wake);
  }

  /** The doctor, asleep, is woken by the third patient that registers, by a pharmacist that comes for an empty stock,
      and spuriously, and by nothing else. */
  lemma WhoWakesTheDoctor(m: nat, n: nat, acts: seq<Action>, s: State, a: Action)
    requires Run(Init(m, n), acts, s) && s.doctor == Asleep && Enabled(s, a)
    ensures Shape(s) && Next(s, a).doctor in {Asleep, Woken}
    ensures Next(s, a).doctor == Woken <==>
      || a == DoctorWakesUp
      || (a.PatientRuns? && s.waitingPatients == 2 && s.patients[a.p] == Travelling)
      || (a.PharmacistRuns? && s.meds == 0 && s.pharmacists[a.f] in {OnTheWay, NotFullWoken})
  {
    Always(m, n, acts, s);
  }

  /** Nobody but the doctor's events and their own chance wakes a pharmacist or calls a patient; and nobody but the
      doctor moves it when it is not asleep. */
  lemma NobodyElseWakes(m: nat, n: nat, acts: seq<Action>, s: State, a: Action)
    requires Run(Init(m, n), acts, s) && Enabled(s, a) && !a.DoctorRuns?
    ensures Shape(s) && |Next(s, a).pharmacists| == |s.pharmacists| && |Next(s, a).patients| == |s.patients|
    ensures s.doctor != Asleep ==> Next(s, a).doctor == s.doctor
    ensures forall f :: 0 <= f < |s.pharmacists| && Next(s, a).pharmacists[f] != s.pharmacists[f] ==>
      a == PharmacistRuns(f) || (a == PharmacistWakesUp(f) && Next(s, a).pharmacists[f] == WokenFrom(s.pharmacists[f]))
    ensures forall p :: 0 <= p < |s.patients| && Next(s, a).patients[p] != s.patients[p] ==>
      a == PatientRuns(p) || (a == PatientWakesUp(p) && Next(s, a).patients[p] == Called)
  {
    Always(m, n, acts, s);
    if a.PharmacistRuns? {
      PharmacistFrame(s, a.f);
      PharmacistMoves(s, a.f);
    }
  }

  // ----- where pharmacists go -----

  /** At the first check. */
  ghost predicate Comes(pc: PharmacistPc)
  {
    pc in {OnTheWay, NotFullWoken}
  }

  /** At the check for its turn, as it has come for an empty stock or is up for its turn. */
  ghost predicate Queues(s: State, pc: PharmacistPc)
  {
    (Comes(pc) && s.meds == 0) || pc == QueueWoken
  }

  /** At the check for the end of the delivery, having had its turn before or just now. */
  ghost predicate Delivers(s: State, pc: PharmacistPc)
  {
    pc == DoneWoken || (Queues(s, pc) && s.served)
  }

  /** Before shutdown: exactly when a pharmacist sleeps, and where, when it leaves unneeded, and when it has seen its
      delivery through; and each flag is taken back exactly by the pharmacist it lets through. */
  lemma WherePharmacistsGo(m: nat, n: nat, acts: seq<Action>, s: State, f: nat)
    requires Run(Init(m, n), acts, s) && Enabled(s, PharmacistRuns(f)) && !s.doneFlag
    ensures Shape(s) && f < |Next(s, PharmacistRuns(f)).pharmacists|
    ensures var t, pc := Next(s, PharmacistRuns(f)), s.pharmacists[f];
      && (t.pharmacists[f] == NotFullWait <==> Comes(pc) && s.meds == 6)
      && (t.pharmacists[f] == LeftUnneeded <==> Comes(pc) && s.meds == 3)
      && (t.pharmacists[f] == QueueWait <==> Queues(s, pc) && !s.served)
      && (t.pharmacists[f] == DoneWait <==> Delivers(s, pc) && !s.handedOver)
      && (t.pharmacists[f] == Delivered <==> Delivers(s, pc) && s.handedOver)
      && (s.served && !t.served <==> Queues(s, pc) && s.served) && (t.served ==> s.served)
      && (s.handedOver && !t.handedOver <==> Delivers(s, pc) && s.handedOver) && (t.handedOver ==> s.handedOver)
  {
    Always(m, n, acts, s);
  }

  /** After shutdown a pharmacist that is up leaves, and touches nothing. */
  lemma PharmacistsLeaveAfterShutdown(m: nat, n: nat, acts: seq<Action>, s: State, f: nat)
    requires Run(Init(m, n), acts, s) && Enabled(s, PharmacistRuns(f)) && s.doneFlag
    ensures Shape(s)
    ensures var pc := s.pharmacists[f];
      Next(s, PharmacistRuns(f)) == s.(pharmacists := s.pharmacists[f := if Comes(pc) then LeftEarly
                                                                         else if pc == QueueWoken then LeftQueue
                                                                         else LeftDelivering])
  {
    Always(m, n, acts, s);
  }
}
