/** The hospital as code: the shared variables are the fields of a class, and each method is what one thread
    does between taking the mutex and releasing it or waiting.  Every method is proved to make exactly the
    corresponding step of the protocol, so everything proved of the protocol's runs holds of `Schedule`. */
module Hospital {
  import opened HospitalProtocol
  import opened HospitalInvariant
  import opened HospitalOutcome

  class Monitor {
    const totalPatients: nat
    const waitingPatientIds: array<int>
    var waitingPatients: int
    var meds: int
    var waitingPharmacists: int
    var patientsTreated: int
    var doneFlag: bool
    var pharmacistServed: bool
    var pharmacistDone: bool
    // where each thread is
    var doctor: DoctorPc
    var patients: seq<PatientPc>
    var pharmacists: seq<PharmacistPc>
    // what has happened
    ghost var arrivals: seq<int>
    ghost var consulted: seq<int>
    ghost var consultations: nat
    ghost var deliveriesStarted: nat
    ghost var deliveriesFinished: nat
    ghost var refilled: int

    ghost function Snapshot(): State
      reads this, waitingPatientIds
    {
      State(doctor, patients, pharmacists, waitingPatients, waitingPatientIds[..], meds, waitingPharmacists,
            patientsTreated, doneFlag, pharmacistServed, pharmacistDone, arrivals, consulted, consultations,
            deliveriesStarted, deliveriesFinished, refilled)
    }

    ghost predicate Valid()
      reads this, waitingPatientIds
    {
      |patients| == totalPatients && Inv(Snapshot())
    }

    constructor (totalPatients: nat, totalPharmacists: nat)
      ensures Valid() && fresh(waitingPatientIds)
      ensures Snapshot() == Init(totalPatients, totalPharmacists)
    {
      this.totalPatients := totalPatients;
      waitingPatientIds := new int[3](_ => 0);
      waitingPatients := 0;
      meds := CAPACITY;
      waitingPharmacists := 0;
      patientsTreated := 0;
      doneFlag, pharmacistServed, pharmacistDone := false, false, false;
      doctor := Top;
      patients := seq(totalPatients, _ => Travelling);
      pharmacists := seq(totalPharmacists, _ => OnTheWay);
      arrivals, consulted := [], [];
      consultations, deliveriesStarted, deliveriesFinished, refilled := 0, 0, 0, 0;
      new;
      assert waitingPatientIds[..] == [0, 0, 0];
      InitInv(totalPatients, totalPharmacists);
    }

    // ----- condition variables -----

    method SignalPharmacist(sleeping: PharmacistPc, wake: int)
      modifies this`pharmacists
      ensures pharmacists == Signal(old(pharmacists), sleeping, wake)
    {
      if 0 <= wake < |pharmacists| && pharmacists[wake] == sleeping {
        pharmacists := pharmacists[wake := WokenFrom(sleeping)];
      }
    }

    // ----- the doctor -----

    method DoctorRuns(wake: int)
      requires Shape(Snapshot()) && |patients| == totalPatients
      modifies this
      ensures Snapshot() == DoctorStep(old(Snapshot()), wake)
    {
      match doctor
      case Top => Begin(Gone, wake);
      case Woken => Begin(GoneFromWait, wake);
      case Consulting =>
        patients := CallEverybody(patients);
        doctor := Top;
      case TakingDelivery => Refill(wake);
      case _ =>
    }

    method Refill(wake: int)
      modifies this
      ensures Snapshot() == EndDelivery(old(Snapshot()), wake)
    {
      refilled := refilled + CAPACITY - meds;
      deliveriesFinished := deliveriesFinished + 1;
      meds := CAPACITY;
      pharmacistDone := true;
      doctor := Top;
      SignalPharmacist(DoneWait, wake);
    }

    method Begin(exit: DoctorPc, wake: int)
      requires Shape(Snapshot()) && |patients| == totalPatients
      modifies this
      ensures Snapshot() == if old(patientsTreated) >= |old(patients)| then Shutdown(old(Snapshot()), exit) else DoctorDecides(old(Snapshot()), wake)
    {
      if patientsTreated >= totalPatients {
        GoHome(exit);
      } else {
        Decide(wake);
      }
    }

    method GoHome(exit: DoctorPc)
      modifies this
      ensures Snapshot() == Shutdown(old(Snapshot()), exit)
    {
      doneFlag := true;
      pharmacists := SendEverybodyHome(pharmacists);
      doctor := exit;
    }

    method Decide(wake: int)
      requires Shape(Snapshot())
      modifies this
      ensures Snapshot() == DoctorDecides(old(Snapshot()), wake)
    {
      if !((waitingPatients >= 3 && meds >= 3) || (waitingPharmacists > 0 && meds < CAPACITY)) {
        doctor := Asleep;
      } else if waitingPatients >= 3 && meds >= 3 {
        Consult(wake);
      } else if waitingPharmacists > 0 && meds < CAPACITY {
        pharmacistServed := true;
        SignalPharmacist(QueueWait, wake);
        deliveriesStarted := deliveriesStarted + 1;
        doctor := TakingDelivery;
      } else {
        assert false;  // the wait loop was just left, so one of the two conditions holds
      }
    }

    method Consult(wake: int)
      requires Shape(Snapshot())
      modifies this
      ensures Snapshot() == StartConsultation(old(Snapshot()), wake)
    {
      var ids := CopyIds();
      waitingPatients := 0;
      meds := meds - 3;
      patientsTreated := patientsTreated + 3;
      SignalPharmacist(NotFullWait, wake);
      consulted := consulted + ids[..];
      consultations := consultations + 1;
      doctor := Consulting;
    }

    method CopyIds() returns (ids: array<int>)
      requires waitingPatientIds.Length == 3
      ensures fresh(ids) && ids[..] == waitingPatientIds[..]
    {
      ids := new int[3];
      var i := 0;
      while i < 3
        invariant 0 <= i <= 3
        invariant forall j :: 0 <= j < i ==> ids[j] == waitingPatientIds[j]
      {
        ids[i] := waitingPatientIds[i];
        i := i + 1;
      }
    }

    // ----- patients -----

    method PatientRuns(p: nat)
      requires Shape(Snapshot()) && p < |patients| && patients[p] in {Travelling, Called}
      modifies this, waitingPatientIds
      ensures Snapshot() == PatientStep(old(Snapshot()), p)
    {
      if patients[p] == Called {
        patients := patients[p := Finished];
      } else if waitingPatients != 3 {
        waitingPatientIds[waitingPatients] := p + 1;
        waitingPatients := waitingPatients + 1;
        arrivals := arrivals + [p + 1];
        if waitingPatients == 3 {
          doctor := SignalDoctor(doctor);
        }
        patients := patients[p := Waiting];
      }
    }

    // ----- pharmacists -----

    method PharmacistRuns(f: nat)
      requires f < |pharmacists|
      modifies this
      ensures Snapshot() == PharmacistStep(old(Snapshot()), f)
    {
      match pharmacists[f]
      case OnTheWay => Arrive(f);
      case NotFullWoken => Arrive(f);
      case QueueWoken => Queue(f);
      case DoneWoken => HandOver(f);
      case _ =>
    }

    method Arrive(f: nat)
      requires f < |pharmacists|
      modifies this
      ensures Snapshot() == AwaitShortage(old(Snapshot()), f)
    {
      if meds == CAPACITY && !doneFlag {
        pharmacists := pharmacists[f := NotFullWait];
        return;
      }
      if doneFlag {
        pharmacists := pharmacists[f := LeftEarly];
        return;
      }
      if meds < 3 {
        waitingPharmacists := waitingPharmacists + 1;
        doctor := SignalDoctor(doctor);
        Queue(f);
      } else {
        pharmacists := pharmacists[f := LeftUnneeded];
      }
    }

    method Queue(f: nat)
      requires f < |pharmacists|
      modifies this
      ensures Snapshot() == AwaitTurn(old(Snapshot()), f)
    {
      if !pharmacistServed && !doneFlag {
        pharmacists := pharmacists[f := QueueWait];
        return;
      }
      if doneFlag {
        pharmacists := pharmacists[f := LeftQueue];
        return;
      }
      pharmacistServed := false;
      waitingPharmacists := waitingPharmacists - 1;
      HandOver(f);
    }

    method HandOver(f: nat)
      requires f < |pharmacists|
      modifies this
      ensures Snapshot() == AwaitHandover(old(Snapshot()), f)
    {
      if !pharmacistDone && !doneFlag {
        pharmacists := pharmacists[f := DoneWait];
        return;
      }
      if doneFlag {
        pharmacists := pharmacists[f := LeftDelivering];
        return;
      }
      pharmacistDone := false;
      pharmacists := pharmacists[f := Delivered];
    }

    // ----- the scheduler -----

    method Perform(a: Action)
      requires Valid() && Enabled(Snapshot(), a)
      modifies this, waitingPatientIds
      ensures Valid() && Snapshot() == Next(old(Snapshot()), a)
    {
      StepKeepsInv(Snapshot(), a);
      StepKeepsSizes(Snapshot(), a);
      match a
      case DoctorRuns(wake) => DoctorRuns(wake);
      case PatientRuns(p) => PatientRuns(p);
      case PharmacistRuns(f) => PharmacistRuns(f);
      case DoctorWakesUp => doctor := Woken;
      case PatientWakesUp(p) => patients := patients[p := Called];
      case PharmacistWakesUp(f) => pharmacists := pharmacists[f := WokenFrom(pharmacists[f])];
    }

    /** Any schedule: the actions proposed are performed when they are possible and skipped when they are
        not.  What is performed is a run of the protocol. */
    method Schedule(proposed: seq<Action>) returns (ghost performed: seq<Action>)
      requires Valid()
      modifies this, waitingPatientIds
      ensures Valid() && Run(old(Snapshot()), performed, Snapshot())
    {
      performed := [];
      var i := 0;
      while i < |proposed|
        invariant i <= |proposed|
        invariant Valid() && Run(old(Snapshot()), performed, Snapshot())
      {
        ghost var before := Snapshot();
        var a := proposed[i];
        var possible := Possible(a);
        if possible {
          Perform(a);
          RunExtends(old(Snapshot()), performed, before, a);
          performed := performed + [a];
        }
        i := i + 1;
      }
    }

    method Possible(a: Action) returns (b: bool)
      ensures b == Enabled(Snapshot(), a)
    {
      b := Enabled(State(doctor, patients, pharmacists, waitingPatients, waitingPatientIds[..], meds, waitingPharmacists,
                         patientsTreated, doneFlag, pharmacistServed, pharmacistDone, [], [], 0, 0, 0, 0), a);
    }
  }
}
