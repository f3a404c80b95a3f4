/** The hospital monitor: one doctor, any number of patients and any number of pharmacists under one
    mutex.  Every piece of shared state is read and written with the mutex held, so a step of the
    protocol is one stretch of a thread from taking the mutex to releasing it or waiting.

    Condition variables follow POSIX: a signal wakes one of the sleepers if there are any, a broadcast
    wakes them all, and a sleeper may also wake spuriously (an action of its own, so a signal that wakes
    several threads is a signal followed by spurious wake-ups). */
module HospitalProtocol {

  const CAPACITY := 6
  const GROUP := 3

  datatype DoctorPc =
    | Top                // about to take the mutex at the head of the outer loop
    | Asleep             // waiting on cond_doctor
    | Woken              // woken, about to retake the mutex
    | Consulting         // sleeping without the mutex, a group being consulted
    | TakingDelivery     // sleeping without the mutex, a delivery being accepted
    | Gone               // returned through the check at the head of the outer loop
    | GoneFromWait       // returned through the check inside the wait loop

  datatype PatientPc =
    | Travelling         // on the way, or roaming because the waiting room was full
    | Waiting            // waiting on cond_patient
    | Called             // woken, about to leave
    | Finished

  datatype PharmacistPc =
    | OnTheWay
    | NotFullWait        // waiting on cond_not_full
    | NotFullWoken
    | QueueWait          // waiting on cond_pharmacist_queue
    | QueueWoken
    | DoneWait           // waiting on cond_pharmacist_done
    | DoneWoken
    | LeftEarly          // saw done_flag before joining the queue
    | LeftUnneeded       // saw a stock that is neither full nor below three
    | LeftQueue          // saw done_flag in the queue
    | LeftDelivering     // saw done_flag after handing over the drugs
    | Delivered          // saw the delivery through

  datatype State = State(
    doctor: DoctorPc,
    patients: seq<PatientPc>,        // the patient at index p has id p + 1
    pharmacists: seq<PharmacistPc>,
    waitingPatients: int,
    ids: seq<int>,                   // waiting_patient_ids
    meds: int,
    waitingPharmacists: int,
    treated: int,
    doneFlag: bool,
    served: bool,                    // pharmacist_served
    handedOver: bool,                // pharmacist_done
    // history
    arrivals: seq<int>,              // ids in the order of registration
    consulted: seq<int>,             // ids of the consulted groups, group after group
    consultations: nat,
    deliveriesStarted: nat,
    deliveriesFinished: nat,
    refilled: int)                   // units of drugs added by all deliveries

  datatype Action =
    | DoctorRuns(wake: int)          // wake: the pharmacist that the signal in this stretch wakes, if any sleeps there
    | PatientRuns(p: nat)
    | PharmacistRuns(f: nat)
    | DoctorWakesUp                  // spurious wake-ups
    | PatientWakesUp(p: nat)
    | PharmacistWakesUp(f: nat)

  function Init(totalPatients: nat, totalPharmacists: nat): State
  {
    State(Top, seq(totalPatients, _ => Travelling), seq(totalPharmacists, _ => OnTheWay),
          0, [0, 0, 0], CAPACITY, 0, 0, false, false, false, [], [], 0, 0, 0, 0)
  }

  /** The negation of the doctor's wait condition. */
  predicate HasWork(s: State)
  {
    || (s.waitingPatients >= GROUP && s.meds >= GROUP)
    || (s.waitingPharmacists > 0 && s.meds < CAPACITY)
  }

  // ----- condition variables -----

  function SignalDoctor(pc: DoctorPc): DoctorPc
  {
    if pc == Asleep then Woken else pc
  }

  function WokenFrom(pc: PharmacistPc): PharmacistPc
  {
    match pc
    case NotFullWait => NotFullWoken
    case QueueWait => QueueWoken
    case DoneWait => DoneWoken
    case _ => pc
  }

  /** A signal on the condition variable whose sleepers are at `sleeping`, waking pharmacist `wake`. */
  function Signal(pcs: seq<PharmacistPc>, sleeping: PharmacistPc, wake: int): seq<PharmacistPc>
  {
    if 0 <= wake < |pcs| && pcs[wake] == sleeping then pcs[wake := WokenFrom(sleeping)] else pcs
  }

  /** A signal must wake somebody when somebody sleeps. */
  predicate SignalAllowed(pcs: seq<PharmacistPc>, sleeping: PharmacistPc, wake: int)
  {
    sleeping in {NotFullWait, QueueWait, DoneWait} && sleeping in pcs ==> 0 <= wake < |pcs| && pcs[wake] == sleeping
  }

  function CallIn(pc: PatientPc): PatientPc
  {
    if pc == Waiting then Called else pc
  }

  /** The broadcast on cond_patient. */
  function CallEverybody(pcs: seq<PatientPc>): seq<PatientPc>
  {
    seq(|pcs|, i requires 0 <= i < |pcs| => CallIn(pcs[i]))
  }

  function SendHome(pc: PharmacistPc): PharmacistPc
  {
    if pc == NotFullWait || pc == QueueWait then WokenFrom(pc) else pc
  }

  /** The broadcasts on cond_not_full and cond_pharmacist_queue. */
  function SendEverybodyHome(pcs: seq<PharmacistPc>): seq<PharmacistPc>
  {
    seq(|pcs|, i requires 0 <= i < |pcs| => SendHome(pcs[i]))
  }

  // ----- the doctor -----

  function Shutdown(s: State, exit: DoctorPc): State
  {
    s.(doctor := exit, doneFlag := true, pharmacists := SendEverybodyHome(s.pharmacists))
  }

  function StartConsultation(s: State, wake: int): State
    requires |s.ids| == GROUP
  {
    s.(doctor := Consulting,
       consulted := s.consulted + s.ids,
       consultations := s.consultations + 1,
       waitingPatients := 0,
       meds := s.meds - GROUP,
       treated := s.treated + GROUP,
       pharmacists := Signal(s.pharmacists, NotFullWait, wake))
  }

  function EndConsultation(s: State): State
  {
    s.(doctor := Top, patients := CallEverybody(s.patients))
  }

  function StartDelivery(s: State, wake: int): State
  {
    s.(doctor := TakingDelivery,
       served := true,
       deliveriesStarted := s.deliveriesStarted + 1,
       pharmacists := Signal(s.pharmacists, QueueWait, wake))
  }

  function EndDelivery(s: State, wake: int): State
  {
    s.(doctor := Top,
       meds := CAPACITY,
       handedOver := true,
       deliveriesFinished := s.deliveriesFinished + 1,
       refilled := s.refilled + CAPACITY - s.meds,
       pharmacists := Signal(s.pharmacists, DoneWait, wake))
  }

  /** From the wait loop to the next release of the mutex. */
  function DoctorDecides(s: State, wake: int): State
    requires |s.ids| == GROUP
  {
    if !HasWork(s) then s.(doctor := Asleep)
    else if s.waitingPatients >= GROUP && s.meds >= GROUP then StartConsultation(s, wake)
    else if s.waitingPharmacists > 0 && s.meds < CAPACITY then StartDelivery(s, wake)
    else s.(doctor := Top)
  }

  function DoctorStep(s: State, wake: int): State
    requires |s.ids| == GROUP
  {
    match s.doctor
    case Top => if s.treated >= |s.patients| then Shutdown(s, Gone) else DoctorDecides(s, wake)
    case Woken => if s.treated >= |s.patients| then Shutdown(s, GoneFromWait) else DoctorDecides(s, wake)
    case Consulting => EndConsultation(s)
    case TakingDelivery => EndDelivery(s, wake)
    case _ => s
  }

  /** The pharmacists the doctor's next stretch signals: the program counter at which they sleep, or one
      at which nobody sleeps if it signals none. */
  function DoctorSignals(s: State): PharmacistPc
  {
    match s.doctor
    case TakingDelivery => DoneWait
    case Consulting => Delivered
    case _ =>
      if s.treated >= |s.patients| || !HasWork(s) then Delivered
      else if s.waitingPatients >= GROUP && s.meds >= GROUP then NotFullWait
      else QueueWait
  }

  // ----- patients -----

  function Register(s: State, p: nat): State
    requires p < |s.patients| && 0 <= s.waitingPatients < |s.ids|
  {
    s.(patients := s.patients[p := Waiting],
       ids := s.ids[s.waitingPatients := p + 1],
       waitingPatients := s.waitingPatients + 1,
       arrivals := s.arrivals + [p + 1],
       doctor := if s.waitingPatients + 1 == GROUP then SignalDoctor(s.doctor) else s.doctor)
  }

  function PatientStep(s: State, p: nat): State
    requires p < |s.patients| && 0 <= s.waitingPatients <= GROUP == |s.ids|
  {
    match s.patients[p]
    case Travelling => if s.waitingPatients == GROUP then s else Register(s, p)
    case Called => s.(patients := s.patients[p := Finished])
    case _ => s
  }

  // ----- pharmacists -----

  /** The last wait loop and what follows it. */
  function AwaitHandover(s: State, f: nat): State
    requires f < |s.pharmacists|
  {
    if !s.handedOver && !s.doneFlag then s.(pharmacists := s.pharmacists[f := DoneWait])
    else if s.doneFlag then s.(pharmacists := s.pharmacists[f := LeftDelivering])
    else s.(handedOver := false, pharmacists := s.pharmacists[f := Delivered])
  }

  /** The queue's wait loop and what follows it. */
  function AwaitTurn(s: State, f: nat): State
    requires f < |s.pharmacists|
  {
    if !s.served && !s.doneFlag then s.(pharmacists := s.pharmacists[f := QueueWait])
    else if s.doneFlag then s.(pharmacists := s.pharmacists[f := LeftQueue])
    else AwaitHandover(s.(served := false, waitingPharmacists := s.waitingPharmacists - 1), f)
  }

  /** The first wait loop and what follows it. */
  function AwaitShortage(s: State, f: nat): State
    requires f < |s.pharmacists|
  {
    if s.meds == CAPACITY && !s.doneFlag then s.(pharmacists := s.pharmacists[f := NotFullWait])
    else if s.doneFlag then s.(pharmacists := s.pharmacists[f := LeftEarly])
    else if s.meds < GROUP then
      AwaitTurn(s.(waitingPharmacists := s.waitingPharmacists + 1, doctor := SignalDoctor(s.doctor)), f)
    else s.(pharmacists := s.pharmacists[f := LeftUnneeded])
  }

  function PharmacistStep(s: State, f: nat): State
    requires f < |s.pharmacists|
  {
    match s.pharmacists[f]
    case OnTheWay => AwaitShortage(s, f)
    case NotFullWoken => AwaitShortage(s, f)
    case QueueWoken => AwaitTurn(s, f)
    case DoneWoken => AwaitHandover(s, f)
    case _ => s
  }

  // ----- the whole system -----

  predicate Enabled(s: State, a: Action)
  {
    match a
    case DoctorRuns(wake) =>
      s.doctor in {Top, Woken, Consulting, TakingDelivery} && SignalAllowed(s.pharmacists, DoctorSignals(s), wake)
    case PatientRuns(p) => p < |s.patients| && s.patients[p] in {Travelling, Called}
    case PharmacistRuns(f) =>
      f < |s.pharmacists| && s.pharmacists[f] in {OnTheWay, NotFullWoken, QueueWoken, DoneWoken}
    case DoctorWakesUp => s.doctor == Asleep
    case PatientWakesUp(p) => p < |s.patients| && s.patients[p] == Waiting
    case PharmacistWakesUp(f) => f < |s.pharmacists| && s.pharmacists[f] in {NotFullWait, QueueWait, DoneWait}
  }

  /** The shape the waiting room always has; it makes every step well defined. */
  predicate Shape(s: State)
  {
    0 <= s.waitingPatients <= GROUP == |s.ids|
  }

  function Next(s: State, a: Action): State
    requires Shape(s) && Enabled(s, a)
  {
    match a
    case DoctorRuns(wake) => DoctorStep(s, wake)
    case PatientRuns(p) => PatientStep(s, p)
    case PharmacistRuns(f) => PharmacistStep(s, f)
    case DoctorWakesUp => s.(doctor := Woken)
    case PatientWakesUp(p) => s.(patients := s.patients[p := Called])
    case PharmacistWakesUp(f) => s.(pharmacists := s.pharmacists[f := WokenFrom(s.pharmacists[f])])
  }

  /** `t` is reached from `s` by the actions `acts`, each enabled when its turn comes. */
  ghost predicate Run(s: State, acts: seq<Action>, t: State)
    decreases |acts|
  {
    if acts == [] then s == t
    else Shape(s) && Enabled(s, acts[0]) && Run(Next(s, acts[0]), acts[1..], t)
  }
}
