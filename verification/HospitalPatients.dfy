/** Which patients are called before they have been consulted: the broadcast that ends a consultation is meant
    for the three just consulted, but whoever registers while it goes on hears it too. */
module HospitalPatients {
  import opened HospitalProtocol
  import opened HospitalInvariant
  import opened HospitalOutcome

  /** The patient that registers in this step while a consultation is going on, if any. */
  ghost function LateIn(s: State, a: Action): set<nat>
  {
    if a.PatientRuns? && a.p < |s.patients| && s.patients[a.p] == Travelling && s.waitingPatients < GROUP && s.doctor == Consulting
    then {a.p} else {}
  }

  /** The patients that register during a consultation. */
  ghost function Latecomers(s: State, acts: seq<Action>, t: State): set<nat>
    requires Run(s, acts, t)
    decreases |acts|
  {
    if acts == [] then {} else LateIn(s, acts[0]) + Latecomers(Next(s, acts[0]), acts[1..], t)
  }

  ghost function RousedIn(a: Action): set<nat>
  {
    if a.PatientWakesUp? then {a.p} else {}
  }

  /** The patients that wake up spuriously. */
  ghost function Roused(acts: seq<Action>): set<nat>
  {
    if acts == [] then {} else RousedIn(acts[0]) + Roused(acts[1..])
  }

  /** Where the occupants of the waiting room are, told from how they came there and whether they woke up. */
  ghost predicate Seating(s: State, late: set<nat>, roused: set<nat>)
  {
    && Shape(s)
    && (forall p :: 0 <= p < |s.patients| && s.patients[p] == Travelling ==> p !in late && p !in roused)
    && (forall p :: 0 <= p < |s.patients| && p + 1 in s.ids[..s.waitingPatients] ==>
      if s.doctor == Consulting then p in late && (s.patients[p] == Waiting <==> p !in roused)
      else s.patients[p] == Waiting <==> p !in late && p !in roused)
  }

  lemma RegisterKeepsSeating(s: State, p: nat, late: set<nat>, roused: set<nat>)
    requires Seating(s, late, roused) && p < |s.patients| && s.patients[p] == Travelling && s.waitingPatients < GROUP
    ensures Seating(Register(s, p), late + LateIn(s, PatientRuns(p)), roused)
  {
    var t := Register(s, p);
    assert t.ids[..t.waitingPatients] == s.ids[..s.waitingPatients] + [p + 1];
  }

  lemma PatientKeepsSeating(s: State, p: nat, late: set<nat>, roused: set<nat>)
    requires Seating(s, late, roused) && p < |s.patients|
    ensures Seating(PatientStep(s, p), late + LateIn(s, PatientRuns(p)), roused)
  {
    if s.patients[p] == Travelling && s.waitingPatients < GROUP {
      RegisterKeepsSeating(s, p, late, roused);
    }
  }

  lemma BroadcastKeepsSeating(s: State, late: set<nat>, roused: set<nat>)
    requires Seating(s, late, roused) && s.doctor == Consulting
    ensures Seating(EndConsultation(s), late, roused)
  {
    var t := EndConsultation(s);
    assert forall p :: 0 <= p < |s.patients| ==> t.patients[p] != Waiting && (t.patients[p] == Travelling ==> s.patients[p] == Travelling);
  }

  /** Any other stretch of the doctor leaves the patients alone; it empties the waiting room or leaves it alone too. */
  lemma DoctorLeavesPatients(s: State, wake: int)
    requires Shape(s) && s.doctor != Consulting
    ensures var t := DoctorStep(s, wake);
      && t.patients == s.patients && Shape(t)
      && if t.doctor == Consulting then t.waitingPatients == 0
         else t.waitingPatients == s.waitingPatients && t.ids == s.ids
  {
  }

  lemma DoctorKeepsSeating(s: State, wake: int, late: set<nat>, roused: set<nat>)
    requires Seating(s, late, roused)
    ensures Seating(DoctorStep(s, wake), late, roused)
  {
    if s.doctor == Consulting {
      BroadcastKeepsSeating(s, late, roused);
    } else {
      DoctorLeavesPatients(s, wake);
    }
  }

  lemma StepKeepsSeating(s: State, a: Action, late: set<nat>, roused: set<nat>)
    requires Seating(s, late, roused) && Enabled(s, a)
    ensures Seating(Next(s, a), late + LateIn(s, a), roused + RousedIn(a))
  {
    assert roused + {} == roused && late + {} == late;
    match a
    case PatientRuns(p) => PatientKeepsSeating(s, p, late, roused);
    case PharmacistRuns(f) => PharmacistFrame(s, f);
    case DoctorRuns(wake) => DoctorKeepsSeating(s, wake, late, roused);
    case _ =>
  }

  lemma {:induction false} RunKeepsSeating(s: State, acts: seq<Action>, t: State, late: set<nat>, roused: set<nat>)
    requires Seating(s, late, roused) && Run(s, acts, t)
    ensures Seating(t, late + Latecomers(s, acts, t), roused + Roused(acts))
    decreases |acts|
  {
    if acts == [] {
      assert late + {} == late && roused + {} == roused;
    } else {
      var u := Next(s, acts[0]);
      StepKeepsSeating(s, acts[0], late, roused);
      RunKeepsSeating(u, acts[1..], t, late + LateIn(s, acts[0]), roused + RousedIn(acts[0]));
      assert late + LateIn(s, acts[0]) + Latecomers(u, acts[1..], t) == late + Latecomers(s, acts, t);
      assert roused + RousedIn(acts[0]) + Roused(acts[1..]) == roused + Roused(acts);
    }
  }

  lemma AlwaysSeated(m: nat, n: nat, acts: seq<Action>, s: State)
    requires Run(Init(m, n), acts, s)
    ensures Inv(s) && |s.patients| == m && Seating(s, Latecomers(Init(m, n), acts, s), Roused(acts))
  {
    Always(m, n, acts, s);
    RunKeepsSeating(Init(m, n), acts, s, {}, {});
    assert {} + Latecomers(Init(m, n), acts, s) == Latecomers(Init(m, n), acts, s);
    assert {} + Roused(acts) == Roused(acts);
  }

  /** Who waits when no consultation is going on: exactly the occupants of the waiting room that did not come
      during a consultation and did not wake up spuriously. */
  lemma WhoWaits(m: nat, n: nat, acts: seq<Action>, s: State)
    requires Run(Init(m, n), acts, s) && s.doctor != Consulting
    ensures Shape(s) && |s.patients| == m
    ensures forall p: nat :: p < m ==>
      (s.patients[p] == Waiting <==>
        p + 1 in s.ids[..s.waitingPatients] && p !in Latecomers(Init(m, n), acts, s) && p !in Roused(acts))
  {
    AlwaysSeated(m, n, acts, s);
  }

  /** The end of the last group: a member waits for ever exactly if it came while no consultation was going on
      and does not wake up spuriously; every other patient has left. */
  lemma FateOfTheLastGroup(m: nat, n: nat, acts: seq<Action>, s: State)
    requires Run(Init(m, n), acts, s) && Stuck(s) && s.doctor == Asleep && s.waitingPatients < 3
    ensures LastGroupTooSmall(s) && |s.patients| == m
    ensures forall p: nat :: p < m ==>
      s.patients[p] == if p + 1 in s.ids[..s.waitingPatients] && p !in Latecomers(Init(m, n), acts, s) && p !in Roused(acts)
                       then Waiting else Finished
  {
    Always(m, n, acts, s);
    StuckLastGroup(s);
    WhoWaits(m, n, acts, s);
  }
}
