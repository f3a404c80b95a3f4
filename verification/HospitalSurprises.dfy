/** Two things one might expect of the hospital and that its code does not do, each with runs that show it and
    with the exact condition under which the expectation holds. */
module HospitalSurprises {
  import opened Sequences
  import opened HospitalProtocol
  import opened HospitalInvariant
  import opened HospitalOutcome
  import opened HospitalPatients
  import opened HospitalBroadcast
  import opened HospitalDeliveries
  import opened HospitalPossible

  // ----- a pharmacist left behind -----

  lemma {:induction false} StaysBehind(s: State, acts: seq<Action>, t: State, f: nat)
    requires Plain(s, acts, t)
    requires s.doctor == Gone && f < |s.pharmacists| && s.pharmacists[f] == DoneWait
    ensures f < |t.pharmacists| && t.pharmacists[f] == DoneWait
    decreases |acts|
  {
    if acts != [] {
      if acts[0].PharmacistRuns? {
        PharmacistFrame(s, acts[0].f);
        PharmacistMoves(s, acts[0].f);
      }
      StaysBehind(Next(s, acts[0]), acts[1..], t, f);
    }
  }

  /** Some run without spurious wake-ups takes pharmacist `f` home. */
  ghost predicate CanLeave(s: State, f: nat)
  {
    exists acts, t :: Plain(s, acts, t) && f < |t.pharmacists| && HasLeft(t.pharmacists[f])
  }

  lemma OthersCanLeave(s: State, f: nat)
    requires Shape(s) && Doctor(s) && WakeUps(s) && s.doctor == Gone
    requires f < |s.pharmacists| && s.pharmacists[f] != DoneWait
    ensures CanLeave(s, f)
  {
    assert s.pharmacists[f] in s.pharmacists;
    assert Plain(s, [], s);
    if !HasLeft(s.pharmacists[f]) {
      One(s, PharmacistRuns(f));
      assert HasLeft(Next(s, PharmacistRuns(f)).pharmacists[f]);
    }
  }

  /** After shutdown a pharmacist that nobody wakes spuriously can still leave exactly if it does not sleep on
      cond_pharmacist_done: shutdown broadcasts the other two condition variables of the pharmacists only. */
  lemma LeavesAfterShutdown(m: nat, n: nat, past: seq<Action>, s: State, f: nat)
    requires Run(Init(m, n), past, s) && s.doctor == Gone && f < |s.pharmacists|
    ensures CanLeave(s, f) <==> s.pharmacists[f] != DoneWait
  {
    Always(m, n, past, s);
    if s.pharmacists[f] == DoneWait {
      forall acts, t | Plain(s, acts, t) && f < |t.pharmacists|
        ensures !HasLeft(t.pharmacists[f])
      {
        StaysBehind(s, acts, t, f);
      }
    } else {
      OthersCanLeave(s, f);
    }
  }

  /** Two pharmacists queue for an empty stock; 0 hands over its drugs but is slow to notice the end of the
      delivery, 1 is still in the queue. */
  lemma FirstDelivery(s: State) returns (acts: seq<Action>, t: State)
    requires Between(s, 2) && s.meds == 0 && s.treated < |s.patients| && s.waitingPharmacists == 0 && !s.served && !s.handedOver
    requires |s.pharmacists| >= 2 && forall f :: 0 <= f < |s.pharmacists| ==> s.pharmacists[f] == OnTheWay
    ensures Plain(s, acts, t) && Between(t, 2) && Queues(t, 1)
    ensures |t.patients| == |s.patients| && t.meds == CAPACITY && t.handedOver
    ensures t.waitingPharmacists == 1 && t.pharmacists == s.pharmacists[0 := DoneWoken][1 := QueueWait]
  {
    JoinQueue(s, 2, 0);
    var one := Next(s, PharmacistRuns(0));
    JoinQueue(one, 2, 1);
    var two := Next(one, PharmacistRuns(1));
    Then(s, [PharmacistRuns(0)], one, [PharmacistRuns(1)], two);
    acts := [PharmacistRuns(0)] + [PharmacistRuns(1)];
    var more;
    more, t := HandOverFirst(two);
    Then(s, acts, two, more, t);
    acts := acts + more;
  }

  lemma HandOverFirst(s: State) returns (acts: seq<Action>, t: State)
    requires Between(s, 2) && s.meds == 0 && s.treated < |s.patients| && s.waitingPharmacists == 2 && !s.served && !s.handedOver
    requires |s.pharmacists| >= 2 && s.pharmacists[0] == s.pharmacists[1] == QueueWait
    requires forall f :: 2 <= f < |s.pharmacists| ==> s.pharmacists[f] == OnTheWay
    ensures Plain(s, acts, t) && Between(t, 2)
    ensures |t.patients| == |s.patients| && t.meds == CAPACITY && t.handedOver
    ensures t.waitingPharmacists == 1 && t.pharmacists == s.pharmacists[0 := DoneWoken]
  {
    var busy := Next(s, DoctorRuns(0));
    assert busy == StartDelivery(s, 0) && busy.pharmacists == s.pharmacists[0 := QueueWoken];
    var late := Next(busy, PharmacistRuns(0));
    assert late.pharmacists == s.pharmacists[0 := DoneWait];
    t := Next(late, DoctorRuns(0));
    assert t.pharmacists == s.pharmacists[0 := DoneWoken];
    One(s, DoctorRuns(0));
    One(busy, PharmacistRuns(0));
    One(late, DoctorRuns(0));
    Then(s, [DoctorRuns(0)], busy, [PharmacistRuns(0)], late);
    acts := [DoctorRuns(0)] + [PharmacistRuns(0)];
    Then(s, acts, late, [DoctorRuns(0)], t);
    acts := acts + [DoctorRuns(0)];
  }

  /** Pharmacist 1 takes the flag meant for 0, which goes back to sleep. */
  lemma FlagTaken(s: State) returns (acts: seq<Action>, t: State)
    requires Shape(s) && |s.pharmacists| >= 2 && s.served && s.handedOver && !s.doneFlag
    requires s.pharmacists[0] == DoneWoken && s.pharmacists[1] == QueueWoken
    ensures Plain(s, acts, t)
    ensures t == s.(pharmacists := s.pharmacists[0 := DoneWait][1 := Delivered],
                    served := false, handedOver := false, waitingPharmacists := s.waitingPharmacists - 1)
  {
    var one := Next(s, PharmacistRuns(1));
    assert one.pharmacists == s.pharmacists[1 := Delivered];
    t := Next(one, PharmacistRuns(0));
    assert t.pharmacists == s.pharmacists[0 := DoneWait][1 := Delivered];
    One(s, PharmacistRuns(1));
    One(one, PharmacistRuns(0));
    Then(s, [PharmacistRuns(1)], one, [PharmacistRuns(0)], t);
    acts := [PharmacistRuns(1)] + [PharmacistRuns(0)];
  }

  /** The last group is consulted, and the doctor leaves. */
  lemma LastRound(s: State, k: nat) returns (acts: seq<Action>, t: State)
    requires Shape(s) && s.doctor == Top && s.waitingPatients == 0 && s.meds == CAPACITY
    requires s.treated == 3 * k && |s.patients| == 3 * k + 3 && NotFullWait !in s.pharmacists
    requires forall p :: 3 * k <= p < |s.patients| ==> s.patients[p] == Travelling
    requires |s.pharmacists| >= 1 && s.pharmacists[0] == DoneWait
    ensures Plain(s, acts, t) && t.doctor == Gone && |t.pharmacists| >= 1 && t.pharmacists[0] == DoneWait
  {
    var full;
    acts, full := GroupArrives(s, 3 * k);
    var busy := Next(full, DoctorRuns(0));
    assert busy == StartConsultation(full, 0);
    var more := DoctorTwice(full, 0);
    var over := Next(busy, DoctorRuns(0));
    Then(s, acts, full, more, over);
    acts := acts + more;
    One(over, DoctorRuns(0));
    t := Next(over, DoctorRuns(0));
    assert t == Shutdown(over, Gone);
    Then(s, acts, over, [DoctorRuns(0)], t);
    acts := acts + [DoctorRuns(0)];
  }

  /** For every number of patients and pharmacists that allows it, a run without spurious wake-ups after which
      the doctor has gone and pharmacist 0 sleeps on cond_pharmacist_done. */
  lemma LeaveBehind(m: nat, n: nat) returns (acts: seq<Action>, s: State)
    requires m % 3 == 0 && m >= 12 && n >= 2
    ensures Plain(Init(m, n), acts, s) && s.doctor == Gone && |s.pharmacists| == n && s.pharmacists[0] == DoneWait
  {
    var init, k := Init(m, n), m / 3 - 1;
    var t, more, u;
    acts, t := SpendStock(m, n);
    more, u := FirstDelivery(t);
    Then(init, acts, t, more, u);
    acts := acts + more;
    more, t := Consult(u, 2);
    Then(init, acts, u, more, t);
    acts := acts + more;
    more, u := LastDelivery(t, k);
    Then(init, acts, t, more, u);
    acts := acts + more;
    more, t := FlagTaken(u);
    Then(init, acts, u, more, t);
    acts := acts + more;
    more, s := LastRound(t, k);
    Then(init, acts, t, more, s);
    acts := acts + more;
    Always(m, n, acts, s);
  }

  /** From the third group to the delivery before the last group. */
  lemma LastDelivery(s: State, k: nat) returns (acts: seq<Action>, t: State)
    requires Between(s, 3) && s.meds == GROUP && Queues(s, 1) && 3 <= k && 3 * k + 3 == |s.patients|
    ensures Plain(s, acts, t) && Between(t, k)
    ensures |t.patients| == |s.patients| && t.meds == CAPACITY && t.served && t.handedOver
    ensures t.pharmacists == s.pharmacists[1 := QueueWoken]
  {
    if k == 3 {
      acts, t := Deliver(s, 3, 1);
    } else {
      var u, more;
      acts, u := Rounds(s, 3, k, 1);
      more, t := Deliver(u, k, 1);
      Then(s, acts, u, more, t);
      acts := acts + more;
    }
  }

  ghost predicate LeftBehind(m: nat, n: nat, acts: seq<Action>, s: State)
  {
    Run(Init(m, n), acts, s) && s.doneFlag && DoneWait in s.pharmacists
  }

  /** Shutdown can leave a pharmacist behind exactly if there are at least twelve patients, in groups of three,
      and at least two pharmacists.  Where it can, it can do so without any spurious wake-up and for good: the
      run ends with everybody treated and the pharmacist asleep. */
  lemma WhenSomebodyIsLeftBehind(m: nat, n: nat)
    ensures (exists acts, s :: LeftBehind(m, n, acts, s)) <==> m % 3 == 0 && m >= 12 && n >= 2
    ensures m % 3 == 0 && m >= 12 && n >= 2 ==>
      exists acts, s :: LeftBehind(m, n, acts, s) && CountSpurious(acts) == 0 && Stuck(s) && AllTreated(s)
  {
    forall acts, s | LeftBehind(m, n, acts, s) ensures m % 3 == 0 && m >= 12 && n >= 2 {
      ShutdownIsComplete(m, n, acts, s);
      if m < 12 || n < 2 {
        NobodyLeftBehind(m, n, acts, s);
      }
    }
    if m % 3 == 0 && m >= 12 && n >= 2 {
      var acts, t := LeaveBehind(m, n);
      var all, s := EndBehind(m, n, acts, t);
      Always(m, n, all, s);
      assert LeftBehind(m, n, all, s);
    }
  }

  lemma EndBehind(m: nat, n: nat, acts: seq<Action>, t: State) returns (all: seq<Action>, s: State)
    requires Plain(Init(m, n), acts, t) && t.doctor == Gone && |t.pharmacists| >= 1 && t.pharmacists[0] == DoneWait
    ensures Plain(Init(m, n), all, s) && Stuck(s) && AllTreated(s) && DoneWait in s.pharmacists
  {
    var more;
    Always(m, n, acts, t);
    more, s := ComesToRest(t);
    Then(Init(m, n), acts, t, more, s);
    all := acts + more;
    StaysBehind(t, more, s, 0);
    assert s.pharmacists[0] in s.pharmacists;
    RunOnward(t, more, s);
    Outcomes(m, n, all, s);
  }

  // ----- a patient sent away before being consulted -----

  /** Patient 3 arrives while the first group is being consulted, and leaves when that is over. */
  lemma SendAway(m: nat, n: nat) returns (acts: seq<Action>, t: State)
    requires m >= 4
    ensures Plain(Init(m, n), acts, t)
    ensures |t.patients| == m && t.patients[3] == Finished && t.consulted == [1, 2, 3]
  {
    var full;
    Start(m, n);
    acts, full := GroupArrives(Init(m, n), 0);
    var more;
    more, t := ArriveLate(full, 3);
    Then(Init(m, n), acts, full, more, t);
    acts := acts + more;
  }

  lemma ArriveLate(s: State, p: nat) returns (acts: seq<Action>, t: State)
    requires Shape(s) && s.doctor == Top && s.waitingPatients == 3 && s.meds >= 3 && s.treated < |s.patients|
    requires p < |s.patients| && s.patients[p] == Travelling && NotFullWait !in s.pharmacists
    ensures Plain(s, acts, t)
    ensures |t.patients| == |s.patients| && t.patients[p] == Finished && t.consulted == s.consulted + s.ids
  {
    var busy := Next(s, DoctorRuns(0));
    assert busy == StartConsultation(s, 0);
    var late := Next(busy, PatientRuns(p));
    var over := Next(late, DoctorRuns(0));
    t := Next(over, PatientRuns(p));
    One(s, DoctorRuns(0));
    One(busy, PatientRuns(p));
    One(late, DoctorRuns(0));
    One(over, PatientRuns(p));
    Then(s, [DoctorRuns(0)], busy, [PatientRuns(p)], late);
    acts := [DoctorRuns(0)] + [PatientRuns(p)];
    Then(late, [DoctorRuns(0)], over, [PatientRuns(p)], t);
    Then(s, acts, late, [DoctorRuns(0)] + [PatientRuns(p)], t);
    acts := acts + ([DoctorRuns(0)] + [PatientRuns(p)]);
  }

  lemma ConsultingCounts(s: State, a: Action)
    requires Shape(s) && Enabled(s, a) && s.treated >= 0 && (s.doctor == Consulting ==> s.treated > 0)
    ensures s.treated <= Next(s, a).treated && (Next(s, a).doctor == Consulting ==> Next(s, a).treated > 0)
  {
    if a.PharmacistRuns? {
      PharmacistFrame(s, a.f);
    }
  }

  lemma {:induction false} NoLatecomers(s: State, acts: seq<Action>, t: State)
    requires Shape(s) && Run(s, acts, t) && t.treated <= 0
    requires s.treated >= 0 && (s.doctor == Consulting ==> s.treated > 0)
    ensures Latecomers(s, acts, t) == {}
    decreases |acts|
  {
    if acts != [] {
      var u := Next(s, acts[0]);
      ConsultingCounts(s, acts[0]);
      RunOnward(u, acts[1..], t);
      if acts[1..] == [] {
        assert Latecomers(u, acts[1..], t) == {};
      } else {
        NoLatecomers(u, acts[1..], t);
      }
    }
  }

  /** A patient can finish its visit unconsulted, although nobody wakes up spuriously, exactly if there are at
      least four patients. */
  lemma WhenAPatientCanBeSentAway(m: nat, n: nat)
    ensures (exists acts, s, p: nat :: Plain(Init(m, n), acts, s) && p < |s.patients| && s.patients[p] == Finished && p + 1 !in s.consulted)
      <==> m >= 4
  {
    forall acts, s, p: nat | Plain(Init(m, n), acts, s) && p < |s.patients| && s.patients[p] == Finished && p + 1 !in s.consulted
      ensures m >= 4
    {
      AlwaysSeated(m, n, acts, s);
      NobodyRoused(acts);
      ArrivalOrder(m, n, acts, s);
      assert p + 1 in s.arrivals;
      assert p + 1 in s.ids[..s.waitingPatients];
      if s.treated == 0 {
        NoLatecomers(Init(m, n), acts, s);
      }
    }
    if m >= 4 {
      var acts, s := SendAway(m, n);
      assert s.patients[3] == Finished && 3 + 1 !in s.consulted;
    }
  }

  ghost predicate AllLeft(s: State)
  {
    forall p :: 0 <= p < |s.patients| ==> s.patients[p] == Finished
  }

  /** Two patients at most come while a consultation is going on. */
  lemma ComeLate(s: State, p: nat, r: nat) returns (acts: seq<Action>, t: State)
    requires Shape(s) && s.doctor == Consulting && s.waitingPatients == 0 && 1 <= r <= 2 && p + r <= |s.patients|
    requires s.patients[p] == Travelling && (r == 2 ==> s.patients[p + 1] == Travelling)
    ensures Plain(s, acts, t)
    ensures Shape(t) && t.doctor == Consulting && t.waitingPatients == r && t.treated == s.treated
  {
    One(s, PatientRuns(p));
    acts, t := [PatientRuns(p)], Next(s, PatientRuns(p));
    if r == 2 {
      One(t, PatientRuns(p + 1));
      Then(s, acts, t, [PatientRuns(p + 1)], Next(t, PatientRuns(p + 1)));
      acts, t := acts + [PatientRuns(p + 1)], Next(t, PatientRuns(p + 1));
    }
  }

  /** All the patients that are left come while the last full group is being consulted, and are called with it. */
  lemma LastConsultation(s: State, k: nat) returns (acts: seq<Action>, t: State)
    requires Between(s, k) && s.meds >= GROUP && 3 * k + 3 < |s.patients| < 3 * k + 6
    ensures Plain(s, acts, t) && t.treated == 3 * k + 3 && t.waitingPatients == |s.patients| - t.treated
    ensures forall p :: 0 <= p < |t.patients| ==> t.patients[p] != Waiting
  {
    var full, late, more;
    acts, full := GroupArrives(s, 3 * k);
    var busy := Next(full, DoctorRuns(0));
    assert busy == StartConsultation(full, 0);
    One(full, DoctorRuns(0));
    Then(s, acts, full, [DoctorRuns(0)], busy);
    acts := acts + [DoctorRuns(0)];
    more, late := ComeLate(busy, 3 * k + 3, |s.patients| - (3 * k + 3));
    Then(s, acts, busy, more, late);
    acts := acts + more;
    t := Next(late, DoctorRuns(0));
    assert t == EndConsultation(late);
    One(late, DoctorRuns(0));
    Then(s, acts, late, [DoctorRuns(0)], t);
    acts := acts + [DoctorRuns(0)];
  }

  /** Up to the last full group, with drugs for it. */
  lemma BeforeTheLast(m: nat, n: nat, k: nat) returns (acts: seq<Action>, t: State)
    requires 3 * k + 3 < m && (k <= 1 || n >= 1)
    ensures Plain(Init(m, n), acts, t) && Between(t, k) && t.meds >= GROUP && |t.patients| == m
  {
    Start(m, n);
    if k == 0 {
      return [], Init(m, n);
    } else if k == 1 {
      acts, t := Consult(Init(m, n), 0);
    } else {
      acts, t := Restock(m, n, k);
    }
  }

  lemma NobodyWaits(m: nat, n: nat) returns (all: seq<Action>, s: State)
    requires m % 3 != 0 && m >= 4 && (m < 9 || n >= 1)
    ensures Plain(Init(m, n), all, s) && Stuck(s) && LastGroupTooSmall(s) && AllLeft(s)
  {
    var k := m / 3 - 1;
    var t, more, u;
    all, t := BeforeTheLast(m, n, k);
    more, u := LastConsultation(t, k);
    Then(Init(m, n), all, t, more, u);
    EverybodyCalled(m, n, all + more, u);
    all, s := TreatedToTheEnd(m, n, all + more, u);
    more :| Run(u, more, s);
    RunOnward(u, more, s);
  }

  lemma EverybodyCalled(m: nat, n: nat, acts: seq<Action>, s: State)
    requires Run(Init(m, n), acts, s) && s.treated + s.waitingPatients == m
    requires forall p :: 0 <= p < |s.patients| ==> s.patients[p] != Waiting
    ensures |s.patients| == m && forall p :: 0 <= p < m ==> s.patients[p] in {Called, Finished}
  {
    Always(m, n, acts, s);
    ArrivalOrder(m, n, acts, s);
    Pigeonhole(s.arrivals, m);
    forall p | 0 <= p < m ensures s.patients[p] in {Called, Finished} {
      assert p + 1 in s.arrivals;
    }
  }

  ghost predicate EndsWithNobodyWaiting(m: nat, n: nat, acts: seq<Action>, s: State)
  {
    Plain(Init(m, n), acts, s) && Stuck(s) && LastGroupTooSmall(s) && AllLeft(s)
  }

  /** A last group can be left over without any of its members waiting for ever, although nobody wakes up
      spuriously, exactly if there is one, there is a full group before it, and that can be treated.  The doctor
      alone waits then. */
  lemma WhenNobodyOfTheLastGroupWaits(m: nat, n: nat)
    ensures (exists acts, s :: EndsWithNobodyWaiting(m, n, acts, s)) <==> m % 3 != 0 && m >= 4 && (m < 9 || n >= 1)
  {
    forall acts, s | EndsWithNobodyWaiting(m, n, acts, s) ensures m % 3 != 0 && m >= 4 && (m < 9 || n >= 1) {
      WhenAGroupCanBeLeftOver(m, n);
      assert Ends(m, n, acts, s);
      if m < 4 {
        SomebodyWaits(m, n, acts, s);
      }
    }
    if m % 3 != 0 && m >= 4 && (m < 9 || n >= 1) {
      var acts, s := NobodyWaits(m, n);
      assert EndsWithNobodyWaiting(m, n, acts, s);
    }
  }

  /** Without a consultation nobody is called. */
  lemma SomebodyWaits(m: nat, n: nat, acts: seq<Action>, s: State)
    requires Plain(Init(m, n), acts, s) && LastGroupTooSmall(s) && m < 4
    ensures !AllLeft(s)
  {
    Always(m, n, acts, s);
    NobodyRoused(acts);
    NoLatecomers(Init(m, n), acts, s);
    WhoWaits(m, n, acts, s);
    var x := s.ids[0];
    assert x in s.ids[..s.waitingPatients];
    InTheRoom(s, x);
    assert x - 1 + 1 in s.ids[..s.waitingPatients];
    assert s.patients[x - 1] == Waiting;
  }
}
