/** Runs of the hospital for any numbers of patients and pharmacists, and with them exactly when each of the
    three ends can be reached. */
module HospitalPossible {
  import opened HospitalProtocol
  import opened HospitalInvariant
  import opened HospitalOutcome
  import opened HospitalDeliveries

  /** A run in which nobody wakes up spuriously. */
  ghost predicate Plain(s: State, acts: seq<Action>, t: State)
  {
    Run(s, acts, t) && CountSpurious(acts) == 0
  }

  lemma Then(s: State, acts: seq<Action>, t: State, more: seq<Action>, u: State)
    requires Plain(s, acts, t) && Plain(t, more, u)
    ensures Plain(s, acts + more, u)
  {
    RunConcat(s, acts, t, more, u);
  }

  lemma One(s: State, a: Action)
    requires Shape(s) && Enabled(s, a) && !Spurious(a)
    ensures Plain(s, [a], Next(s, a))
  {
    assert [a][1..] == [];
    assert Run(Next(s, a), [a][1..], Next(s, a));
    assert CountSpurious([a][1..]) == 0;
  }

  // ----- rounds of the doctor -----

  /** Between two rounds: k groups have been treated, the other patients are on their way, and no pharmacist
      waits for a shortage or for the end of a delivery. */
  ghost predicate Between(s: State, k: nat)
  {
    && Shape(s) && s.doctor == Top && !s.doneFlag
    && s.waitingPatients == 0 && s.treated == 3 * k <= |s.patients|
    && (forall p :: 3 * k <= p < |s.patients| ==> s.patients[p] == Travelling)
    && NotFullWait !in s.pharmacists && DoneWait !in s.pharmacists
  }

  lemma GroupArrives(s: State, p: nat) returns (acts: seq<Action>, t: State)
    requires Shape(s) && s.doctor == Top && s.waitingPatients == 0
    requires p + 2 < |s.patients| && s.patients[p] == s.patients[p + 1] == s.patients[p + 2] == Travelling
    ensures Plain(s, acts, t)
    ensures t == s.(patients := s.patients[p := Waiting][p + 1 := Waiting][p + 2 := Waiting],
                    ids := [p + 1, p + 2, p + 3], waitingPatients := 3, arrivals := s.arrivals + [p + 1] + [p + 2] + [p + 3])
  {
    var one := Next(s, PatientRuns(p));
    var two := Next(one, PatientRuns(p + 1));
    t := Next(two, PatientRuns(p + 2));
    One(s, PatientRuns(p));
    One(one, PatientRuns(p + 1));
    One(two, PatientRuns(p + 2));
    Then(s, [PatientRuns(p)], one, [PatientRuns(p + 1)], two);
    acts := [PatientRuns(p)] + [PatientRuns(p + 1)];
    Then(s, acts, two, [PatientRuns(p + 2)], t);
    acts := acts + [PatientRuns(p + 2)];
  }

  /** Two stretches of the doctor, each signalling pharmacist `wake` if it signals any. */
  lemma DoctorTwice(s: State, wake: nat) returns (acts: seq<Action>)
    requires Shape(s) && Enabled(s, DoctorRuns(wake))
    requires Shape(Next(s, DoctorRuns(wake))) && Enabled(Next(s, DoctorRuns(wake)), DoctorRuns(wake))
    ensures Plain(s, acts, Next(Next(s, DoctorRuns(wake)), DoctorRuns(wake)))
  {
    var t := Next(s, DoctorRuns(wake));
    One(s, DoctorRuns(wake));
    One(t, DoctorRuns(wake));
    Then(s, [DoctorRuns(wake)], t, [DoctorRuns(wake)], Next(t, DoctorRuns(wake)));
    acts := [DoctorRuns(wake)] + [DoctorRuns(wake)];
  }

  /** The next group arrives and is consulted. */
  lemma Consult(s: State, k: nat) returns (acts: seq<Action>, t: State)
    requires Between(s, k) && s.meds >= GROUP && 3 * k + 3 <= |s.patients|
    ensures Plain(s, acts, t) && Between(t, k + 1)
    ensures |t.patients| == |s.patients| && t.meds == s.meds - GROUP
    ensures t.pharmacists == s.pharmacists && t.waitingPharmacists == s.waitingPharmacists
    ensures t.served == s.served && t.handedOver == s.handedOver
  {
    var full;
    acts, full := GroupArrives(s, 3 * k);
    var busy := Next(full, DoctorRuns(0));
    assert busy == StartConsultation(full, 0) && busy.pharmacists == s.pharmacists;
    var more := DoctorTwice(full, 0);
    t := Next(busy, DoctorRuns(0));
    Then(s, acts, full, more, t);
    acts := acts + more;
  }

  /** Pharmacist q is in the queue, and nobody else is. */
  ghost predicate Queues(s: State, q: nat)
  {
    && q < |s.pharmacists| && s.pharmacists[q] in {QueueWait, QueueWoken} && s.waitingPharmacists > 0
    && (forall f :: 0 <= f < |s.pharmacists| && f != q ==> s.pharmacists[f] != QueueWait)
  }

  /** A delivery that pharmacist q takes no part in: it is only woken. */
  lemma Deliver(s: State, k: nat, q: nat) returns (acts: seq<Action>, t: State)
    requires Between(s, k) && s.treated < |s.patients| && s.meds < CAPACITY && Queues(s, q)
    ensures Plain(s, acts, t) && Between(t, k) && Queues(t, q)
    ensures |t.patients| == |s.patients| && t.meds == CAPACITY && t.served && t.handedOver
    ensures t.pharmacists == s.pharmacists[q := QueueWoken] && t.waitingPharmacists == s.waitingPharmacists
  {
    var busy := Next(s, DoctorRuns(q));
    assert busy == StartDelivery(s, q);
    assert busy.pharmacists == s.pharmacists[q := QueueWoken];
    acts := DoctorTwice(s, q);
    t := Next(busy, DoctorRuns(q));
    assert t.pharmacists == busy.pharmacists;
  }

  /** One pharmacist that is slow to leave the queue is enough for any number of deliveries. */
  lemma {:induction false} Rounds(s: State, k: nat, j: nat, q: nat) returns (acts: seq<Action>, t: State)
    requires Between(s, k) && s.meds < CAPACITY && Queues(s, q) && k < j && 3 * j <= |s.patients|
    ensures Plain(s, acts, t) && Between(t, j) && Queues(t, q)
    ensures |t.patients| == |s.patients| && t.meds == GROUP && t.served && t.handedOver
    ensures t.pharmacists == s.pharmacists[q := QueueWoken] && t.waitingPharmacists == s.waitingPharmacists
    decreases j - k
  {
    var full, more;
    acts, full := Deliver(s, k, q);
    more, t := Consult(full, k);
    Then(s, acts, full, more, t);
    acts := acts + more;
    if k + 1 < j {
      var u;
      more, u := Rounds(t, k + 1, j, q);
      Then(s, acts, t, more, u);
      acts, t := acts + more, u;
    }
  }

  lemma Start(m: nat, n: nat)
    ensures Between(Init(m, n), 0)
  {
  }

  /** The first stock is spent on two groups. */
  lemma SpendStock(m: nat, n: nat) returns (acts: seq<Action>, t: State)
    requires m >= 6
    ensures Plain(Init(m, n), acts, t) && Between(t, 2)
    ensures |t.patients| == m && t.meds == 0 && !t.served && !t.handedOver
    ensures t.pharmacists == Init(m, n).pharmacists && t.waitingPharmacists == 0
  {
    var s := Init(m, n);
    Start(m, n);
    var one, more;
    acts, one := Consult(s, 0);
    more, t := Consult(one, 1);
    Then(s, acts, one, more, t);
    acts := acts + more;
  }

  lemma JoinQueue(s: State, k: nat, f: nat)
    requires Between(s, k) && s.meds == 0 && f < |s.pharmacists| && s.pharmacists[f] == OnTheWay && !s.served
    ensures var t := Next(s, PharmacistRuns(f));
      && Plain(s, [PharmacistRuns(f)], t) && Between(t, k)
      && t == s.(pharmacists := s.pharmacists[f := QueueWait], waitingPharmacists := s.waitingPharmacists + 1)
  {
    One(s, PharmacistRuns(f));
  }

  /** Two groups or more have been treated and the stock is full again; pharmacist 0, the only one that has come,
      has been woken but has not left the queue. */
  lemma Restock(m: nat, n: nat, k: nat) returns (acts: seq<Action>, t: State)
    requires 2 <= k && 3 * k < m && n >= 1
    ensures Plain(Init(m, n), acts, t) && Between(t, k) && Queues(t, 0)
    ensures |t.patients| == m && t.meds == CAPACITY && t.served && t.handedOver
    ensures t.pharmacists == Init(m, n).pharmacists[0 := QueueWoken] && t.waitingPharmacists == 1
  {
    var s := Init(m, n);
    var u, more;
    acts, t := SpendStock(m, n);
    JoinQueue(t, 2, 0);
    u := Next(t, PharmacistRuns(0));
    Then(s, acts, t, [PharmacistRuns(0)], u);
    acts := acts + [PharmacistRuns(0)];
    if k > 2 {
      more, t := Rounds(u, 2, k, 0);
      Then(s, acts, u, more, t);
      acts, u := acts + more, t;
    }
    more, t := Deliver(u, k, 0);
    Then(s, acts, u, more, t);
    acts := acts + more;
  }

  /** Any number of groups can be treated, if there is a pharmacist or the first stock suffices. */
  lemma Treat(m: nat, n: nat, k: nat) returns (acts: seq<Action>, t: State)
    requires 3 * k <= m && (k <= 2 || n >= 1)
    ensures Plain(Init(m, n), acts, t) && t.treated == 3 * k
  {
    var s := Init(m, n);
    Start(m, n);
    if k == 0 {
      return [], s;
    } else if k == 1 {
      acts, t := Consult(s, 0);
    } else {
      acts, t := SpendStock(m, n);
      if k > 2 {
        JoinQueue(t, 2, 0);
        var u := Next(t, PharmacistRuns(0));
        Then(s, acts, t, [PharmacistRuns(0)], u);
        acts := acts + [PharmacistRuns(0)];
        var more, v := Rounds(u, 2, k, 0);
        Then(s, acts, u, more, v);
        acts, t := acts + more, v;
      }
    }
  }

  /** A run that goes on until nothing can happen any more. */
  lemma PlayOut(m: nat, n: nat, acts: seq<Action>, s: State) returns (all: seq<Action>, t: State)
    requires Plain(Init(m, n), acts, s)
    ensures Plain(Init(m, n), all, t) && Stuck(t)
    ensures exists more :: Run(s, more, t)
  {
    var more;
    Always(m, n, acts, s);
    more, t := ComesToRest(s);
    Then(Init(m, n), acts, s, more, t);
    all := acts + more;
  }

  // ----- running out of drugs -----

  /** The drugs are gone after `treated` patients, and every pharmacist has left. */
  ghost predicate Starved(s: State, treated: int)
  {
    && Shape(s) && s.meds == 0 && s.treated == treated && s.waitingPharmacists == 0
    && s.doctor in {Top, Asleep, Woken, Consulting}
    && s.treated < |s.patients|
    && (forall f :: 0 <= f < |s.pharmacists| ==> s.pharmacists[f] in {LeftUnneeded, Delivered})
  }

  lemma StepStaysStarved(s: State, a: Action, treated: int)
    requires Starved(s, treated) && Enabled(s, a)
    ensures Starved(Next(s, a), treated)
  {
    match a
    case DoctorRuns(wake) => DoctorOnlyWakes(s, wake);
    case _ =>
  }

  lemma {:induction false} StaysStarved(s: State, acts: seq<Action>, t: State, treated: int)
    requires Starved(s, treated) && Run(s, acts, t)
    ensures Starved(t, treated)
    decreases |acts|
  {
    if acts != [] {
      StepStaysStarved(s, acts[0], treated);
      StaysStarved(Next(s, acts[0]), acts[1..], t, treated);
    }
  }

  /** Pharmacists that come while the stock is half full leave at once. */
  lemma {:induction false} AllUnneeded(s: State, k: nat, f: nat) returns (acts: seq<Action>, t: State)
    requires Between(s, k) && s.meds == GROUP && f <= |s.pharmacists|
    requires forall i :: 0 <= i < |s.pharmacists| ==> if i < f then s.pharmacists[i] in {LeftUnneeded, Delivered} else s.pharmacists[i] == OnTheWay
    ensures Plain(s, acts, t) && Between(t, k)
    ensures t == s.(pharmacists := t.pharmacists)
    ensures |t.pharmacists| == |s.pharmacists| && forall i :: 0 <= i < |s.pharmacists| ==> t.pharmacists[i] in {LeftUnneeded, Delivered}
    decreases |s.pharmacists| - f
  {
    if f == |s.pharmacists| {
      return [], s;
    }
    var u := Next(s, PharmacistRuns(f));
    assert u == s.(pharmacists := s.pharmacists[f := LeftUnneeded]);
    One(s, PharmacistRuns(f));
    var more;
    more, t := AllUnneeded(u, k, f + 1);
    Then(s, [PharmacistRuns(f)], u, more, t);
    acts := [PharmacistRuns(f)] + more;
  }

  /** The last two groups that the stock suffices for, with all remaining pharmacists coming in between. */
  lemma LastTwoGroups(s: State, k: nat, f: nat) returns (acts: seq<Action>, t: State)
    requires Between(s, k) && s.meds == CAPACITY && 3 * k + 6 < |s.patients| && s.waitingPharmacists == 0 && f <= |s.pharmacists|
    requires forall i :: 0 <= i < |s.pharmacists| ==> if i < f then s.pharmacists[i] == Delivered else s.pharmacists[i] == OnTheWay
    ensures Plain(s, acts, t) && Starved(t, 3 * k + 6)
  {
    var more, u;
    acts, t := Consult(s, k);
    more, u := AllUnneeded(t, k + 1, f);
    Then(s, acts, t, more, u);
    acts := acts + more;
    more, t := Consult(u, k + 1);
    Then(s, acts, u, more, t);
    acts := acts + more;
  }

  /** Pharmacist 0 leaves the queue and sees the delivery through at once. */
  lemma Depart(s: State, k: nat) returns (t: State)
    requires Between(s, k) && Queues(s, 0) && s.served && s.handedOver && s.pharmacists[0] == QueueWoken
    ensures Plain(s, [PharmacistRuns(0)], t) && Between(t, k)
    ensures t == s.(served := false, handedOver := false, waitingPharmacists := s.waitingPharmacists - 1,
                    pharmacists := s.pharmacists[0 := Delivered])
  {
    One(s, PharmacistRuns(0));
    t := Next(s, PharmacistRuns(0));
  }

  lemma Starve(m: nat, n: nat, k: nat) returns (acts: seq<Action>, s: State)
    requires 3 * k + 3 <= m && (k == 2 || (k >= 4 && n >= 1))
    ensures Plain(Init(m, n), acts, s) && Stuck(s) && OutOfDrugs(s) && s.treated == 3 * k
  {
    var init := Init(m, n);
    var t, u, more;
    if k == 2 {
      Start(m, n);
      acts, t := LastTwoGroups(init, 0, 0);
    } else {
      acts, t := Restock(m, n, k - 2);
      u := Depart(t, k - 2);
      Then(init, acts, t, [PharmacistRuns(0)], u);
      acts := acts + [PharmacistRuns(0)];
      more, t := LastTwoGroups(u, k - 2, 1);
      Then(init, acts, u, more, t);
      acts := acts + more;
    }
    acts, s := PlayOut(m, n, acts, t);
    more :| Run(t, more, s);
    StaysStarved(t, more, s, 3 * k);
    Outcomes(m, n, acts, s);
    Always(m, n, acts, s);
  }

  // ----- which ends are possible -----

  ghost predicate Ends(m: nat, n: nat, acts: seq<Action>, s: State)
  {
    Run(Init(m, n), acts, s) && Stuck(s)
  }

  /** Everybody can be treated exactly if the patients come out even and there is a pharmacist or the first
      stock suffices.  Spurious wake-ups are not needed and do not help. */
  lemma WhenAllCanBeTreated(m: nat, n: nat)
    ensures (exists acts, s :: Ends(m, n, acts, s) && AllTreated(s)) <==> m % 3 == 0 && (m <= 6 || n >= 1)
    ensures m % 3 == 0 && (m <= 6 || n >= 1) ==>
      exists acts, s :: Ends(m, n, acts, s) && AllTreated(s) && CountSpurious(acts) == 0
  {
    forall acts, s | Ends(m, n, acts, s) && AllTreated(s) ensures m % 3 == 0 && (m <= 6 || n >= 1) {
      ArrivalOrder(m, n, acts, s);
      Always(m, n, acts, s);
      if n == 0 {
        NoPharmacistsNoDelivery(m, acts, s);
      }
    }
    if m % 3 == 0 && (m <= 6 || n >= 1) {
      var acts, t := Treat(m, n, m / 3);
      var all, s := TreatedToTheEnd(m, n, acts, t);
      assert Ends(m, n, all, s) && AllTreated(s) && CountSpurious(all) == 0;
    }
  }

  lemma TreatedToTheEnd(m: nat, n: nat, acts: seq<Action>, t: State) returns (all: seq<Action>, s: State)
    requires Plain(Init(m, n), acts, t) && t.treated == m - m % 3
    ensures Plain(Init(m, n), all, s) && Stuck(s)
    ensures if m % 3 == 0 then AllTreated(s) else LastGroupTooSmall(s)
    ensures exists more :: Run(t, more, s)
  {
    all, s := PlayOut(m, n, acts, t);
    var more :| Run(t, more, s);
    RunOnward(t, more, s);
    Outcomes(m, n, all, s);
    ArrivalOrder(m, n, all, s);
  }

  /** A last group of fewer than three can be left over exactly if there is one, and a pharmacist or a first
      stock that suffices for the others. */
  lemma WhenAGroupCanBeLeftOver(m: nat, n: nat)
    ensures (exists acts, s :: Ends(m, n, acts, s) && LastGroupTooSmall(s)) <==> m % 3 != 0 && (m < 9 || n >= 1)
    ensures m % 3 != 0 && (m < 9 || n >= 1) ==>
      exists acts, s :: Ends(m, n, acts, s) && LastGroupTooSmall(s) && CountSpurious(acts) == 0
  {
    forall acts, s | Ends(m, n, acts, s) && LastGroupTooSmall(s) ensures m % 3 != 0 && (m < 9 || n >= 1) {
      Always(m, n, acts, s);
      if n == 0 {
        NoPharmacistsNoDelivery(m, acts, s);
      }
    }
    if m % 3 != 0 && (m < 9 || n >= 1) {
      var acts, t := Treat(m, n, m / 3);
      var all, s := TreatedToTheEnd(m, n, acts, t);
      assert Ends(m, n, all, s) && LastGroupTooSmall(s) && CountSpurious(all) == 0;
    }
  }

  /** The drugs can run out after exactly k groups if and only if another group is there to wait for them and k is
      two, or at least four and there is a pharmacist.  They cannot run out after three groups, because the first
      delivery always fills an empty stock. */
  lemma WhenDrugsRunOutAfter(m: nat, n: nat, k: nat)
    ensures (exists acts, s :: Ends(m, n, acts, s) && OutOfDrugs(s) && s.treated == 3 * k)
      <==> 3 * k + 3 <= m && (k == 2 || (k >= 4 && n >= 1))
    ensures 3 * k + 3 <= m && (k == 2 || (k >= 4 && n >= 1)) ==>
      exists acts, s :: Ends(m, n, acts, s) && OutOfDrugs(s) && s.treated == 3 * k && CountSpurious(acts) == 0
  {
    forall acts, s | Ends(m, n, acts, s) && OutOfDrugs(s) && s.treated == 3 * k
      ensures 3 * k + 3 <= m && (k == 2 || (k >= 4 && n >= 1))
    {
      ArrivalOrder(m, n, acts, s);
      AlwaysDeliveries(m, n, acts, s);
    }
    if 3 * k + 3 <= m && (k == 2 || (k >= 4 && n >= 1)) {
      var acts, s := Starve(m, n, k);
      assert Ends(m, n, acts, s) && OutOfDrugs(s) && s.treated == 3 * k && CountSpurious(acts) == 0;
    }
  }

  /** The drugs can run out at all exactly if there are nine patients or more, however many pharmacists there are:
      all of them may come at a moment when the stock is half full, and leave. */
  lemma WhenDrugsCanRunOut(m: nat, n: nat)
    ensures (exists acts, s :: Ends(m, n, acts, s) && OutOfDrugs(s)) <==> m >= 9
    ensures m >= 9 ==> exists acts, s :: Ends(m, n, acts, s) && OutOfDrugs(s) && CountSpurious(acts) == 0
  {
    forall acts, s | Ends(m, n, acts, s) && OutOfDrugs(s) ensures m >= 9 {
      ArrivalOrder(m, n, acts, s);
      Always(m, n, acts, s);
    }
    if m >= 9 {
      var acts, s := Starve(m, n, 2);
      assert Ends(m, n, acts, s) && OutOfDrugs(s) && CountSpurious(acts) == 0;
    }
  }
}
