/** Whom the broadcast that ends a consultation calls. */
module HospitalBroadcast {
  import opened HospitalProtocol
  import opened HospitalInvariant
  import opened HospitalOutcome
  import opened HospitalPatients

  lemma {:induction false} NobodyRoused(acts: seq<Action>)
    requires CountSpurious(acts) == 0
    ensures Roused(acts) == {}
  {
    if acts != [] {
      NobodyRoused(acts[1..]);
    }
  }

  lemma InTheRoom(s: State, x: int)
    requires Room(s) && x in s.ids[..s.waitingPatients]
    ensures x in s.arrivals && 1 <= x <= |s.patients| && x !in s.consulted
  {
    var i :| 0 <= i < s.waitingPatients && s.ids[i] == x;
    assert s.arrivals[|s.consulted| + i] == s.ids[..s.waitingPatients][i] == x;
    assert forall j :: 0 <= j < |s.consulted| ==> s.consulted[j] == s.arrivals[j];
  }

  /** The broadcast that ends a consultation calls only patients that have been consulted, exactly if nobody is
      in the waiting room but patients woken spuriously; without spurious wake-ups, exactly if it is empty. */
  lemma CallsOnlyTheConsulted(m: nat, n: nat, acts: seq<Action>, s: State)
    requires Run(Init(m, n), acts, s) && s.doctor == Consulting
    ensures Shape(s) && |s.patients| == m == |EndConsultation(s).patients|
    ensures forall p :: 0 <= p < m ==> EndConsultation(s).patients[p] == CallIn(s.patients[p])
    ensures (forall p :: 0 <= p < m && s.patients[p] == Waiting ==> p + 1 in s.consulted)
      <==> (forall x :: x in s.ids[..s.waitingPatients] ==> x - 1 in Roused(acts))
    ensures CountSpurious(acts) == 0 ==>
      ((forall p :: 0 <= p < m && s.patients[p] == Waiting ==> p + 1 in s.consulted) <==> s.waitingPatients == 0)
  {
    AlwaysSeated(m, n, acts, s);
    forall x | x in s.ids[..s.waitingPatients]
      ensures 1 <= x <= m && x !in s.consulted && (s.patients[x - 1] == Waiting <==> x - 1 !in Roused(acts))
    {
      InTheRoom(s, x);
      assert x - 1 + 1 in s.ids[..s.waitingPatients];
    }
    forall p | 0 <= p < m && s.patients[p] == Waiting ensures p + 1 in s.consulted || p + 1 in s.ids[..s.waitingPatients] {
      assert p + 1 in s.arrivals;
    }
    if CountSpurious(acts) == 0 {
      NobodyRoused(acts);
      assert s.waitingPatients > 0 ==> s.ids[0] in s.ids[..s.waitingPatients];
    }
  }
}
