/** What QUIT comes to: whoever is told goodbye is gone by the time the next request is received. */
module UdpQuit {
  import opened UdpRegistryProtocol
  import opened UdpRegistryCorrect
  import opened UdpRuns

  ghost predicate Absent(slots: seq<Slot>, who: nat)
  {
    forall i :: 0 <= i < |slots| && slots[i].active ==> slots[i].client != who
  }

  /** The client in slot c is about to be removed, or gone for good. */
  ghost predicate Parting(s: State, c: nat, who: nat)
  {
    0 < who < s.registrations && (s.message == Quitting(c, who) || Absent(s.slots, who))
  }

  lemma RemovalEndsParting(s: State, c: nat, who: nat)
    requires Inv(s) && s.message == Quitting(c, who)
    ensures Absent(MessageStep(s).slots, who)
  {
    assert forall i :: 0 <= i < |s.slots| && i != c ==> s.slots[i].client != who;
  }

  lemma StepKeepsParting(s: State, a: Action, c: nat, who: nat)
    requires Inv(s) && Parting(s, c, who) && Enabled(s, a)
    ensures Parting(Next(s, a), c, who)
  {
    if a.MessageRuns? {
      if s.message.Registering? {
        RegisterMeaning(s.slots, s.request.name);
      } else if s.message == Quitting(c, who) {
        RemovalEndsParting(s, c, who);
      }
    }
  }

  /** Only a client found for its sender is told goodbye. */
  lemma WhoSaysBye(s: State, a: Action, i: nat)
    requires Inv(s) && Enabled(s, a) && |s.log| <= i < |Next(s, a).log|
    requires Next(s, a).log[i].Replied? && Next(s, a).log[i].reply == Bye
    ensures a == MessageRuns && s.message.Storing? && s.request == Quit && Next(s, a).log[i].addr == s.from
    ensures Parting(Next(s, a), s.message.slot, s.message.who)
  {
  }

  /** Every goodbye, anywhere in the log of any run, goes back to a QUIT from that address at which slot c held a
      client of that address; and unless that client is just being removed it is gone, for good: no active slot
      is that client's. */
  lemma {:induction false} ByeMeansGone(size: nat, clock: nat, acts: seq<Action>, s: State, i: nat) returns (j: nat, u: State)
    requires Run(Init(size, clock), acts, s)
    requires i < |s.log| && s.log[i].Replied? && s.log[i].reply == Bye
    ensures j < |acts| && acts[j] == MessageRuns && Run(Init(size, clock), acts[..j], u)
    ensures u.message.Storing? && u.request == Quit && u.from == s.log[i].addr && u.message.slot < |u.slots|
    ensures u.slots[u.message.slot].client == u.message.who && u.slots[u.message.slot].addr == s.log[i].addr
    ensures Parting(s, u.message.slot, u.message.who)
    decreases |acts|
  {
    var last := |acts| - 1;
    var v := RunEnds(Init(size, clock), acts, s);
    Always(size, clock, acts[..last], v);
    if i < |v.log| {
      LogGrows(v, acts[last]);
      assert s.log[..|v.log|] == v.log;
      j, u := ByeMeansGone(size, clock, acts[..last], v, i);
      assert acts[..last][..j] == acts[..j];
      StepKeepsParting(v, acts[last], u.message.slot, u.message.who);
    } else {
      j, u := last, v;
      WhoSaysBye(v, acts[last], i);
    }
  }

  /** The client in the first slot quits. */
  lemma QuitsAtOnce(s: State, name: string, addr: Address) returns (acts: seq<Action>, t: State)
    requires Shape(s) && |s.slots| > 0 && s.message == Receiving && !s.locked
    requires s.slots[0] == Slot(true, name, addr, s.clock, 1)
    ensures Run(s, acts, t)
    ensures t.log == s.log + [Replied(addr, Bye), Removed(addr, s.slots[0])]
    ensures t.message == Receiving && t.clientCount == s.clientCount - 1
    ensures t.slots == s.slots[0 := s.slots[0].(active := false, name := "")]
  {
    var ask := Receive(Quit, addr);
    var s1 := Next(s, ask);
    var s2 := Next(s1, MessageRuns);
    var s3 := Next(s2, MessageRuns);
    var s4 := Next(s3, MessageRuns);
    t := Next(s4, MessageRuns);
    assert s4.slots == s.slots;
    One(s, ask);
    acts := [ask];
    RunExtends(s, acts, s1, MessageRuns);
    acts := acts + [MessageRuns];
    RunExtends(s, acts, s2, MessageRuns);
    acts := acts + [MessageRuns];
    RunExtends(s, acts, s3, MessageRuns);
    acts := acts + [MessageRuns];
    RunExtends(s, acts, s4, MessageRuns);
    acts := acts + [MessageRuns];
  }

  /** For any table of at least one slot, a client comes and goes. */
  lemma ComesAndGoes(size: nat, clock: nat) returns (acts: seq<Action>, s: State)
    requires size >= 1
    ensures Run(Init(size, clock), acts, s)
    ensures s.log == [Replied(7, Registered), Replied(7, Bye), Removed(7, Slot(true, "a", 7, clock, 1))]
    ensures s.clientCount == 0 && |s.slots| == size && !s.slots[0].active
  {
    var init := Init(size, clock);
    RegisterMeaning(init.slots, "a");
    var one, more;
    acts, one := Registers(init, "a", 7);
    more, s := QuitsAtOnce(one, "a", 7);
    RunConcat(init, acts, one, more, s);
    acts := acts + more;
  }
}
