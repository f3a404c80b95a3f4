/** What "sent" means: the sender of a private message is told that it was sent whether or not anybody got it. */
module UdpDelivery {
  import opened UdpRegistryProtocol
  import opened UdpRegistryCorrect
  import opened UdpRuns

  ghost predicate WasEvicted(log: seq<Event>, client: nat)
  {
    exists e :: e in log && e.Evicted? && e.client.client == client
  }

  ghost predicate WasRemoved(log: seq<Event>, client: nat)
  {
    exists e :: e in log && e.Removed? && e.client.client == client
  }

  /** The log tells who has gone: a slot is active as long as its client was neither evicted nor removed. */
  ghost predicate Departures(slots: seq<Slot>, log: seq<Event>, registrations: nat)
  {
    && (forall i :: 0 <= i < |slots| && slots[i].client > 0 ==>
      (slots[i].active <==> !WasEvicted(log, slots[i].client) && !WasRemoved(log, slots[i].client)))
    && (forall c: nat :: c >= registrations ==> !WasEvicted(log, c) && !WasRemoved(log, c))
  }

  /** Between search and send nobody but a sweep can take the receiver away. */
  ghost predicate NotRemoved(message: MessagePc, log: seq<Event>)
  {
    message.Delivering? ==> message.who > 0 && !WasRemoved(log, message.who)
  }

  /** A private message is followed at once by the reply to its sender. */
  ghost predicate Confirmed(log: seq<Event>)
  {
    forall k :: 0 <= k < |log| && log[k].Private? ==> k + 1 < |log| && log[k + 1].Replied? && log[k + 1].reply == Sent
  }

  ghost predicate Told(s: State)
  {
    Departures(s.slots, s.log, s.registrations) && NotRemoved(s.message, s.log) && Confirmed(s.log)
  }

  lemma Append(log: seq<Event>, e: Event, c: nat)
    ensures WasEvicted(log + [e], c) <==> WasEvicted(log, c) || (e.Evicted? && e.client.client == c)
    ensures WasRemoved(log + [e], c) <==> WasRemoved(log, c) || (e.Removed? && e.client.client == c)
  {
    assert forall x :: x in log + [e] <==> x in log || x == e;
  }

  /** Events that concern no departure. */
  lemma AppendOther(log: seq<Event>, e: Event)
    requires !e.Evicted? && !e.Removed?
    ensures forall c :: WasEvicted(log + [e], c) <==> WasEvicted(log, c)
    ensures forall c :: WasRemoved(log + [e], c) <==> WasRemoved(log, c)
    ensures Confirmed(log) && !e.Private? ==> Confirmed(log + [e])
  {
    forall c: nat ensures (WasEvicted(log + [e], c) <==> WasEvicted(log, c)) && (WasRemoved(log + [e], c) <==> WasRemoved(log, c)) {
      Append(log, e, c);
    }
  }

  lemma AnswerKeepsTold(s: State, reply: Reply)
    requires Told(s)
    ensures Told(Answer(s, reply))
  {
    AppendOther(s.log, Replied(s.from, reply));
  }

  lemma RegisterKeepsTold(s: State)
    requires Inv(s) && Told(s) && s.message.Registering?
    ensures Told(MessageStep(s))
  {
    RegisterMeaning(s.slots, s.request.name);
    AppendOther(s.log, Replied(s.from, NameTaken));
    AppendOther(s.log, Replied(s.from, Full));
    AppendOther(s.log, Replied(s.from, Registered));
  }

  lemma DispatchKeepsTold(s: State, c: nat, who: nat)
    requires Told(s)
    ensures Told(Dispatch(s, c, who))
  {
    AnswerKeepsTold(s, Bye);
    AnswerKeepsTold(s, Pong);
  }

  lemma StoreKeepsTold(s: State)
    requires Inv(s) && Told(s) && s.message.Storing?
    ensures Told(MessageStep(s))
  {
    var t := StorePing(s, s.message.slot, s.message.time);
    assert Departures(t.slots, t.log, t.registrations);
    DispatchKeepsTold(t, s.message.slot, s.message.who);
  }

  lemma DeliveryKeepsConfirmed(log: seq<Event>, p: Event, from: Address)
    requires Confirmed(log) && p.Private?
    ensures Confirmed(log + [p] + [Replied(from, Sent)])
  {
  }

  lemma DeliverKeepsTold(s: State)
    requires Inv(s) && Told(s) && s.message.Delivering?
    ensures Told(MessageStep(s))
  {
    var receiver := s.slots[s.message.slot];
    if receiver.active {
      var p := Private(s.request.target, s.message.who, receiver);
      AppendOther(s.log, p);
      AppendOther(s.log + [p], Replied(s.from, Sent));
      DeliveryKeepsConfirmed(s.log, p, s.from);
    } else {
      AnswerKeepsTold(s, Sent);
    }
  }

  lemma DepartureKeepsTold(slots: seq<Slot>, log: seq<Event>, registrations: nat, i: nat, slot: Slot, e: Event)
    requires Identities(slots, registrations) && Departures(slots, log, registrations) && Confirmed(log)
    requires i < |slots| && slots[i].active && !slot.active && slot.client == slots[i].client
    requires (e.Evicted? || e.Removed?) && e.client.client == slot.client
    ensures Departures(slots[i := slot], log + [e], registrations) && Confirmed(log + [e])
  {
    forall c: nat ensures
      && (WasEvicted(log + [e], c) <==> WasEvicted(log, c) || (e.Evicted? && e.client.client == c))
      && (WasRemoved(log + [e], c) <==> WasRemoved(log, c) || (e.Removed? && e.client.client == c))
    {
      Append(log, e, c);
    }
    assert Confirmed(log + [e]);
  }

  lemma QuitKeepsTold(s: State)
    requires Inv(s) && Told(s) && s.message.Quitting?
    ensures Told(MessageStep(s))
  {
    var c := s.message.slot;
    if s.slots[c].active {
      DepartureKeepsTold(s.slots, s.log, s.registrations, c, MessageStep(s).slots[c], Removed(s.from, s.slots[c]));
    }
  }

  lemma FindTargetKeepsTold(s: State)
    requires Inv(s) && Told(s) && s.message.FindingTarget?
    ensures Told(MessageStep(s))
  {
    AnswerKeepsTold(s, NotFound);
  }

  lemma MessageKeepsTold(s: State)
    requires Inv(s) && Told(s) && Enabled(s, MessageRuns)
    ensures Told(MessageStep(s))
  {
    match s.message
    case Registering => RegisterKeepsTold(s);
    case Storing(_, _, _) => StoreKeepsTold(s);
    case Delivering(_, _) => DeliverKeepsTold(s);
    case Quitting(_, _) => QuitKeepsTold(s);
    case FindingTarget(_) => FindTargetKeepsTold(s);
    case FindingSender(_) => AnswerKeepsTold(s, NotRegistered);
    case Refreshing(_, _) =>
    case Listing => AnswerKeepsTold(s, Names(NamesOf(ActiveSlots(s.slots, -1, 0))));
    case Broadcasting(c) => AppendOther(s.log, Public(c, ActiveSlots(s.slots, c, 0)));
  }

  lemma SweepKeepsTold(s: State)
    requires Inv(s) && Told(s) && Enabled(s, SweepRuns)
    ensures Told(SweepStep(s))
  {
    match s.sweep
    case Sweeping(i, now) =>
      if i < |s.slots| {
        AppendOther(s.log, Alive(now, s.slots[i]));
      }
    case Evicting(i, now) =>
      var e := Evicted(now, s.before[i]);
      DepartureKeepsTold(s.slots, s.log, s.registrations, i, SweepStep(s).slots[i], e);
      if s.message.Delivering? {
        Append(s.log, e, s.message.who);
      }
    case _ =>
  }

  lemma StepKeepsTold(s: State, a: Action)
    requires Inv(s) && Told(s) && Enabled(s, a)
    ensures Told(Next(s, a))
  {
    match a
    case MessageRuns => MessageKeepsTold(s);
    case SweepRuns => SweepKeepsTold(s);
    case _ =>
  }

  lemma {:induction false} RunKeepsTold(s: State, acts: seq<Action>, t: State)
    requires Inv(s) && Told(s) && Run(s, acts, t)
    ensures Told(t)
    decreases |acts|
  {
    if acts != [] {
      StepKeepsInv(s, acts[0]);
      StepKeepsTold(s, acts[0]);
      RunKeepsTold(Next(s, acts[0]), acts[1..], t);
    }
  }

  lemma AlwaysTold(size: nat, clock: nat, acts: seq<Action>, s: State)
    requires Run(Init(size, clock), acts, s)
    ensures Inv(s) && Told(s)
  {
    Always(size, clock, acts, s);
    InitInv(size, clock);
    RunKeepsTold(Init(size, clock), acts, s);
  }

  /** Who tells a sender that its message was sent. */
  lemma WhoSaysSent(s: State, a: Action, i: nat)
    requires Inv(s) && Enabled(s, a) && |s.log| <= i < |Next(s, a).log|
    requires Next(s, a).log[i].Replied? && Next(s, a).log[i].reply == Sent
    ensures a == MessageRuns && s.message.Delivering? && i == |Next(s, a).log| - 1
  {
  }

  lemma SentStep(s: State)
    requires Inv(s) && Told(s) && s.message.Delivering?
    ensures var receiver := s.slots[s.message.slot];
      var log := MessageStep(s).log;
      && |log| > 0 && log[|log| - 1] == Replied(s.from, Sent)
      && (if receiver.active then |log| > 1 && log[|log| - 2] == Private(s.request.target, s.message.who, receiver)
          else |log| > 1 ==> !log[|log| - 2].Private?)
      && (receiver.active <==> !WasEvicted(s.log, s.message.who))
      && receiver.client == s.message.who
  {
  }

  /** Every reply that a message was sent, anywhere in the log of any run, goes back to a moment `u` of that run,
      after `j` steps, at which the message thread had the mutex and delivered.  The private message stands right
      before the reply exactly if the receiver's slot was still active at that moment, and that is exactly if no
      sweep had evicted the client that the search had found; then it is that client who got it. */
  lemma {:induction false} SentMeansReceived(size: nat, clock: nat, acts: seq<Action>, s: State, i: nat) returns (j: nat, u: State)
    requires Run(Init(size, clock), acts, s)
    requires i < |s.log| && s.log[i].Replied? && s.log[i].reply == Sent
    ensures j < |acts| && acts[j] == MessageRuns && Run(Init(size, clock), acts[..j], u)
    ensures Shape(u) && Enabled(u, MessageRuns) && u.message.Delivering? && u.message.slot < |u.slots| && u.request.ToOne?
    ensures s.log[i].addr == u.from && u.slots[u.message.slot].client == u.message.who
    ensures i > 0 && s.log[i - 1].Private? <==> u.slots[u.message.slot].active
    ensures u.slots[u.message.slot].active <==> !WasEvicted(u.log, u.message.who)
    ensures u.slots[u.message.slot].active ==>
      i > 0 && s.log[i - 1] == Private(u.request.target, u.message.who, u.slots[u.message.slot])
    decreases |acts|
  {
    var init, last := Init(size, clock), |acts| - 1;
    u := RunEnds(init, acts, s);
    AlwaysTold(size, clock, acts[..last], u);
    LogGrows(u, acts[last]);
    if i < |u.log| {
      var v;
      assert s.log[..|u.log|] == u.log;
      j, v := SentMeansReceived(size, clock, acts[..last], u, i);
      assert acts[..last][..j] == acts[..j];
      u := v;
    } else {
      j := last;
      WhoSaysSent(u, acts[last], i);
      SentStep(u);
    }
  }

  // ----- a message that nobody gets -----

  /** The sweep walks over free slots to its end. */
  lemma {:induction false} WalkFree(s: State) returns (acts: seq<Action>)
    requires Shape(s) && s.sweep.Sweeping? && forall i :: s.sweep.at <= i < |s.slots| ==> !s.slots[i].active
    ensures Run(s, acts, s.(sweep := Asleep, locked := false))
    decreases |s.slots| - s.sweep.at
  {
    One(s, SweepRuns);
    if s.sweep.at == |s.slots| {
      return [SweepRuns];
    }
    var u := Next(s, SweepRuns);
    var rest := WalkFree(u);
    RunConcat(s, [SweepRuns], u, rest, s.(sweep := Asleep, locked := false));
    acts := [SweepRuns] + rest;
  }

  ghost predicate OnlyFirst(slots: seq<Slot>)
  {
    |slots| > 0 && slots[0].active && forall i :: 1 <= i < |slots| ==> !slots[i].active
  }

  /** The only client is evicted 61 seconds after its last message. */
  lemma EvictsOnlyClient(s: State) returns (acts: seq<Action>, t: State)
    requires Shape(s) && OnlyFirst(s.slots) && s.slots[0].lastPing == s.clock && s.sweep == Asleep && !s.locked
    ensures Run(s, acts, t)
    ensures t == s.(slots := s.slots[0 := s.slots[0].(active := false)], clientCount := s.clientCount - 1, clock := s.clock + 61,
                    before := s.slots, log := s.log + [Evicted(s.clock + 61, s.slots[0])])
  {
    var s1 := Next(s, Tick(61));
    var s2 := Next(s1, SweepRuns);
    var s3 := Next(s2, SweepRuns);
    var s4 := Next(s3, SweepRuns);
    var s5 := Next(s4, SweepRuns);
    One(s, Tick(61));
    acts := [Tick(61)];
    RunExtends(s, acts, s1, SweepRuns);
    acts := acts + [SweepRuns];
    RunExtends(s, acts, s2, SweepRuns);
    acts := acts + [SweepRuns];
    RunExtends(s, acts, s3, SweepRuns);
    acts := acts + [SweepRuns];
    RunExtends(s, acts, s4, SweepRuns);
    acts := acts + [SweepRuns];
    var rest := WalkFree(s5);
    t := s5.(sweep := Asleep, locked := false);
    RunConcat(s, acts, s5, rest, t);
    acts := acts + rest;
  }

  /** The client in the first slot writes to itself. */
  lemma WritesToItself(s: State, name: string, addr: Address) returns (acts: seq<Action>, t: State)
    requires Shape(s) && |s.slots| > 0 && s.message == Receiving
    requires s.slots[0] == Slot(true, name, addr, s.clock, 1)
    ensures Run(s, acts, t)
    ensures t == s.(message := Delivering(0, 1), request := ToOne(name), from := addr)
  {
    var ask := Receive(ToOne(name), addr);
    var s1 := Next(s, ask);
    var s2 := Next(s1, MessageRuns);
    var s3 := Next(s2, MessageRuns);
    var s4 := Next(s3, MessageRuns);
    t := Next(s4, MessageRuns);
    assert s4.slots == s.slots;
    One(s, ask);
    acts := [ask];
    RunExtends(s, acts, s1, MessageRuns);
    acts := acts + [MessageRuns];
    RunExtends(s, acts, s2, MessageRuns);
    acts := acts + [MessageRuns];
    RunExtends(s, acts, s3, MessageRuns);
    acts := acts + [MessageRuns];
    RunExtends(s, acts, s4, MessageRuns);
    acts := acts + [MessageRuns];
  }

  /** A client is evicted between search and send, and the sender is told that the message was sent. */
  lemma NobodyReceives(size: nat, clock: nat) returns (acts: seq<Action>, s: State)
    requires size >= 1
    ensures Run(Init(size, clock), acts, s)
    ensures s.log == [Replied(7, Registered), Evicted(clock + 61, Slot(true, "a", 7, clock, 1)), Replied(7, Sent)]
  {
    var init := Init(size, clock);
    RegisterMeaning(init.slots, "a");
    var one, two, three, more;
    acts, one := Registers(init, "a", 7);
    assert one.slots == init.slots[0 := Slot(true, "a", 7, clock, 1)];
    more, two := WritesToItself(one, "a", 7);
    RunConcat(init, acts, one, more, two);
    acts := acts + more;
    more, three := EvictsOnlyClient(two);
    RunConcat(init, acts, two, more, three);
    acts := acts + more;
    RunExtends(init, acts, three, MessageRuns);
    acts := acts + [MessageRuns];
    s := Next(three, MessageRuns);
  }

  /** The i-th event is a reply "sent" and no private message stands before it. */
  ghost predicate SentToNobody(log: seq<Event>, i: nat)
  {
    i < |log| && log[i].Replied? && log[i].reply == Sent && !(i > 0 && log[i - 1].Private?)
  }

  ghost predicate Unreceived(size: nat, clock: nat, acts: seq<Action>, s: State)
  {
    Run(Init(size, clock), acts, s) && exists i: nat :: SentToNobody(s.log, i)
  }

  /** A sender can be told "sent" although nobody got the message, in every server that has a slot at all. */
  lemma WhenSentCanMeanNobody(size: nat, clock: nat)
    ensures (exists acts, s :: Unreceived(size, clock, acts, s)) <==> size >= 1
  {
    forall acts, s | Unreceived(size, clock, acts, s) ensures size >= 1 {
      var i: nat :| SentToNobody(s.log, i);
      var j, u := SentMeansReceived(size, clock, acts, s, i);
      Always(size, clock, acts[..j], u);
    }
    if size >= 1 {
      var acts, s := NobodyReceives(size, clock);
      assert SentToNobody(s.log, 2);
      assert Unreceived(size, clock, acts, s);
    }
  }
}
