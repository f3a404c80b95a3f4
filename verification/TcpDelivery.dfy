/** Who gets a private message of the TCP server: the search for the receiver runs without the mutex, in any
    handler, so the slot found may have been given away before the message is sent. */
module TcpDelivery {
  import opened TcpRegistryProtocol
  import opened TcpRegistryCorrect
  import opened TcpRuns

  /** What a handler about to send knows: the client it found had that slot, and has the name if it is still there. */
  ghost predicate Found(pc: HandlerPc, slots: seq<Slot>, handlers: seq<Handler>)
  {
    pc.Delivering? ==>
      && pc.slot < |slots| && 1 <= pc.who <= |handlers| && handlers[pc.who - 1].slot == pc.slot
      && (Holds(slots, pc.slot, pc.who) ==> slots[pc.slot].name == pc.target)
  }

  ghost predicate AllFound(s: State)
  {
    forall h :: 0 <= h < |s.handlers| ==> Found(s.handlers[h].pc, s.slots, s.handlers)
  }

  /** Handlers and slots of clients stay what they are: a slot's name changes only with its client. */
  ghost predicate Steady(s: State, t: State)
  {
    && |t.slots| == |s.slots| && |s.handlers| <= |t.handlers|
    && (forall h :: 0 <= h < |s.handlers| ==> t.handlers[h].slot == s.handlers[h].slot)
    && (forall i: nat, c: nat :: c <= |s.handlers| && Holds(t.slots, i, c) ==> Holds(s.slots, i, c) && t.slots[i].name == s.slots[i].name)
  }

  /** Everybody but handler `mover` stays where it is, and a new handler starts at the head of its loop. */
  ghost predicate OnlyMoves(s: State, t: State, mover: int)
  {
    && |s.handlers| <= |t.handlers|
    && (forall g :: 0 <= g < |s.handlers| && g != mover ==> t.handlers[g] == s.handlers[g])
    && (forall g :: |s.handlers| <= g < |t.handlers| ==> t.handlers[g].pc == Serving)
  }

  lemma AcceptIsSteady(s: State)
    requires Shape(s) && Enabled(s, AcceptRuns)
    ensures Steady(s, AcceptStep(s)) && OnlyMoves(s, AcceptStep(s), -1)
  {
    FindFreeMeaning(s.slots, 0);
  }

  lemma HandlerIsSteady(s: State, h: nat, input: Input)
    requires Shape(s) && Enabled(s, HandlerRuns(h, input))
    ensures Steady(s, HandlerStep(s, h, input)) && OnlyMoves(s, HandlerStep(s, h, input), h)
  {
  }

  lemma SweepIsSteady(s: State)
    requires Shape(s)
    ensures Steady(s, SweepStep(s)) && OnlyMoves(s, SweepStep(s), -1)
  {
  }

  lemma StillFound(pc: HandlerPc, s: State, t: State)
    requires Found(pc, s.slots, s.handlers) && Steady(s, t)
    ensures Found(pc, t.slots, t.handlers)
  {
  }

  lemma HandlerFinds(s: State, h: nat, input: Input)
    requires Inv(s) && AllFound(s) && Enabled(s, HandlerRuns(h, input))
    ensures Found(HandlerStep(s, h, input).handlers[h].pc, s.slots, s.handlers)
  {
  }

  lemma OthersStillFound(s: State, t: State, mover: int)
    requires AllFound(s) && Steady(s, t) && OnlyMoves(s, t, mover)
    requires 0 <= mover < |s.handlers| ==> Found(t.handlers[mover].pc, s.slots, s.handlers)
    ensures AllFound(t)
  {
    forall g | 0 <= g < |t.handlers| ensures Found(t.handlers[g].pc, t.slots, t.handlers) {
      if g < |s.handlers| {
        StillFound(t.handlers[g].pc, s, t);
      }
    }
  }

  lemma StepKeepsFound(s: State, a: Action)
    requires Inv(s) && AllFound(s) && Enabled(s, a)
    ensures AllFound(Next(s, a))
  {
    match a
    case AcceptRuns =>
      AcceptIsSteady(s);
      OthersStillFound(s, AcceptStep(s), -1);
    case HandlerRuns(h, input) =>
      HandlerIsSteady(s, h, input);
      HandlerFinds(s, h, input);
      OthersStillFound(s, HandlerStep(s, h, input), h);
    case SweepRuns =>
      SweepIsSteady(s);
      OthersStillFound(s, SweepStep(s), -1);
    case _ => OthersStillFound(s, Next(s, a), -1);
  }

  lemma {:induction false} RunKeepsFound(s: State, acts: seq<Action>, t: State)
    requires Inv(s) && AllFound(s) && Run(s, acts, t)
    ensures Inv(t) && AllFound(t)
    decreases |acts|
  {
    if acts != [] {
      StepKeepsInv(s, acts[0]);
      StepKeepsFound(s, acts[0]);
      RunKeepsFound(Next(s, acts[0]), acts[1..], t);
    }
  }

  /** The client has left, or somebody else has freed its slot. */
  ghost predicate Departed(s: State, client: nat)
    requires 1 <= client <= |s.handlers|
  {
    s.handlers[client - 1].pc == Gone || client in Ousted(s)
  }

  /** A private message reaches the client the search found exactly if that has not departed by the time the mutex
      is taken; a stranger exactly if it has and its slot has been given away; otherwise nobody. */
  lemma PrivateMessage(size: nat, clock: int, acts: seq<Action>, s: State, h: nat, input: Input)
    requires Run(Init(size, clock), acts, s) && Enabled(s, HandlerRuns(h, input)) && s.handlers[h].pc.Delivering?
    ensures Shape(s) && 1 <= s.handlers[h].pc.who <= |s.handlers|
    ensures var pc := s.handlers[h].pc;
      var sent := HandlerStep(s, h, input).deliveries;
      && (sent == s.deliveries + [Delivery(pc.target, pc.who, s.slots[pc.slot])] || sent == s.deliveries)
      && (sent == s.deliveries <==> !s.slots[pc.slot].active)
      && (sent != s.deliveries && s.slots[pc.slot].client == pc.who <==> !Departed(s, pc.who))
      && (sent != s.deliveries && s.slots[pc.slot].client != pc.who <==> Departed(s, pc.who) && s.slots[pc.slot].active)
      && (!Departed(s, pc.who) ==> s.slots[pc.slot].name == pc.target)
  {
    InitInv(size, clock);
    RunKeepsFound(Init(size, clock), acts, s);
    var pc := s.handlers[h].pc;
    assert Found(pc, s.slots, s.handlers);
    var owner := s.handlers[pc.who - 1];
    assert owner.client == pc.who && owner.slot == pc.slot;
    assert Holds(s.slots, pc.slot, pc.who) <==> !Departed(s, pc.who);
    assert |s.deliveries + [Delivery(pc.target, pc.who, s.slots[pc.slot])]| > |s.deliveries|;
  }

  /** Client "a" writes to "a"; it is evicted and "b" gets its slot before the message is sent; the message goes
      to "b". */
  lemma MessageGoesAstray(size: nat, clock: int) returns (acts: seq<Action>, s: State)
    requires size >= 1
    ensures Run(Init(size, clock), acts, s)
    ensures s.deliveries == [Delivery("a", 1, Slot(true, "b", clock + 61, 2))]
  {
    var init, a := Init(size, clock), HandlerRuns(0, Message);
    var one, two, three, more;
    acts, one := Opening(size, clock);
    more, two := SearchesItself(one);
    RunConcat(init, acts, one, more, two);
    acts := acts + more;
    more, three := SlotIsReused(two);
    RunConcat(init, acts, two, more, three);
    acts := acts + more;
    RunExtends(init, acts, three, a);
    acts := acts + [a];
    s := Next(three, a);
  }

  lemma SearchesItself(s: State) returns (acts: seq<Action>, t: State)
    requires Shape(s) && |s.slots| > 0 && s.slots[0] == Slot(true, "a", s.clock, 1) && s.handlers == [Handler(0, 1, Serving)]
    ensures Run(s, acts, t)
    ensures t == s.(handlers := [Handler(0, 1, Delivering("a", 0, 1))])
  {
    var a := HandlerRuns(0, Message);
    var u, v;
    acts, u := Receives(s, ToOne("a"));
    v := Next(u, a);
    assert v.handlers == [Handler(0, 1, FindingTarget("a", 0))] && v.slots == s.slots;
    t := Next(v, a);
    assert t.handlers == [Handler(0, 1, Delivering("a", 0, 1))];
    Two(u, a, a);
    RunConcat(s, acts, u, [a, a], t);
    acts := acts + [a, a];
  }

  ghost predicate Astray(size: nat, clock: int, acts: seq<Action>, s: State)
  {
    Run(Init(size, clock), acts, s) && exists d :: d in s.deliveries && d.receiver.client != d.who
  }

  /** A private message can go to a stranger in every server that has a slot at all. */
  lemma WhenMessagesCanGoAstray(size: nat, clock: int)
    ensures (exists acts, s :: Astray(size, clock, acts, s)) <==> size >= 1
  {
    forall acts, s | Astray(size, clock, acts, s) ensures size >= 1 {
      if size == 0 {
        NoSlotsNoClients(Init(size, clock), acts, s);
      }
    }
    if size >= 1 {
      var acts, s := MessageGoesAstray(size, clock);
      assert s.deliveries[0] in s.deliveries;
      assert Astray(size, clock, acts, s);
    }
  }
}
