/** What the UDP server guarantees although its searches and its refreshes run without the mutex: only the
    message thread ever fills a slot, so between a search and the use of what it found a slot can at most have
    become free. */
module UdpRegistryCorrect {
  import opened Sums
  import opened UdpRegistryProtocol

  function IsActive(slot: Slot): int { if slot.active then 1 else 0 }

  // ----- the invariant -----

  /** Registration numbers identify clients. */
  ghost predicate Identities(slots: seq<Slot>, registrations: nat)
  {
    && registrations > 0
    && (forall i :: 0 <= i < |slots| ==> slots[i].client < registrations && (slots[i].active ==> slots[i].client > 0))
    && (forall i, j :: 0 <= i < j < |slots| && slots[i].client == slots[j].client ==> slots[i].client == 0)
  }

  ghost predicate NotAfter(slots: seq<Slot>, time: int)
  {
    forall i :: 0 <= i < |slots| ==> slots[i].lastPing <= time
  }

  /** What the message thread found is still what it found, except that it may be gone; and the time it is
      about to store is not before any time in the table. */
  ghost predicate Found(message: MessagePc, slots: seq<Slot>, request: Request, from: Address, clock: int)
  {
    match message
    case Refreshing(c, who) => who > 0 && c < |slots| && slots[c].client == who && slots[c].addr == from
    case Storing(c, who, time) => who > 0 && c < |slots| && slots[c].client == who && slots[c].addr == from && time <= clock && NotAfter(slots, time)
    case Quitting(c, who) => who > 0 && c < |slots| && slots[c].client == who && slots[c].addr == from
    case Delivering(t, who) => who > 0 && t < |slots| && request.ToOne? && slots[t].client == who && slots[t].name == request.target
    case _ => true
  }

  ghost predicate Stale(now: int, slot: Slot)
  {
    slot.active && now - slot.lastPing > TIMEOUT_SECONDS
  }

  /** A slot before and during a sweep: the same client, refreshed only forward in time, and freed only if the
      sweep has been there and found it stale from the beginning; where the sweep has been, nothing is stale. */
  ghost predicate Swept(now: int, earlier: Slot, slot: Slot, visited: bool)
  {
    && slot.client == earlier.client && slot.name == earlier.name && slot.addr == earlier.addr
    && earlier.lastPing <= slot.lastPing
    && (slot.active ==> earlier.active)
    && (earlier.active && !slot.active ==> visited && Stale(now, earlier))
    && (visited ==> !Stale(now, slot))
  }

  ghost predicate SweptTo(i: nat, now: int, before: seq<Slot>, slots: seq<Slot>)
  {
    |before| == |slots| && forall j :: 0 <= j < |slots| ==> Swept(now, before[j], slots[j], j < i)
  }

  ghost predicate Sweep(sweep: SweepPc, before: seq<Slot>, slots: seq<Slot>, clock: int, locked: bool)
  {
    match sweep
    case Asleep => !locked
    case Awake(now) => !locked && now <= clock
    case Sweeping(i, now) => locked && now <= clock && i <= |slots| && SweptTo(i, now, before, slots)
    case Evicting(i, now) =>
      locked && now <= clock && i < |slots| && SweptTo(i, now, before, slots) && Stale(now, before[i]) && slots[i].active
  }

  /** What each recorded event says about the client it concerns. */
  ghost predicate Justified(e: Event)
  {
    match e
    case Private(target, who, receiver) => receiver.active && receiver.name == target && receiver.client == who
    case Removed(from, client) => client.active && client.addr == from
    case Evicted(now, client) => Stale(now, client)
    case Alive(now, client) => client.active && !Stale(now, client)
    case _ => true
  }

  ghost predicate Log(log: seq<Event>)
  {
    forall e :: e in log ==> Justified(e)
  }

  ghost predicate Inv(s: State)
  {
    && Shape(s)
    && s.clientCount == Sum(IsActive, s.slots)
    && Identities(s.slots, s.registrations)
    && NotAfter(s.slots, s.clock)
    && Found(s.message, s.slots, s.request, s.from, s.clock)
    && Sweep(s.sweep, s.before, s.slots, s.clock, s.locked)
    && Log(s.log)
  }

  // ----- every step keeps it -----

  lemma RegisterKeepsInv(s: State)
    requires Inv(s) && s.message.Registering? && !s.locked
    ensures Inv(MessageStep(s))
  {
    RegisterMeaning(s.slots, s.request.name);
    var r := RegisterResult(s.slots, s.request.name);
    if r >= 0 {
      SumUpdate(IsActive, s.slots, r, MessageStep(s).slots[r]);
    }
  }

  /** The unlocked refresh, possibly of a slot that has been evicted, possibly in the middle of a sweep. */
  lemma StoreKeepsInv(s: State)
    requires Inv(s) && s.message.Storing?
    ensures Inv(StorePing(s, s.message.slot, s.message.time))
  {
    var c := s.message.slot;
    SumUpdate(IsActive, s.slots, c, s.slots[c].(lastPing := s.message.time));
  }

  /** The message thread goes on without touching anything. */
  lemma GoOn(s: State, pc: MessagePc)
    requires Inv(s) && PcFits(pc, s.request, |s.slots|) && Found(pc, s.slots, s.request, s.from, s.clock)
    ensures Inv(s.(message := pc))
  {
  }

  lemma AnswerKeepsInv(s: State, reply: Reply)
    requires Inv(s)
    ensures Inv(Answer(s, reply))
  {
  }

  lemma DispatchKeepsInv(s: State, c: nat, who: nat)
    requires Inv(s) && c < |s.slots| && s.slots[c].client == who > 0 && s.slots[c].addr == s.from
    ensures Inv(Dispatch(s, c, who))
  {
    match s.request
    case List => GoOn(s, Listing);
    case ToAll => GoOn(s, Broadcasting(c));
    case ToOne(_) => GoOn(s, FindingTarget(0));
    case Quit =>
      AnswerKeepsInv(s, Bye);
      GoOn(Answer(s, Bye), Quitting(c, who));
    case Ping => AnswerKeepsInv(s, Pong);
    case _ => GoOn(s, Receiving);
  }

  lemma RemoveKeepsInv(s: State)
    requires Inv(s) && s.message.Quitting? && !s.locked
    ensures Inv(MessageStep(s))
  {
    var c := s.message.slot;
    if s.slots[c].active {
      SumUpdate(IsActive, s.slots, c, MessageStep(s).slots[c]);
    }
  }

  lemma FindSenderKeepsInv(s: State)
    requires Inv(s) && s.message.FindingSender?
    ensures Inv(MessageStep(s))
  {
    var i := s.message.at;
    if i == |s.slots| || (s.slots[i].active && s.slots[i].addr == s.from) {
      if s.request.Register? {
        GoOn(s, Registering);
      } else if i == |s.slots| {
        AnswerKeepsInv(s, NotRegistered);
      } else {
        GoOn(s, Refreshing(i, s.slots[i].client));
      }
    } else {
      GoOn(s, FindingSender(i + 1));
    }
  }

  lemma FindTargetKeepsInv(s: State)
    requires Inv(s) && s.message.FindingTarget?
    ensures Inv(MessageStep(s))
  {
    var i := s.message.at;
    if i == |s.slots| {
      AnswerKeepsInv(s, NotFound);
    } else if s.slots[i].active && s.slots[i].name == s.request.target {
      GoOn(s, Delivering(i, s.slots[i].client));
    } else {
      GoOn(s, FindingTarget(i + 1));
    }
  }

  lemma SendKeepsInv(s: State)
    requires Inv(s) && (s.message.Listing? || s.message.Broadcasting? || s.message.Delivering?)
    ensures Inv(MessageStep(s))
  {
  }

  lemma MessageKeepsInv(s: State)
    requires Inv(s) && Enabled(s, MessageRuns)
    ensures Inv(MessageStep(s))
  {
    match s.message
    case Registering => RegisterKeepsInv(s);
    case Storing(c, who, time) =>
      StoreKeepsInv(s);
      DispatchKeepsInv(StorePing(s, c, time), c, who);
    case Quitting(_, _) => RemoveKeepsInv(s);
    case FindingSender(_) => FindSenderKeepsInv(s);
    case FindingTarget(_) => FindTargetKeepsInv(s);
    case Refreshing(c, who) => GoOn(s, Storing(c, who, s.clock));
    case Listing => SendKeepsInv(s);
    case Broadcasting(_) => SendKeepsInv(s);
    case Delivering(_, _) => SendKeepsInv(s);
  }

  lemma PassingKeepsSwept(i: nat, now: int, before: seq<Slot>, slots: seq<Slot>)
    requires SweptTo(i, now, before, slots) && i < |slots| && !Stale(now, slots[i])
    ensures SweptTo(i + 1, now, before, slots)
  {
  }

  lemma RecordKeepsLog(log: seq<Event>, e: Event)
    requires Log(log) && Justified(e)
    ensures Log(log + [e])
  {
  }

  lemma VisitKeepsInv(s: State)
    requires Inv(s) && s.sweep.Sweeping?
    ensures Inv(SweepStep(s))
  {
    var i, now := s.sweep.at, s.sweep.now;
    if i < |s.slots| && !Stale(now, s.slots[i]) {
      PassingKeepsSwept(i, now, s.before, s.slots);
      if s.slots[i].active {
        RecordKeepsLog(s.log, Alive(now, s.slots[i]));
      }
    }
  }

  lemma EvictKeepsInv(s: State)
    requires Inv(s) && s.sweep.Evicting?
    ensures Inv(SweepStep(s))
  {
    var i := s.sweep.at;
    SumUpdate(IsActive, s.slots, i, s.slots[i].(active := false));
  }

  lemma SweepKeepsInv(s: State)
    requires Inv(s) && Enabled(s, SweepRuns)
    ensures Inv(SweepStep(s))
  {
    match s.sweep
    case Sweeping(_, _) => VisitKeepsInv(s);
    case Evicting(_, _) => EvictKeepsInv(s);
    case _ =>
  }

  lemma TickKeepsInv(s: State, seconds: nat)
    requires Inv(s)
    ensures Inv(s.(clock := s.clock + seconds))
  {
  }

  lemma StepKeepsInv(s: State, a: Action)
    requires Inv(s) && Enabled(s, a)
    ensures Inv(Next(s, a))
  {
    match a
    case MessageRuns => MessageKeepsInv(s);
    case SweepRuns => SweepKeepsInv(s);
    case Tick(seconds) => TickKeepsInv(s, seconds);
    case Receive(_, _) =>
  }

  lemma StepKeepsSize(s: State, a: Action)
    requires Shape(s) && Enabled(s, a)
    ensures |Next(s, a).slots| == |s.slots|
  {
    if a.MessageRuns? && s.message.Registering? {
      RegisterMeaning(s.slots, s.request.name);
    }
  }

  lemma InitInv(size: nat, clock: nat)
    ensures Inv(Init(size, clock))
  {
    SumConstant(IsActive, Init(size, clock).slots, 0);
  }

  lemma {:induction false} RunKeepsInv(s: State, acts: seq<Action>, t: State)
    requires Inv(s) && Run(s, acts, t)
    ensures Inv(t) && |t.slots| == |s.slots|
    decreases |acts|
  {
    if acts != [] {
      StepKeepsInv(s, acts[0]);
      StepKeepsSize(s, acts[0]);
      RunKeepsInv(Next(s, acts[0]), acts[1..], t);
    }
  }

  lemma Always(size: nat, clock: nat, acts: seq<Action>, s: State)
    requires Run(Init(size, clock), acts, s)
    ensures Inv(s) && |s.slots| == size
  {
    InitInv(size, clock);
    RunKeepsInv(Init(size, clock), acts, s);
  }

  lemma {:induction false} RunConcat(s: State, acts: seq<Action>, t: State, more: seq<Action>, u: State)
    requires Run(s, acts, t) && Run(t, more, u)
    ensures Run(s, acts + more, u)
    decreases |acts|
  {
    if acts == [] {
      assert acts + more == more;
    } else {
      assert (acts + more)[1..] == acts[1..] + more;
      RunConcat(Next(s, acts[0]), acts[1..], t, more, u);
    }
  }

  lemma RunExtends(s: State, acts: seq<Action>, t: State, a: Action)
    requires Run(s, acts, t) && Shape(t) && Enabled(t, a)
    ensures Run(s, acts + [a], Next(t, a))
  {
    assert [a][1..] == [];
    assert Run(Next(t, a), [a][1..], Next(t, a));
    RunConcat(s, acts, t, [a], Next(t, a));
  }

  // ----- what holds in every run -----

  /** client_count is the number of active slots, in the middle of a sweep too, and no two slots hold the same
      client. */
  lemma CountIsExact(size: nat, clock: nat, acts: seq<Action>, s: State)
    requires Run(Init(size, clock), acts, s)
    ensures s.clientCount == Sum(IsActive, s.slots)
    ensures forall i, j :: 0 <= i < j < |s.slots| && s.slots[i].active && s.slots[j].active ==> s.slots[i].client != s.slots[j].client
  {
    Always(size, clock, acts, s);
  }

  /** Every private message ever sent went to a client active under the given name, namely to the very client
      the search had found, and every removal on QUIT hit a client at the sender's address, whatever sweeps and
      evictions came between search and use. */
  lemma EventsAreJustified(size: nat, clock: nat, acts: seq<Action>, s: State)
    requires Run(Init(size, clock), acts, s)
    ensures forall e :: e in s.log && e.Private? ==> e.receiver.active && e.receiver.name == e.target && e.receiver.client == e.who
    ensures forall e :: e in s.log && e.Removed? ==> e.client.active && e.client.addr == e.from
    ensures forall e :: e in s.log && e.Evicted? ==> e.client.active && e.now - e.client.lastPing > 60
    ensures forall e :: e in s.log && e.Alive? ==> e.client.active && e.now - e.client.lastPing <= 60
  {
    Always(size, clock, acts, s);
    assert forall e :: e in s.log ==> Justified(e);
  }

  /** Delivering reaches the client found, or nobody if it has been evicted meanwhile; the sender is told in
      either case that the message was sent. */
  lemma DeliveryReachesFoundClientOrNobody(size: nat, clock: nat, acts: seq<Action>, s: State)
    requires Run(Init(size, clock), acts, s) && s.message.Delivering? && !s.locked
    ensures Shape(s) && s.message.slot < |s.slots| && s.request.ToOne?
    ensures var receiver := s.slots[s.message.slot];
      && receiver.client == s.message.who && receiver.name == s.request.target
      && MessageStep(s).log == s.log
        + (if receiver.active then [Private(s.request.target, s.message.who, receiver)] else []) + [Replied(s.from, Sent)]
  {
    Always(size, clock, acts, s);
  }

  /** QUIT frees the slot of the client found for the sender, if it still has it, and touches no other slot. */
  lemma QuitTouchesOnlyTheSender(size: nat, clock: nat, acts: seq<Action>, s: State)
    requires Run(Init(size, clock), acts, s) && s.message.Quitting? && !s.locked
    ensures Shape(s) && s.message.slot < |s.slots| == |MessageStep(s).slots|
    ensures s.slots[s.message.slot].client == s.message.who && s.slots[s.message.slot].addr == s.from
    ensures !MessageStep(s).slots[s.message.slot].active
    ensures forall i :: 0 <= i < |s.slots| && i != s.message.slot ==> MessageStep(s).slots[i] == s.slots[i]
  {
    Always(size, clock, acts, s);
  }

  /** At the end of a sweep: whoever was within 60 seconds of the time the sweep read when it took the mutex is
      still there, whoever is still there is within 60 seconds of it, and nobody has come in, although the
      message thread may have refreshed slots all the while. */
  lemma SweepIsFair(size: nat, clock: nat, acts: seq<Action>, s: State)
    requires Run(Init(size, clock), acts, s) && s.sweep.Sweeping? && s.sweep.at == size
    ensures |s.before| == |s.slots| == size
    ensures forall i :: 0 <= i < size && s.before[i].active && s.sweep.now - s.before[i].lastPing <= 60 ==>
      s.slots[i].active && s.slots[i].client == s.before[i].client
    ensures forall i :: 0 <= i < size && s.slots[i].active ==>
      s.sweep.now - s.slots[i].lastPing <= 60 && s.before[i].active && s.slots[i].client == s.before[i].client
  {
    Always(size, clock, acts, s);
    forall i | 0 <= i < size ensures Swept(s.sweep.now, s.before[i], s.slots[i], true) {
    }
  }
}
