/** What a request to the UDP server comes to.  A request is followed from the moment it is received to the moment
    the message thread is ready for the next one, whatever sweeps and ticks of the clock come in between, and the
    whole of what was said and done for it is stated without reference to the steps of the code. */
module UdpRequests {
  import opened UdpRegistryProtocol
  import opened UdpRegistryCorrect

  // ----- what is said -----

  /** The message thread's part of the log. */
  ghost function Said(log: seq<Event>): seq<Event>
  {
    if log == [] then []
    else var e := log[|log| - 1];
      Said(log[..|log| - 1]) + (if e.Evicted? || e.Alive? then [] else [e])
  }

  lemma SaidAppend(log: seq<Event>, e: Event)
    ensures Said(log + [e]) == Said(log) + (if e.Evicted? || e.Alive? then [] else [e])
  {
    assert (log + [e])[..|log|] == log;
  }

  /** Messages said one after the other. */
  lemma {:induction false} SaidMore(log: seq<Event>, more: seq<Event>)
    requires forall e :: e in more ==> !e.Evicted? && !e.Alive?
    ensures Said(log + more) == Said(log) + more
    decreases |more|
  {
    if more == [] {
      assert log + more == log;
    } else {
      var n := |more| - 1;
      SaidMore(log, more[..n]);
      SaidAppend(log + more[..n], more[n]);
      assert log + more == log + more[..n] + [more[n]];
    }
  }

  // ----- what is in the table -----

  ghost predicate NoAddress(slots: seq<Slot>, addr: Address, n: nat)
  {
    forall i :: 0 <= i < n && i < |slots| ==> !(slots[i].active && slots[i].addr == addr)
  }

  ghost predicate NoName(slots: seq<Slot>, name: string, n: nat)
  {
    forall i :: 0 <= i < n && i < |slots| ==> !(slots[i].active && slots[i].name == name)
  }

  ghost predicate AllActive(slots: seq<Slot>, n: nat)
  {
    forall i :: 0 <= i < n && i < |slots| ==> slots[i].active
  }

  ghost predicate Increasing(idx: seq<nat>)
  {
    forall j, k :: 0 <= j < k < |idx| ==> idx[j] < idx[k]
  }

  /** `picked` are the active slots without slot `except`, each once, in the order of the table; `idx` says where. */
  ghost predicate Picks(picked: seq<Slot>, idx: seq<nat>, slots: seq<Slot>, except: int)
  {
    && |idx| == |picked| && Increasing(idx)
    && (forall k :: 0 <= k < |idx| ==> idx[k] < |slots| && picked[k] == slots[idx[k]])
    && (forall i: nat :: i < |slots| ==> (i in idx <==> slots[i].active && i != except))
  }

  ghost predicate Lists(picked: seq<Slot>, slots: seq<Slot>, except: int)
  {
    exists idx :: Picks(picked, idx, slots, except)
  }

  /** The same from slot i on. */
  ghost predicate PicksFrom(picked: seq<Slot>, idx: seq<nat>, slots: seq<Slot>, except: int, i: nat)
  {
    && |idx| == |picked| && Increasing(idx)
    && (forall k :: 0 <= k < |idx| ==> i <= idx[k] < |slots| && picked[k] == slots[idx[k]])
    && (forall j: nat :: i <= j < |slots| ==> (j in idx <==> slots[j].active && j != except))
  }

  lemma PickOneMore(picked: seq<Slot>, idx: seq<nat>, slots: seq<Slot>, except: int, i: nat)
    requires i < |slots| && PicksFrom(picked, idx, slots, except, i + 1)
    ensures if slots[i].active && i != except then PicksFrom([slots[i]] + picked, [i] + idx, slots, except, i)
            else PicksFrom(picked, idx, slots, except, i)
  {
    if slots[i].active && i != except {
      var more, found := [i] + idx, [slots[i]] + picked;
      forall j: nat ensures j in more <==> j == i || j in idx {
      }
      assert Increasing(more);
      forall k | 0 <= k < |more| ensures i <= more[k] < |slots| && found[k] == slots[more[k]] {
        assert k > 0 ==> more[k] == idx[k - 1] && found[k] == picked[k - 1];
      }
    }
  }

  lemma {:induction false} ActiveIndexes(slots: seq<Slot>, except: int, i: nat) returns (idx: seq<nat>)
    requires i <= |slots|
    ensures PicksFrom(ActiveSlots(slots, except, i), idx, slots, except, i)
    decreases |slots| - i
  {
    if i == |slots| {
      return [];
    }
    idx := ActiveIndexes(slots, except, i + 1);
    PickOneMore(ActiveSlots(slots, except, i + 1), idx, slots, except, i);
    if slots[i].active && i != except {
      idx := [i] + idx;
    } else {
      assert ActiveSlots(slots, except, i) == ActiveSlots(slots, except, i + 1);
    }
  }

  lemma ActiveSlotsAreListed(slots: seq<Slot>, except: int)
    ensures Lists(ActiveSlots(slots, except, 0), slots, except)
  {
    var idx := ActiveIndexes(slots, except, 0);
    assert Picks(ActiveSlots(slots, except, 0), idx, slots, except);
  }

  // ----- what has to come of a request -----

  /** `start` is the state in which the request came, `last` the one before the last step for it, `end` the one after. */
  ghost predicate RegisterServed(said: seq<Event>, start: State, last: State, end: State, name: string, from: Address)
  {
    if !NoName(last.slots, name, |last.slots|) then
      said == [Replied(from, NameTaken)] && end.slots == last.slots
    else if AllActive(last.slots, |last.slots|) then
      said == [Replied(from, Full)] && end.slots == last.slots
    else
      && said == [Replied(from, Registered)]
      && exists r: nat :: r < |last.slots| && Fills(last, end, r, name, from)
  }

  /** The first free slot is filled with a client of a new number. */
  ghost predicate Fills(last: State, end: State, r: nat, name: string, from: Address)
    requires r < |last.slots|
  {
    && !last.slots[r].active && AllActive(last.slots, r) && |end.slots| == |last.slots|
    && end.slots == last.slots[r := end.slots[r]]
    && end.slots[r].active && end.slots[r].addr == from && end.slots[r].lastPing == last.clock
    && end.slots[r].client == last.registrations
    && end.slots[r].name == (if |name| <= 31 then name else name[..31])
  }

  ghost predicate UnknownServed(said: seq<Event>, start: State, last: State, end: State, from: Address)
  {
    said == [Replied(from, NotRegistered)] && end.slots == last.slots && NoAddress(last.slots, from, |last.slots|)
  }

  /** Slot c held a client of that address when the request came; none before it in the table still does; if the
      slot still is that client's, its last ping is not older than the request. */
  ghost predicate Heard(start: State, now: State, c: nat, from: Address)
  {
    && c < |start.slots| == |now.slots|
    && start.slots[c].active && start.slots[c].addr == from && NoAddress(now.slots, from, c)
    && now.slots[c].client == start.slots[c].client && now.slots[c].lastPing >= start.clock
  }

  /** The table stays as it is, up to the last ping of slot c. */
  ghost predicate OnlyPings(last: State, end: State, c: nat)
  {
    && c < |last.slots| == |end.slots|
    && end.slots == last.slots[c := last.slots[c].(lastPing := end.slots[c].lastPing)]
  }

  ghost predicate PrivateServed(said: seq<Event>, start: State, last: State, end: State, target: string, from: Address)
  {
    || (said == [Replied(from, NotFound)] && NoName(last.slots, target, |last.slots|))
    || exists k: nat :: k < |last.slots| == |start.slots| && Reaches(said, start, last, end, k, target, from)
  }

  /** The client that had the name when the request came, the first that still has it, gets the message if it is
      still there. */
  ghost predicate Reaches(said: seq<Event>, start: State, last: State, end: State, k: nat, target: string, from: Address)
    requires k < |last.slots| == |start.slots|
  {
    && start.slots[k].active && start.slots[k].name == target && last.slots[k].client == start.slots[k].client
    && NoName(last.slots, target, k)
    && said == (if last.slots[k].active then [Private(target, start.slots[k].client, last.slots[k])] else [])
                        + [Replied(from, Sent)]
  }

  ghost predicate QuitServed(said: seq<Event>, start: State, last: State, end: State, c: nat, from: Address)
  {
    && c < |last.slots| == |end.slots|
    && said == [Replied(from, Bye)] + (if last.slots[c].active then [Removed(from, last.slots[c])] else [])
    && !end.slots[c].active && (last.slots[c].active ==> end.slots[c].name == "")
    && (forall i :: 0 <= i < |last.slots| && i != c ==> end.slots[i] == last.slots[i])
  }

  ghost predicate KnownServed(said: seq<Event>, start: State, last: State, end: State, c: nat, request: Request, from: Address)
  {
    && Heard(start, end, c, from)
    && match request
      case Register(_) => false
      case List => OnlyPings(last, end, c) && exists picked :: Lists(picked, last.slots, -1) && said == [Replied(from, Names(NamesOf(picked)))]
      case ToAll => OnlyPings(last, end, c) && exists picked :: Lists(picked, last.slots, c) && said == [Public(c, picked)]
      case ToOne(target) => OnlyPings(last, end, c) && PrivateServed(said, start, last, end, target, from)
      case Quit => QuitServed(said, start, last, end, c, from)
      case Ping => OnlyPings(last, end, c) && said == [Replied(from, Pong)]
      case Other => OnlyPings(last, end, c) && said == []
  }

  ghost predicate Served(said: seq<Event>, start: State, last: State, end: State, request: Request, from: Address)
  {
    if request.Register? then RegisterServed(said, start, last, end, request.name, from)
    else UnknownServed(said, start, last, end, from) || exists c :: KnownServed(said, start, last, end, c, request, from)
  }

  // ----- on the way -----

  ghost predicate OnlyFreed(slots: seq<Slot>, now: seq<Slot>)
  {
    && |now| == |slots|
    && forall i :: 0 <= i < |slots| && now[i].active ==>
      slots[i].active && now[i].client == slots[i].client && now[i].name == slots[i].name && now[i].addr == slots[i].addr
  }

  /** How far a request has come. */
  ghost predicate OnTheWay(said: seq<Event>, start: State, now: State, request: Request, from: Address)
  {
    && now.request == request && now.from == from && start.clock <= now.clock && OnlyFreed(start.slots, now.slots)
    && match now.message
      case Receiving => true
      case FindingSender(i) => said == [] && NoAddress(now.slots, from, i)
      case Registering => said == [] && request.Register?
      case Refreshing(c, who) => said == [] && !request.Register? && Located(start, now, c, who, from)
      case Storing(c, who, time) =>
        said == [] && !request.Register? && Located(start, now, c, who, from) && time >= start.clock
      case Listing => said == [] && request == List && exists c :: Heard(start, now, c, from)
      case Broadcasting(c) => said == [] && request == ToAll && Heard(start, now, c, from)
      case FindingTarget(i) =>
        said == [] && request.ToOne? && NoName(now.slots, request.target, i) && exists c :: Heard(start, now, c, from)
      case Delivering(k, who) =>
        && said == [] && request.ToOne? && NoName(now.slots, request.target, k) && (exists c :: Heard(start, now, c, from))
        && k < |start.slots| && start.slots[k].active && start.slots[k].name == request.target
        && who == start.slots[k].client == now.slots[k].client
      case Quitting(c, who) => said == [Replied(from, Bye)] && request == Quit && Heard(start, now, c, from)
  }

  ghost predicate Located(start: State, now: State, c: nat, who: nat, from: Address)
  {
    && c < |start.slots| == |now.slots|
    && start.slots[c].active && start.slots[c].addr == from && NoAddress(now.slots, from, c)
    && who == start.slots[c].client == now.slots[c].client
  }

  /** What the message thread says in its next step. */
  ghost function Utters(s: State): seq<Event>
    requires Shape(s)
  {
    if |s.log| <= |MessageStep(s).log| then MessageStep(s).log[|s.log|..] else []
  }

  /** A step of the sweep or of the clock, as far as the message thread is concerned. */
  ghost predicate Undisturbed(s: State, t: State)
  {
    && t.message == s.message && t.request == s.request && t.from == s.from && s.clock <= t.clock
    && OnlyFreed(s.slots, t.slots)
    && (forall i :: 0 <= i < |s.slots| ==> t.slots[i].client == s.slots[i].client && t.slots[i].lastPing == s.slots[i].lastPing)
  }

  lemma SweepDisturbsNobody(s: State)
    requires Shape(s)
    ensures Undisturbed(s, SweepStep(s))
  {
    if s.sweep.Evicting? {
      assert SweepStep(s).slots == s.slots[s.sweep.at := s.slots[s.sweep.at].(active := false)];
    } else {
      assert SweepStep(s).slots == s.slots;
    }
  }

  lemma StillHeard(start: State, s: State, t: State, c: nat, from: Address)
    requires Heard(start, s, c, from) && Undisturbed(s, t)
    ensures Heard(start, t, c, from)
  {
  }

  lemma UndisturbedOnTheWay(said: seq<Event>, start: State, s: State, t: State, request: Request, from: Address)
    requires OnTheWay(said, start, s, request, from) && Undisturbed(s, t)
    ensures OnTheWay(said, start, t, request, from)
  {
    forall c | Heard(start, s, c, from) ensures Heard(start, t, c, from) {
      StillHeard(start, s, t, c, from);
    }
  }

  lemma SenderUnknown(said: seq<Event>, start: State, s: State, request: Request, from: Address)
    requires Shape(s) && OnTheWay(said, start, s, request, from) && s.message == FindingSender(|s.slots|) && !request.Register?
    ensures MessageStep(s).message == Receiving && UnknownServed(said + Utters(s), start, s, MessageStep(s), from)
  {
    assert Utters(s) == [Replied(from, NotRegistered)];
  }

  lemma SenderKnown(said: seq<Event>, start: State, s: State, request: Request, from: Address)
    requires Shape(s) && OnTheWay(said, start, s, request, from) && s.message.FindingSender?
    requires s.message.at < |s.slots| || request.Register?
    ensures MessageStep(s).message != Receiving && OnTheWay(said + Utters(s), start, MessageStep(s), request, from)
  {
    var t := MessageStep(s);
    assert t == s.(message := t.message);
    assert Utters(s) == [] && said + [] == said;
  }

  lemma TargetUnknown(said: seq<Event>, start: State, s: State, request: Request, from: Address)
    requires Shape(s) && OnTheWay(said, start, s, request, from) && s.message == FindingTarget(|s.slots|)
    ensures MessageStep(s).message == Receiving && Served(said + Utters(s), start, s, MessageStep(s), request, from)
  {
    var t := MessageStep(s);
    assert Utters(s) == [Replied(from, NotFound)];
    var c :| Heard(start, s, c, from);
    assert t == s.(log := t.log, message := Receiving);
    assert Heard(start, t, c, from) && OnlyPings(s, t, c);
    assert KnownServed(said + Utters(s), start, s, t, c, request, from);
  }

  lemma TargetSought(said: seq<Event>, start: State, s: State, request: Request, from: Address)
    requires Shape(s) && OnTheWay(said, start, s, request, from) && s.message.FindingTarget? && s.message.at < |s.slots|
    ensures MessageStep(s).message != Receiving && OnTheWay(said + Utters(s), start, MessageStep(s), request, from)
  {
    var t := MessageStep(s);
    assert t == s.(message := t.message);
    assert Utters(s) == [] && said + [] == said;
    var c :| Heard(start, s, c, from);
    assert Heard(start, t, c, from);
  }

  lemma Registration(said: seq<Event>, start: State, s: State, request: Request, from: Address)
    requires Shape(s) && OnTheWay(said, start, s, request, from) && s.message.Registering?
    ensures MessageStep(s).message == Receiving && Served(said + Utters(s), start, s, MessageStep(s), request, from)
  {
    RegisterMeaning(s.slots, request.name);
    var r := RegisterResult(s.slots, request.name);
    assert Utters(s) == [Replied(from, if r == -2 then NameTaken else if r == -1 then Full else Registered)];
    if r >= 0 {
      assert Fills(s, MessageStep(s), r, request.name, from);
    }
  }

  /** The refresh: from here on the client has been heard. */
  lemma Refresh(start: State, s: State, from: Address)
    requires s.message.Storing? && Located(start, s, s.message.slot, s.message.who, from) && s.message.time >= start.clock
    ensures Heard(start, StorePing(s, s.message.slot, s.message.time), s.message.slot, from)
    ensures OnlyPings(s, StorePing(s, s.message.slot, s.message.time), s.message.slot)
  {
  }

  lemma Storing(said: seq<Event>, start: State, s: State, request: Request, from: Address)
    requires Shape(s) && OnTheWay(said, start, s, request, from) && s.message.Storing?
    ensures var t := MessageStep(s);
      if t.message == Receiving then Served(said + Utters(s), start, s, t, request, from)
      else OnTheWay(said + Utters(s), start, t, request, from)
  {
    var c, t := s.message.slot, MessageStep(s);
    Refresh(start, s, from);
    assert t.slots == StorePing(s, c, s.message.time).slots;
    assert Heard(start, t, c, from) && OnlyPings(s, t, c);
    assert Utters(s) == (if request == Quit then [Replied(from, Bye)] else if request == Ping then [Replied(from, Pong)] else []);
    if t.message == Receiving {
      assert KnownServed(said + Utters(s), start, s, t, c, request, from);
    }
  }

  lemma Listing(said: seq<Event>, start: State, s: State, request: Request, from: Address)
    requires Shape(s) && OnTheWay(said, start, s, request, from) && s.message.Listing?
    ensures MessageStep(s).message == Receiving && Served(said + Utters(s), start, s, MessageStep(s), request, from)
  {
    var t := MessageStep(s);
    ActiveSlotsAreListed(s.slots, -1);
    assert Utters(s) == [Replied(from, Names(NamesOf(ActiveSlots(s.slots, -1, 0))))];
    var c :| Heard(start, s, c, from);
    assert Heard(start, t, c, from) && OnlyPings(s, t, c);
    assert KnownServed(said + Utters(s), start, s, t, c, request, from);
  }

  lemma Broadcasting(said: seq<Event>, start: State, s: State, request: Request, from: Address)
    requires Shape(s) && OnTheWay(said, start, s, request, from) && s.message.Broadcasting?
    ensures MessageStep(s).message == Receiving && Served(said + Utters(s), start, s, MessageStep(s), request, from)
  {
    var t, c := MessageStep(s), s.message.slot;
    ActiveSlotsAreListed(s.slots, c);
    assert Utters(s) == [Public(c, ActiveSlots(s.slots, c, 0))];
    assert Heard(start, t, c, from) && OnlyPings(s, t, c);
    assert KnownServed(said + Utters(s), start, s, t, c, request, from);
  }

  lemma Delivery(said: seq<Event>, start: State, s: State, request: Request, from: Address)
    requires Shape(s) && OnTheWay(said, start, s, request, from) && s.message.Delivering?
    ensures MessageStep(s).message == Receiving && Served(said + Utters(s), start, s, MessageStep(s), request, from)
  {
    var t, k := MessageStep(s), s.message.slot;
    assert Utters(s) == (if s.slots[k].active then [Private(request.target, s.message.who, s.slots[k])] else []) + [Replied(from, Sent)];
    assert t == s.(log := t.log, message := Receiving);
    assert Reaches(said + Utters(s), start, s, t, k, request.target, from);
    var c :| Heard(start, s, c, from);
    assert Heard(start, t, c, from) && OnlyPings(s, t, c);
    assert KnownServed(said + Utters(s), start, s, t, c, request, from);
  }

  lemma Quitting(said: seq<Event>, start: State, s: State, request: Request, from: Address)
    requires Shape(s) && OnTheWay(said, start, s, request, from) && s.message.Quitting?
    ensures MessageStep(s).message == Receiving && Served(said + Utters(s), start, s, MessageStep(s), request, from)
  {
    var t, c := MessageStep(s), s.message.slot;
    assert Utters(s) == if s.slots[c].active then [Removed(from, s.slots[c])] else [];
    assert QuitServed(said + Utters(s), start, s, t, c, from);
    assert KnownServed(said + Utters(s), start, s, t, c, request, from);
  }

  lemma MessageOnTheWay(said: seq<Event>, start: State, s: State, request: Request, from: Address)
    requires Shape(s) && OnTheWay(said, start, s, request, from) && s.message != Receiving
    ensures var t := MessageStep(s);
      if t.message == Receiving then Served(said + Utters(s), start, s, t, request, from)
      else OnTheWay(said + Utters(s), start, t, request, from)
  {
    match s.message
    case FindingSender(i) =>
      if i < |s.slots| || request.Register? {
        SenderKnown(said, start, s, request, from);
      } else {
        SenderUnknown(said, start, s, request, from);
      }
    case FindingTarget(i) =>
      if i < |s.slots| {
        TargetSought(said, start, s, request, from);
      } else {
        TargetUnknown(said, start, s, request, from);
      }
    case Registering => Registration(said, start, s, request, from);
    case Refreshing(_, _) => assert Utters(s) == [] && said + [] == said;
    case Storing(_, _, _) => Storing(said, start, s, request, from);
    case Listing => Listing(said, start, s, request, from);
    case Broadcasting(_) => Broadcasting(said, start, s, request, from);
    case Delivering(_, _) => Delivery(said, start, s, request, from);
    case Quitting(_, _) => Quitting(said, start, s, request, from);
  }

  // ----- along a run -----

  lemma MessageLogs(s: State)
    requires Shape(s)
    ensures MessageStep(s).log == s.log + Utters(s) && forall e :: e in Utters(s) ==> !e.Evicted? && !e.Alive?
  {
    if s.message.Registering? {
      RegisterMeaning(s.slots, s.request.name);
    }
  }

  lemma MessageSays(s: State)
    requires Shape(s)
    ensures Said(MessageStep(s).log) == Said(s.log) + Utters(s)
  {
    MessageLogs(s);
    SaidMore(s.log, Utters(s));
  }

  lemma SweepLogs(s: State) returns (e: Event)
    requires Shape(s)
    ensures (e.Evicted? || e.Alive?) && SweepStep(s).log in {s.log, s.log + [e]}
  {
    match s.sweep
    case Sweeping(i, now) => e := Alive(now, if i < |s.slots| then s.slots[i] else Slot(false, "", 0, 0, 0));
    case Evicting(i, now) => e := Evicted(now, s.before[i]);
    case _ => e := Alive(0, Slot(false, "", 0, 0, 0));
  }

  lemma SweepSaysNothing(s: State)
    requires Shape(s)
    ensures Said(SweepStep(s).log) == Said(s.log)
  {
    var e := SweepLogs(s);
    SaidAppend(s.log, e);
  }

  /** A run in which no further request is received, and the message thread is not done with the last one. */
  ghost predicate Working(s: State, acts: seq<Action>, t: State)
    decreases |acts|
  {
    && s.message != Receiving
    && if acts == [] then s == t
       else Shape(s) && Enabled(s, acts[0]) && Working(Next(s, acts[0]), acts[1..], t)
  }

  /** One step of a run, and what the message thread says in it. */
  lemma Proceed(said: seq<Event>, start: State, s: State, a: Action, request: Request, from: Address) returns (more: seq<Event>)
    requires Inv(s) && OnTheWay(said, start, s, request, from) && Enabled(s, a)
    requires s.message != Receiving && Next(s, a).message != Receiving
    ensures OnTheWay(said + more, start, Next(s, a), request, from)
    ensures Said(Next(s, a).log) == Said(s.log) + more
  {
    match a
    case MessageRuns =>
      MessageOnTheWay(said, start, s, request, from);
      MessageSays(s);
      more := Utters(s);
    case SweepRuns =>
      SweepDisturbsNobody(s);
      UndisturbedOnTheWay(said, start, s, SweepStep(s), request, from);
      SweepSaysNothing(s);
      more := [];
      assert said + more == said && Said(s.log) + more == Said(s.log);
    case Tick(_) =>
      UndisturbedOnTheWay(said, start, s, Next(s, a), request, from);
      more := [];
      assert said + more == said && Said(s.log) + more == Said(s.log);
  }

  lemma Associate(a: seq<Event>, b: seq<Event>, c: seq<Event>)
    ensures a + b + c == a + (b + c)
  {
  }

  lemma {:induction false} WorkingOnTheWay(said: seq<Event>, start: State, s: State, acts: seq<Action>, t: State,
                                           request: Request, from: Address) returns (more: seq<Event>)
    requires Inv(s) && OnTheWay(said, start, s, request, from) && Working(s, acts, t)
    ensures Inv(t) && OnTheWay(said + more, start, t, request, from)
    ensures Said(t.log) == Said(s.log) + more
    decreases |acts|
  {
    if acts == [] {
      more := [];
      assert said + more == said && Said(s.log) + more == Said(s.log);
    } else {
      StepKeepsInv(s, acts[0]);
      var one := Proceed(said, start, s, acts[0], request, from);
      var rest := WorkingOnTheWay(said + one, start, Next(s, acts[0]), acts[1..], t, request, from);
      Associate(said, one, rest);
      Associate(Said(s.log), one, rest);
      more := one + rest;
    }
  }

  lemma Asked(start: State, request: Request, from: Address)
    requires Inv(start) && start.message == Receiving
    ensures OnTheWay([], start, Next(start, Receive(request, from)), request, from)
  {
  }

  /** Every request is served: from the moment it is received until the message thread is ready for the next one, in
      any run, it says exactly what the request calls for, and nothing else, and does to the table exactly what the
      request calls for. */
  lemma RequestsAreServed(size: nat, clock: nat, past: seq<Action>, start: State, request: Request, from: Address,
                          acts: seq<Action>, last: State) returns (said: seq<Event>)
    requires Run(Init(size, clock), past, start) && start.message == Receiving
    requires Shape(start) && Working(Next(start, Receive(request, from)), acts, last)
    requires Shape(last) && Enabled(last, MessageRuns) && Next(last, MessageRuns).message == Receiving
    ensures Said(Next(last, MessageRuns).log) == Said(start.log) + said
    ensures Served(said, start, last, Next(last, MessageRuns), request, from)
  {
    var asked := Next(start, Receive(request, from));
    Always(size, clock, past, start);
    StepKeepsInv(start, Receive(request, from));
    Asked(start, request, from);
    said := WorkingOnTheWay([], start, asked, acts, last, request, from);
    assert [] + said == said;
    MessageOnTheWay(said, start, last, request, from);
    MessageSays(last);
    Associate(Said(start.log), said, Utters(last));
    said := said + Utters(last);
  }

  // ----- and it does not take long -----

  /** How many steps of its own the message thread is away from the next request, at most. */
  function StepsLeft(pc: MessagePc, n: int): int
  {
    match pc
    case Receiving => 0
    case FindingSender(i) => 2 * n - i + 6
    case Refreshing(_, _) => n + 5
    case Storing(_, _, _) => n + 4
    case FindingTarget(i) => n - i + 2
    case _ => 1
  }

  ghost function MessageSteps(acts: seq<Action>): nat
  {
    if acts == [] then 0 else (if acts[0] == MessageRuns then 1 else 0) + MessageSteps(acts[1..])
  }

  lemma MessageGetsOn(s: State)
    requires Inv(s) && Enabled(s, MessageRuns)
    ensures |MessageStep(s).slots| == |s.slots|
    ensures 0 <= StepsLeft(MessageStep(s).message, |s.slots|) < StepsLeft(s.message, |s.slots|)
  {
    if s.message.Registering? {
      RegisterMeaning(s.slots, s.request.name);
    }
  }

  lemma {:induction false} WorkingGetsOn(s: State, acts: seq<Action>, t: State)
    requires Inv(s) && Working(s, acts, t)
    ensures |t.slots| == |s.slots| && MessageSteps(acts) + StepsLeft(t.message, |s.slots|) <= StepsLeft(s.message, |s.slots|)
    decreases |acts|
  {
    if acts != [] {
      StepKeepsInv(s, acts[0]);
      StepKeepsSize(s, acts[0]);
      if acts[0] == MessageRuns {
        MessageGetsOn(s);
      }
      WorkingGetsOn(Next(s, acts[0]), acts[1..], t);
    }
  }

  /** A request takes the message thread at most 2n + 6 steps for n slots, and the only thing that can keep it from
      its next one is a sweep that has the mutex. */
  lemma RequestsAreServedSoon(size: nat, clock: nat, past: seq<Action>, start: State, request: Request, from: Address,
                              acts: seq<Action>, last: State)
    requires Run(Init(size, clock), past, start) && start.message == Receiving
    requires Shape(start) && Working(Next(start, Receive(request, from)), acts, last)
    ensures MessageSteps(acts) < 2 * size + 6
    ensures Enabled(last, MessageRuns) || (last.locked && (last.sweep.Sweeping? || last.sweep.Evicting?))
  {
    var asked := Next(start, Receive(request, from));
    Always(size, clock, past, start);
    StepKeepsInv(start, Receive(request, from));
    WorkingGetsOn(asked, acts, last);
    WorkingKeepsInv(asked, acts, last);
  }

  lemma {:induction false} WorkingKeepsInv(s: State, acts: seq<Action>, t: State)
    requires Inv(s) && Working(s, acts, t)
    ensures Inv(t) && t.message != Receiving
    decreases |acts|
  {
    if acts != [] {
      StepKeepsInv(s, acts[0]);
      WorkingKeepsInv(Next(s, acts[0]), acts[1..], t);
    }
  }
}
