/** The UDP chat server as code: the client table and the counter are the fields of a class; `MessageRuns` and
    `SweepRuns` execute the next step of handle_message and of ping_clients.  Network sends are recorded. */
module UdpServer {
  import opened UdpRegistryProtocol
  import opened UdpRegistryCorrect

  class Server {
    const clients: array<Slot>
    var clientCount: int
    var clock: int
    var locked: bool
    var message: MessagePc
    var request: Request
    var from: Address
    var sweep: SweepPc
    var registrations: nat
    ghost var before: seq<Slot>
    ghost var log: seq<Event>

    ghost function Snapshot(): State
      reads this, clients
    {
      State(clients[..], clientCount, clock, locked, message, request, from, sweep, registrations, before, log)
    }

    constructor (size: nat, clock: nat)
      ensures Inv(Snapshot()) && fresh(clients)
      ensures Snapshot() == Init(size, clock)
    {
      clients := new Slot[size](_ => Slot(false, "", 0, 0, 0));
      clientCount := 0;
      this.clock := clock;
      locked := false;
      message, request, from := Receiving, Other, 0;
      sweep := UdpRegistryProtocol.Asleep;
      registrations := 1;
      before, log := [], [];
      new;
      assert clients[..] == seq(size, _ => Slot(false, "", 0, 0, 0));
      InitInv(size, clock);
    }

    // ----- the table -----

    method FindClientByName(name: string) returns (r: int)
      ensures r == FindName(clients[..], name, 0)
    {
      var i := 0;
      while i < clients.Length
        invariant i <= clients.Length
        invariant FindName(clients[..], name, 0) == FindName(clients[..], name, i)
      {
        if clients[i].active && clients[i].name == name {
          return i;
        }
        i := i + 1;
      }
      return -1;
    }

    method RegisterClient(name: string, addr: Address) returns (r: int)
      modifies this`clientCount, this`registrations, clients
      ensures r == RegisterResult(old(clients[..]), name) && r < clients.Length
      ensures r < 0 ==> clients[..] == old(clients[..]) && clientCount == old(clientCount) && registrations == old(registrations)
      ensures r >= 0 ==> clients[..] == old(clients[..])[r := Slot(true, Stored(name), addr, clock, old(registrations))]
      ensures r >= 0 ==> clientCount == old(clientCount) + 1 && registrations == old(registrations) + 1
    {
      RegisterMeaning(clients[..], name);
      var taken := FindClientByName(name);
      if taken != -1 {
        return -2;
      }
      var i := 0;
      while i < clients.Length
        invariant i <= clients.Length
        invariant FindFree(clients[..], 0) == FindFree(clients[..], i)
      {
        if !clients[i].active {
          clients[i] := Slot(true, Stored(name), addr, clock, registrations);
          registrations := registrations + 1;
          clientCount := clientCount + 1;
          return i;
        }
        i := i + 1;
      }
      return -1;
    }

    method RemoveClient(c: nat)
      requires c < clients.Length
      modifies this, clients
      ensures Snapshot() == RemoveStep(old(Snapshot()), c)
    {
      if clients[c].active {
        log := log + [Removed(from, clients[c])];
        clients[c] := clients[c].(active := false, name := "");
        clientCount := clientCount - 1;
      }
      message := Receiving;
    }

    /** Sends to everybody but the sender; `sent` records the sends. */
    method BroadcastMessage(sender: int) returns (sent: seq<Slot>)
      ensures sent == ActiveSlots(clients[..], sender, 0)
    {
      sent := [];
      var i := 0;
      while i < clients.Length
        invariant i <= clients.Length
        invariant sent + ActiveSlots(clients[..], sender, i) == ActiveSlots(clients[..], sender, 0)
      {
        if clients[i].active && i != sender {
          sent := sent + [clients[i]];
        }
        i := i + 1;
      }
    }

    // ----- the message thread -----

    /** Replies are only recorded. */
    method Reply(ghost reply: Reply)
      modifies this`log, this`message
      ensures Snapshot() == Answer(old(Snapshot()), reply)
    {
      log := log + [Replied(from, reply)];
      message := Receiving;
    }

    method HandleRegister(name: string)
      modifies this, clients
      ensures -2 <= RegisterResult(old(clients[..]), name) < clients.Length
      ensures Snapshot() == RegisterStep(old(Snapshot()), name)
    {
      RegisterMeaning(clients[..], name);
      var r := RegisterClient(name, from);
      if r >= 0 {
        Reply(Registered);
      } else if r == -2 {
        Reply(NameTaken);
      } else {
        Reply(Full);
      }
    }

    method HandleKnown(c: nat, who: nat)
      modifies this
      ensures Snapshot() == Dispatch(old(Snapshot()), c, who)
    {
      match request
      case List => message := Listing;
      case ToAll => message := Broadcasting(c);
      case ToOne(_) => message := FindingTarget(0);
      case Quit =>
        Reply(Bye);
        message := Quitting(c, who);
      case Ping => Reply(Pong);
      case _ => message := Receiving;
    }

    method LookForSender(i: nat)
      requires Shape(Snapshot()) && message == FindingSender(i)
      modifies this
      ensures Snapshot() == MessageStep(old(Snapshot()))
    {
      if i == clients.Length {
        if request.Register? {
          message := Registering;
        } else {
          Reply(NotRegistered);
        }
      } else if clients[i].active && clients[i].addr == from {
        message := if request.Register? then Registering else Refreshing(i, clients[i].client);
      } else {
        message := FindingSender(i + 1);
      }
    }

    method LookForTarget(i: nat)
      requires Shape(Snapshot()) && message == FindingTarget(i)
      modifies this
      ensures Snapshot() == MessageStep(old(Snapshot()))
    {
      if i == clients.Length {
        Reply(NotFound);
      } else if clients[i].active && clients[i].name == request.target {
        message := Delivering(i, clients[i].client);
      } else {
        message := FindingTarget(i + 1);
      }
    }

    method SendToClient(t: nat, who: nat)
      requires t < clients.Length && request.ToOne?
      modifies this`log
      ensures log == if clients[t].active then old(log) + [Private(request.target, who, clients[t])] else old(log)
    {
      if clients[t].active {
        log := log + [Private(request.target, who, clients[t])];
      }
    }

    method MessageRuns()
      requires Shape(Snapshot())
      modifies this, clients
      ensures Snapshot() == MessageStep(old(Snapshot()))
    {
      match message
      case FindingSender(i) => LookForSender(i);
      case Registering => HandleRegister(request.name);
      case Refreshing(c, who) => message := Storing(c, who, clock);
      case Storing(c, who, time) =>
        clients[c] := clients[c].(lastPing := time);
        HandleKnown(c, who);
      case Listing =>
        var listed := BroadcastMessage(-1);
        Reply(Names(NamesOf(listed)));
      case Broadcasting(c) =>
        var sent := BroadcastMessage(c);
        log := log + [Public(c, sent)];
        message := Receiving;
      case FindingTarget(i) => LookForTarget(i);
      case Delivering(t, who) =>
        SendToClient(t, who);
        Reply(Sent);
      case Quitting(c, _) => RemoveClient(c);
      case Receiving =>
    }

    // ----- the sweeping thread -----

    method SweepRuns()
      requires Shape(Snapshot())
      modifies this, clients
      ensures Snapshot() == SweepStep(old(Snapshot()))
    {
      match sweep
      case Asleep => sweep := Awake(clock);
      case Awake(now) =>
        locked := true;
        before := clients[..];
        sweep := Sweeping(0, now);
      case Sweeping(i, now) =>
        if i == clients.Length {
          locked := false;
          sweep := UdpRegistryProtocol.Asleep;
        } else if !clients[i].active {
          sweep := Sweeping(i + 1, now);
        } else if now - clients[i].lastPing > TIMEOUT_SECONDS {
          sweep := Evicting(i, now);
        } else {
          log := log + [Alive(now, clients[i])];
          sweep := Sweeping(i + 1, now);
        }
      case Evicting(i, now) =>
        clients[i] := clients[i].(active := false);
        clientCount := clientCount - 1;
        log := log + [Evicted(now, before[i])];
        sweep := Sweeping(i + 1, now);
    }

    // ----- any interleaving -----

    method Perform(a: Action)
      requires Inv(Snapshot()) && Enabled(Snapshot(), a)
      modifies this, clients
      ensures Inv(Snapshot()) && Snapshot() == Next(old(Snapshot()), a)
    {
      StepKeepsInv(Snapshot(), a);
      match a
      case Receive(r, f) => message, request, from := FindingSender(0), r, f;
      case MessageRuns => MessageRuns();
      case SweepRuns => SweepRuns();
      case Tick(seconds) => clock := clock + seconds;
    }

    method Possible(a: Action) returns (b: bool)
      ensures b == Enabled(Snapshot(), a)
    {
      b := Enabled(State(clients[..], clientCount, clock, locked, message, request, from, sweep, registrations, [], []), a);
    }

    method Schedule(proposed: seq<Action>) returns (ghost performed: seq<Action>)
      requires Inv(Snapshot())
      modifies this, clients
      ensures Inv(Snapshot()) && Run(old(Snapshot()), performed, Snapshot())
    {
      performed := [];
      var i := 0;
      while i < |proposed|
        invariant i <= |proposed|
        invariant Inv(Snapshot()) && Run(old(Snapshot()), performed, Snapshot())
      {
        ghost var sofar := Snapshot();
        var possible := Possible(proposed[i]);
        if possible {
          Perform(proposed[i]);
          RunExtends(old(Snapshot()), performed, sofar, proposed[i]);
          performed := performed + [proposed[i]];
        }
        i := i + 1;
      }
    }
  }
}
