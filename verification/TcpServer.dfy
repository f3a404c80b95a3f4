/** The TCP chat server's table as code: `AcceptRuns`, `HandlerRuns` and `SweepRuns` execute the next step of
    the accept loop, of one handle_client thread, and of ping_clients. */
module TcpServer {
  import opened TcpRegistryProtocol
  import opened TcpRegistryCorrect

  class Server {
    const clients: array<Slot>
    var clientCount: int
    var clock: int
    var locked: bool
    var accept: AcceptPc
    var handlers: seq<Handler>
    var sweep: SweepPc
    ghost var before: seq<Slot>
    ghost var outcomes: seq<Outcome>
    ghost var deliveries: seq<Delivery>
    ghost var evicted: set<nat>
    ghost var robbed: set<nat>
    ghost var touched: set<nat>

    ghost function Snapshot(): State
      reads this, clients
    {
      State(clients[..], clientCount, clock, locked, accept, handlers, sweep, before, outcomes, deliveries, evicted, robbed,
            touched)
    }

    constructor (size: nat, clock: int)
      ensures Inv(Snapshot()) && fresh(clients)
      ensures Snapshot() == Init(size, clock)
    {
      clients := new Slot[size](_ => Slot(false, "", 0, 0));
      clientCount := 0;
      this.clock := clock;
      locked := false;
      accept := Accepting;
      handlers := [];
      sweep := Asleep;
      before, outcomes, deliveries := [], [], [];
      evicted, robbed, touched := {}, {}, {};
      new;
      assert clients[..] == seq(size, _ => Slot(false, "", 0, 0));
      InitInv(size, clock);
    }

    /** The accept loop under the mutex. */
    method EnterClient(name: string)
      modifies this, clients
      ensures -1 <= FindFree(old(clients[..]), 0) < clients.Length
      ensures Snapshot() == TakeSlot(old(Snapshot()), name)
    {
      FindFreeMeaning(clients[..], 0);
      var clientId := -1;
      var i := 0;
      while i < clients.Length
        invariant i <= clients.Length && clientId == -1
        invariant Snapshot() == old(Snapshot())
        invariant FindFree(clients[..], 0) == FindFree(clients[..], i)
      {
        if !clients[i].active {
          clientId := i;
          clients[i] := Slot(true, name, clock, |handlers| + 1);
          clientCount := clientCount + 1;
          break;
        }
        i := i + 1;
      }
      accept := Accepting;
      if clientId == -1 {
        outcomes := outcomes + [Full];
      } else {
        outcomes := outcomes + [Welcome(clientId)];
        handlers := handlers + [Handler(clientId, |handlers| + 1, Serving)];
      }
    }

    method AcceptRuns()
      requires Shape(Snapshot())
      modifies this, clients
      ensures Snapshot() == AcceptStep(old(Snapshot()))
    {
      match accept
      case Accepting =>
      case Checking(name, i) =>
        if i == clients.Length {
          accept := Taking(name);
        } else if clients[i].active && clients[i].name == name {
          outcomes := outcomes + [NameTaken];
          accept := Accepting;
        } else {
          accept := Checking(name, i + 1);
        }
      case Taking(name) => EnterClient(name);
    }

    method RemoveClient(id: nat)
      requires id < clients.Length
      modifies this`clientCount, clients
      ensures Snapshot() == RemoveSlot(old(Snapshot()), id)
    {
      if clients[id].active {
        clients[id] := clients[id].(active := false, name := "");
        clientCount := clientCount - 1;
      }
    }

    method MoveTo(h: nat, pc: HandlerPc)
      requires h < |handlers|
      modifies this`handlers
      ensures handlers == old(handlers)[h := old(handlers)[h].(pc := pc)]
    {
      handlers := handlers[h := handlers[h].(pc := pc)];
    }

    /** The refresh, without the mutex. */
    method Refresh(h: nat, time: int, input: Input)
      requires h < |handlers| && handlers[h].slot < clients.Length
      modifies this, clients
      ensures Snapshot() == StoreStep(old(Snapshot()), h, time, input)
    {
      var c := handlers[h].slot;
      touched := touched + Stranger(clients[..], c, handlers[h].client);
      clients[c] := clients[c].(lastPing := time);
      match input
      case Stop => MoveTo(h, Leaving);
      case ToOne(target) => MoveTo(h, FindingTarget(target, 0));
      case _ => MoveTo(h, Serving);
    }

    /** The search for the receiver of a private message, without the mutex. */
    method LookForTarget(h: nat, target: string, i: nat)
      requires h < |handlers| && i <= clients.Length
      modifies this`handlers
      ensures Snapshot() == MoveOn(old(Snapshot()), h, FindStep(clients[..], target, i))
    {
      if i == clients.Length {
        MoveTo(h, Serving);
      } else if clients[i].active && clients[i].name == target {
        MoveTo(h, Delivering(target, i, clients[i].client));
      } else {
        MoveTo(h, FindingTarget(target, i + 1));
      }
    }

    method SendToClient(h: nat, target: string, i: nat, who: nat)
      requires h < |handlers| && i < clients.Length
      modifies this
      ensures Snapshot() == DeliverStep(old(Snapshot()), h, target, i, who)
    {
      if clients[i].active {
        deliveries := deliveries + [Delivery(target, who, clients[i])];
      }
      MoveTo(h, Serving);
    }

    method HandlerRuns(h: nat, input: Input)
      requires Shape(Snapshot()) && h < |handlers|
      modifies this, clients
      ensures Snapshot() == HandlerStep(old(Snapshot()), h, input)
    {
      var me := handlers[h];
      match me.pc
      case Serving => MoveTo(h, if clients[me.slot].active then Receiving else Leaving);
      case Receiving => MoveTo(h, if input == Closed then Leaving else Storing(clock, input));
      case Storing(time, what) => Refresh(h, time, what);
      case FindingTarget(target, i) => LookForTarget(h, target, i);
      case Delivering(target, i, who) => SendToClient(h, target, i, who);
      case Leaving =>
        robbed := robbed + Stranger(clients[..], me.slot, me.client);
        RemoveClient(me.slot);
        MoveTo(h, Gone);
      case Gone =>
    }

    method SweepRuns()
      requires Shape(Snapshot())
      modifies this, clients
      ensures Snapshot() == SweepStep(old(Snapshot()))
    {
      match sweep
      case Asleep => sweep := Awake(clock);
      case Awake(now) =>
        locked := true;
        before := clients[..];
        sweep := Sweeping(0, now);
      case Sweeping(i, now) =>
        if i == clients.Length {
          locked := false;
          sweep := Asleep;
        } else if clients[i].active && now - clients[i].lastPing > TIMEOUT_SECONDS {
          sweep := Evicting(i, now);
        } else {
          sweep := Sweeping(i + 1, now);
        }
      case Evicting(i, now) =>
        evicted := evicted + {clients[i].client};
        clients[i] := clients[i].(active := false);
        clientCount := clientCount - 1;
        sweep := Sweeping(i + 1, now);
    }

    method Perform(a: Action)
      requires Inv(Snapshot()) && Enabled(Snapshot(), a)
      modifies this, clients
      ensures Inv(Snapshot()) && Snapshot() == Next(old(Snapshot()), a)
    {
      StepKeepsInv(Snapshot(), a);
      match a
      case Connect(name) => accept := Checking(name, 0);
      case AcceptRuns => AcceptRuns();
      case HandlerRuns(h, input) => HandlerRuns(h, input);
      case SweepRuns => SweepRuns();
      case Tick(seconds) => clock := clock + seconds;
    }

    method Possible(a: Action) returns (b: bool)
      ensures b == Enabled(Snapshot(), a)
    {
      b := Enabled(State(clients[..], clientCount, clock, locked, accept, handlers, sweep, [], [], [], {}, {}, {}), a);
    }

    /** Any interleaving of the threads. */
    method Schedule(proposed: seq<Action>) returns (ghost performed: seq<Action>)
      requires Inv(Snapshot())
      modifies this, clients
      ensures Inv(Snapshot()) && Run(old(Snapshot()), performed, Snapshot())
    {
      performed := [];
      var i := 0;
      while i < |proposed|
        invariant i <= |proposed|
        invariant Inv(Snapshot()) && Run(old(Snapshot()), performed, Snapshot())
      {
        ghost var sofar := Snapshot();
        var possible := Possible(proposed[i]);
        if possible {
          Perform(proposed[i]);
          RunExtends(old(Snapshot()), performed, sofar, proposed[i]);
          performed := performed + [proposed[i]];
        }
        i := i + 1;
      }
    }
  }
}
