/** The TCP chat server's client table: the accept loop looks for the name of a new client without the mutex and
    takes a slot under it later; any number of client handlers and a sweep free slots in between. */
module TcpRegistryProtocol {

  const TIMEOUT_SECONDS := 60
  const MAX_NAME_LEN := 32

  /** client: history, the number of the connection that filled the slot */
  datatype Slot = Slot(active: bool, name: string, lastPing: int, client: nat)

  datatype AcceptPc =
    | Accepting
    | Checking(name: string, at: nat)   // in find_client_by_name
    | Taking(name: string)              // about to take the mutex

  /** What recv returns: the connection is closed, or a message; ToOne is a private message. */
  datatype Input = Closed | Stop | ToOne(target: string) | Message

  datatype HandlerPc =
    | Serving                                        // at the head of the loop
    | Receiving                                      // in recv
    | Storing(time: int, input: Input)               // got a message at `time`
    | FindingTarget(target: string, at: nat)         // in find_client_by_name
    | Delivering(target: string, slot: nat, who: nat) // about to take the mutex in send_to_client; who: the client found
    | Leaving                                        // about to call remove_client
    | Gone

  /** A private message sent; the receiver as it was. */
  datatype Delivery = Delivery(target: string, who: nat, receiver: Slot)

  /** The thread that serves connection number `client`, which was entered into `slot`. */
  datatype Handler = Handler(slot: nat, client: nat, pc: HandlerPc)

  datatype SweepPc =
    | Asleep
    | Awake(now: int)
    | Sweeping(at: nat, now: int)
    | Evicting(at: nat, now: int)

  datatype Outcome = Welcome(slot: nat) | NameTaken | Full

  datatype State = State(
    slots: seq<Slot>,
    clientCount: int,
    clock: int,
    locked: bool,              // clients_mutex is held across steps, by the sweep
    accept: AcceptPc,
    handlers: seq<Handler>,
    sweep: SweepPc,
    // history
    before: seq<Slot>,         // the table when the sweep in progress took the mutex
    outcomes: seq<Outcome>,    // what became of each connection
    deliveries: seq<Delivery>,
    evicted: set<nat>,         // the clients whose slot was freed by a sweep
    robbed: set<nat>,          // the clients whose slot was freed by another client's handler
    touched: set<nat>)         // the clients whose last_ping was set by another client's handler

  datatype Action =
    | Connect(name: string)
    | AcceptRuns
    | HandlerRuns(h: nat, input: Input)   // input: what recv returns, if the handler is in recv
    | SweepRuns
    | Tick(seconds: nat)

  function Init(size: nat, clock: int): State
  {
    State(seq(size, _ => Slot(false, "", 0, 0)), 0, clock, false, Accepting, [], Asleep, [], [], [], {}, {}, {})
  }

  function FindFree(slots: seq<Slot>, i: nat): int
    requires i <= |slots|
    decreases |slots| - i
  {
    if i == |slots| then -1 else if !slots[i].active then i else FindFree(slots, i + 1)
  }

  lemma {:induction false} FindFreeMeaning(slots: seq<Slot>, i: nat)
    requires i <= |slots|
    ensures var r := FindFree(slots, i);
      && -1 <= r < |slots|
      && (r == -1 || (i <= r && !slots[r].active))
      && forall j :: i <= j < (if r == -1 then |slots| else r) ==> slots[j].active
    decreases |slots| - i
  {
    if i < |slots| && slots[i].active {
      FindFreeMeaning(slots, i + 1);
    }
  }

  predicate HandlerFits(handler: Handler, size: nat)
  {
    && handler.slot < size
    && (handler.pc.FindingTarget? ==> handler.pc.at <= size)
    && (handler.pc.Delivering? ==> handler.pc.slot < size)
  }

  predicate Shape(s: State)
  {
    && (s.accept.Checking? ==> s.accept.at <= |s.slots|)
    && (forall h :: 0 <= h < |s.handlers| ==> HandlerFits(s.handlers[h], |s.slots|))
    && (s.sweep.Sweeping? ==> s.sweep.at <= |s.slots|)
    && (s.sweep.Evicting? ==> s.sweep.at < |s.slots|)
  }

  /** recv reads at most MAX_NAME_LEN - 1 bytes, so names are never cut when they are stored. */
  predicate Enabled(s: State, a: Action)
  {
    match a
    case Connect(name) => s.accept == Accepting && |name| < MAX_NAME_LEN
    case AcceptRuns => s.accept != Accepting && (s.accept.Taking? ==> !s.locked)
    case HandlerRuns(h, _) =>
      h < |s.handlers| && s.handlers[h].pc != Gone && (s.handlers[h].pc.Leaving? || s.handlers[h].pc.Delivering? ==> !s.locked)
    case SweepRuns => s.sweep.Awake? ==> !s.locked
    case Tick(_) => true
  }

  function TakeSlot(s: State, name: string): State
    requires -1 <= FindFree(s.slots, 0) < |s.slots|
  {
    var r := FindFree(s.slots, 0);
    if r == -1 then s.(accept := Accepting, outcomes := s.outcomes + [Full])
    else s.(slots := s.slots[r := Slot(true, name, s.clock, |s.handlers| + 1)], clientCount := s.clientCount + 1, accept := Accepting,
            handlers := s.handlers + [Handler(r, |s.handlers| + 1, Serving)], outcomes := s.outcomes + [Welcome(r)])
  }

  function AcceptStep(s: State): State
    requires Shape(s)
  {
    match s.accept
    case Accepting => s
    case Checking(name, i) =>
      if i == |s.slots| then s.(accept := Taking(name))
      else if s.slots[i].active && s.slots[i].name == name then
        s.(accept := Accepting, outcomes := s.outcomes + [NameTaken])
      else s.(accept := Checking(name, i + 1))
    case Taking(name) => FindFreeMeaning(s.slots, 0); TakeSlot(s, name)
  }

  /** remove_client */
  function RemoveSlot(s: State, c: nat): State
    requires c < |s.slots|
  {
    if s.slots[c].active then
      s.(slots := s.slots[c := s.slots[c].(active := false, name := "")], clientCount := s.clientCount - 1)
    else s
  }

  /** The client in slot c, if there is one and it is not client `own`. */
  function Stranger(slots: seq<Slot>, c: nat, own: nat): set<nat>
    requires c < |slots|
  {
    if slots[c].active && slots[c].client != own then {slots[c].client} else {}
  }

  /** Where a handler goes after the refresh. */
  function AfterStoring(input: Input): HandlerPc
  {
    match input
    case Stop => Leaving
    case ToOne(target) => FindingTarget(target, 0)
    case _ => Serving
  }

  function FindStep(slots: seq<Slot>, target: string, i: nat): HandlerPc
    requires i <= |slots|
  {
    if i == |slots| then Serving
    else if slots[i].active && slots[i].name == target then Delivering(target, i, slots[i].client)
    else FindingTarget(target, i + 1)
  }

  /** The stretch of code after which the handler is at `pc`. */
  function MoveOn(s: State, h: nat, pc: HandlerPc): State
    requires h < |s.handlers|
  {
    s.(handlers := s.handlers[h := s.handlers[h].(pc := pc)])
  }

  function StoreStep(s: State, h: nat, time: int, input: Input): State
    requires h < |s.handlers| && s.handlers[h].slot < |s.slots|
  {
    var me := s.handlers[h];
    MoveOn(s, h, AfterStoring(input)).(slots := s.slots[me.slot := s.slots[me.slot].(lastPing := time)],
                                       touched := s.touched + Stranger(s.slots, me.slot, me.client))
  }

  function LeaveStep(s: State, h: nat): State
    requires h < |s.handlers| && s.handlers[h].slot < |s.slots|
  {
    var me := s.handlers[h];
    MoveOn(RemoveSlot(s, me.slot), h, Gone).(robbed := s.robbed + Stranger(s.slots, me.slot, me.client))
  }

  function DeliverStep(s: State, h: nat, target: string, i: nat, who: nat): State
    requires h < |s.handlers| && i < |s.slots|
  {
    MoveOn(s, h, Serving).(deliveries := if s.slots[i].active then s.deliveries + [Delivery(target, who, s.slots[i])] else s.deliveries)
  }

  function HandlerStep(s: State, h: nat, input: Input): State
    requires Shape(s) && h < |s.handlers|
  {
    var me := s.handlers[h];
    match me.pc
    case Serving => MoveOn(s, h, if s.slots[me.slot].active then Receiving else Leaving)
    case Receiving => MoveOn(s, h, if input == Closed then Leaving else Storing(s.clock, input))
    case Storing(time, what) => StoreStep(s, h, time, what)
    case FindingTarget(target, i) => MoveOn(s, h, FindStep(s.slots, target, i))
    case Delivering(target, i, who) => DeliverStep(s, h, target, i, who)
    case Leaving => LeaveStep(s, h)
    case Gone => s
  }

  function SweepStep(s: State): State
    requires Shape(s)
  {
    match s.sweep
    case Asleep => s.(sweep := Awake(s.clock))
    case Awake(now) => s.(sweep := Sweeping(0, now), locked := true, before := s.slots)
    case Sweeping(i, now) =>
      if i == |s.slots| then s.(sweep := Asleep, locked := false)
      else if s.slots[i].active && now - s.slots[i].lastPing > TIMEOUT_SECONDS then s.(sweep := Evicting(i, now))
      else s.(sweep := Sweeping(i + 1, now))
    case Evicting(i, now) =>
      s.(slots := s.slots[i := s.slots[i].(active := false)], clientCount := s.clientCount - 1,
         evicted := s.evicted + {s.slots[i].client}, sweep := Sweeping(i + 1, now))
  }

  function Next(s: State, a: Action): State
    requires Shape(s) && Enabled(s, a)
  {
    match a
    case Connect(name) => s.(accept := Checking(name, 0))
    case AcceptRuns => AcceptStep(s)
    case HandlerRuns(h, input) => HandlerStep(s, h, input)
    case SweepRuns => SweepStep(s)
    case Tick(seconds) => s.(clock := s.clock + seconds)
  }

  ghost predicate Run(s: State, acts: seq<Action>, t: State)
    decreases |acts|
  {
    if acts == [] then s == t
    else Shape(s) && Enabled(s, acts[0]) && Run(Next(s, acts[0]), acts[1..], t)
  }
}
