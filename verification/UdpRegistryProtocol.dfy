/** The UDP chat server: one thread handles the messages, another sweeps out clients that have been silent.
    The mutex protects registering, removing, sending and sweeping, but not the two searches and not the
    refresh of last_ping, so these run slot by slot in between the steps of a sweep. */
module UdpRegistryProtocol {

  const TIMEOUT_SECONDS := 60
  const MAX_NAME_LEN := 32

  type Address = nat

  datatype Slot = Slot(
    active: bool,
    name: string,
    addr: Address,
    lastPing: int,
    client: nat)              // history: the number of the registration that filled the slot

  datatype Request =
    | Register(name: string)
    | List
    | ToAll
    | ToOne(target: string)
    | Quit
    | Ping
    | Other                   // ignored, like a private message without a text

  datatype Reply = Registered | NameTaken | Full | NotRegistered | Names(names: seq<string>) | Sent | NotFound | Bye | Pong

  /** The message thread, handling `request` from address `from`. */
  datatype MessagePc =
    | Receiving
    | FindingSender(at: nat)
    | Registering
    | Refreshing(slot: nat, who: nat)               // who: the client found in the slot
    | Storing(slot: nat, who: nat, time: int)
    | Listing
    | Broadcasting(slot: nat)
    | FindingTarget(at: nat)
    | Delivering(slot: nat, who: nat)
    | Quitting(slot: nat, who: nat)

  /** The sweeping thread; `now` is the time it read before taking the mutex. */
  datatype SweepPc =
    | Asleep
    | Awake(now: int)
    | Sweeping(at: nat, now: int)
    | Evicting(at: nat, now: int)

  datatype Event =
    | Replied(addr: Address, reply: Reply)
    | Private(target: string, who: nat, receiver: Slot)       // the receiver as it was when the message was sent
    | Public(sender: nat, receivers: seq<Slot>)
    | Removed(from: Address, client: Slot)
    | Evicted(now: int, client: Slot)
    | Alive(now: int, client: Slot)                           // the sweep's question to a client it keeps

  datatype State = State(
    slots: seq<Slot>,
    clientCount: int,
    clock: int,
    locked: bool,             // clients_mutex is held across steps, by the sweep
    message: MessagePc,
    request: Request,
    from: Address,
    sweep: SweepPc,
    // history
    registrations: nat,
    before: seq<Slot>,        // the table when the sweep in progress took the mutex
    log: seq<Event>)

  datatype Action =
    | Receive(request: Request, from: Address)
    | MessageRuns
    | SweepRuns
    | Tick(seconds: nat)

  function Init(size: nat, clock: nat): State
  {
    State(seq(size, _ => Slot(false, "", 0, 0, 0)), 0, clock, false, Receiving, Other, 0, Asleep, 1, [], [])
  }

  // ----- the table -----

  /** find_client_by_name, from slot i on */
  function FindName(slots: seq<Slot>, name: string, i: nat): int
    requires i <= |slots|
    decreases |slots| - i
  {
    if i == |slots| then -1 else if slots[i].active && slots[i].name == name then i else FindName(slots, name, i + 1)
  }

  /** The first free slot from slot i on. */
  function FindFree(slots: seq<Slot>, i: nat): int
    requires i <= |slots|
    decreases |slots| - i
  {
    if i == |slots| then -1 else if !slots[i].active then i else FindFree(slots, i + 1)
  }

  /** strncpy into a buffer of MAX_NAME_LEN bytes, the last of which is the terminator. */
  function Stored(name: string): string
  {
    if |name| < MAX_NAME_LEN then name else name[..MAX_NAME_LEN - 1]
  }

  /** register_client: -2 if the name is taken, -1 if there is no free slot, else the slot. */
  function RegisterResult(slots: seq<Slot>, name: string): int
  {
    if FindName(slots, name, 0) != -1 then -2 else FindFree(slots, 0)
  }

  /** The active slots from slot i on, leaving out slot `except`. */
  function ActiveSlots(slots: seq<Slot>, except: int, i: nat): seq<Slot>
    requires i <= |slots|
    decreases |slots| - i
  {
    if i == |slots| then []
    else (if slots[i].active && i != except then [slots[i]] else []) + ActiveSlots(slots, except, i + 1)
  }

  function NamesOf(slots: seq<Slot>): seq<string>
  {
    seq(|slots|, i requires 0 <= i < |slots| => slots[i].name)
  }

  // ----- the message thread -----

  /** The slot a program counter refers to exists, and the request is one that leads there. */
  predicate PcFits(message: MessagePc, request: Request, size: nat)
  {
    match message
    case FindingSender(i) => i <= size
    case Storing(c, _, _) => c < size
    case FindingTarget(i) => i <= size && request.ToOne?
    case Delivering(t, _) => t < size && request.ToOne?
    case Quitting(c, _) => c < size
    case Registering => request.Register?
    case _ => true
  }

  predicate Shape(s: State)
  {
    && PcFits(s.message, s.request, |s.slots|)
    && (s.sweep.Sweeping? ==> s.sweep.at <= |s.slots|)
    && (s.sweep.Evicting? ==> s.sweep.at < |s.slots| == |s.before|)
  }

  predicate NeedsMutex(pc: MessagePc)
  {
    pc.Registering? || pc.Listing? || pc.Broadcasting? || pc.Delivering? || pc.Quitting?
  }

  function Answer(s: State, reply: Reply): State
  {
    s.(log := s.log + [Replied(s.from, reply)], message := Receiving)
  }

  function RegisterStep(s: State, name: string): State
    requires -2 <= RegisterResult(s.slots, name) < |s.slots|
  {
    var r := RegisterResult(s.slots, name);
    if r == -2 then Answer(s, NameTaken)
    else if r == -1 then Answer(s, Full)
    else Answer(s.(slots := s.slots[r := Slot(true, Stored(name), s.from, s.clock, s.registrations)],
                   clientCount := s.clientCount + 1, registrations := s.registrations + 1), Registered)
  }

  function StorePing(s: State, c: nat, time: int): State
    requires c < |s.slots|
  {
    s.(slots := s.slots[c := s.slots[c].(lastPing := time)])
  }

  function Dispatch(s: State, c: nat, who: nat): State
  {
    match s.request
    case List => s.(message := Listing)
    case ToAll => s.(message := Broadcasting(c))
    case ToOne(_) => s.(message := FindingTarget(0))
    case Quit => Answer(s, Bye).(message := Quitting(c, who))
    case Ping => Answer(s, Pong)
    case _ => s.(message := Receiving)
  }

  function RemoveStep(s: State, c: nat): State
    requires c < |s.slots|
  {
    if s.slots[c].active then
      s.(slots := s.slots[c := s.slots[c].(active := false, name := "")], clientCount := s.clientCount - 1,
         log := s.log + [Removed(s.from, s.slots[c])], message := Receiving)
    else s.(message := Receiving)
  }

  function MessageStep(s: State): State
    requires Shape(s)
  {
    match s.message
    case FindingSender(i) =>
      if i == |s.slots| then
        if s.request.Register? then s.(message := Registering) else Answer(s, NotRegistered)
      else if s.slots[i].active && s.slots[i].addr == s.from then
        if s.request.Register? then s.(message := Registering) else s.(message := Refreshing(i, s.slots[i].client))
      else s.(message := FindingSender(i + 1))
    case Registering => RegisterMeaning(s.slots, s.request.name); RegisterStep(s, s.request.name)
    case Refreshing(c, who) => s.(message := Storing(c, who, s.clock))
    case Storing(c, who, time) => Dispatch(StorePing(s, c, time), c, who)
    case Listing => Answer(s, Names(NamesOf(ActiveSlots(s.slots, -1, 0))))
    case Broadcasting(c) => s.(log := s.log + [Public(c, ActiveSlots(s.slots, c, 0))], message := Receiving)
    case FindingTarget(i) =>
      if i == |s.slots| then Answer(s, NotFound)
      else if s.slots[i].active && s.slots[i].name == s.request.target then s.(message := Delivering(i, s.slots[i].client))
      else s.(message := FindingTarget(i + 1))
    case Delivering(t, who) =>
      Answer(if s.slots[t].active then s.(log := s.log + [Private(s.request.target, who, s.slots[t])]) else s, Sent)
    case Quitting(c, who) => RemoveStep(s, c)
    case Receiving => s
  }

  // ----- the sweeping thread -----

  function SweepStep(s: State): State
    requires Shape(s)
  {
    match s.sweep
    case Asleep => s.(sweep := Awake(s.clock))
    case Awake(now) => s.(sweep := Sweeping(0, now), locked := true, before := s.slots)
    case Sweeping(i, now) =>
      if i == |s.slots| then s.(sweep := Asleep, locked := false)
      else if !s.slots[i].active then s.(sweep := Sweeping(i + 1, now))
      else if now - s.slots[i].lastPing > TIMEOUT_SECONDS then s.(sweep := Evicting(i, now))
      else s.(log := s.log + [Alive(now, s.slots[i])], sweep := Sweeping(i + 1, now))
    case Evicting(i, now) =>
      s.(slots := s.slots[i := s.slots[i].(active := false)], clientCount := s.clientCount - 1,
         log := s.log + [Evicted(now, s.before[i])], sweep := Sweeping(i + 1, now))
  }

  // ----- the whole system -----

  predicate Enabled(s: State, a: Action)
  {
    match a
    case Receive(_, _) => s.message == Receiving
    case MessageRuns => s.message != Receiving && (NeedsMutex(s.message) ==> !s.locked)
    case SweepRuns => s.sweep.Awake? ==> !s.locked
    case Tick(_) => true
  }

  function Next(s: State, a: Action): State
    requires Shape(s) && Enabled(s, a)
  {
    match a
    case Receive(request, from) => s.(message := FindingSender(0), request := request, from := from)
    case MessageRuns => MessageStep(s)
    case SweepRuns => SweepStep(s)
    case Tick(seconds) => s.(clock := s.clock + seconds)
  }

  ghost predicate Run(s: State, acts: seq<Action>, t: State)
    decreases |acts|
  {
    if acts == [] then s == t
    else Shape(s) && Enabled(s, acts[0]) && Run(Next(s, acts[0]), acts[1..], t)
  }

  // ----- what the searches find -----

  lemma {:induction false} FindNameMeaning(slots: seq<Slot>, name: string, i: nat)
    requires i <= |slots|
    ensures var r := FindName(slots, name, i);
      && (r == -1 || (i <= r < |slots| && slots[r].active && slots[r].name == name))
      && forall j :: i <= j < (if r == -1 then |slots| else r) ==> !(slots[j].active && slots[j].name == name)
    decreases |slots| - i
  {
    if i < |slots| && !(slots[i].active && slots[i].name == name) {
      FindNameMeaning(slots, name, i + 1);
    }
  }

  lemma {:induction false} FindFreeMeaning(slots: seq<Slot>, i: nat)
    requires i <= |slots|
    ensures var r := FindFree(slots, i);
      && (r == -1 || (i <= r < |slots| && !slots[r].active))
      && forall j :: i <= j < (if r == -1 then |slots| else r) ==> slots[j].active
    decreases |slots| - i
  {
    if i < |slots| && slots[i].active {
      FindFreeMeaning(slots, i + 1);
    }
  }

  /** Registration is refused exactly if an active client has the name, or if none has and no slot is free;
      otherwise it gets the first free slot. */
  lemma RegisterMeaning(slots: seq<Slot>, name: string)
    ensures var r := RegisterResult(slots, name);
      && -2 <= r < |slots|
      && (r == -2 <==> exists i :: 0 <= i < |slots| && slots[i].active && slots[i].name == name)
      && (r == -1 <==> forall i :: 0 <= i < |slots| ==> slots[i].active && slots[i].name != name)
      && (r >= 0 ==> !slots[r].active && forall j :: 0 <= j < r ==> slots[j].active)
  {
    FindNameMeaning(slots, name, 0);
    FindFreeMeaning(slots, 0);
  }

  /** A broadcast goes to every active slot but the sender's, and to nobody else. */
  lemma {:induction false} ActiveSlotsMeaning(slots: seq<Slot>, except: int, i: nat)
    requires i <= |slots|
    ensures forall r :: r in ActiveSlots(slots, except, i) <==> exists j :: i <= j < |slots| && j != except && slots[j].active && slots[j] == r
    decreases |slots| - i
  {
    if i < |slots| {
      ActiveSlotsMeaning(slots, except, i + 1);
    }
  }
}
