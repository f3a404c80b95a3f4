/** What the TCP server's table guarantees: everybody but the accept loop only frees slots, so a name that was
    free when its slot was searched is still free when the new client is entered. */
module TcpRegistryCorrect {
  import opened Sums
  import opened TcpRegistryProtocol

  function IsActive(slot: Slot): int { if slot.active then 1 else 0 }

  ghost predicate DistinctNames(slots: seq<Slot>)
  {
    forall i, j :: 0 <= i < j < |slots| && slots[i].active && slots[j].active ==> slots[i].name != slots[j].name
  }

  ghost predicate FreeUpTo(slots: seq<Slot>, name: string, n: nat)
  {
    forall i :: 0 <= i < n && i < |slots| ==> !(slots[i].active && slots[i].name == name)
  }

  /** The part of the table the accept loop has searched does not hold the name. */
  ghost predicate Searched(accept: AcceptPc, slots: seq<Slot>)
  {
    match accept
    case Accepting => true
    case Checking(name, i) => FreeUpTo(slots, name, i)
    case Taking(name) => FreeUpTo(slots, name, |slots|)
  }

  ghost predicate Locking(sweep: SweepPc, locked: bool, slots: seq<Slot>)
  {
    && (locked <==> sweep.Sweeping? || sweep.Evicting?)
    && (sweep.Evicting? && sweep.at < |slots| ==> slots[sweep.at].active)
  }

  /** Whose slot was freed by anybody but its own handler. */
  ghost function Ousted(s: State): set<nat>
  {
    s.evicted + s.robbed
  }

  ghost predicate Holds(slots: seq<Slot>, c: nat, client: nat)
  {
    c < |slots| && slots[c].active && slots[c].client == client
  }

  /** An occupied slot belongs to a client whose handler is still there, and that handler's client holds the slot
      as long as nobody else has freed it. */
  ghost predicate Owners(slots: seq<Slot>, handlers: seq<Handler>, ousted: set<nat>)
  {
    && (forall h :: 0 <= h < |handlers| ==> handlers[h].client == h + 1)
    && (forall i :: 0 <= i < |slots| && slots[i].active ==>
      && 1 <= slots[i].client <= |handlers|
      && handlers[slots[i].client - 1].slot == i && handlers[slots[i].client - 1].pc != Gone
      && slots[i].client !in ousted)
    && (forall h :: 0 <= h < |handlers| && handlers[h].pc != Gone && handlers[h].client !in ousted ==>
      Holds(slots, handlers[h].slot, handlers[h].client))
    && (forall c :: c in ousted ==> c <= |handlers|)
  }

  ghost predicate Inv(s: State)
  {
    && Shape(s)
    && s.clientCount == Sum(IsActive, s.slots)
    && DistinctNames(s.slots)
    && Searched(s.accept, s.slots)
    && Locking(s.sweep, s.locked, s.slots)
    && Owners(s.slots, s.handlers, Ousted(s))
    && (s.robbed != {} ==> s.evicted != {})
  }

  /** What everybody but the accept loop does to the table: slots are freed, never filled. */
  ghost predicate OnlyFrees(slots: seq<Slot>, after: seq<Slot>)
  {
    && |after| == |slots|
    && forall i :: 0 <= i < |slots| && after[i].active ==> slots[i].active && after[i].name == slots[i].name
  }

  lemma FreeingKeepsNames(accept: AcceptPc, slots: seq<Slot>, after: seq<Slot>)
    requires DistinctNames(slots) && Searched(accept, slots) && OnlyFrees(slots, after)
    ensures DistinctNames(after) && Searched(accept, after)
  {
  }

  lemma EntryKeepsOwners(slots: seq<Slot>, handlers: seq<Handler>, ousted: set<nat>, r: nat, slot: Slot)
    requires Owners(slots, handlers, ousted) && r < |slots| && !slots[r].active
    requires slot.active && slot.client == |handlers| + 1
    ensures Owners(slots[r := slot], handlers + [Handler(r, |handlers| + 1, Serving)], ousted)
  {
  }

  lemma EntryKeepsNames(slots: seq<Slot>, r: nat, slot: Slot)
    requires DistinctNames(slots) && r < |slots| && FreeUpTo(slots, slot.name, |slots|)
    ensures DistinctNames(slots[r := slot])
  {
  }

  lemma TakeKeepsInv(s: State)
    requires Inv(s) && s.accept.Taking? && !s.locked
    ensures Inv(AcceptStep(s))
  {
    FindFreeMeaning(s.slots, 0);
    var r := FindFree(s.slots, 0);
    if r >= 0 {
      var slot := AcceptStep(s).slots[r];
      SumUpdate(IsActive, s.slots, r, slot);
      EntryKeepsNames(s.slots, r, slot);
      EntryKeepsOwners(s.slots, s.handlers, Ousted(s), r, slot);
    }
  }

  lemma AcceptKeepsInv(s: State)
    requires Inv(s) && Enabled(s, AcceptRuns)
    ensures Inv(AcceptStep(s))
  {
    if s.accept.Taking? {
      TakeKeepsInv(s);
    }
  }

  /** A handler moves on, refreshing its slot or not. */
  lemma MoveKeepsOwners(slots: seq<Slot>, handlers: seq<Handler>, ousted: set<nat>, h: nat, pc: HandlerPc, time: int)
    requires Owners(slots, handlers, ousted) && h < |handlers| && handlers[h].slot < |slots|
    requires handlers[h].pc != Gone && pc != Gone
    ensures Owners(slots, handlers[h := handlers[h].(pc := pc)], ousted)
    ensures Owners(slots[handlers[h].slot := slots[handlers[h].slot].(lastPing := time)], handlers[h := handlers[h].(pc := pc)], ousted)
  {
  }

  /** Freeing a slot leaves its client ousted, unless it is the work of its own handler. */
  lemma FreeingKeepsOwners(slots: seq<Slot>, handlers: seq<Handler>, ousted: set<nat>, c: nat, name: string)
    requires Owners(slots, handlers, ousted) && c < |slots| && slots[c].active
    ensures Owners(slots[c := slots[c].(active := false, name := name)], handlers, ousted + {slots[c].client})
  {
  }

  lemma LeavingKeepsOwners(slots: seq<Slot>, handlers: seq<Handler>, ousted: set<nat>, h: nat)
    requires Owners(slots, handlers, ousted) && h < |handlers| && handlers[h].slot < |slots| && handlers[h].pc == Leaving
    ensures var c := handlers[h].slot;
      var after := if slots[c].active then slots[c := slots[c].(active := false, name := "")] else slots;
      Owners(after, handlers[h := handlers[h].(pc := Gone)], ousted + Stranger(slots, c, handlers[h].client))
  {
    var c := handlers[h].slot;
    if slots[c].active && slots[c].client != handlers[h].client {
      FreeingKeepsOwners(slots, handlers, ousted, c, "");
    }
  }

  lemma LeaveStepKeepsOwners(s: State, h: nat)
    requires Inv(s) && h < |s.handlers| && s.handlers[h].pc == Leaving
    ensures var t := LeaveStep(s, h);
      Owners(t.slots, t.handlers, Ousted(t)) && (t.robbed != {} ==> t.evicted != {})
  {
    var t, me := LeaveStep(s, h), s.handlers[h];
    LeavingKeepsOwners(s.slots, s.handlers, Ousted(s), h);
    assert Ousted(t) == Ousted(s) + Stranger(s.slots, me.slot, me.client);
  }

  lemma HandlerKeepsOwners(s: State, h: nat, input: Input)
    requires Inv(s) && Enabled(s, HandlerRuns(h, input))
    ensures var t := HandlerStep(s, h, input);
      Owners(t.slots, t.handlers, Ousted(t)) && (t.robbed != {} ==> t.evicted != {})
  {
    var t := HandlerStep(s, h, input);
    var me := s.handlers[h];
    if me.pc == Leaving {
      LeaveStepKeepsOwners(s, h);
    } else {
      MoveKeepsOwners(s.slots, s.handlers, Ousted(s), h, t.handlers[h].pc, if me.pc.Storing? then me.pc.time else 0);
    }
  }

  /** A handler leaves the accept loop and the sweep alone, and at most refreshes or frees its slot. */
  lemma HandlerFrame(s: State, h: nat, input: Input)
    requires Shape(s) && Locking(s.sweep, s.locked, s.slots) && Enabled(s, HandlerRuns(h, input))
    ensures var t := HandlerStep(s, h, input);
      && t.accept == s.accept && t.sweep == s.sweep && t.locked == s.locked
      && Shape(t) && Locking(t.sweep, t.locked, t.slots) && OnlyFrees(s.slots, t.slots)
  {
  }

  lemma HandlerCounts(s: State, h: nat, input: Input)
    requires Shape(s) && Enabled(s, HandlerRuns(h, input))
    ensures var t := HandlerStep(s, h, input);
      t.clientCount - s.clientCount == Sum(IsActive, t.slots) - Sum(IsActive, s.slots)
  {
    var c := s.handlers[h].slot;
    SumUpdate(IsActive, s.slots, c, HandlerStep(s, h, input).slots[c]);
  }

  lemma HandlerKeepsInv(s: State, h: nat, input: Input)
    requires Inv(s) && Enabled(s, HandlerRuns(h, input))
    ensures Inv(HandlerStep(s, h, input))
  {
    HandlerFrame(s, h, input);
    HandlerCounts(s, h, input);
    FreeingKeepsNames(s.accept, s.slots, HandlerStep(s, h, input).slots);
    HandlerKeepsOwners(s, h, input);
  }

  lemma SweepKeepsInv(s: State)
    requires Inv(s) && Enabled(s, SweepRuns)
    ensures Inv(SweepStep(s))
  {
    var t := SweepStep(s);
    if s.sweep.Evicting? {
      var i := s.sweep.at;
      SumUpdate(IsActive, s.slots, i, t.slots[i]);
      FreeingKeepsOwners(s.slots, s.handlers, Ousted(s), i, s.slots[i].name);
      assert Ousted(t) == Ousted(s) + {s.slots[i].client};
    }
    FreeingKeepsNames(s.accept, s.slots, t.slots);
  }

  lemma StepKeepsInv(s: State, a: Action)
    requires Inv(s) && Enabled(s, a)
    ensures Inv(Next(s, a))
  {
    match a
    case AcceptRuns => AcceptKeepsInv(s);
    case HandlerRuns(h, input) => HandlerKeepsInv(s, h, input);
    case SweepRuns => SweepKeepsInv(s);
    case _ =>
  }

  lemma InitInv(size: nat, clock: int)
    ensures Inv(Init(size, clock))
  {
    SumConstant(IsActive, Init(size, clock).slots, 0);
  }

  lemma {:induction false} RunKeepsInv(s: State, acts: seq<Action>, t: State)
    requires Inv(s) && Run(s, acts, t)
    ensures Inv(t)
    decreases |acts|
  {
    if acts != [] {
      StepKeepsInv(s, acts[0]);
      RunKeepsInv(Next(s, acts[0]), acts[1..], t);
    }
  }

  /** The names of the active clients differ and client_count counts them, in every state of every run, although
      the check for the name and the taking of the slot are separate steps. */
  lemma NamesDistinctAndCounted(size: nat, clock: int, acts: seq<Action>, s: State)
    requires Run(Init(size, clock), acts, s)
    ensures forall i, j :: 0 <= i < j < |s.slots| && s.slots[i].active && s.slots[j].active ==> s.slots[i].name != s.slots[j].name
    ensures s.clientCount == Sum(IsActive, s.slots)
  {
    InitInv(size, clock);
    RunKeepsInv(Init(size, clock), acts, s);
  }

  /** A client whose name has passed the check is turned away exactly if every slot is taken when the accept loop
      gets the mutex, and otherwise enters the first free slot without disturbing anybody. */
  lemma TakingASlot(size: nat, clock: int, acts: seq<Action>, s: State)
    requires Run(Init(size, clock), acts, s) && s.accept.Taking? && !s.locked
    ensures Shape(s) && forall i :: 0 <= i < |s.slots| && s.slots[i].active ==> s.slots[i].name != s.accept.name
    ensures AcceptStep(s).outcomes == s.outcomes + [Full] <==> forall i :: 0 <= i < |s.slots| ==> s.slots[i].active
    ensures AcceptStep(s).outcomes != s.outcomes + [Full] ==> exists r: nat ::
      r < |s.slots| && !s.slots[r].active && (forall i :: 0 <= i < r ==> s.slots[i].active)
      && AcceptStep(s).outcomes == s.outcomes + [Welcome(r)] && AcceptStep(s).slots == s.slots[r := Slot(true, s.accept.name, s.clock, |s.handlers| + 1)]
  {
    InitInv(size, clock);
    RunKeepsInv(Init(size, clock), acts, s);
    FindFreeMeaning(s.slots, 0);
    var last := AcceptStep(s).outcomes[|s.outcomes|];
    assert (s.outcomes + [Full])[|s.outcomes|] == Full;
  }

  lemma {:induction false} RunConcat(s: State, acts: seq<Action>, t: State, more: seq<Action>, u: State)
    requires Run(s, acts, t) && Run(t, more, u)
    ensures Run(s, acts + more, u)
    decreases |acts|
  {
    if acts == [] {
      assert acts + more == more;
    } else {
      assert (acts + more)[1..] == acts[1..] + more;
      RunConcat(Next(s, acts[0]), acts[1..], t, more, u);
    }
  }

  lemma RunExtends(s: State, acts: seq<Action>, t: State, a: Action)
    requires Run(s, acts, t) && Shape(t) && Enabled(t, a)
    ensures Run(s, acts + [a], Next(t, a))
  {
    assert [a][1..] == [];
    assert Run(Next(t, a), [a][1..], Next(t, a));
    RunConcat(s, acts, t, [a], Next(t, a));
  }
}
