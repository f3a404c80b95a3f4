/** Whether the sweep of the TCP server is fair.  A handler stores the time it has read without the mutex, and if
    it outlives its client it stores it in the slot of whoever came after. */
module TcpSweep {
  import opened TcpRegistryProtocol
  import opened TcpRegistryCorrect
  import opened TcpRuns

  /** The time that a handler is about to store. */
  ghost predicate Pending(pc: HandlerPc, lastPing: int)
  {
    pc.Storing? ==> lastPing <= pc.time
  }

  /** No time lies in the future, and no handler is about to set back the time of its own client, as long as that
      was not touched by another. */
  ghost predicate Times(slots: seq<Slot>, handlers: seq<Handler>, touched: set<nat>, clock: int)
  {
    && (forall h :: 0 <= h < |handlers| && handlers[h].pc.Storing? ==> handlers[h].pc.time <= clock)
    && (forall i :: 0 <= i < |slots| && slots[i].active && slots[i].client !in touched ==>
      && slots[i].lastPing <= clock
      && 1 <= slots[i].client <= |handlers| && Pending(handlers[slots[i].client - 1].pc, slots[i].lastPing))
    && (forall c :: c in touched ==> c <= |handlers|)
  }

  /** A slot before and during a sweep.  Nobody comes in; and for a client that no other handler has touched, its
      time only moves forward, it is evicted only if stale from the beginning, and not kept if stale. */
  ghost predicate Swept(now: int, earlier: Slot, slot: Slot, visited: bool, touched: set<nat>)
  {
    && (slot.active ==> earlier.active && earlier.client == slot.client)
    && (earlier.active && earlier.client !in touched ==>
      if slot.active then earlier.lastPing <= slot.lastPing && (visited ==> !Stale(now, slot))
      else visited && Stale(now, earlier))
  }

  ghost predicate SweptTo(i: nat, now: int, before: seq<Slot>, slots: seq<Slot>, touched: set<nat>)
  {
    |before| == |slots| && forall j :: 0 <= j < |slots| ==> Swept(now, before[j], slots[j], j < i, touched)
  }

  ghost predicate Sweep(sweep: SweepPc, before: seq<Slot>, slots: seq<Slot>, touched: set<nat>)
  {
    match sweep
    case Sweeping(i, now) => SweptTo(i, now, before, slots, touched)
    case Evicting(i, now) =>
      && i < |slots| && SweptTo(i, now, before, slots, touched)
      && (before[i].client !in touched ==> Stale(now, before[i]))
    case _ => true
  }

  /** Only handlers that have lost their own client touch others. */
  ghost predicate Fair(s: State)
  {
    && Times(s.slots, s.handlers, s.touched, s.clock)
    && Sweep(s.sweep, s.before, s.slots, s.touched)
    && (s.touched != {} ==> s.evicted != {})
  }

  // ----- every step keeps it -----

  lemma AcceptKeepsFair(s: State)
    requires Inv(s) && Fair(s) && Enabled(s, AcceptRuns)
    ensures Fair(AcceptStep(s))
  {
    FindFreeMeaning(s.slots, 0);
    if s.accept.Taking? && FindFree(s.slots, 0) >= 0 {
      EntryKeepsTimes(s.slots, s.handlers, s.touched, s.clock, FindFree(s.slots, 0), s.accept.name);
    }
  }

  lemma EntryKeepsTimes(slots: seq<Slot>, handlers: seq<Handler>, touched: set<nat>, clock: int, r: nat, name: string)
    requires Times(slots, handlers, touched, clock) && r < |slots|
    ensures Times(slots[r := Slot(true, name, clock, |handlers| + 1)], handlers + [Handler(r, |handlers| + 1, Serving)], touched, clock)
  {
  }

  /** A handler moves on; if it is about to store a time, it has just read it. */
  lemma MoveKeepsTimes(slots: seq<Slot>, handlers: seq<Handler>, touched: set<nat>, clock: int, h: nat, pc: HandlerPc)
    requires Times(slots, handlers, touched, clock) && h < |handlers|
    requires pc.Storing? ==> pc.time == clock
    ensures Times(slots, handlers[h := handlers[h].(pc := pc)], touched, clock)
  {
  }

  lemma StoreKeepsTimes(slots: seq<Slot>, handlers: seq<Handler>, touched: set<nat>, clock: int, h: nat, pc: HandlerPc)
    requires Times(slots, handlers, touched, clock)
    requires h < |handlers| && handlers[h].slot < |slots| && handlers[h].pc.Storing? && !pc.Storing?
    requires handlers[h].client == h + 1 && forall i :: 0 <= i < |slots| && slots[i].active ==> slots[i].client <= |handlers|
    ensures var c := handlers[h].slot;
      Times(slots[c := slots[c].(lastPing := handlers[h].pc.time)], handlers[h := handlers[h].(pc := pc)],
            touched + Stranger(slots, c, handlers[h].client), clock)
  {
  }

  /** During a sweep handlers can only store times, and what they store keeps the sweep fair to all they do not touch. */
  lemma StoreKeepsSwept(i: nat, now: int, before: seq<Slot>, slots: seq<Slot>, touched: set<nat>, c: nat, own: nat, time: int)
    requires SweptTo(i, now, before, slots, touched) && c < |slots|
    requires slots[c].active && slots[c].client == own && own !in touched ==> slots[c].lastPing <= time
    ensures SweptTo(i, now, before, slots[c := slots[c].(lastPing := time)], touched + Stranger(slots, c, own))
  {
    var after, more := slots[c := slots[c].(lastPing := time)], touched + Stranger(slots, c, own);
    forall j | 0 <= j < |slots| ensures Swept(now, before[j], after[j], j < i, more) {
      assert Swept(now, before[j], slots[j], j < i, touched);
    }
  }

  lemma StoreKeepsSweep(s: State, h: nat, input: Input)
    requires Inv(s) && Fair(s) && Enabled(s, HandlerRuns(h, input)) && s.handlers[h].pc.Storing?
    ensures Sweep(s.sweep, s.before, HandlerStep(s, h, input).slots, HandlerStep(s, h, input).touched)
  {
    var me := s.handlers[h];
    if s.sweep.Sweeping? || s.sweep.Evicting? {
      StoreKeepsSwept(s.sweep.at, s.sweep.now, s.before, s.slots, s.touched, me.slot, me.client, me.pc.time);
    }
  }

  lemma TouchingNeedsEviction(s: State, h: nat)
    requires Inv(s) && h < |s.handlers| && s.handlers[h].pc != Gone
    ensures Stranger(s.slots, s.handlers[h].slot, s.handlers[h].client) != {} ==> s.evicted != {}
  {
  }

  lemma StoreKeepsFair(s: State, h: nat, input: Input)
    requires Inv(s) && Fair(s) && Enabled(s, HandlerRuns(h, input)) && s.handlers[h].pc.Storing?
    ensures Fair(HandlerStep(s, h, input))
  {
    StoreKeepsTimes(s.slots, s.handlers, s.touched, s.clock, h, AfterStoring(s.handlers[h].pc.input));
    StoreKeepsSweep(s, h, input);
    TouchingNeedsEviction(s, h);
  }

  lemma LeavingKeepsTimes(slots: seq<Slot>, handlers: seq<Handler>, touched: set<nat>, clock: int, c: nat)
    requires Times(slots, handlers, touched, clock) && c < |slots|
    ensures Times(slots[c := slots[c].(active := false, name := "")], handlers, touched, clock)
  {
  }

  lemma HandlerKeepsFair(s: State, h: nat, input: Input)
    requires Inv(s) && Fair(s) && Enabled(s, HandlerRuns(h, input))
    ensures Fair(HandlerStep(s, h, input))
  {
    var me := s.handlers[h];
    if me.pc.Storing? {
      StoreKeepsFair(s, h, input);
    } else {
      var t := HandlerStep(s, h, input);
      MoveKeepsTimes(s.slots, s.handlers, s.touched, s.clock, h, t.handlers[h].pc);
      LeavingKeepsTimes(s.slots, t.handlers, s.touched, s.clock, me.slot);
    }
  }

  lemma EvictionKeepsTimes(slots: seq<Slot>, handlers: seq<Handler>, touched: set<nat>, clock: int, i: nat)
    requires Times(slots, handlers, touched, clock) && i < |slots|
    ensures Times(slots[i := slots[i].(active := false)], handlers, touched, clock)
  {
  }

  lemma SweepKeepsFair(s: State)
    requires Inv(s) && Fair(s) && Enabled(s, SweepRuns)
    ensures Fair(SweepStep(s))
  {
    match s.sweep
    case Evicting(i, now) => EvictionKeepsTimes(s.slots, s.handlers, s.touched, s.clock, i);
    case _ =>
  }

  lemma StepKeepsFair(s: State, a: Action)
    requires Inv(s) && Fair(s) && Enabled(s, a)
    ensures Fair(Next(s, a))
  {
    match a
    case AcceptRuns => AcceptKeepsFair(s);
    case HandlerRuns(h, input) => HandlerKeepsFair(s, h, input);
    case SweepRuns => SweepKeepsFair(s);
    case _ =>
  }

  lemma {:induction false} RunKeepsFair(s: State, acts: seq<Action>, t: State)
    requires Inv(s) && Fair(s) && Run(s, acts, t)
    ensures Inv(t) && Fair(t) && |t.slots| == |s.slots|
    decreases |acts|
  {
    if acts != [] {
      StepKeepsInv(s, acts[0]);
      StepKeepsFair(s, acts[0]);
      StepKeepsSize(s, acts[0]);
      RunKeepsFair(Next(s, acts[0]), acts[1..], t);
    }
  }

  lemma StepKeepsSize(s: State, a: Action)
    requires Shape(s) && Enabled(s, a)
    ensures |Next(s, a).slots| == |s.slots|
  {
    if a.AcceptRuns? {
      FindFreeMeaning(s.slots, 0);
    }
  }

  /** At the end of a sweep nobody has come in; and of the clients that no other client's handler has touched,
      whoever was within 60 seconds of the time the sweep read when it took the mutex is still there, and whoever
      is still there is within 60 seconds of it.  As long as nobody has ever been evicted, that is all of them. */
  lemma SweepIsFair(size: nat, clock: int, acts: seq<Action>, s: State)
    requires Run(Init(size, clock), acts, s) && s.sweep.Sweeping? && s.sweep.at == size
    ensures |s.before| == |s.slots| == size
    ensures forall i :: 0 <= i < size && s.slots[i].active ==> s.before[i].active && s.slots[i].client == s.before[i].client
    ensures forall i :: 0 <= i < size && s.before[i].active && s.before[i].client !in s.touched ==>
      (if s.slots[i].active then s.sweep.now - s.slots[i].lastPing <= 60 else s.sweep.now - s.before[i].lastPing > 60)
    ensures s.evicted == {} ==> s.touched == {}
  {
    InitInv(size, clock);
    RunKeepsFair(Init(size, clock), acts, s);
    forall i | 0 <= i < size ensures Swept(s.sweep.now, s.before[i], s.slots[i], true, s.touched) {
    }
  }
}
