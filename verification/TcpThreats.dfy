/** Exactly when a sweep of the TCP server can evict a client that is up to date, or leave one behind that is
    not: when a handler of the slot has read the time of a message long ago and has still to store it. */
module TcpThreats {
  import opened TcpRegistryProtocol
  import opened TcpRegistryCorrect
  import opened TcpRuns
  import opened TcpSweep

  ghost predicate Fresh(now: int, slot: Slot)
  {
    slot.active && now - slot.lastPing <= TIMEOUT_SECONDS
  }

  /** Handler h is about to set the time of slot i to one more than 60 seconds before `now`. */
  ghost predicate Threatens(handler: Handler, i: nat, now: int)
  {
    handler.slot == i && handler.pc.Storing? && now - handler.pc.time > TIMEOUT_SECONDS
  }

  ghost predicate Threatened(handlers: seq<Handler>, i: nat, now: int)
  {
    exists h :: 0 <= h < |handlers| && Threatens(handlers[h], i, now)
  }

  // ----- without a threat -----

  ghost predicate InSweep(sweep: SweepPc, now: int)
  {
    (sweep.Sweeping? || sweep.Evicting?) && sweep.now == now
  }

  /** Nobody threatens slot i, and it is up to date if it is active. */
  ghost predicate Safe(s: State, i: nat, now: int)
  {
    && i < |s.slots| && InSweep(s.sweep, now) && s.sweep != Evicting(i, now)
    && now <= s.clock
    && !Stale(now, s.slots[i])
    && !Threatened(s.handlers, i, now)
  }

  /** While the sweep has the mutex a handler can only store the time it has read or read the time that it is. */
  lemma HandlerKeepsSafe(s: State, h: nat, input: Input, i: nat, now: int)
    requires Inv(s) && Safe(s, i, now) && Enabled(s, HandlerRuns(h, input))
    ensures Safe(HandlerStep(s, h, input), i, now)
  {
    var t := HandlerStep(s, h, input);
    assert !Threatens(s.handlers[h], i, now);
    assert !Threatens(t.handlers[h], i, now);
    assert forall g :: 0 <= g < |s.handlers| && g != h ==> t.handlers[g] == s.handlers[g];
  }

  lemma StepKeepsSafe(s: State, a: Action, i: nat, now: int)
    requires Inv(s) && Safe(s, i, now) && Enabled(s, a)
    ensures s.sweep != Sweeping(|s.slots|, now) || !a.SweepRuns? ==> Safe(Next(s, a), i, now)
  {
    match a
    case HandlerRuns(h, input) => HandlerKeepsSafe(s, h, input, i, now);
    case _ =>
  }

  lemma {:induction false} SweepRunKeepsSafe(s: State, acts: seq<Action>, t: State, i: nat, now: int)
    requires Inv(s) && Safe(s, i, now) && SweepRun(s, acts, t)
    ensures Safe(t, i, now)
    decreases |acts|
  {
    if acts != [] {
      StepKeepsInv(s, acts[0]);
      StepKeepsSafe(s, acts[0], i, now);
      SweepRunKeepsSafe(Next(s, acts[0]), acts[1..], t, i, now);
    }
  }

  // ----- with a threat -----

  lemma Store(s: State, h: nat) returns (t: State)
    requires Shape(s) && h < |s.handlers| && s.handlers[h].pc.Storing? && s.sweep.Sweeping?
    ensures t == HandlerStep(s, h, Message) && Shape(t) && SweepRun(s, [HandlerRuns(h, Message)], t)
  {
    t := HandlerStep(s, h, Message);
    SweepRunOne(s, HandlerRuns(h, Message));
  }

  /** The sweep comes to slot i, the handler stores the old time, and the sweep decides to evict. */
  lemma Evict(s: State, i: nat, h: nat) returns (acts: seq<Action>, t: State)
    requires Shape(s) && s.sweep.Sweeping? && s.sweep.at <= i < |s.slots| && s.slots[i].active
    requires h < |s.handlers| && Threatens(s.handlers[h], i, s.sweep.now)
    ensures SweepRun(s, acts, t) && Shape(t) && t.sweep == Evicting(i, s.sweep.now) && t.before == s.before && |t.slots| == |s.slots|
    ensures s.sweep.at == i ==> t.touched == s.touched + Stranger(s.slots, i, s.handlers[h].client)
  {
    var u;
    acts, u := Walk(s, i);
    t := Store(u, h);
    SweepRunConcat(s, acts, u, [HandlerRuns(h, Message)], t);
    acts := acts + [HandlerRuns(h, Message)];
    SweepRunOne(t, SweepRuns);
    SweepRunConcat(s, acts, t, [SweepRuns], Next(t, SweepRuns));
    acts, t := acts + [SweepRuns], Next(t, SweepRuns);
  }

  /** The sweep passes slot i, the handler stores the old time, and the sweep goes on to its end. */
  lemma SetBack(s: State, i: nat, h: nat) returns (acts: seq<Action>, t: State)
    requires Shape(s) && s.sweep.Sweeping? && s.sweep.at <= i < |s.slots| && Fresh(s.sweep.now, s.slots[i])
    requires h < |s.handlers| && Threatens(s.handlers[h], i, s.sweep.now)
    ensures SweepRun(s, acts, t) && |t.slots| == |s.slots|
    ensures t.sweep == Sweeping(|s.slots|, s.sweep.now) && Stale(s.sweep.now, t.slots[i])
  {
    var u, v, more;
    acts, u := Walk(s, i + 1);
    v := Store(u, h);
    SweepRunConcat(s, acts, u, [HandlerRuns(h, Message)], v);
    acts := acts + [HandlerRuns(h, Message)];
    more, t := Walk(v, |s.slots|);
    SweepRunConcat(s, acts, v, more, t);
    acts := acts + more;
  }

  // ----- in reachable states -----

  /** The sweep does not live in the future. */
  ghost predicate OnTime(s: State)
  {
    s.sweep != Asleep ==> s.sweep.now <= s.clock
  }

  lemma {:induction false} RunKeepsOnTime(s: State, acts: seq<Action>, t: State)
    requires Inv(s) && OnTime(s) && Run(s, acts, t)
    ensures Inv(t) && OnTime(t)
    decreases |acts|
  {
    if acts != [] {
      StepKeepsInv(s, acts[0]);
      StepKeepsOnTime(s, acts[0]);
      RunKeepsOnTime(Next(s, acts[0]), acts[1..], t);
    }
  }

  lemma StepKeepsOnTime(s: State, a: Action)
    requires Shape(s) && OnTime(s) && Enabled(s, a)
    ensures OnTime(Next(s, a))
  {
    if a.AcceptRuns? {
      FindFreeMeaning(s.slots, 0);
    }
  }

  /** The sweep in progress can still come to evict the client in slot i. */
  ghost predicate CanBeEvicted(s: State, i: nat, now: int)
  {
    exists acts, t :: SweepRun(s, acts, t) && t.sweep == Evicting(i, now)
  }

  /** The sweep in progress can end with the client in slot i kept and out of date. */
  ghost predicate CanBeKeptStale(s: State, i: nat, now: int)
  {
    exists acts, t :: SweepRun(s, acts, t) && t.sweep == Sweeping(|s.slots|, now) && i < |t.slots| && Stale(now, t.slots[i])
  }

  /** At any moment of a sweep, in particular when it has just taken the mutex, and for any client that it has still
      to come to and that is up to date: the sweep can come to evict it exactly if a handler of its slot has read a
      time of more than 60 seconds before and not yet stored it; and exactly then it can be left there with such a
      time at the end. */
  lemma WhenASweepCanBeUnfair(size: nat, clock: int, past: seq<Action>, s: State, i: nat)
    requires Run(Init(size, clock), past, s)
    requires s.sweep.Sweeping? && s.sweep.at <= i < |s.slots| && Fresh(s.sweep.now, s.slots[i])
    ensures CanBeEvicted(s, i, s.sweep.now) <==> Threatened(s.handlers, i, s.sweep.now)
    ensures CanBeKeptStale(s, i, s.sweep.now) <==> Threatened(s.handlers, i, s.sweep.now)
  {
    InitInv(size, clock);
    RunKeepsOnTime(Init(size, clock), past, s);
    var now := s.sweep.now;
    if Threatened(s.handlers, i, now) {
      var h :| 0 <= h < |s.handlers| && Threatens(s.handlers[h], i, now);
      var acts, t := Evict(s, i, h);
      var more, u := SetBack(s, i, h);
    } else {
      forall acts, t | SweepRun(s, acts, t) ensures Safe(t, i, now) {
        SweepRunKeepsSafe(s, acts, t, i, now);
      }
    }
  }

  /** A client that no other handler has touched is threatened by handlers that have lost their own client only. */
  lemma WhoThreatens(size: nat, clock: int, past: seq<Action>, s: State, i: nat, h: nat)
    requires Run(Init(size, clock), past, s)
    requires s.sweep.Sweeping? && i < |s.slots| && Fresh(s.sweep.now, s.slots[i]) && s.slots[i].client !in s.touched
    requires h < |s.handlers| && Threatens(s.handlers[h], i, s.sweep.now)
    ensures s.handlers[h].client in Ousted(s)
  {
    InitInv(size, clock);
    RunKeepsFair(Init(size, clock), past, s);
  }

  // ----- a run -----

  /** A sweep evicts a client that had just come, because the handler of the client that had the slot before it
      stores the time of a message of long ago. */
  lemma NewcomerIsEvicted(size: nat, clock: int) returns (acts: seq<Action>, s: State)
    requires size >= 1
    ensures Run(Init(size, clock), acts, s) && Shape(s) && s.sweep == Evicting(0, clock + 61)
    ensures |s.before| == size && s.before[0] == Slot(true, "b", clock + 61, 2) && s.touched == {2}
  {
    var init := Init(size, clock);
    var one, two, more;
    acts, one := Opening(size, clock);
    more, two := Receives(one, Message);
    RunConcat(init, acts, one, more, two);
    acts := acts + more;
    more, one := SlotIsReused(two);
    RunConcat(init, acts, two, more, one);
    acts := acts + more;
    more, two := SweepBegins(one);
    RunConcat(init, acts, one, more, two);
    acts := acts + more;
    more, s := Evict(two, 0, 0);
    SweepRunIsRun(two, more, s);
    RunConcat(init, acts, two, more, s);
    acts := acts + more;
  }

  ghost predicate Unfair(size: nat, clock: int, acts: seq<Action>, s: State)
  {
    && Run(Init(size, clock), acts, s)
    && s.sweep.Evicting? && s.sweep.at < |s.before| && Fresh(s.sweep.now, s.before[s.sweep.at])
  }

  /** A sweep can evict a client that was up to date when it took the mutex, in every server that has a slot at all. */
  lemma WhenSomeSweepIsUnfair(size: nat, clock: int)
    ensures (exists acts, s :: Unfair(size, clock, acts, s)) <==> size >= 1
  {
    forall acts, s | Unfair(size, clock, acts, s) ensures size >= 1 {
      InitInv(size, clock);
      RunKeepsFair(Init(size, clock), acts, s);
    }
    if size >= 1 {
      var acts, s := NewcomerIsEvicted(size, clock);
      assert Unfair(size, clock, acts, s);
    }
  }
}
