/** What becomes of a connection to the TCP server, and of a search for the receiver of a private message, followed
    from beginning to end through whatever the other threads do. */
module TcpConnections {
  import opened TcpRegistryProtocol
  import opened TcpRegistryCorrect
  import opened TcpSweep

  // ----- connections -----

  ghost predicate NameInUse(slots: seq<Slot>, name: string)
  {
    exists i :: 0 <= i < |slots| && slots[i].active && slots[i].name == name
  }

  ghost predicate AllActive(slots: seq<Slot>, n: nat)
  {
    forall i :: 0 <= i < n && i < |slots| ==> slots[i].active
  }

  /** `last` is the state before the last step of the accept loop for the connection, `end` the one after it. */
  ghost predicate Answered(start: State, last: State, end: State, name: string)
  {
    if NameInUse(last.slots, name) then
      end.outcomes == start.outcomes + [NameTaken] && end.slots == last.slots && end.handlers == last.handlers
    else if AllActive(last.slots, |last.slots|) then
      end.outcomes == start.outcomes + [Full] && end.slots == last.slots && end.handlers == last.handlers
    else exists r: nat :: r < |last.slots| && Welcomed(start, last, end, r, name)
  }

  /** The first free slot is the newcomer's, and a handler serves it. */
  ghost predicate Welcomed(start: State, last: State, end: State, r: nat, name: string)
    requires r < |last.slots|
  {
    && end.outcomes == start.outcomes + [Welcome(r)]
    && !last.slots[r].active && AllActive(last.slots, r)
    && end.slots == last.slots[r := Slot(true, name, last.clock, |last.handlers| + 1)]
    && end.handlers == last.handlers + [Handler(r, |last.handlers| + 1, Serving)]
  }

  /** A run during which the accept loop is busy with the same connection. */
  ghost predicate Busy(s: State, acts: seq<Action>, t: State)
    decreases |acts|
  {
    && s.accept != Accepting
    && if acts == [] then s == t
       else Shape(s) && Enabled(s, acts[0]) && Busy(Next(s, acts[0]), acts[1..], t)
  }

  lemma {:induction false} BusyWith(s: State, acts: seq<Action>, t: State)
    requires Inv(s) && Busy(s, acts, t)
    ensures Inv(t) && t.accept != Accepting && t.accept.name == s.accept.name && t.outcomes == s.outcomes
    decreases |acts|
  {
    if acts != [] {
      StepKeepsInv(s, acts[0]);
      StaysBusy(s, acts[0]);
      BusyWith(Next(s, acts[0]), acts[1..], t);
    }
  }

  lemma StaysBusy(s: State, a: Action)
    requires Shape(s) && s.accept != Accepting && Enabled(s, a) && Next(s, a).accept != Accepting
    ensures Next(s, a).accept.name == s.accept.name && Next(s, a).outcomes == s.outcomes
  {
  }

  lemma LastStep(start: State, s: State, name: string)
    requires Inv(s) && s.accept != Accepting && s.accept.name == name && s.outcomes == start.outcomes
    requires Enabled(s, AcceptRuns) && AcceptStep(s).accept == Accepting
    ensures Answered(start, s, AcceptStep(s), name)
  {
    if s.accept.Taking? {
      FindFreeMeaning(s.slots, 0);
      if FindFree(s.slots, 0) >= 0 {
        assert Welcomed(start, s, AcceptStep(s), FindFree(s.slots, 0), name);
      }
    }
  }

  /** Every connection is answered, with exactly one outcome: the name is refused if a client has it, although the
      search and the entry are separate steps; otherwise it is turned away if every slot is taken, and otherwise it
      enters the first free one and is served. */
  lemma ConnectionsAreAnswered(size: nat, clock: int, past: seq<Action>, start: State, name: string, acts: seq<Action>, last: State)
    requires Run(Init(size, clock), past, start) && start.accept == Accepting && |name| < MAX_NAME_LEN
    requires Shape(start) && Busy(Next(start, Connect(name)), acts, last)
    requires Shape(last) && Enabled(last, AcceptRuns) && Next(last, AcceptRuns).accept == Accepting
    ensures Answered(start, last, Next(last, AcceptRuns), name)
  {
    InitInv(size, clock);
    RunKeepsInv(Init(size, clock), past, start);
    StepKeepsInv(start, Connect(name));
    BusyWith(Next(start, Connect(name)), acts, last);
    LastStep(start, last, name);
  }

  function StepsLeft(accept: AcceptPc, n: int): int
  {
    match accept
    case Accepting => 0
    case Checking(_, i) => n - i + 2
    case Taking(_) => 1
  }

  /** The accept loop takes at most n + 2 steps for a connection. */
  lemma AcceptGetsOn(s: State)
    requires Inv(s) && Enabled(s, AcceptRuns)
    ensures 0 <= StepsLeft(AcceptStep(s).accept, |s.slots|) < StepsLeft(s.accept, |s.slots|) <= |s.slots| + 2
  {
    if s.accept.Taking? {
      FindFreeMeaning(s.slots, 0);
    }
  }

  // ----- searches -----

  /** A run during which handler h goes on with the same search. */
  ghost predicate Searching(s: State, acts: seq<Action>, t: State, h: nat)
    decreases |acts|
  {
    && h < |s.handlers| && s.handlers[h].pc.FindingTarget?
    && if acts == [] then s == t
       else Shape(s) && Enabled(s, acts[0]) && Searching(Next(s, acts[0]), acts[1..], t, h)
  }

  /** Whoever has that name in the first n slots has a connection of a number above `known`. */
  ghost predicate OnlyNewcomers(slots: seq<Slot>, target: string, n: nat, known: nat)
  {
    forall i :: 0 <= i < n && i < |slots| && slots[i].active && slots[i].name == target ==> slots[i].client > known
  }

  ghost predicate Sought(s: State, h: nat, target: string, known: nat)
  {
    && h < |s.handlers| && s.handlers[h].pc.FindingTarget? && s.handlers[h].pc.target == target
    && known <= |s.handlers| && OnlyNewcomers(s.slots, target, s.handlers[h].pc.at, known)
  }

  lemma HandlerKeepsSought(s: State, g: nat, input: Input, h: nat, target: string, known: nat)
    requires Inv(s) && Sought(s, h, target, known) && Enabled(s, HandlerRuns(g, input))
    requires HandlerStep(s, g, input).handlers[h].pc.FindingTarget?
    ensures Sought(HandlerStep(s, g, input), h, target, known)
  {
  }

  lemma StepKeepsSought(s: State, a: Action, h: nat, target: string, known: nat)
    requires Inv(s) && Sought(s, h, target, known) && Enabled(s, a)
    requires h < |Next(s, a).handlers| && Next(s, a).handlers[h].pc.FindingTarget?
    ensures Sought(Next(s, a), h, target, known)
  {
    match a
    case HandlerRuns(g, input) => HandlerKeepsSought(s, g, input, h, target, known);
    case AcceptRuns => FindFreeMeaning(s.slots, 0);
    case _ =>
  }

  lemma {:induction false} SearchingKeepsSought(s: State, acts: seq<Action>, t: State, h: nat, target: string, known: nat)
    requires Inv(s) && Sought(s, h, target, known) && Searching(s, acts, t, h)
    ensures Inv(t) && Sought(t, h, target, known)
    decreases |acts|
  {
    if acts != [] {
      var u := Next(s, acts[0]);
      StepKeepsInv(s, acts[0]);
      assert u.handlers[h].pc.FindingTarget?;
      StepKeepsSought(s, acts[0], h, target, known);
      SearchingKeepsSought(u, acts[1..], t, h, target, known);
    }
  }

  /** A search that ends without success has missed nobody: no client that was connected when it began has the name at
      its end.  One that succeeds has found a client that has the name, and none that was connected before it in the
      table. */
  lemma SearchesMissNobody(size: nat, clock: int, past: seq<Action>, s: State, h: nat, target: string,
                           acts: seq<Action>, last: State, input: Input)
    requires Run(Init(size, clock), past, s) && h < |s.handlers| && s.handlers[h].pc == FindingTarget(target, 0)
    requires Searching(s, acts, last, h) && Shape(last) && Enabled(last, HandlerRuns(h, input))
    ensures h < |last.handlers| == |HandlerStep(last, h, input).handlers|
    ensures var pc := HandlerStep(last, h, input).handlers[h].pc;
      match pc
      case FindingTarget(sought, _) => sought == target
      case Delivering(sought, i, who) =>
        && sought == target && i < |last.slots| && last.slots[i].active && last.slots[i].name == target && last.slots[i].client == who
        && OnlyNewcomers(last.slots, target, i, |s.handlers|)
      case _ => pc == Serving && OnlyNewcomers(last.slots, target, |last.slots|, |s.handlers|)
  {
    InitInv(size, clock);
    RunKeepsInv(Init(size, clock), past, s);
    SearchingKeepsSought(s, acts, last, h, target, |s.handlers|);
  }

  // ----- sweeps -----

  /** While a sweep has the mutex nobody enters, nobody is removed by a handler, and no message is sent. */
  lemma NobodyServedDuringSweep(s: State, a: Action)
    requires Inv(s) && s.locked && Enabled(s, a) && !a.SweepRuns?
    ensures var t := Next(s, a);
      && t.deliveries == s.deliveries && t.clientCount == s.clientCount && |t.slots| == |s.slots| && |t.handlers| == |s.handlers|
      && forall i :: 0 <= i < |s.slots| ==> t.slots[i] == s.slots[i].(lastPing := t.slots[i].lastPing)
  {
  }

  /** The sweep that is under way, if any, awoke after the clock showed `time`. */
  ghost predicate AwokeAfter(s: State, time: int)
  {
    time <= s.clock && (s.sweep != Asleep ==> time <= s.sweep.now <= s.clock)
  }

  lemma StepKeepsAwoke(s: State, a: Action, time: int)
    requires Shape(s) && AwokeAfter(s, time) && Enabled(s, a)
    ensures AwokeAfter(Next(s, a), time)
  {
    if a.AcceptRuns? {
      FindFreeMeaning(s.slots, 0);
    }
  }

  /** A sweep uses the time at which it awoke: one that awakes after state s uses none from before s, and none from
      the future. */
  lemma {:induction false} SweepReadsTheClock(s: State, acts: seq<Action>, t: State, time: int)
    requires AwokeAfter(s, time) && Run(s, acts, t)
    ensures AwokeAfter(t, time)
    decreases |acts|
  {
    if acts != [] {
      StepKeepsAwoke(s, acts[0], time);
      SweepReadsTheClock(Next(s, acts[0]), acts[1..], t, time);
    }
  }
}
