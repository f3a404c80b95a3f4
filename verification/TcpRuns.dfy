/** Pieces of runs of the TCP server, for tables of any size. */
module TcpRuns {
  import opened TcpRegistryProtocol
  import opened TcpRegistryCorrect

  lemma One(s: State, a: Action)
    requires Shape(s) && Enabled(s, a)
    ensures Run(s, [a], Next(s, a))
  {
    RunExtends(s, [], s, a);
    assert [] + [a] == [a];
  }

  lemma Two(s: State, a: Action, b: Action)
    requires Shape(s) && Enabled(s, a) && Shape(Next(s, a)) && Enabled(Next(s, a), b)
    ensures Run(s, [a, b], Next(Next(s, a), b))
  {
    One(s, a);
    RunExtends(s, [a], Next(s, a), b);
    assert [a] + [b] == [a, b];
  }

  // ----- inside a sweep -----

  ghost predicate Stale(now: int, slot: Slot)
  {
    slot.active && now - slot.lastPing > TIMEOUT_SECONDS
  }

  /** A run that does not get past the end of the sweep in progress. */
  ghost predicate SweepRun(s: State, acts: seq<Action>, t: State)
    decreases |acts|
  {
    && (s.sweep.Sweeping? || s.sweep.Evicting?)
    && (if acts == [] then s == t
        else Shape(s) && Enabled(s, acts[0]) && SweepRun(Next(s, acts[0]), acts[1..], t))
  }

  lemma {:induction false} SweepRunIsRun(s: State, acts: seq<Action>, t: State)
    requires SweepRun(s, acts, t)
    ensures Run(s, acts, t) && (t.sweep.Sweeping? || t.sweep.Evicting?)
    decreases |acts|
  {
    if acts != [] {
      SweepRunIsRun(Next(s, acts[0]), acts[1..], t);
    }
  }

  lemma {:induction false} SweepRunConcat(s: State, acts: seq<Action>, t: State, more: seq<Action>, u: State)
    requires SweepRun(s, acts, t) && SweepRun(t, more, u)
    ensures SweepRun(s, acts + more, u)
    decreases |acts|
  {
    if acts == [] {
      assert acts + more == more;
    } else {
      assert (acts + more)[1..] == acts[1..] + more;
      SweepRunConcat(Next(s, acts[0]), acts[1..], t, more, u);
    }
  }

  lemma SweepRunOne(s: State, a: Action)
    requires s.sweep.Sweeping? || s.sweep.Evicting?
    requires Shape(s) && Enabled(s, a) && (Next(s, a).sweep.Sweeping? || Next(s, a).sweep.Evicting?)
    ensures SweepRun(s, [a], Next(s, a))
  {
    assert [a][1..] == [];
    assert SweepRun(Next(s, a), [a][1..], Next(s, a));
  }

  /** The sweep visits one slot. */
  lemma Visit(s: State) returns (acts: seq<Action>, t: State)
    requires Shape(s) && s.sweep.Sweeping? && s.sweep.at < |s.slots|
    ensures SweepRun(s, acts, t) && Shape(t) && t.sweep == Sweeping(s.sweep.at + 1, s.sweep.now)
    ensures if Stale(s.sweep.now, s.slots[s.sweep.at])
      then t == s.(slots := s.slots[s.sweep.at := s.slots[s.sweep.at].(active := false)], clientCount := s.clientCount - 1,
                   evicted := s.evicted + {s.slots[s.sweep.at].client}, sweep := t.sweep)
      else t == s.(sweep := t.sweep)
  {
    t := Next(s, SweepRuns);
    SweepRunOne(s, SweepRuns);
    acts := [SweepRuns];
    if Stale(s.sweep.now, s.slots[s.sweep.at]) {
      SweepRunOne(t, SweepRuns);
      SweepRunConcat(s, acts, t, [SweepRuns], Next(t, SweepRuns));
      acts, t := acts + [SweepRuns], Next(t, SweepRuns);
    }
  }

  /** The sweep walks on to slot j while everybody else stands still. */
  lemma {:induction false} Walk(s: State, j: nat) returns (acts: seq<Action>, t: State)
    requires Shape(s) && s.sweep.Sweeping? && s.sweep.at <= j <= |s.slots|
    ensures SweepRun(s, acts, t) && Shape(t) && t.sweep == Sweeping(j, s.sweep.now)
    ensures t.handlers == s.handlers && t.clock == s.clock && t.before == s.before && t.touched == s.touched && |t.slots| == |s.slots|
    ensures forall k :: 0 <= k < |s.slots| && !(s.sweep.at <= k < j && Stale(s.sweep.now, s.slots[k])) ==> t.slots[k] == s.slots[k]
    ensures (forall k :: s.sweep.at <= k < j ==> !Stale(s.sweep.now, s.slots[k])) ==> t == s.(sweep := Sweeping(j, s.sweep.now))
    decreases j - s.sweep.at
  {
    if s.sweep.at == j {
      return [], s;
    }
    var u, more;
    acts, u := Visit(s);
    more, t := Walk(u, j);
    SweepRunConcat(s, acts, u, more, t);
    acts := acts + more;
  }

  // ----- clients come and go -----

  /** The search for a name that nobody has. */
  lemma {:induction false} ChecksInVain(s: State) returns (acts: seq<Action>)
    requires Shape(s) && s.accept.Checking? && FreeUpTo(s.slots, s.accept.name, |s.slots|)
    ensures Run(s, acts, s.(accept := Taking(s.accept.name)))
    decreases |s.slots| - s.accept.at
  {
    One(s, AcceptRuns);
    if s.accept.at == |s.slots| {
      return [AcceptRuns];
    }
    var rest := ChecksInVain(Next(s, AcceptRuns));
    RunConcat(s, [AcceptRuns], Next(s, AcceptRuns), rest, s.(accept := Taking(s.accept.name)));
    acts := [AcceptRuns] + rest;
  }

  ghost predicate Empty(slots: seq<Slot>, from: nat)
  {
    forall i :: from <= i < |slots| ==> !slots[i].active
  }

  /** A client comes when the table is empty. */
  lemma ClientEnters(s: State, name: string) returns (acts: seq<Action>, t: State)
    requires Shape(s) && |s.slots| > 0 && Empty(s.slots, 0) && s.accept == Accepting && !s.locked && |name| < MAX_NAME_LEN
    ensures Run(s, acts, t)
    ensures t == s.(slots := s.slots[0 := Slot(true, name, s.clock, |s.handlers| + 1)], clientCount := s.clientCount + 1,
                    handlers := s.handlers + [Handler(0, |s.handlers| + 1, Serving)], outcomes := s.outcomes + [Welcome(0)])
  {
    var asked := Next(s, Connect(name));
    var ready := asked.(accept := Taking(name));
    var more := ChecksInVain(asked);
    t := Next(ready, AcceptRuns);
    One(s, Connect(name));
    RunConcat(s, [Connect(name)], asked, more, ready);
    acts := [Connect(name)] + more;
    RunExtends(s, acts, ready, AcceptRuns);
    acts := acts + [AcceptRuns];
  }

  /** The only client is evicted 61 seconds after its last message. */
  lemma SweepEvicts(s: State) returns (acts: seq<Action>, t: State)
    requires Shape(s) && |s.slots| > 0 && s.slots[0].active && s.slots[0].lastPing == s.clock && Empty(s.slots, 1)
    requires s.sweep == Asleep && !s.locked
    ensures Run(s, acts, t)
    ensures t == s.(slots := s.slots[0 := s.slots[0].(active := false)], clientCount := s.clientCount - 1, clock := s.clock + 61,
                    before := s.slots, evicted := s.evicted + {s.slots[0].client})
  {
    var late := Next(s, Tick(61));
    var begun, swept, more;
    acts, begun := SweepBegins(late);
    One(s, Tick(61));
    RunConcat(s, [Tick(61)], late, acts, begun);
    acts := [Tick(61)] + acts;
    more, swept := Visit(begun);
    SweepRunIsRun(begun, more, swept);
    RunConcat(s, acts, begun, more, swept);
    acts := acts + more;
    more, t := Walk(swept, |s.slots|);
    SweepRunIsRun(swept, more, t);
    RunConcat(s, acts, swept, more, t);
    acts := acts + more;
    RunExtends(s, acts, t, SweepRuns);
    acts, t := acts + [SweepRuns], Next(t, SweepRuns);
  }

  lemma SweepBegins(s: State) returns (acts: seq<Action>, t: State)
    requires Shape(s) && s.sweep == Asleep && !s.locked
    ensures Run(s, acts, t)
    ensures t == s.(sweep := Sweeping(0, s.clock), locked := true, before := s.slots)
  {
    Two(s, SweepRuns, SweepRuns);
    acts, t := [SweepRuns, SweepRuns], Next(Next(s, SweepRuns), SweepRuns);
  }

  /** Handler 0 gets a message, and has read the time of it. */
  lemma Receives(s: State, input: Input) returns (acts: seq<Action>, t: State)
    requires Shape(s) && |s.handlers| > 0 && s.handlers[0].pc == Serving && s.slots[s.handlers[0].slot].active && input != Closed
    ensures Run(s, acts, t)
    ensures t == s.(handlers := s.handlers[0 := s.handlers[0].(pc := Storing(s.clock, input))])
  {
    var a := HandlerRuns(0, input);
    Two(s, a, a);
    acts, t := [a, a], Next(Next(s, a), a);
    assert t.handlers == s.handlers[0 := s.handlers[0].(pc := Storing(s.clock, input))];
  }

  /** The only client is evicted and "b" gets its slot, while the handlers do nothing. */
  lemma SlotIsReused(s: State) returns (acts: seq<Action>, t: State)
    requires Shape(s) && |s.slots| > 0 && s.slots[0].active && s.slots[0].lastPing == s.clock && Empty(s.slots, 1)
    requires s.accept == Accepting && s.sweep == Asleep && !s.locked
    ensures Run(s, acts, t)
    ensures t == s.(slots := s.slots[0 := Slot(true, "b", s.clock + 61, |s.handlers| + 1)], clock := s.clock + 61,
                    handlers := s.handlers + [Handler(0, |s.handlers| + 1, Serving)], before := s.slots,
                    outcomes := s.outcomes + [Welcome(0)], evicted := s.evicted + {s.slots[0].client})
  {
    var u, more;
    acts, u := SweepEvicts(s);
    more, t := ClientEnters(u, "b");
    RunConcat(s, acts, u, more, t);
    acts := acts + more;
  }

  /** The first client, "a", comes. */
  lemma Opening(size: nat, clock: int) returns (acts: seq<Action>, t: State)
    requires size >= 1
    ensures Run(Init(size, clock), acts, t) && Empty(t.slots, 1) && |t.slots| == size
    ensures t == Init(size, clock).(slots := t.slots, clientCount := 1, handlers := [Handler(0, 1, Serving)], outcomes := [Welcome(0)])
    ensures t.slots[0] == Slot(true, "a", clock, 1)
  {
    acts, t := ClientEnters(Init(size, clock), "a");
  }

  /** A server without slots serves nobody. */
  lemma {:induction false} NoSlotsNoClients(s: State, acts: seq<Action>, t: State)
    requires Run(s, acts, t)
    requires s.slots == [] && s.handlers == [] && s.deliveries == [] && s.robbed == {}
    ensures t.slots == [] && t.handlers == [] && t.deliveries == [] && t.robbed == {}
    decreases |acts|
  {
    if acts != [] {
      NoSlotsNoClients(Next(s, acts[0]), acts[1..], t);
    }
  }
}
