/** Runs of the UDP server put together from requests. */
module UdpRuns {
  import opened UdpRegistryProtocol
  import opened UdpRegistryCorrect

  lemma One(s: State, a: Action)
    requires Shape(s) && Enabled(s, a)
    ensures Run(s, [a], Next(s, a))
  {
    RunExtends(s, [], s, a);
    assert [] + [a] == [a];
  }

  /** The search for a sender that has no slot. */
  lemma {:induction false} SearchesInVain(s: State) returns (acts: seq<Action>)
    requires Shape(s) && s.message.FindingSender? && s.request.Register?
    requires forall i :: 0 <= i < |s.slots| && s.slots[i].active ==> s.slots[i].addr != s.from
    ensures Run(s, acts, s.(message := Registering))
    decreases |s.slots| - s.message.at
  {
    One(s, MessageRuns);
    if s.message.at == |s.slots| {
      return [MessageRuns];
    }
    var rest := SearchesInVain(Next(s, MessageRuns));
    RunConcat(s, [MessageRuns], Next(s, MessageRuns), rest, s.(message := Registering));
    acts := [MessageRuns] + rest;
  }

  /** A client registers from a new address. */
  lemma Registers(s: State, name: string, from: Address) returns (acts: seq<Action>, t: State)
    requires Shape(s) && s.message == Receiving && !s.locked
    requires forall i :: 0 <= i < |s.slots| && s.slots[i].active ==> s.slots[i].addr != from
    ensures -2 <= RegisterResult(s.slots, name) < |s.slots|
    ensures Run(s, acts, t) && Receive(Register(name), from) in acts
    ensures t == RegisterStep(s.(message := Registering, request := Register(name), from := from), name)
  {
    RegisterMeaning(s.slots, name);
    var ask := Receive(Register(name), from);
    var asked := Next(s, ask);
    var more := SearchesInVain(asked);
    var ready := asked.(message := Registering);
    t := Next(ready, MessageRuns);
    One(s, ask);
    One(ready, MessageRuns);
    RunConcat(s, [ask], asked, more, ready);
    RunConcat(s, [ask] + more, ready, [MessageRuns], t);
    acts := [ask] + more + [MessageRuns];
    assert acts[0] == ask;
  }

  /** The last step of a run. */
  lemma {:induction false} RunEnds(s: State, acts: seq<Action>, t: State) returns (u: State)
    requires Run(s, acts, t) && acts != []
    ensures Run(s, acts[..|acts| - 1], u) && Shape(u) && Enabled(u, acts[|acts| - 1])
    ensures t == Next(u, acts[|acts| - 1])
    decreases |acts|
  {
    if |acts| == 1 {
      assert acts[1..] == [];
      u := s;
    } else {
      u := RunEnds(Next(s, acts[0]), acts[1..], t);
      assert acts[1..][..|acts| - 2] == acts[..|acts| - 1][1..];
    }
  }

  lemma LogGrows(s: State, a: Action)
    requires Shape(s) && Enabled(s, a)
    ensures s.log <= Next(s, a).log
  {
    if a.MessageRuns? && s.message.Registering? {
      RegisterMeaning(s.slots, s.request.name);
    }
  }
}
