/** Whom a handler of the TCP server removes when it leaves. */
module TcpHandlers {
  import opened TcpRegistryProtocol
  import opened TcpRegistryCorrect
  import opened TcpRuns

  /** Clients that lose their slot in a step. */
  ghost predicate Frees(s: State, t: State, client: nat)
  {
    exists i: nat :: Holds(s.slots, i, client) && !Holds(t.slots, i, client)
  }

  /** What a leaving handler frees: its own client's slot, exactly if nobody else has freed that before; and
      another client, exactly if its own has been ousted and the slot has been given away since. */
  lemma LeavingFreesOwnClient(size: nat, clock: int, acts: seq<Action>, s: State, h: nat, input: Input)
    requires Run(Init(size, clock), acts, s) && Enabled(s, HandlerRuns(h, input)) && s.handlers[h].pc == Leaving
    ensures Shape(s)
    ensures Frees(s, HandlerStep(s, h, input), s.handlers[h].client) <==> s.handlers[h].client !in Ousted(s)
    ensures (exists other :: other != s.handlers[h].client && Frees(s, HandlerStep(s, h, input), other))
      <==> s.handlers[h].client in Ousted(s) && s.slots[s.handlers[h].slot].active
    ensures var c, t := s.handlers[h].slot, HandlerStep(s, h, input);
      && |t.slots| == |s.slots| && !t.slots[c].active && (s.slots[c].active ==> t.slots[c].name == "")
      && (forall i :: 0 <= i < |s.slots| && i != c ==> t.slots[i] == s.slots[i])
      && t.handlers == s.handlers[h := s.handlers[h].(pc := Gone)]
  {
    InitInv(size, clock);
    RunKeepsInv(Init(size, clock), acts, s);
    var t := HandlerStep(s, h, input);
    var c := s.handlers[h].slot;
    if s.slots[c].active {
      assert Holds(s.slots, c, s.slots[c].client) && !Holds(t.slots, c, s.slots[c].client);
      assert Frees(s, t, s.slots[c].client);
    }
    assert forall i: nat, x :: Holds(s.slots, i, x) && !Holds(t.slots, i, x) ==> i == c;
  }

  /** As long as no sweep has evicted anybody, handlers only ever remove their own clients. */
  lemma WithoutEvictionsHandlersAreSafe(size: nat, clock: int, acts: seq<Action>, s: State)
    requires Run(Init(size, clock), acts, s) && s.evicted == {}
    ensures s.robbed == {}
    ensures forall h :: 0 <= h < |s.handlers| && s.handlers[h].pc != Gone ==> Holds(s.slots, s.handlers[h].slot, s.handlers[h].client)
  {
    InitInv(size, clock);
    RunKeepsInv(Init(size, clock), acts, s);
  }

  /** The handler of "a" waits in recv while "a" is evicted, which closes its connection, and "b" gets its slot;
      when recv returns it removes "b", whose own handler is still serving. */
  lemma HandlerRemovesNewcomer(size: nat, clock: int) returns (acts: seq<Action>, s: State)
    requires size >= 1
    ensures Run(Init(size, clock), acts, s)
    ensures s.clientCount == 0 && |s.slots| == size && !s.slots[0].active
    ensures s.handlers == [Handler(0, 1, Gone), Handler(0, 2, Serving)] && s.evicted == {1} && s.robbed == {2}
  {
    var init, a := Init(size, clock), HandlerRuns(0, Closed);
    var one, two, more;
    acts, one := Opening(size, clock);
    RunExtends(init, acts, one, a);
    acts, one := acts + [a], Next(one, a);
    assert one.handlers == [Handler(0, 1, Receiving)];
    more, two := SlotIsReused(one);
    RunConcat(init, acts, one, more, two);
    acts := acts + more;
    more, s := Disconnects(two);
    RunConcat(init, acts, two, more, s);
    acts := acts + more;
  }

  /** Handler 0 finds its connection closed and leaves. */
  lemma Disconnects(s: State) returns (acts: seq<Action>, t: State)
    requires Shape(s) && |s.slots| > 0 && s.slots[0].active && !s.locked
    requires |s.handlers| > 0 && s.handlers[0].pc == Receiving && s.handlers[0].slot == 0
    ensures Run(s, acts, t)
    ensures t == s.(slots := s.slots[0 := s.slots[0].(active := false, name := "")], clientCount := s.clientCount - 1,
                    handlers := s.handlers[0 := s.handlers[0].(pc := Gone)],
                    robbed := s.robbed + Stranger(s.slots, 0, s.handlers[0].client))
  {
    var a := HandlerRuns(0, Closed);
    Two(s, a, a);
    acts, t := [a, a], Next(Next(s, a), a);
    assert t.handlers == s.handlers[0 := s.handlers[0].(pc := Gone)];
  }

  ghost predicate Robbery(size: nat, clock: int, acts: seq<Action>, s: State)
  {
    Run(Init(size, clock), acts, s) && s.robbed != {}
  }

  /** A handler can remove another client in every server that has a slot at all. */
  lemma WhenHandlersCanRob(size: nat, clock: int)
    ensures (exists acts, s :: Robbery(size, clock, acts, s)) <==> size >= 1
  {
    forall acts, s | Robbery(size, clock, acts, s) ensures size >= 1 {
      if size == 0 {
        NoSlotsNoClients(Init(size, clock), acts, s);
      }
    }
    if size >= 1 {
      var acts, s := HandlerRemovesNewcomer(size, clock);
      assert 2 in s.robbed && Robbery(size, clock, acts, s);
    }
  }
}
