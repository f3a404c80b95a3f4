/** The names of the active clients of the UDP server. */
module UdpNames {
  import opened UdpRegistryProtocol
  import opened UdpRegistryCorrect
  import opened UdpRuns

  ghost predicate DistinctNames(slots: seq<Slot>)
  {
    forall i, j :: 0 <= i < j < |slots| && slots[i].active && slots[j].active ==> slots[i].name != slots[j].name
  }

  ghost predicate HasName(slots: seq<Slot>, name: string)
  {
    exists i :: 0 <= i < |slots| && slots[i].active && slots[i].name == name
  }

  lemma EntryKeepsNamesDistinct(slots: seq<Slot>, name: string, slot: Slot)
    requires DistinctNames(slots) && RegisterResult(slots, name) >= 0
    requires slot.active && slot.name == Stored(name)
    ensures RegisterResult(slots, name) < |slots|
    ensures DistinctNames(slots[RegisterResult(slots, name) := slot]) <==> !HasName(slots, Stored(name))
    ensures |name| <= 31 ==> DistinctNames(slots[RegisterResult(slots, name) := slot])
  {
    RegisterMeaning(slots, name);
    var r := RegisterResult(slots, name);
    var after := slots[r := slot];
    if HasName(slots, Stored(name)) {
      var i :| 0 <= i < |slots| && slots[i].active && slots[i].name == Stored(name);
      assert after[i].name == after[r].name && i != r;
      assert !DistinctNames(after);
    }
  }

  /** The check compares the name as given with names as stored.  So handling a registration keeps the names
      distinct exactly if it is refused or the stored form of the name is not in use; for names of up to 31
      characters, which are stored as they are, the check makes sure of that. */
  lemma RegistrationKeepsNamesDistinct(size: nat, clock: nat, acts: seq<Action>, s: State)
    requires Run(Init(size, clock), acts, s) && Enabled(s, MessageRuns) && s.message.Registering? && DistinctNames(s.slots)
    ensures Shape(s) && s.request.Register?
    ensures DistinctNames(MessageStep(s).slots)
      <==> RegisterResult(s.slots, s.request.name) < 0 || !HasName(s.slots, Stored(s.request.name))
    ensures |s.request.name| <= 31 ==> DistinctNames(MessageStep(s).slots)
  {
    Always(size, clock, acts, s);
    RegisterMeaning(s.slots, s.request.name);
    if RegisterResult(s.slots, s.request.name) >= 0 {
      EntryKeepsNamesDistinct(s.slots, s.request.name,
        Slot(true, Stored(s.request.name), s.from, s.clock, s.registrations));
    }
  }

  ghost predicate ShortNames(acts: seq<Action>)
  {
    forall a :: a in acts && a.Receive? && a.request.Register? ==> |a.request.name| <= 31
  }

  ghost predicate Short(s: State)
  {
    DistinctNames(s.slots) && (s.request.Register? ==> |s.request.name| <= 31)
  }

  lemma FewerNames(slots: seq<Slot>, after: seq<Slot>)
    requires DistinctNames(slots) && |after| == |slots|
    requires forall i :: 0 <= i < |slots| && after[i].active ==> slots[i].active && after[i].name == slots[i].name
    ensures DistinctNames(after)
  {
  }

  lemma StepKeepsNames(s: State, a: Action)
    requires Shape(s) && Short(s) && Enabled(s, a) && ShortNames([a])
    ensures Short(Next(s, a))
  {
    match a
    case Receive(request, _) => assert a in [a];
    case MessageRuns =>
      if s.message.Registering? {
        RegisterMeaning(s.slots, s.request.name);
        if RegisterResult(s.slots, s.request.name) >= 0 {
          EntryKeepsNamesDistinct(s.slots, s.request.name,
            Slot(true, Stored(s.request.name), s.from, s.clock, s.registrations));
        }
      } else {
        FewerNames(s.slots, Next(s, a).slots);
      }
    case SweepRuns => FewerNames(s.slots, Next(s, a).slots);
    case Tick(_) =>
  }

  lemma {:induction false} RunKeepsNames(s: State, acts: seq<Action>, t: State)
    requires Short(s) && Run(s, acts, t) && ShortNames(acts)
    ensures Short(t)
    decreases |acts|
  {
    if acts != [] {
      assert forall a :: a in [acts[0]] || a in acts[1..] ==> a in acts;
      StepKeepsNames(s, acts[0]);
      RunKeepsNames(Next(s, acts[0]), acts[1..], t);
    }
  }

  /** As long as nobody asks for a name longer than 31 characters, the names of the active clients differ. */
  lemma NamesStayDistinct(size: nat, clock: nat, acts: seq<Action>, s: State)
    requires Run(Init(size, clock), acts, s) && ShortNames(acts)
    ensures DistinctNames(s.slots)
  {
    RunKeepsNames(Init(size, clock), acts, s);
  }

  // ----- long names -----

  function Filler(n: nat): string
  {
    seq(n, _ => 'a')
  }

  /** Two names of 32 characters that differ in the last one only. */
  function LongName(last: char): (name: string)
    ensures |name| == 32
  {
    Filler(31) + [last]
  }

  lemma LongNamesAreCut(last: char)
    ensures Stored(LongName(last)) == Filler(31)
  {
  }

  /** Both are let in, one after the other, and stored alike. */
  lemma LongNamesCollide(size: nat, clock: nat) returns (acts: seq<Action>, s: State)
    requires size >= 2
    ensures Run(Init(size, clock), acts, s)
    ensures Receive(Register(LongName('b')), 7) in acts && Receive(Register(LongName('c')), 8) in acts
    ensures LongName('b')[31] != LongName('c')[31]
    ensures s.log == [Replied(7, Registered), Replied(8, Registered)]
    ensures |s.slots| == size && s.slots[0].active && s.slots[1].active && s.slots[0].name == s.slots[1].name
    ensures !DistinctNames(s.slots)
  {
    var init := Init(size, clock);
    LongNamesAreCut('b');
    LongNamesAreCut('c');
    RegisterMeaning(init.slots, LongName('b'));
    var one, more;
    acts, one := Registers(init, LongName('b'), 7);
    assert one.slots == init.slots[0 := Slot(true, Filler(31), 7, clock, 1)];
    RegisterMeaning(one.slots, LongName('c'));
    forall i | 0 <= i < size && one.slots[i].active ensures one.slots[i].name != LongName('c') {
      assert |one.slots[i].name| == 31;
    }
    assert !one.slots[1].active && RegisterResult(one.slots, LongName('c')) == 1;
    more, s := Registers(one, LongName('c'), 8);
    assert s.slots == one.slots[1 := Slot(true, Filler(31), 8, clock, 2)];
    RunConcat(init, acts, one, more, s);
    acts := acts + more;
  }

  ghost predicate Collision(size: nat, clock: nat, acts: seq<Action>, s: State)
  {
    Run(Init(size, clock), acts, s) && !DistinctNames(s.slots)
  }

  /** Active clients can come to have the same name exactly if the table has room for two. */
  lemma WhenNamesCanCollide(size: nat, clock: nat)
    ensures (exists acts, s :: Collision(size, clock, acts, s)) <==> size >= 2
  {
    forall acts, s | Collision(size, clock, acts, s) ensures size >= 2 {
      Always(size, clock, acts, s);
    }
    if size >= 2 {
      var acts, s := LongNamesCollide(size, clock);
      assert Collision(size, clock, acts, s);
    }
  }
}
