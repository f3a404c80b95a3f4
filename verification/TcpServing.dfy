/** What a client's messages do to the handler that serves it: which ones end it, and which make it look for a
    receiver.  The messages are read off the actions of a run. */
module TcpServing {
  import opened TcpRegistryProtocol
  import opened TcpRegistryCorrect

  // ----- what a handler is told -----

  /** What recv returns to handler h in this step, if it is in recv. */
  ghost function InputIn(s: State, a: Action, h: nat): seq<Input>
  {
    if a.HandlerRuns? && a.h == h && h < |s.handlers| && s.handlers[h].pc == Receiving then [a.input] else []
  }

  ghost function Inputs(s: State, acts: seq<Action>, t: State, h: nat): seq<Input>
    requires Run(s, acts, t)
    decreases |acts|
  {
    if acts == [] then [] else InputIn(s, acts[0], h) + Inputs(Next(s, acts[0]), acts[1..], t, h)
  }

  /** Handler h finds its slot free at the head of its loop. */
  ghost predicate LostIn(s: State, a: Action, h: nat)
  {
    && a.HandlerRuns? && a.h == h && h < |s.handlers| && s.handlers[h].pc == Serving
    && s.handlers[h].slot < |s.slots| && !s.slots[s.handlers[h].slot].active
  }

  ghost predicate Lost(s: State, acts: seq<Action>, t: State, h: nat)
    requires Run(s, acts, t)
    decreases |acts|
  {
    acts != [] && (LostIn(s, acts[0], h) || Lost(Next(s, acts[0]), acts[1..], t, h))
  }

  /** A search of handler h, with what followed it, comes to its end. */
  ghost predicate SearchEndsIn(s: State, a: Action, t: State, h: nat)
  {
    && a.HandlerRuns? && a.h == h && h < |s.handlers| && h < |t.handlers|
    && (s.handlers[h].pc.FindingTarget? || s.handlers[h].pc.Delivering?) && t.handlers[h].pc == Serving
  }

  ghost function Searches(s: State, acts: seq<Action>, t: State, h: nat): nat
    requires Run(s, acts, t)
    decreases |acts|
  {
    if acts == [] then 0
    else (if SearchEndsIn(s, acts[0], Next(s, acts[0]), h) then 1 else 0) + Searches(Next(s, acts[0]), acts[1..], t, h)
  }

  ghost function Letters(inputs: seq<Input>): nat
  {
    if inputs == [] then 0 else (if inputs[0].ToOne? then 1 else 0) + Letters(inputs[1..])
  }

  // ----- where that leaves it -----

  /** Messages that do not end a handler. */
  ghost predicate Ordinary(inputs: seq<Input>)
  {
    forall x :: x in inputs ==> x.Message? || x.ToOne?
  }

  ghost predicate LastIs(inputs: seq<Input>, x: Input)
  {
    inputs != [] && inputs[|inputs| - 1] == x
  }

  ghost predicate ButLastOrdinary(inputs: seq<Input>)
  {
    inputs != [] && Ordinary(inputs[..|inputs| - 1])
  }

  /** Where handler h is, told from its inputs and from whether it has found its slot free. */
  ghost predicate Stands(pc: HandlerPc, inputs: seq<Input>, lost: bool, searches: int)
  {
    match pc
    case Serving => Ordinary(inputs) && !lost && searches == Letters(inputs)
    case Receiving => Ordinary(inputs) && !lost && searches == Letters(inputs)
    case Storing(_, input) =>
      && LastIs(inputs, input) && ButLastOrdinary(inputs) && input != Closed && !lost
      && searches == Letters(inputs) - (if input.ToOne? then 1 else 0)
    case FindingTarget(target, _) =>
      LastIs(inputs, ToOne(target)) && Ordinary(inputs) && !lost && searches == Letters(inputs) - 1
    case Delivering(target, _, _) =>
      LastIs(inputs, ToOne(target)) && Ordinary(inputs) && !lost && searches == Letters(inputs) - 1
    case _ =>
      && searches == Letters(inputs)
      && (if lost then Ordinary(inputs) else (LastIs(inputs, Closed) || LastIs(inputs, Stop)) && ButLastOrdinary(inputs))
  }

  ghost predicate HandlerStands(s: State, h: nat, inputs: seq<Input>, lost: bool, searches: int)
  {
    if h < |s.handlers| then Stands(s.handlers[h].pc, inputs, lost, searches)
    else inputs == [] && !lost && searches == 0
  }

  lemma {:induction false} LettersAppend(inputs: seq<Input>, x: Input)
    ensures Letters(inputs + [x]) == Letters(inputs) + (if x.ToOne? then 1 else 0)
  {
    if inputs == [] {
      assert [] + [x] == [x] && [x][1..] == [];
    } else {
      assert (inputs + [x])[1..] == inputs[1..] + [x];
      LettersAppend(inputs[1..], x);
    }
  }

  lemma HearsMore(inputs: seq<Input>, x: Input)
    ensures LastIs(inputs + [x], x)
    ensures Ordinary(inputs) ==> ButLastOrdinary(inputs + [x])
    ensures Letters(inputs + [x]) == Letters(inputs) + (if x.ToOne? then 1 else 0)
  {
    LettersAppend(inputs, x);
    assert (inputs + [x])[..|inputs|] == inputs;
  }

  lemma AllOrdinary(inputs: seq<Input>, x: Input)
    requires ButLastOrdinary(inputs) && LastIs(inputs, x) && (x.Message? || x.ToOne?)
    ensures Ordinary(inputs)
  {
    forall y | y in inputs ensures y.Message? || y.ToOne? {
      var k :| 0 <= k < |inputs| && inputs[k] == y;
      assert k < |inputs| - 1 ==> y == inputs[..|inputs| - 1][k];
    }
  }

  lemma OwnStepStands(s: State, h: nat, input: Input, inputs: seq<Input>, lost: bool, searches: int)
    requires Shape(s) && Enabled(s, HandlerRuns(h, input)) && HandlerStands(s, h, inputs, lost, searches)
    ensures var a, t := HandlerRuns(h, input), HandlerStep(s, h, input);
      HandlerStands(t, h, inputs + InputIn(s, a, h), lost || LostIn(s, a, h), searches + (if SearchEndsIn(s, a, t, h) then 1 else 0))
  {
    assert inputs + [] == inputs;
    match s.handlers[h].pc
    case Receiving => HearsMore(inputs, input);
    case Storing(_, what) =>
      if what.Message? || what.ToOne? {
        AllOrdinary(inputs, what);
      }
    case _ =>
  }

  lemma OtherStepStands(s: State, a: Action, h: nat, inputs: seq<Input>, lost: bool, searches: int)
    requires Shape(s) && Enabled(s, a) && !(a.HandlerRuns? && a.h == h) && HandlerStands(s, h, inputs, lost, searches)
    ensures HandlerStands(Next(s, a), h, inputs, lost, searches)
  {
    if a.AcceptRuns? {
      FindFreeMeaning(s.slots, 0);
    }
  }

  lemma StepStands(s: State, a: Action, h: nat, inputs: seq<Input>, lost: bool, searches: int)
    requires Shape(s) && Enabled(s, a) && HandlerStands(s, h, inputs, lost, searches)
    ensures HandlerStands(Next(s, a), h, inputs + InputIn(s, a, h), lost || LostIn(s, a, h),
                          searches + (if SearchEndsIn(s, a, Next(s, a), h) then 1 else 0))
  {
    if a.HandlerRuns? && a.h == h {
      OwnStepStands(s, h, a.input, inputs, lost, searches);
    } else {
      OtherStepStands(s, a, h, inputs, lost, searches);
      assert inputs + [] == inputs;
    }
  }

  lemma Associate(a: seq<Input>, b: seq<Input>, c: seq<Input>)
    ensures a + b + c == a + (b + c)
  {
  }

  lemma {:induction false} RunStands(s: State, acts: seq<Action>, t: State, h: nat, inputs: seq<Input>, lost: bool, searches: int)
    requires Run(s, acts, t) && HandlerStands(s, h, inputs, lost, searches)
    ensures HandlerStands(t, h, inputs + Inputs(s, acts, t, h), lost || Lost(s, acts, t, h), searches + Searches(s, acts, t, h))
    decreases |acts|
  {
    if acts == [] {
      assert inputs + [] == inputs;
    } else {
      var a, u := acts[0], Next(s, acts[0]);
      var one := InputIn(s, a, h);
      StepStands(s, a, h, inputs, lost, searches);
      RunStands(u, acts[1..], t, h, inputs + one, lost || LostIn(s, a, h), searches + (if SearchEndsIn(s, a, u, h) then 1 else 0));
      Associate(inputs, one, Inputs(u, acts[1..], t, h));
    }
  }

  lemma LeavesWhen(pc: HandlerPc, inputs: seq<Input>, lost: bool, searches: int)
    requires Stands(pc, inputs, lost, searches)
    ensures pc in {Leaving, Gone} <==> lost || LastIs(inputs, Closed) || (LastIs(inputs, Stop) && !pc.Storing?)
    ensures Stop in inputs || Closed in inputs ==> pc in {Leaving, Gone} || (pc.Storing? && pc.input == Stop)
  {
    if inputs != [] {
      assert inputs[|inputs| - 1] in inputs;
      assert inputs == inputs[..|inputs| - 1] + [inputs[|inputs| - 1]];
    }
  }

  /** In every run every handler stands where its client's messages leave it.  It has left its loop exactly if its
      last input was the end of the connection or STOP, not counting a STOP whose time is still to be stored, or it
      has found its slot free; it serves on after any other message; and it carries out one search for every
      private message. */
  lemma HandlersDoAsTold(size: nat, clock: int, acts: seq<Action>, s: State, h: nat)
    requires Run(Init(size, clock), acts, s) && h < |s.handlers|
    ensures var inputs, lost := Inputs(Init(size, clock), acts, s, h), Lost(Init(size, clock), acts, s, h);
      && Stands(s.handlers[h].pc, inputs, lost, Searches(Init(size, clock), acts, s, h))
      && (s.handlers[h].pc in {Leaving, Gone} <==> lost || LastIs(inputs, Closed) || (LastIs(inputs, Stop) && !s.handlers[h].pc.Storing?))
      && (Stop in inputs || Closed in inputs ==>
          s.handlers[h].pc in {Leaving, Gone} || (s.handlers[h].pc.Storing? && s.handlers[h].pc.input == Stop))
  {
    var init := Init(size, clock);
    RunStands(init, acts, s, h, [], false, 0);
    assert [] + Inputs(init, acts, s, h) == Inputs(init, acts, s, h);
    LeavesWhen(s.handlers[h].pc, Inputs(init, acts, s, h), Lost(init, acts, s, h), Searches(init, acts, s, h));
  }
}
