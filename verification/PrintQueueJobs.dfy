/** Whose jobs are printed: every user's jobs enter the ring as they were handed in, and every printer is left with
    the job it took. */
module PrintQueueJobs {
  import opened PrintQueueProtocol
  import opened PrintQueueCorrect

  // ----- users -----

  /** The job that user u hands to enqueue_job in this step, if it calls it: the argument of the call. */
  ghost function GivenIn(s: State, a: Action, u: nat): seq<Job>
  {
    if a.UserRuns? && a.u == u && u < |s.users| && s.users[u].pc == Outside then [a.job] else []
  }

  ghost function Given(s: State, acts: seq<Action>, t: State, u: nat): seq<Job>
    requires Run(s, acts, t)
    decreases |acts|
  {
    if acts == [] then [] else GivenIn(s, acts[0], u) + Given(Next(s, acts[0]), acts[1..], t, u)
  }

  ghost function Added(before: seq<Job>, after: seq<Job>): seq<Job>
  {
    if |before| <= |after| then after[|before|..] else []
  }

  /** What a step of user u adds to the queue. */
  ghost function PutIn(s: State, a: Action, t: State, u: nat): seq<Job>
  {
    if a.UserRuns? && a.u == u then Added(s.written, t.written) else []
  }

  ghost function Put(s: State, acts: seq<Action>, t: State, u: nat): seq<Job>
    requires Run(s, acts, t)
    decreases |acts|
  {
    if acts == [] then [] else PutIn(s, acts[0], Next(s, acts[0]), u) + Put(Next(s, acts[0]), acts[1..], t, u)
  }

  /** The job that user u has handed in and not yet added. */
  ghost function Pending(s: State, u: nat): seq<Job>
    requires u < |s.users|
  {
    if s.users[u].pc in {GotEmpty, Entered, Copied} then [s.users[u].job] else []
  }

  lemma StepPuts(s: State, a: Action, u: nat)
    requires Shape(s) && Enabled(s, a) && u < |s.users|
    ensures |Next(s, a).users| == |s.users|
    ensures Pending(s, u) + GivenIn(s, a, u) == PutIn(s, a, Next(s, a), u) + Pending(Next(s, a), u)
  {
    if a.UserRuns? && a.u == u && s.users[u].pc == Copied {
      assert (s.written + [s.users[u].job])[|s.written|..] == [s.users[u].job];
    }
  }

  lemma Regroup(a: seq<Job>, b: seq<Job>, c: seq<Job>, d: seq<Job>, x: seq<Job>, y: seq<Job>, z: seq<Job>)
    requires a + b == c + x && x + d == y + z
    ensures a + (b + d) == (c + y) + z
  {
    assert a + (b + d) == (a + b) + d == c + (x + d) == c + (y + z);
  }

  lemma {:induction false} RunPuts(s: State, acts: seq<Action>, t: State, u: nat)
    requires Run(s, acts, t) && u < |s.users|
    ensures |t.users| == |s.users| && Pending(s, u) + Given(s, acts, t, u) == Put(s, acts, t, u) + Pending(t, u)
    decreases |acts|
  {
    if acts != [] {
      var a, v := acts[0], Next(s, acts[0]);
      StepPuts(s, a, u);
      RunPuts(v, acts[1..], t, u);
      Regroup(Pending(s, u), GivenIn(s, a, u), PutIn(s, a, v, u), Given(v, acts[1..], t, u), Pending(v, u),
              Put(v, acts[1..], t, u), Pending(t, u));
    }
  }

  lemma Shorter(given: seq<Job>, put: seq<Job>, pending: seq<Job>)
    requires [] + given == put + pending && |pending| <= 1
    ensures put <= given && |given| <= |put| + 1 && (given == put <==> pending == [])
  {
    assert given == put + pending;
  }

  /** The jobs a user adds to the queue are the ones it handed in, in that order; at most the last is still to come,
      and none is if the user is not in enqueue_job before the update of tail. */
  lemma UsersJobsArePut(size: nat, users: nat, printers: nat, acts: seq<Action>, s: State, u: nat)
    requires size > 0 && u < users && Run(Init(size, users, printers), acts, s)
    ensures var given, put := Given(Init(size, users, printers), acts, s, u), Put(Init(size, users, printers), acts, s, u);
      && put <= given && |given| <= |put| + 1
      && u < |s.users| && (given == put <==> s.users[u].pc in {Outside, Advanced, Left})
  {
    var init := Init(size, users, printers);
    RunPuts(init, acts, s, u);
    var given, put := Given(init, acts, s, u), Put(init, acts, s, u);
    Shorter(given, put, Pending(s, u));
    match s.users[u].pc
    case Outside =>
    case _ => assert Pending(s, u) == [] <==> s.users[u].pc in {Advanced, Left};
  }

  // ----- printers -----

  /** What a step of printer p takes out of the queue. */
  ghost function TookIn(s: State, a: Action, t: State, p: nat): seq<Job>
  {
    if a.PrinterRuns? && a.p == p then Added(s.read, t.read) else []
  }

  ghost function Took(s: State, acts: seq<Action>, t: State, p: nat): seq<Job>
    requires Run(s, acts, t)
    decreases |acts|
  {
    if acts == [] then [] else TookIn(s, acts[0], Next(s, acts[0]), p) + Took(Next(s, acts[0]), acts[1..], t, p)
  }

  ghost predicate Holds(s: State, p: nat, took: seq<Job>)
  {
    p < |s.printers| && (took != [] && s.printers[p].pc != Fetched ==> s.printers[p].buffer == took[|took| - 1])
  }

  lemma StepTakes(s: State, a: Action, p: nat, took: seq<Job>)
    requires Shape(s) && Enabled(s, a) && Holds(s, p, took)
    ensures Holds(Next(s, a), p, took + TookIn(s, a, Next(s, a), p))
  {
    if a.PrinterRuns? && a.p == p {
      if s.printers[p].pc == Fetched {
        assert (s.read + [s.printers[p].buffer])[|s.read|..] == [s.printers[p].buffer];
      } else {
        assert took + Added(s.read, Next(s, a).read) == took;
      }
    } else {
      assert took + [] == took;
    }
  }

  lemma Associate(a: seq<Job>, b: seq<Job>, c: seq<Job>)
    ensures a + b + c == a + (b + c)
  {
  }

  lemma {:induction false} RunTakes(s: State, acts: seq<Action>, t: State, p: nat, took: seq<Job>)
    requires Run(s, acts, t) && Holds(s, p, took)
    ensures Holds(t, p, took + Took(s, acts, t, p))
    decreases |acts|
  {
    if acts == [] {
      assert took + [] == took;
    } else {
      var a, v := acts[0], Next(s, acts[0]);
      var one := TookIn(s, a, v, p);
      StepTakes(s, a, p, took);
      RunTakes(v, acts[1..], t, p, took + one);
      Associate(took, one, Took(v, acts[1..], t, p));
    }
  }

  /** Except between copying its next job and the update of head, a printer holds the job it took last: that is what
      it prints. */
  lemma PrintersPrintWhatTheyTook(size: nat, users: nat, printers: nat, acts: seq<Action>, s: State, p: nat)
    requires size > 0 && p < printers && Run(Init(size, users, printers), acts, s)
    ensures p < |s.printers|
    ensures var took := Took(Init(size, users, printers), acts, s, p);
      took != [] && s.printers[p].pc != Fetched ==> s.printers[p].buffer == took[|took| - 1]
  {
    var init := Init(size, users, printers);
    RunTakes(init, acts, s, p, []);
    assert [] + Took(init, acts, s, p) == Took(init, acts, s, p);
  }
}
