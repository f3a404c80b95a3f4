/** What a sweep of the UDP server says and when: every client it finds is asked or evicted, in the order of the
    table, by the time it read when it awoke, and nobody else uses the table for anything that needs the mutex. */
module UdpSweeps {
  import opened UdpRegistryProtocol
  import opened UdpRegistryCorrect

  // ----- its time -----

  /** The sweep that is under way, if any, awoke after the clock showed `time`. */
  ghost predicate AwokeAfter(s: State, time: int)
  {
    time <= s.clock && (s.sweep != Asleep ==> s.sweep.now >= time)
  }

  lemma StepKeepsAwoke(s: State, a: Action, time: int)
    requires Shape(s) && AwokeAfter(s, time) && Enabled(s, a)
    ensures AwokeAfter(Next(s, a), time)
  {
    if a.MessageRuns? && s.message.Registering? {
      RegisterMeaning(s.slots, s.request.name);
    }
  }

  lemma {:induction false} RunKeepsAwoke(s: State, acts: seq<Action>, t: State, time: int)
    requires AwokeAfter(s, time) && Run(s, acts, t)
    ensures AwokeAfter(t, time)
    decreases |acts|
  {
    if acts != [] {
      StepKeepsAwoke(s, acts[0], time);
      RunKeepsAwoke(Next(s, acts[0]), acts[1..], t, time);
    }
  }

  /** A sweep uses the time at which it awoke: one that awakes after state s uses none from before s, and none
      from the future. */
  lemma SweepReadsTheClock(size: nat, clock: nat, past: seq<Action>, s: State, acts: seq<Action>, t: State)
    requires Run(Init(size, clock), past, s) && s.sweep == Asleep && Run(s, acts, t) && t.sweep != Asleep
    ensures s.clock <= t.sweep.now <= t.clock
  {
    Always(size, clock, past, s);
    RunKeepsInv(s, acts, t);
    RunKeepsAwoke(s, acts, t, s.clock);
  }

  // ----- its report -----

  /** The sweeps' part of the log. */
  ghost function Told(log: seq<Event>): seq<Event>
  {
    if log == [] then []
    else var e := log[|log| - 1];
      Told(log[..|log| - 1]) + (if e.Evicted? || e.Alive? then [e] else [])
  }

  lemma ToldAppend(log: seq<Event>, e: Event)
    ensures Told(log + [e]) == Told(log) + (if e.Evicted? || e.Alive? then [e] else [])
  {
    assert (log + [e])[..|log|] == log;
  }

  /** One event for each client that was there when the sweep began, up to slot n, in order: Alive if it still is. */
  ghost predicate Reports(report: seq<Event>, idx: seq<nat>, now: int, before: seq<Slot>, slots: seq<Slot>, n: nat)
  {
    && |idx| == |report| && n <= |before| == |slots|
    && (forall j, k :: 0 <= j < k < |idx| ==> idx[j] < idx[k])
    && (forall i: nat :: i < |before| ==> (i in idx <==> i < n && before[i].active))
    && (forall k :: 0 <= k < |idx| ==> idx[k] < n && Reports1(report[k], now, before[idx[k]], slots[idx[k]]))
  }

  ghost predicate Reports1(e: Event, now: int, earlier: Slot, slot: Slot)
  {
    if slot.active then e.Alive? && e.now == now && e.client.client == earlier.client
    else e == Evicted(now, earlier)
  }

  /** `told` continues `sofar` with the report up to slot n. */
  ghost predicate Reported(told: seq<Event>, sofar: seq<Event>, now: int, before: seq<Slot>, slots: seq<Slot>, n: nat)
  {
    exists report, idx :: told == sofar + report && Reports(report, idx, now, before, slots, n)
  }

  /** A run that does not get past the end of the sweep in progress. */
  ghost predicate SweepRun(s: State, acts: seq<Action>, t: State)
    decreases |acts|
  {
    && (s.sweep.Sweeping? || s.sweep.Evicting?)
    && if acts == [] then s == t
       else Shape(s) && Enabled(s, acts[0]) && SweepRun(Next(s, acts[0]), acts[1..], t)
  }

  ghost predicate Reporting(told: seq<Event>, sofar: seq<Event>, s: State, now: int)
  {
    (s.sweep.Sweeping? || s.sweep.Evicting?) && s.sweep.now == now && Reported(told, sofar, now, s.before, s.slots, s.sweep.at)
  }

  /** While a sweep has the mutex the message thread can only search, refresh, and answer from what it has found:
      it sends no message and no list, lets nobody in, and removes nobody. */
  lemma NobodyServedDuringSweep(s: State)
    requires Inv(s) && s.locked && Enabled(s, MessageRuns)
    ensures var t := MessageStep(s);
      && t.before == s.before && t.sweep == s.sweep && t.clientCount == s.clientCount && |t.slots| == |s.slots|
      && (forall i :: 0 <= i < |s.slots| ==> t.slots[i] == s.slots[i].(lastPing := t.slots[i].lastPing))
      && (t.log == s.log || exists reply :: reply in {NotRegistered, NotFound, Bye, Pong} && t.log == s.log + [Replied(s.from, reply)])
  {
  }

  lemma MessageTellsNothing(s: State)
    requires Inv(s) && s.locked && Enabled(s, MessageRuns)
    ensures Told(MessageStep(s).log) == Told(s.log)
  {
    var t := MessageStep(s);
    NobodyServedDuringSweep(s);
    if t.log != s.log {
      var reply :| t.log == s.log + [Replied(s.from, reply)];
      ToldAppend(s.log, Replied(s.from, reply));
    }
  }

  lemma MessageKeepsReporting(told: seq<Event>, sofar: seq<Event>, s: State, now: int)
    requires Inv(s) && Reporting(told, sofar, s, now) && Enabled(s, MessageRuns)
    ensures Reporting(told, sofar, MessageStep(s), now)
  {
    var t := MessageStep(s);
    NobodyServedDuringSweep(s);
    var report, idx :| told == sofar + report && Reports(report, idx, now, s.before, s.slots, s.sweep.at);
    assert Reports(report, idx, now, t.before, t.slots, t.sweep.at);
  }

  lemma VisitReports(report: seq<Event>, idx: seq<nat>, now: int, before: seq<Slot>, slots: seq<Slot>, n: nat, after: seq<Slot>, e: Event)
    requires Reports(report, idx, now, before, slots, n) && n < |slots| == |after|
    requires forall i :: 0 <= i < n ==> after[i] == slots[i]
    requires before[n].active ==> Reports1(e, now, before[n], after[n])
    ensures if before[n].active then Reports(report + [e], idx + [n], now, before, after, n + 1)
            else Reports(report, idx, now, before, after, n + 1)
  {
    var more := idx + [n];
    forall i: nat | i < |before| ensures i in more <==> i in idx || i == n {
    }
  }

  /** What the sweep tells in its next step. */
  ghost function Tells(s: State): seq<Event>
    requires Shape(s)
  {
    if |s.log| <= |SweepStep(s).log| then SweepStep(s).log[|s.log|..] else []
  }

  lemma SweepTells(s: State)
    requires Shape(s)
    ensures Told(SweepStep(s).log) == Told(s.log) + Tells(s)
  {
    assert SweepStep(s).log == s.log + Tells(s) && |Tells(s)| <= 1;
    if Tells(s) != [] {
      var e := Tells(s)[0];
      assert Tells(s) == [e] && (e.Evicted? || e.Alive?);
      ToldAppend(s.log, e);
    }
  }

  lemma EvictionKeepsReporting(told: seq<Event>, sofar: seq<Event>, s: State, now: int)
    requires Inv(s) && Reporting(told, sofar, s, now) && s.sweep.Evicting?
    ensures Reporting(told + Tells(s), sofar, SweepStep(s), now)
  {
    var t, i, e := SweepStep(s), s.sweep.at, Evicted(now, s.before[s.sweep.at]);
    var report, idx :| told == sofar + report && Reports(report, idx, now, s.before, s.slots, i);
    VisitReports(report, idx, now, s.before, s.slots, i, t.slots, e);
    assert Tells(s) == [e] && t.before == s.before;
    assert told + [e] == sofar + (report + [e]);
  }

  lemma QuestionKeepsReporting(told: seq<Event>, sofar: seq<Event>, s: State, now: int)
    requires Inv(s) && Reporting(told, sofar, s, now) && s.sweep.Sweeping? && s.sweep.at < |s.slots|
    ensures Reporting(told + Tells(s), sofar, SweepStep(s), now)
  {
    var t, i, e := SweepStep(s), s.sweep.at, Alive(now, s.slots[s.sweep.at]);
    var report, idx :| told == sofar + report && Reports(report, idx, now, s.before, s.slots, i);
    if t.sweep.Evicting? {
      assert Tells(s) == [] && told + [] == told;
    } else {
      VisitReports(report, idx, now, s.before, s.slots, i, t.slots, e);
      assert s.slots[i].active <==> s.before[i].active;
      assert Tells(s) == if s.slots[i].active then [e] else [];
      assert told + [e] == sofar + (report + [e]) && told + [] == told;
    }
  }

  lemma SweepKeepsReporting(told: seq<Event>, sofar: seq<Event>, s: State, now: int)
    requires Inv(s) && Reporting(told, sofar, s, now) && s.sweep != Sweeping(|s.slots|, now)
    ensures Reporting(told + Tells(s), sofar, SweepStep(s), now)
  {
    if s.sweep.Evicting? {
      EvictionKeepsReporting(told, sofar, s, now);
    } else {
      QuestionKeepsReporting(told, sofar, s, now);
    }
  }

  lemma {:induction false} SweepRunReports(s: State, acts: seq<Action>, t: State, sofar: seq<Event>, now: int)
    requires Inv(s) && Reporting(Told(s.log), sofar, s, now) && SweepRun(s, acts, t)
    ensures Inv(t) && Reporting(Told(t.log), sofar, t, now)
    decreases |acts|
  {
    if acts != [] {
      StepKeepsInv(s, acts[0]);
      match acts[0] {
        case MessageRuns =>
          MessageKeepsReporting(Told(s.log), sofar, s, now);
          MessageTellsNothing(s);
        case SweepRuns =>
          SweepKeepsReporting(Told(s.log), sofar, s, now);
          SweepTells(s);
        case _ =>
      }
      SweepRunReports(Next(s, acts[0]), acts[1..], t, sofar, now);
    }
  }

  /** From the moment a sweep takes the mutex to its end, sweeps add to the log exactly one event for each client that
      was there when it took it, in the order of the table: a question to each that it keeps, an eviction for each
      other. */
  lemma EverybodyIsAskedOrEvicted(size: nat, clock: nat, past: seq<Action>, s: State, acts: seq<Action>, t: State)
    requires Run(Init(size, clock), past, s) && s.sweep.Sweeping? && s.sweep.at == 0
    requires SweepRun(s, acts, t) && t.sweep == Sweeping(|t.slots|, s.sweep.now)
    ensures Reported(Told(t.log), Told(s.log), s.sweep.now, t.before, t.slots, |t.slots|)
  {
    Always(size, clock, past, s);
    assert Told(s.log) == Told(s.log) + [];
    assert Reports([], [], s.sweep.now, s.before, s.slots, 0);
    SweepRunReports(s, acts, t, Told(s.log), s.sweep.now);
  }

  // ----- its end -----

  /** How many steps a sweep that has the mutex is away from giving it back. */
  function SweepStepsLeft(sweep: SweepPc, n: int): int
  {
    match sweep
    case Sweeping(i, _) => 2 * (n - i) + 1
    case Evicting(i, _) => 2 * (n - i)
    case _ => 0
  }

  /** A sweep can always go on, and gives the mutex back after at most 2n + 1 steps of its own. */
  lemma SweepGetsOn(size: nat, clock: nat, past: seq<Action>, s: State)
    requires Run(Init(size, clock), past, s) && s.locked
    ensures Shape(s) && Enabled(s, SweepRuns) && 0 < SweepStepsLeft(s.sweep, size) <= 2 * size + 1
    ensures 0 <= SweepStepsLeft(SweepStep(s).sweep, size) < SweepStepsLeft(s.sweep, size)
    ensures SweepStepsLeft(SweepStep(s).sweep, size) == 0 <==> !SweepStep(s).locked
  {
    Always(size, clock, past, s);
  }
}
