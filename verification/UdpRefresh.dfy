/** What a message does for its sender: its last ping is not forgotten, so no sweep evicts it for a while. */
module UdpRefresh {
  import opened UdpRegistryProtocol
  import opened UdpRegistryCorrect

  /** As long as slot c is that client's, its last ping is at least `time`, and nothing older is on its way. */
  ghost predicate Kept(s: State, c: nat, who: nat, time: int)
  {
    && c < |s.slots| && who < s.registrations && time <= s.clock
    && (s.slots[c].client == who ==> s.slots[c].lastPing >= time)
    && (s.message.Storing? && s.message.slot == c ==> s.message.time >= time)
  }

  lemma MessageKeepsKept(s: State, c: nat, who: nat, time: int)
    requires Inv(s) && Kept(s, c, who, time) && Enabled(s, MessageRuns)
    ensures Kept(MessageStep(s), c, who, time)
  {
    if s.message.Registering? {
      RegisterMeaning(s.slots, s.request.name);
    }
  }

  lemma StepKeepsKept(s: State, a: Action, c: nat, who: nat, time: int)
    requires Inv(s) && Kept(s, c, who, time) && Enabled(s, a)
    ensures Kept(Next(s, a), c, who, time)
  {
    match a
    case MessageRuns => MessageKeepsKept(s, c, who, time);
    case _ =>
  }

  lemma {:induction false} RunKeepsKept(s: State, acts: seq<Action>, t: State, c: nat, who: nat, time: int)
    requires Inv(s) && Kept(s, c, who, time) && Run(s, acts, t)
    ensures Inv(t) && Kept(t, c, who, time)
    decreases |acts|
  {
    if acts != [] {
      StepKeepsInv(s, acts[0]);
      StepKeepsKept(s, acts[0], c, who, time);
      RunKeepsKept(Next(s, acts[0]), acts[1..], t, c, who, time);
    }
  }

  lemma StoringKeeps(s: State)
    requires Inv(s) && s.message.Storing?
    ensures Kept(MessageStep(s), s.message.slot, s.message.who, s.message.time)
  {
  }

  /** The time a message was read at is never lost: from the step that stores it on, the slot's last ping is at least
      that for as long as the slot is the client's. */
  lemma PingIsKept(size: nat, clock: nat, past: seq<Action>, u: State, later: seq<Action>, s: State)
    requires Run(Init(size, clock), past, u) && u.message.Storing? && Enabled(u, MessageRuns)
    requires Shape(u) && Run(Next(u, MessageRuns), later, s)
    ensures u.message.slot < |s.slots|
    ensures s.slots[u.message.slot].client == u.message.who ==> s.slots[u.message.slot].lastPing >= u.message.time
  {
    Always(size, clock, past, u);
    StoringKeeps(u);
    StepKeepsInv(u, MessageRuns);
    RunKeepsKept(Next(u, MessageRuns), later, s, u.message.slot, u.message.who, u.message.time);
  }

  // ----- no eviction for a while -----

  /** What a sweep in progress found when it took the mutex is not older than `time` for that client, and every
      eviction of it since the log had `n` events was by a sweep of more than 60 seconds after `time`. */
  ghost predicate Spared(s: State, c: nat, who: nat, time: int, n: nat)
  {
    && Kept(s, c, who, time)
    && (s.locked ==> OnlyAt(s.before, c, who) && (c < |s.before| && s.before[c].client == who ==> s.before[c].lastPing >= time))
    && n <= |s.log|
    && (forall k :: n <= k < |s.log| && s.log[k].Evicted? && s.log[k].client.client == who ==> s.log[k].now - time > TIMEOUT_SECONDS)
  }

  /** A slot keeps its client until another comes, so the client is nowhere else. */
  ghost predicate OnlyAt(slots: seq<Slot>, c: nat, who: nat)
  {
    forall j :: 0 <= j < |slots| && slots[j].client == who ==> j == c
  }

  lemma StepKeepsOnlyAt(s: State, a: Action, c: nat, who: nat)
    requires Inv(s) && OnlyAt(s.slots, c, who) && who < s.registrations && Enabled(s, a)
    ensures OnlyAt(Next(s, a).slots, c, who)
  {
    if a.MessageRuns? && s.message.Registering? {
      RegisterMeaning(s.slots, s.request.name);
    }
  }

  /** What the message thread adds to the log is no eviction. */
  lemma MessageEvictsNobody(s: State)
    requires Inv(s) && Enabled(s, MessageRuns)
    ensures var t := MessageStep(s);
      && t.before == s.before && t.locked == s.locked && |s.log| <= |t.log| && t.log[..|s.log|] == s.log
      && forall k :: |s.log| <= k < |t.log| ==> !t.log[k].Evicted?
  {
    if s.message.Registering? {
      RegisterMeaning(s.slots, s.request.name);
    }
  }

  lemma MessageKeepsSpared(s: State, c: nat, who: nat, time: int, n: nat)
    requires Inv(s) && Spared(s, c, who, time, n) && Enabled(s, MessageRuns)
    ensures Spared(MessageStep(s), c, who, time, n)
  {
    var t := MessageStep(s);
    MessageKeepsKept(s, c, who, time);
    MessageEvictsNobody(s);
    forall k | n <= k < |t.log| && t.log[k].Evicted? && t.log[k].client.client == who ensures t.log[k].now - time > TIMEOUT_SECONDS {
      assert k < |s.log| && t.log[k] == t.log[..|s.log|][k];
    }
  }

  lemma SweepKeepsSpared(s: State, c: nat, who: nat, time: int, n: nat)
    requires Inv(s) && Spared(s, c, who, time, n) && OnlyAt(s.slots, c, who) && Enabled(s, SweepRuns)
    ensures Spared(SweepStep(s), c, who, time, n)
  {
    StepKeepsKept(s, SweepRuns, c, who, time);
  }

  lemma {:induction false} RunKeepsSpared(s: State, acts: seq<Action>, t: State, c: nat, who: nat, time: int, n: nat)
    requires Inv(s) && Spared(s, c, who, time, n) && OnlyAt(s.slots, c, who) && Run(s, acts, t)
    ensures Spared(t, c, who, time, n)
    decreases |acts|
  {
    if acts != [] {
      StepKeepsInv(s, acts[0]);
      StepKeepsOnlyAt(s, acts[0], c, who);
      match acts[0] {
        case MessageRuns => MessageKeepsSpared(s, c, who, time, n);
        case SweepRuns => SweepKeepsSpared(s, c, who, time, n);
        case _ => StepKeepsKept(s, acts[0], c, who, time);
      }
      RunKeepsSpared(Next(s, acts[0]), acts[1..], t, c, who, time, n);
    }
  }

  lemma {:induction false} RunKeepsOnlyAt(s: State, acts: seq<Action>, t: State, c: nat, who: nat)
    requires Inv(s) && OnlyAt(s.slots, c, who) && who < s.registrations && Run(s, acts, t)
    ensures OnlyAt(t.slots, c, who)
    decreases |acts|
  {
    if acts != [] {
      StepKeepsInv(s, acts[0]);
      StepKeepsOnlyAt(s, acts[0], c, who);
      RegistrationsGrow(s, acts[0]);
      RunKeepsOnlyAt(Next(s, acts[0]), acts[1..], t, c, who);
    }
  }

  lemma RegistrationsGrow(s: State, a: Action)
    requires Shape(s) && Enabled(s, a)
    ensures s.registrations <= Next(s, a).registrations
  {
    if a.MessageRuns? && s.message.Registering? {
      RegisterMeaning(s.slots, s.request.name);
    }
  }

  /** A client whose message has been stored is safe for 60 seconds from any sweep that takes the mutex after that:
      whenever such a sweep evicts it, the time the sweep read is more than 60 seconds after that of the message.
      `v` is any state since the message with the mutex free, and the evictions are those logged from then on. */
  lemma NotEvictedSoon(size: nat, clock: nat, past: seq<Action>, u: State, since: seq<Action>, v: State,
                       later: seq<Action>, s: State, k: nat)
    requires Run(Init(size, clock), past, u) && u.message.Storing? && Enabled(u, MessageRuns)
    requires Shape(u) && Run(Next(u, MessageRuns), since, v) && !v.locked && Run(v, later, s)
    requires |v.log| <= k < |s.log| && s.log[k].Evicted? && s.log[k].client.client == u.message.who
    ensures s.log[k].now - u.message.time > 60
  {
    var w, c, who, time := Next(u, MessageRuns), u.message.slot, u.message.who, u.message.time;
    Always(size, clock, past, u);
    StoringKeeps(u);
    StepKeepsInv(u, MessageRuns);
    assert OnlyAt(u.slots, c, who);
    StepKeepsOnlyAt(u, MessageRuns, c, who);
    RunKeepsKept(w, since, v, c, who, time);
    RunKeepsOnlyAt(w, since, v, c, who);
    RunKeepsSpared(v, later, s, c, who, time, |v.log|);
  }
}
