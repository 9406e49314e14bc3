/** Starting the local daemon: any number of concurrent callers probe it, and one at a time,
    holding the single token of a channel, probes again, launches it and waits until it answers. */
module LaunchGate {
  import opened Common

  type Caller = int

  /** A probe answers, finds no socket, or fails in another way; Canceled is the caller's own
      context ending. */
  datatype Probe = Answers | NoSocket | Fails | Canceled

  datatype Pc = First | AtGate | Second | Launching | Polling | Returned(ok: bool)

  /** `tokens` is what lies in the gate channel; `ready` is whether the daemon answers. The last
      fields count the calls of the launcher, by what their holders returned, and how often a
      daemon that answered stopped answering. */
  datatype State = State(pcs: map<Caller, Pc>, tokens: nat, ready: bool,
                         launches: nat, succeeded: nat, failed: nat, crashes: nat)

  datatype Action =
    | Enter(who: Caller)
    | FirstProbe(who: Caller, result: Probe)
    | Acquire(who: Caller)
    | GiveUp(who: Caller)
    | SecondProbe(who: Caller, result: Probe)
    | Launch(who: Caller, ok: bool)
    | Poll(who: Caller, result: Probe)
    | BecomesReady
    | Crashes

  const INIT := State(map[], 0, false, 0, 0, 0, 0)

  predicate At(s: State, t: Caller, pc: Pc) {
    t in s.pcs && s.pcs[t] == pc
  }

  /** Probes tell the truth about the socket. */
  predicate Truthful(s: State, result: Probe) {
    (result == Answers ==> s.ready) && (result == NoSocket ==> !s.ready)
  }

  predicate Enabled(s: State, a: Action) {
    match a
    case Enter(t) => t !in s.pcs
    case FirstProbe(t, r) => At(s, t, First) && Truthful(s, r)
    case Acquire(t) => At(s, t, AtGate) && s.tokens < 1
    case GiveUp(t) => At(s, t, AtGate)
    case SecondProbe(t, r) => At(s, t, Second) && Truthful(s, r)
    case Launch(t, _) => At(s, t, Launching)
    case Poll(t, r) => At(s, t, Polling) && Truthful(s, r)
    case BecomesReady => true
    case Crashes => s.ready
  }

  function Goto(s: State, t: Caller, pc: Pc): State {
    s.(pcs := s.pcs[t := pc])
  }

  /** Returning past the deferred release takes the token back out of the channel. */
  function Leave(s: State, t: Caller, ok: bool): State {
    Goto(s, t, Returned(ok)).(tokens := if s.tokens > 0 then s.tokens - 1 else 0)
  }

  function Step(s: State, a: Action): State
    requires Enabled(s, a)
  {
    match a
    case Enter(t) => Goto(s, t, First)
    case FirstProbe(t, r) => Goto(s, t, if r == NoSocket then AtGate else Returned(r == Answers))
    case Acquire(t) => Goto(s, t, Second).(tokens := s.tokens + 1)
    case GiveUp(t) => Goto(s, t, Returned(false))
    case SecondProbe(t, r) => if r == NoSocket then Goto(s, t, Launching) else Leave(s, t, r == Answers)
    case Launch(t, ok) =>
      var s' := s.(launches := s.launches + 1);
      if ok then Goto(s', t, Polling) else Leave(s', t, false).(failed := s.failed + 1)
    case Poll(t, r) =>
      if r == NoSocket then s
      else if r == Answers then Leave(s, t, true).(succeeded := s.succeeded + 1)
      else Leave(s, t, false).(failed := s.failed + 1)
    case BecomesReady => s.(ready := true)
    case Crashes => s.(ready := false, crashes := s.crashes + 1)
  }

  ghost predicate IsRun(states: seq<State>, run: seq<Action>) {
    && |states| == |run| + 1 && states[0] == INIT
    && forall i :: 0 <= i < |run| ==> Enabled(states[i], run[i]) && states[i + 1] == Step(states[i], run[i])
  }

  // ---------------------------------------------------------------- the invariant

  predicate InGate(pc: Pc) {
    pc == Second || pc == Launching || pc == Polling
  }

  predicate Holds(s: State, t: Caller) {
    t in s.pcs && InGate(s.pcs[t])
  }

  /** `h` is the one caller inside the gate, and the token lies in the channel exactly while
      there is one. */
  ghost predicate HeldBy(s: State, h: Option<Caller>) {
    && s.tokens == (if h.Some? then 1 else 0)
    && (forall t :: Holds(s, t) <==> h == Some(t))
  }

  function Next(s: State, a: Action, h: Option<Caller>): Option<Caller> {
    match a
    case Acquire(t) => Some(t)
    case SecondProbe(t, r) => if r == NoSocket then h else None
    case Launch(t, ok) => if ok then h else None
    case Poll(t, r) => if r == NoSocket then h else None
    case _ => h
  }

  lemma GateStep(s: State, a: Action, h: Option<Caller>)
    requires Enabled(s, a) && HeldBy(s, h)
    ensures HeldBy(Step(s, a), Next(s, a, h))
  {
    var s' := Step(s, a);
    assert (a.SecondProbe? || a.Launch? || a.Poll?) ==> Holds(s, a.who);
    forall t ensures Holds(s', t) <==> Next(s, a, h) == Some(t) {
      assert Holds(s, t) <==> h == Some(t);
    }
  }

  /** The holder is past the launcher call. */
  predicate Launched(s: State, h: Option<Caller>) {
    h.Some? && At(s, h.value, Polling)
  }

  /** The holder found no socket inside the gate. */
  predicate InFlight(s: State, h: Option<Caller>) {
    h.Some? && (At(s, h.value, Launching) || At(s, h.value, Polling))
  }

  ghost predicate LaunchesKept(s: State, h: Option<Caller>) {
    && s.launches == s.succeeded + s.failed + (if Launched(s, h) then 1 else 0)
    && (InFlight(s, h) || !s.ready ==> s.succeeded <= s.crashes)
    && s.succeeded <= s.crashes + 1
  }

  lemma LaunchesStep(s: State, a: Action, h: Option<Caller>)
    requires Enabled(s, a) && HeldBy(s, h) && LaunchesKept(s, h)
    ensures LaunchesKept(Step(s, a), Next(s, a, h))
  {
    assert (a.SecondProbe? || a.Launch? || a.Poll?) ==> Holds(s, a.who);
    assert a.FirstProbe? || a.Enter? || a.GiveUp? || a.Acquire? ==> !Holds(s, a.who);
  }

  // ---------------------------------------------------------------- every run

  lemma {:induction false} RunKeeps(states: seq<State>, run: seq<Action>) returns (h: Option<Caller>)
    requires IsRun(states, run)
    ensures HeldBy(states[|run|], h) && LaunchesKept(states[|run|], h)
    decreases |run|
  {
    if run == [] {
      h := None;
    } else {
      var n := |run| - 1;
      assert IsRun(states[..n + 1], run[..n]);
      var g := RunKeeps(states[..n + 1], run[..n]);
      GateStep(states[n], run[n], g);
      LaunchesStep(states[n], run[n], g);
      h := Next(states[n], run[n], g);
    }
  }

  /** At most one caller is between acquire and release, and whenever none is, the gate is empty:
      every return path has released it. */
  lemma MutualExclusion(states: seq<State>, run: seq<Action>)
    requires IsRun(states, run)
    ensures forall t, u :: Holds(states[|run|], t) && Holds(states[|run|], u) ==> t == u
    ensures states[|run|].tokens == 0 <==> forall t :: !Holds(states[|run|], t)
  {
    var h := RunKeeps(states, run);
    if h.Some? { assert Holds(states[|run|], h.value); }
  }

  /** Launches number at most one more than the launches whose caller returned an error plus the
      times a daemon that answered went away. With a daemon that stays up, only errors are
      launched again. */
  lemma LaunchBound(states: seq<State>, run: seq<Action>)
    requires IsRun(states, run)
    ensures states[|run|].launches <= 1 + states[|run|].failed + states[|run|].crashes
  {
    var h := RunKeeps(states, run);
  }

  /** A launch is preceded by a probe of the same caller that found no socket, made while it held
      the gate, and no other caller launched in between. */
  lemma {:induction false} LaunchAfterProbe(states: seq<State>, run: seq<Action>, t: Caller) returns (j: nat)
    requires IsRun(states, run) && At(states[|run|], t, Launching)
    ensures j < |run| && run[j] == SecondProbe(t, NoSocket)
    ensures forall i :: j < i <= |run| ==> At(states[i], t, Launching)
    ensures forall i :: j < i < |run| ==> !run[i].Launch?
    decreases |run|
  {
    var n := |run| - 1;
    assert IsRun(states[..n + 1], run[..n]);
    if At(states[n], t, Launching) {
      j := LaunchAfterProbe(states[..n + 1], run[..n], t);
      var h := RunKeeps(states[..n + 1], run[..n]);
      assert Holds(states[n], t);
      assert run[n].Launch? ==> Holds(states[n], run[n].who);
      forall i | j < i <= |run| ensures At(states[i], t, Launching) {
        if i <= n { assert states[..n + 1][i] == states[i]; }
      }
    } else {
      j := n;
    }
  }
}
