/** The highest terminal sequence seen, recorded by any number of threads through a load and
    compare-and-swap loop and read by a reconnect. */
module TerminalSequence {

  type CallId = int

  datatype Pc = Loading | Swapping(seen: int) | Returned

  /** One call that records `value`. */
  datatype Call = Call(value: int, pc: Pc)

  datatype State = State(last: int, calls: map<CallId, Call>)

  datatype Action = Begin(t: CallId, value: int) | Load(t: CallId) | Swap(t: CallId)

  const INIT := State(0, map[])

  predicate Enabled(s: State, a: Action) {
    match a
    case Begin(t, _) => t !in s.calls
    case Load(t) => t in s.calls && s.calls[t].pc == Loading
    case Swap(t) => t in s.calls && s.calls[t].pc.Swapping?
  }

  /** A load that already covers the value returns; otherwise the swap succeeds only on the value
      loaded, and the loop starts over when it fails. */
  function Step(s: State, a: Action): State
    requires Enabled(s, a)
  {
    match a
    case Begin(t, v) => s.(calls := s.calls[t := Call(v, Loading)])
    case Load(t) =>
      var v := s.calls[t].value;
      s.(calls := s.calls[t := Call(v, if v <= s.last then Returned else Swapping(s.last))])
    case Swap(t) =>
      var v := s.calls[t].value;
      if s.calls[t].pc.seen == s.last then State(v, s.calls[t := Call(v, Returned)])
      else s.(calls := s.calls[t := Call(v, Loading)])
  }

  ghost predicate IsRun(states: seq<State>, run: seq<Action>) {
    && |states| == |run| + 1 && states[0] == INIT
    && forall i :: 0 <= i < |run| ==> Enabled(states[i], run[i]) && states[i + 1] == Step(states[i], run[i])
  }

  ghost predicate Kept(s: State) {
    && (s.last == 0 || exists t :: t in s.calls && s.calls[t].pc == Returned && s.calls[t].value == s.last)
    && s.last >= 0
    && (forall t :: t in s.calls && s.calls[t].pc == Returned ==> s.calls[t].value <= s.last)
    && (forall t :: t in s.calls && s.calls[t].pc.Swapping? ==> s.calls[t].pc.seen <= s.last && s.calls[t].pc.seen < s.calls[t].value)
  }

  lemma StepKeeps(s: State, a: Action)
    requires Enabled(s, a) && Kept(s)
    ensures Kept(Step(s, a)) && s.last <= Step(s, a).last
  {
    var s' := Step(s, a);
    if s'.last == s.last {
      if s.last != 0 {
        var t :| t in s.calls && s.calls[t].pc == Returned && s.calls[t].value == s.last;
        assert t in s'.calls && s'.calls[t] == s.calls[t];
      }
    } else {
      assert a.t in s'.calls && s'.calls[a.t] == Call(s'.last, Returned);
    }
  }

  lemma {:induction false} RunKeeps(states: seq<State>, run: seq<Action>)
    requires IsRun(states, run)
    ensures forall i :: 0 <= i < |states| ==> Kept(states[i])
    ensures forall i, j :: 0 <= i <= j < |states| ==> states[i].last <= states[j].last
    decreases |run|
  {
    if run != [] {
      var n := |run| - 1;
      var before := states[..n + 1];
      assert IsRun(before, run[..n]);
      RunKeeps(before, run[..n]);
      assert before[n] == states[n];
      StepKeeps(states[n], run[n]);
      forall i, j | 0 <= i <= j < |states| ensures states[i].last <= states[j].last {
        if i <= n { assert before[i] == states[i] && before[i].last <= before[n].last; }
        if j <= n { assert before[j] == states[j] && before[i].last <= before[j].last; }
      }
      forall i | 0 <= i < |states| ensures Kept(states[i]) {
        if i <= n { assert before[i] == states[i]; }
      }
    }
  }

  /** The record never decreases, and from the moment a call has returned it covers that call's
      value: a reconnect that reads it later never asks for output already recorded. */
  lemma NeverBehind(states: seq<State>, run: seq<Action>, i: nat, j: nat, t: CallId)
    requires IsRun(states, run) && i <= j < |states|
    requires t in states[i].calls && states[i].calls[t].pc == Returned
    ensures states[i].calls[t].value <= states[i].last <= states[j].last
  {
    RunKeeps(states, run);
  }

  /** When every call has returned the record is the greatest value recorded, or the initial 0. */
  lemma MaximumAtRest(states: seq<State>, run: seq<Action>)
    requires IsRun(states, run)
    requires forall t :: t in states[|run|].calls ==> states[|run|].calls[t].pc == Returned
    ensures var s := states[|run|];
            && (forall t :: t in s.calls ==> s.calls[t].value <= s.last) && 0 <= s.last
            && (s.last == 0 || exists t :: t in s.calls && s.calls[t].value == s.last)
  {
    RunKeeps(states, run);
    assert Kept(states[|run|]);
  }
}
