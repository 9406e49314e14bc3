/** The Windows uninstall: a launcher that hands over to a detached helper through a plan and a status file. */
module WindowsUninstall {
  import opened Common

  type Pid = int

  datatype Status = Scheduled | WaitingForParent | Removing | Completed | Failed | TimedOut
  datatype Writer = Launcher | Helper
  datatype Entry = Entry(writer: Writer, status: Status)

  /** A status write can fail with the new file already in place. */
  datatype Write = Written | Lost | Unconfirmed

  datatype LauncherPoint = Preparing | Planned | Scheduling | Polling | Reporting | Leaving | Returned(ok: bool)
  datatype HelperPoint = Absent | Started | Announcing | Waiting(next: nat) | Clearing | Ending | Gone

  datatype Event = Exited(pid: Pid) | Seen(status: Status) | Removed

  /** `late` says that a launch reported as failed may still start the helper; `cleaning` that the
      helper's cleanup routine is at work, which it may be after the helper gave up waiting for it. */
  datatype State = State(plan: seq<Pid>, planned: bool, exited: set<Pid>, launcher: LauncherPoint, helper: HelperPoint,
                         late: bool, cleaning: bool, file: Option<Status>, history: seq<Entry>, log: seq<Event>)

  datatype Action =
    | WritePlan(ok: bool)
    | Schedule(write: Write)
    | Launch
    | LaunchError(inFlight: bool)
    | ReportFailure(write: Write)
    | RemoveDirectory(plan: bool, status: bool)
    | Poll
    | GiveUpPolling
    | Exit(pid: Pid)
    | LateStart
    | ReadPlan(ok: bool)
    | Announce(write: Write)
    | ProcessEnded
    | WaitFailed(expired: bool, write: Write)
    | AnnounceRemoval(write: Write)
    | RemovePath
    | CleanupEnded(ok: bool, expired: bool, write: Write)
    | CleanupExpired(expired: bool, write: Write)
    | HelperEnds

  predicate LauncherAlive(s: State) {
    s.plan != [] && s.plan[0] !in s.exited
  }

  /** `plan` holds the launcher's own process first and, when it is an installed one, its parent. */
  function Init(plan: seq<Pid>): State {
    State(plan, false, {}, Preparing, Absent, false, false, None, [], [])
  }

  predicate Enabled(s: State, a: Action) {
    match a
    case WritePlan(_) => LauncherAlive(s) && s.launcher == Preparing
    case Schedule(_) => LauncherAlive(s) && s.launcher == Planned
    case Launch => LauncherAlive(s) && s.launcher == Scheduling
    case LaunchError(_) => LauncherAlive(s) && s.launcher == Scheduling
    case ReportFailure(_) => LauncherAlive(s) && s.launcher == Reporting
    case RemoveDirectory(_, _) => LauncherAlive(s) && s.launcher == Leaving
    case Poll => LauncherAlive(s) && s.launcher == Polling
    case GiveUpPolling => LauncherAlive(s) && s.launcher == Polling
    case Exit(pid) => pid !in s.exited
    case LateStart => s.late && s.helper == Absent
    case ReadPlan(ok) => s.helper == Started && (ok ==> s.planned)
    case Announce(_) => s.helper == Announcing
    case ProcessEnded => s.helper.Waiting? && s.helper.next < |s.plan| && s.plan[s.helper.next] in s.exited
    case WaitFailed(_, _) => s.helper.Waiting? && s.helper.next < |s.plan|
    case AnnounceRemoval(_) => s.helper == Waiting(|s.plan|)
    case RemovePath => s.cleaning
    case CleanupEnded(_, _, _) => s.helper == Clearing && s.cleaning
    case CleanupExpired(_, _) => s.helper == Clearing
    case HelperEnds => s.helper != Absent
  }

  function Wrote(s: State, writer: Writer, status: Status, write: Write): State {
    if write == Lost then s else s.(file := Some(status), history := s.history + [Entry(writer, status)])
  }

  /** What the launcher makes of the status it reads; None is to look again. */
  function Handoff(file: Option<Status>): Option<bool> {
    match file
    case None => Some(false)
    case Some(Scheduled) => None
    case Some(WaitingForParent) => Some(true)
    case Some(Completed) => Some(true)
    case Some(_) => Some(false)
  }

  /** The launcher's wait over successive readings of the status; None when it is cancelled while the helper
      has not reported yet. The first reading that is not `scheduled` decides. */
  method WaitForHandoff(readings: seq<Option<Status>>) returns (r: Option<bool>)
    ensures r.None? <==> forall i :: 0 <= i < |readings| ==> readings[i] == Some(Scheduled)
    ensures r.Some? ==> exists i :: 0 <= i < |readings| && r == Handoff(readings[i]) &&
                                    forall j :: 0 <= j < i ==> readings[j] == Some(Scheduled)
  {
    for i := 0 to |readings|
      invariant forall j :: 0 <= j < i ==> readings[j] == Some(Scheduled)
    {
      r := Handoff(readings[i]);
      if r.Some? { return; }
    }
    r := None;
  }

  /** One turn of the wait for a process: the clock and the context are looked at before the process is. */
  datatype Turn = Turn(expired: bool, cancelled: bool, result: WaitResult)
  datatype WaitResult = Signaled | StillRunning | Broken
  datatype Waited = Over | Expired | Cancelled | Trouble | Unfinished

  /** Opening the process to wait for; a process identifier that is no longer in use means that it has exited. */
  datatype Opened = NoSuchProcess | CannotOpen | Handle

  predicate Continues(t: Turn) {
    !t.expired && !t.cancelled && t.result == StillRunning
  }

  /** The wait for one process succeeds exactly if it is gone already, or if its exit is reported after turns
      that neither expired nor were cancelled. */
  method WaitForProcess(found: Opened, turns: seq<Turn>) returns (r: Waited)
    ensures found == NoSuchProcess ==> r == Over
    ensures found == CannotOpen ==> r == Trouble
    ensures found == Handle ==>
              && (r == Unfinished <==> forall i :: 0 <= i < |turns| ==> Continues(turns[i]))
              && (r == Over <==> EndsWith(turns, (t: Turn) => t == Turn(false, false, Signaled)))
              && (r == Expired <==> EndsWith(turns, (t: Turn) => t.expired))
              && (r == Cancelled <==> EndsWith(turns, (t: Turn) => !t.expired && t.cancelled))
  {
    if found == NoSuchProcess { return Over; }
    if found == CannotOpen { return Trouble; }
    for i := 0 to |turns|
      invariant forall j :: 0 <= j < i ==> Continues(turns[j])
    {
      if turns[i].expired { return Expired; }
      if turns[i].cancelled { return Cancelled; }
      if turns[i].result == Signaled { return Over; }
      if turns[i].result == Broken { return Trouble; }
    }
    r := Unfinished;
  }

  /** The first turn that does not go on is one of these. */
  ghost predicate EndsWith(turns: seq<Turn>, these: Turn -> bool) {
    exists i :: 0 <= i < |turns| && these(turns[i]) && !Continues(turns[i]) && forall j :: 0 <= j < i ==> Continues(turns[j])
  }

  function Polled(s: State): State {
    var t := if s.file.Some? then s.(log := s.log + [Seen(s.file.value)]) else s;
    match Handoff(s.file) case None => t case Some(ok) => t.(launcher := Returned(ok))
  }

  function Failure(expired: bool): Status {
    if expired then TimedOut else Failed
  }

  function Step(s: State, a: Action): State
    requires Enabled(s, a)
  {
    match a
    case WritePlan(ok) => s.(planned := ok, launcher := if ok then Planned else Leaving)
    case Schedule(write) => Wrote(s, Launcher, Scheduled, write).(launcher := if write == Written then Scheduling else Leaving)
    case Launch => s.(launcher := Polling, helper := Started)
    case LaunchError(inFlight) => s.(launcher := Reporting, late := inFlight)
    case ReportFailure(write) => Wrote(s, Launcher, Failed, write).(launcher := Leaving)
    case RemoveDirectory(plan, status) =>
      s.(planned := s.planned && !plan, file := if status then None else s.file, launcher := Returned(false))
    case Poll => Polled(s)
    case GiveUpPolling => s.(launcher := Returned(false))
    case Exit(pid) => s.(exited := s.exited + {pid}, log := s.log + [Exited(pid)])
    case LateStart => s.(helper := Started, late := false)
    case ReadPlan(ok) => s.(helper := if ok then Announcing else Ending)
    case Announce(write) => Wrote(s, Helper, WaitingForParent, write).(helper := if write == Written then Waiting(0) else Ending)
    case ProcessEnded => s.(helper := Waiting(s.helper.next + 1))
    case WaitFailed(expired, write) => Wrote(s, Helper, Failure(expired), write).(helper := Ending)
    case AnnounceRemoval(write) =>
      Wrote(s, Helper, Removing, write).(helper := if write == Written then Clearing else Ending, cleaning := write == Written)
    case RemovePath => s.(log := s.log + [Removed])
    case CleanupEnded(ok, expired, write) =>
      Wrote(s, Helper, if ok then Completed else Failure(expired), write).(helper := Ending, cleaning := false)
    case CleanupExpired(expired, write) => Wrote(s, Helper, Failure(expired), write).(helper := Ending)
    case HelperEnds => s.(helper := Gone, cleaning := false)
  }

  ghost predicate IsRun(states: seq<State>, run: seq<Action>, plan: seq<Pid>) {
    && plan != [] && |states| == |run| + 1 && states[0] == Init(plan)
    && forall i :: 0 <= i < |run| ==> Enabled(states[i], run[i]) && states[i + 1] == Step(states[i], run[i])
  }

  // ---------------------------------------------------------------- removal waits for every planned process

  ghost predicate ExitedAt(plan: seq<Pid>, exited: set<Pid>, i: int) {
    0 <= i < |plan| ==> plan[i] in exited
  }

  /** The first `n` processes of the plan have exited. */
  ghost predicate ExitedTo(plan: seq<Pid>, exited: set<Pid>, n: int) {
    forall i :: i < n ==> ExitedAt(plan, exited, i)
  }

  ghost predicate AllExited(s: State) {
    ExitedTo(s.plan, s.exited, |s.plan|)
  }

  ghost predicate ExitedBefore(log: seq<Event>, n: int, pid: Pid) {
    exists m :: 0 <= m < n && m < |log| && log[m] == Exited(pid)
  }

  ghost predicate Late(status: Status) {
    status == Removing || status == Completed
  }

  /** Where the two processes are. */
  ghost predicate Placed(s: State) {
    && s.plan != []
    && (s.helper.Waiting? ==> ExitedTo(s.plan, s.exited, s.helper.next))
    && (s.cleaning || s.helper == Clearing ==> AllExited(s))
    && (s.file.Some? && Late(s.file.value) ==> AllExited(s))
  }

  /** What has happened. */
  ghost predicate Recorded(s: State) {
    && (forall p :: p in s.exited ==> ExitedBefore(s.log, |s.log|, p))
    && (forall n, i :: 0 <= n < |s.log| && s.log[n] == Removed && 0 <= i < |s.plan| ==> ExitedBefore(s.log, n, s.plan[i]))
    && (forall n :: 0 <= n < |s.log| && s.log[n].Seen? ==> !Late(s.log[n].status))
    && (s.launcher == Returned(true) ==> Seen(WaitingForParent) in s.log)
  }

  ghost predicate Fenced(s: State) {
    Placed(s) && Recorded(s)
  }

  predicate ByLauncher(a: Action) {
    a.WritePlan? || a.Schedule? || a.Launch? || a.LaunchError? || a.ReportFailure? || a.RemoveDirectory? || a.Poll? || a.GiveUpPolling?
  }

  lemma LauncherPlaced(s: State, a: Action)
    requires Placed(s) && Enabled(s, a) && ByLauncher(a)
    ensures Placed(Step(s, a)) && Step(s, a).plan == s.plan
  {
  }

  lemma PlacedKeeps(s: State, a: Action)
    requires Placed(s) && Enabled(s, a)
    ensures Placed(Step(s, a)) && Step(s, a).plan == s.plan
  {
    if ByLauncher(a) {
      LauncherPlaced(s, a);
    } else if a.Exit? {
      ExitedMore(s.plan, s.exited, a.pid);
    } else if a.ProcessEnded? {
      assert ExitedAt(s.plan, s.exited, s.helper.next);
    }
  }

  lemma ExitedMore(plan: seq<Pid>, exited: set<Pid>, pid: Pid)
    ensures forall n :: ExitedTo(plan, exited, n) ==> ExitedTo(plan, exited + {pid}, n)
  {
    forall n, i | ExitedTo(plan, exited, n) && i < n ensures ExitedAt(plan, exited + {pid}, i) {
      assert ExitedAt(plan, exited, i);
    }
  }

  lemma LogKeeps(s: State, e: Event)
    requires Recorded(s) && (e == Removed ==> AllExited(s))
    requires e.Seen? ==> !Late(e.status)
    ensures Recorded(s.(log := s.log + [e])) && e in (s.log + [e])
  {
    var log := s.log + [e];
    assert log[|s.log|] == e;
    forall p | p in s.exited ensures ExitedBefore(log, |log|, p) {
      var m :| 0 <= m < |s.log| && s.log[m] == Exited(p);
      assert log[m] == Exited(p);
    }
    forall n, i | 0 <= n < |log| && log[n] == Removed && 0 <= i < |s.plan| ensures ExitedBefore(log, n, s.plan[i]) {
      assert n < |s.log| ==> s.log[n] == Removed;
      assert AllExited(s) ==> ExitedAt(s.plan, s.exited, i);
      assert ExitedBefore(s.log, n, s.plan[i]);
      var m :| 0 <= m < n && m < |s.log| && s.log[m] == Exited(s.plan[i]);
      assert log[m] == Exited(s.plan[i]);
    }
  }

  lemma ExitKeeps(s: State, pid: Pid)
    requires Recorded(s) && pid !in s.exited
    ensures Recorded(Step(s, Exit(pid)))
  {
    LogKeeps(s, Exited(pid));
    assert Step(s, Exit(pid)).log[|s.log|] == Exited(pid);
  }

  lemma PollKeeps(s: State)
    requires Fenced(s) && Enabled(s, Poll)
    ensures Recorded(Polled(s))
  {
    if s.file.Some? {
      assert AllExited(s) ==> ExitedAt(s.plan, s.exited, 0);
      LogKeeps(s, Seen(s.file.value));
    }
  }

  lemma SilentKeeps(s: State, t: State)
    requires Recorded(s) && t.plan == s.plan && t.log == s.log && t.exited == s.exited
    requires t.launcher == Returned(true) ==> s.launcher == Returned(true)
    ensures Recorded(t)
  {
  }

  lemma RecordedKeeps(s: State, a: Action)
    requires Fenced(s) && Enabled(s, a)
    ensures Recorded(Step(s, a))
  {
    if a.Exit? {
      ExitKeeps(s, a.pid);
    } else if a.RemovePath? {
      LogKeeps(s, Removed);
    } else if a.Poll? {
      PollKeeps(s);
    } else {
      SilentStep(s, a);
      SilentKeeps(s, Step(s, a));
    }
  }

  lemma SilentStep(s: State, a: Action)
    requires Enabled(s, a) && !a.Exit? && !a.RemovePath? && !a.Poll?
    ensures var t := Step(s, a);
            && t.plan == s.plan && t.log == s.log && t.exited == s.exited
            && (t.launcher == Returned(true) ==> s.launcher == Returned(true))
  {
    if ByLauncher(a) { SilentLauncher(s, a); }
  }

  lemma SilentLauncher(s: State, a: Action)
    requires Enabled(s, a) && ByLauncher(a) && !a.Poll?
    ensures var t := Step(s, a);
            t.plan == s.plan && t.log == s.log && t.exited == s.exited && t.launcher != Returned(true)
  {
  }

  lemma {:induction false} RunFenced(states: seq<State>, run: seq<Action>, plan: seq<Pid>, n: nat)
    requires IsRun(states, run, plan) && n <= |run|
    ensures Fenced(states[n]) && states[n].plan == plan
  {
    if n > 0 {
      RunFenced(states, run, plan, n - 1);
      PlacedKeeps(states[n - 1], run[n - 1]);
      RecordedKeeps(states[n - 1], run[n - 1]);
    }
  }

  /** Whatever is removed is removed after every process of the plan has exited, also when the status
      already says that the helper failed or ran out of time. */
  lemma RemovalAfterEveryExit(states: seq<State>, run: seq<Action>, plan: seq<Pid>, n: nat, at: nat, i: nat)
    requires IsRun(states, run, plan) && n <= |run| && at < |states[n].log| && states[n].log[at] == Removed && i < |plan|
    ensures exists m :: 0 <= m < at && states[n].log[m] == Exited(plan[i])
  {
    RunFenced(states, run, plan, n);
    assert ExitedBefore(states[n].log, at, states[n].plan[i]);
  }

  /** A launcher that reads the status never finds `removing` or `completed`: the one branch that calls
      the status invalid is dead, and a handover succeeds only on a helper seen waiting. */
  lemma LauncherNeverSeesRemoval(states: seq<State>, run: seq<Action>, plan: seq<Pid>, n: nat)
    requires IsRun(states, run, plan) && n <= |run|
    ensures Seen(Removing) !in states[n].log && Seen(Completed) !in states[n].log
    ensures LauncherAlive(states[n]) && states[n].file.Some? ==> !Late(states[n].file.value)
    ensures states[n].launcher == Returned(true) ==> Seen(WaitingForParent) in states[n].log
  {
    RunFenced(states, run, plan, n);
    assert AllExited(states[n]) ==> ExitedAt(states[n].plan, states[n].exited, 0);
  }

  // ---------------------------------------------------------------- the order of the statuses

  predicate Terminal(s: Status) {
    s == Completed || s == Failed || s == TimedOut
  }

  predicate Follows(a: Status, b: Status) {
    match a
    case Scheduled => b == WaitingForParent || b == Failed
    case WaitingForParent => b == Removing || b == Failed || b == TimedOut
    case Removing => Terminal(b)
    case _ => false
  }

  ghost predicate InOrder(h: seq<Entry>) {
    && (h != [] ==> h[0].status == Scheduled)
    && forall i :: 0 <= i < |h| - 1 ==> Follows(h[i].status, h[i + 1].status)
  }

  /** The launcher reported a failed launch although a helper reported something after it, or its end before it. */
  ghost predicate Clash(h: seq<Entry>) {
    exists a, b :: 0 <= a < |h| && 0 <= b < |h| && h[a] == Entry(Launcher, Failed) && h[b].writer == Helper &&
                   (a < b || Terminal(h[b].status))
  }

  function Rank(s: Status): int {
    match s case Scheduled => 0 case WaitingForParent => 1 case Removing => 2 case _ => 3
  }

  ghost predicate HelperSaid(h: seq<Entry>, n: int, status: Status) {
    exists i :: 0 <= i < n && i < |h| && h[i] == Entry(Helper, status)
  }

  ghost predicate EntryFits(h: seq<Entry>, i: int) {
    0 <= i < |h| ==>
      && (i == 0 <==> h[i].status == Scheduled) && (i == 0 ==> h[i].writer == Launcher)
      && (i > 0 && h[i].writer == Launcher ==> h[i].status == Failed)
      && (h[i].writer == Helper && h[i].status != WaitingForParent ==> HelperSaid(h, i, WaitingForParent))
      && (h[i].status == Completed ==> HelperSaid(h, i, Removing))
  }

  ghost predicate PairFits(h: seq<Entry>, i: int, j: int) {
    0 < i < j < |h| && h[i].writer == h[j].writer ==> h[i].writer == Helper && Rank(h[i].status) < Rank(h[j].status)
  }

  /** Each writer on its own goes forward: this holds of every history. */
  ghost predicate Shaped(h: seq<Entry>) {
    (forall i :: EntryFits(h, i)) && forall i, j :: PairFits(h, i, j)
  }

  lemma OrderExactly(h: seq<Entry>)
    requires Shaped(h)
    ensures InOrder(h) <==> !Clash(h)
  {
    if !Clash(h) {
      forall i | 0 <= i < |h| - 1 ensures Follows(h[i].status, h[i + 1].status) { NextFollows(h, i); }
    }
    if h != [] { assert EntryFits(h, 0); }
    if InOrder(h) {
      forall i | 0 <= i < |h| - 1 ensures !Terminal(h[i].status) { assert Follows(h[i].status, h[i + 1].status); }
    }
  }

  lemma NextFollows(h: seq<Entry>, i: nat)
    requires Shaped(h) && !Clash(h) && i < |h| - 1
    ensures Follows(h[i].status, h[i + 1].status)
  {
    assert EntryFits(h, i) && EntryFits(h, i + 1) && PairFits(h, i, i + 1);
    if h[i + 1].writer == Helper && h[i + 1].status != WaitingForParent {
      var k :| 0 <= k < i + 1 && h[k] == Entry(Helper, WaitingForParent);
      assert EntryFits(h, k);
    }
    if h[i + 1].status == Completed {
      var k :| 0 <= k < i + 1 && h[k] == Entry(Helper, Removing);
      assert PairFits(h, k, i) && EntryFits(h, k);
    }
  }

  // ---------------------------------------------------------------- every history is of that shape

  ghost predicate HelperBelow(h: seq<Entry>, rank: int) {
    forall i :: 0 <= i < |h| && h[i].writer == Helper ==> Rank(h[i].status) < rank
  }

  ghost predicate Reported(h: seq<Entry>) {
    exists i :: 0 <= i < |h| && h[i] == Entry(Launcher, Failed)
  }

  ghost predicate Told(s: State) {
    && Shaped(s.history)
    && (s.history == [] ==> s.helper == Absent && !s.late && !s.launcher.Scheduling? && !s.launcher.Reporting? && !s.launcher.Polling?)
    && (s.launcher == Preparing || s.launcher == Planned ==> s.history == [])
    && (s.launcher == Scheduling ==> s.helper == Absent && !s.late)
    && (s.launcher == Scheduling || s.launcher == Reporting ==> !Reported(s.history))
    && (s.helper == Absent || s.helper == Started || s.helper == Announcing ==> HelperBelow(s.history, 0))
    && (s.helper.Waiting? ==> HelperBelow(s.history, 2) && HelperSaid(s.history, |s.history|, WaitingForParent))
    && (s.helper == Clearing ==>
          && HelperBelow(s.history, 3) && HelperSaid(s.history, |s.history|, WaitingForParent)
          && HelperSaid(s.history, |s.history|, Removing))
  }

  lemma SaidLater(h: seq<Entry>, e: Entry, n: int, status: Status)
    requires HelperSaid(h, n, status)
    ensures HelperSaid(h + [e], n, status) && HelperSaid(h + [e], n + 1, status)
  {
    var i :| 0 <= i < n && i < |h| && h[i] == Entry(Helper, status);
    assert (h + [e])[i] == Entry(Helper, status);
  }

  lemma EntryLater(h: seq<Entry>, e: Entry, i: int)
    requires EntryFits(h, i) && i < |h|
    ensures EntryFits(h + [e], i)
  {
    if 0 <= i && HelperSaid(h, i, WaitingForParent) { SaidLater(h, e, i, WaitingForParent); }
    if 0 <= i && HelperSaid(h, i, Removing) { SaidLater(h, e, i, Removing); }
  }

  /** One more entry: what it has to meet. */
  lemma OneMoreEntry(h: seq<Entry>, e: Entry)
    requires Shaped(h) && EntryFits(h + [e], |h|)
    requires forall i :: PairFits(h + [e], i, |h|)
    ensures Shaped(h + [e])
  {
    var g := h + [e];
    forall i ensures EntryFits(g, i) {
      assert EntryFits(h, i);
      if i < |h| { EntryLater(h, e, i); }
    }
    forall i, j ensures PairFits(g, i, j) {
      assert PairFits(h, i, j) && PairFits(g, i, |h|);
    }
  }

  lemma HelperWrites(h: seq<Entry>, status: Status)
    requires Shaped(h) && h != [] && status != Scheduled && HelperBelow(h, Rank(status))
    requires status != WaitingForParent ==> HelperSaid(h, |h|, WaitingForParent)
    requires status == Completed ==> HelperSaid(h, |h|, Removing)
    ensures var g := h + [Entry(Helper, status)];
            && Shaped(g) && HelperBelow(g, Rank(status) + 1) && HelperSaid(g, |g|, status)
            && (HelperSaid(h, |h|, WaitingForParent) ==> HelperSaid(g, |g|, WaitingForParent))
  {
    var e := Entry(Helper, status);
    var g := h + [e];
    assert g[|h|] == e;
    if HelperSaid(h, |h|, WaitingForParent) { SaidLater(h, e, |h|, WaitingForParent); }
    if HelperSaid(h, |h|, Removing) { SaidLater(h, e, |h|, Removing); }
    forall i ensures PairFits(g, i, |h|) { assert 0 <= i < |h| ==> g[i] == h[i]; }
    OneMoreEntry(h, e);
  }

  lemma LauncherReports(h: seq<Entry>)
    requires Shaped(h) && h != [] && !Reported(h)
    ensures Shaped(h + [Entry(Launcher, Failed)])
    ensures forall rank :: HelperBelow(h, rank) ==> HelperBelow(h + [Entry(Launcher, Failed)], rank)
    ensures forall st :: HelperSaid(h, |h|, st) ==> HelperSaid(h + [Entry(Launcher, Failed)], |h| + 1, st)
  {
    var e := Entry(Launcher, Failed);
    var g := h + [e];
    forall st | HelperSaid(h, |h|, st) ensures HelperSaid(g, |h| + 1, st) { SaidLater(h, e, |h|, st); }
    forall i ensures PairFits(g, i, |h|) {
      assert EntryFits(h, i);
      assert 0 <= i < |h| ==> g[i] == h[i];
    }
    OneMoreEntry(h, e);
  }

  predicate Writes(a: Action) {
    a.Schedule? || a.ReportFailure? || a.Announce? || a.WaitFailed? || a.AnnounceRemoval? || a.CleanupEnded? || a.CleanupExpired?
  }

  lemma QuietLauncher(s: State, a: Action)
    requires Told(s) && Enabled(s, a) && !Writes(a) && ByLauncher(a)
    ensures Told(Step(s, a))
  {
  }

  lemma QuietHelper(s: State, a: Action)
    requires Told(s) && Enabled(s, a) && !Writes(a) && !ByLauncher(a)
    ensures Told(Step(s, a))
  {
  }

  lemma LauncherWritesKeep(s: State, a: Action)
    requires Told(s) && Enabled(s, a) && (a.Schedule? || a.ReportFailure?)
    ensures Told(Step(s, a))
  {
    if a.ReportFailure? { LauncherReports(s.history); }
  }

  lemma AnnounceKeeps(s: State, write: Write)
    requires Told(s) && Enabled(s, Announce(write))
    ensures Told(Step(s, Announce(write)))
  {
    HelperWrites(s.history, WaitingForParent);
  }

  lemma RemovalKeeps(s: State, write: Write)
    requires Told(s) && Enabled(s, AnnounceRemoval(write))
    ensures Told(Step(s, AnnounceRemoval(write)))
  {
    HelperWrites(s.history, Removing);
  }

  /** The helper's last word. */
  lemma EndingKeeps(s: State, status: Status, write: Write, cleaning: bool)
    requires Told(s) && (s.helper.Waiting? || s.helper == Clearing) && Terminal(status)
    requires status == Completed ==> s.helper == Clearing
    ensures Told(Wrote(s, Helper, status, write).(helper := Ending, cleaning := cleaning))
  {
    HelperWrites(s.history, status);
  }

  lemma ToldKeeps(s: State, a: Action)
    requires Told(s) && Enabled(s, a)
    ensures Told(Step(s, a))
  {
    if !Writes(a) {
      if ByLauncher(a) { QuietLauncher(s, a); } else { QuietHelper(s, a); }
    } else {
      match a
      case Announce(write) => AnnounceKeeps(s, write);
      case AnnounceRemoval(write) => RemovalKeeps(s, write);
      case WaitFailed(expired, write) => EndingKeeps(s, Failure(expired), write, s.cleaning);
      case CleanupExpired(expired, write) => EndingKeeps(s, Failure(expired), write, s.cleaning);
      case CleanupEnded(ok, expired, write) => EndingKeeps(s, if ok then Completed else Failure(expired), write, false);
      case _ => LauncherWritesKeep(s, a);
    }
  }

  lemma {:induction false} RunTold(states: seq<State>, run: seq<Action>, plan: seq<Pid>, n: nat)
    requires IsRun(states, run, plan) && n <= |run|
    ensures Told(states[n])
  {
    if n > 0 {
      RunTold(states, run, plan, n - 1);
      ToldKeeps(states[n - 1], run[n - 1]);
    }
  }

  /** In every run the status goes from `scheduled` to `waiting_for_parent` to `removing` to an end, or to an
      early end, exactly unless a failed launch was reported beside a helper that did start. */
  lemma StatusOrder(states: seq<State>, run: seq<Action>, plan: seq<Pid>, n: nat)
    requires IsRun(states, run, plan) && n <= |run|
    ensures InOrder(states[n].history) <==> !Clash(states[n].history)
  {
    RunTold(states, run, plan, n);
    OrderExactly(states[n].history);
  }

  ghost predicate Apart(s: State) {
    && (s.launcher == Reporting ==> s.helper == Absent)
    && (Reported(s.history) ==> s.helper == Absent)
  }

  lemma ReportedBy(h: seq<Entry>, e: Entry)
    ensures Reported(h + [e]) <==> Reported(h) || e == Entry(Launcher, Failed)
  {
    var g := h + [e];
    assert g[|h|] == e && forall i :: 0 <= i < |h| ==> g[i] == h[i];
  }

  lemma ApartLauncher(s: State, a: Action)
    requires Told(s) && Apart(s) && Enabled(s, a) && ByLauncher(a)
    ensures Apart(Step(s, a))
  {
    if a.Schedule? { ReportedBy(s.history, Entry(Launcher, Scheduled)); }
  }

  lemma ApartWriter(s: State, status: Status, write: Write, helper: HelperPoint, cleaning: bool)
    requires Apart(s) && s.helper != Absent
    ensures Apart(Wrote(s, Helper, status, write).(helper := helper, cleaning := cleaning))
  {
    ReportedBy(s.history, Entry(Helper, status));
  }

  lemma ApartQuiet(s: State, a: Action)
    requires Told(s) && Apart(s) && Enabled(s, a) && !ByLauncher(a) && !Writes(a) && a != LateStart
    ensures Apart(Step(s, a))
  {
  }

  lemma ApartKeeps(s: State, a: Action)
    requires Told(s) && Apart(s) && Enabled(s, a) && a != LateStart
    ensures Apart(Step(s, a))
  {
    if ByLauncher(a) {
      ApartLauncher(s, a);
    } else if !Writes(a) {
      ApartQuiet(s, a);
    } else {
      var t := Step(s, a);
      match a
      case Announce(write) => ApartWriter(s, WaitingForParent, write, t.helper, t.cleaning);
      case AnnounceRemoval(write) => ApartWriter(s, Removing, write, t.helper, t.cleaning);
      case WaitFailed(expired, write) => ApartWriter(s, Failure(expired), write, t.helper, t.cleaning);
      case CleanupExpired(expired, write) => ApartWriter(s, Failure(expired), write, t.helper, t.cleaning);
      case CleanupEnded(ok, expired, write) => ApartWriter(s, if ok then Completed else Failure(expired), write, t.helper, t.cleaning);
    }
  }

  lemma {:induction false} RunApart(states: seq<State>, run: seq<Action>, plan: seq<Pid>, n: nat)
    requires IsRun(states, run, plan) && n <= |run| && LateStart !in run[..n]
    ensures Apart(states[n])
  {
    if n > 0 {
      assert run[..n] == run[..n - 1] + [run[n - 1]];
      RunApart(states, run, plan, n - 1);
      RunTold(states, run, plan, n - 1);
      assert run[n - 1] in run[..n];
      ApartKeeps(states[n - 1], run[n - 1]);
    }
  }

  /** Only a helper that starts after its launch was reported as failed can upset the order. */
  lemma OrderWithoutLateStart(states: seq<State>, run: seq<Action>, plan: seq<Pid>, n: nat)
    requires IsRun(states, run, plan) && n <= |run| && LateStart !in run[..n]
    ensures InOrder(states[n].history)
  {
    RunApart(states, run, plan, n);
    RunTold(states, run, plan, n);
    OrderExactly(states[n].history);
  }

  /** No launch is abandoned while under way, so none starts late. */
  lemma {:induction false} NoneLate(states: seq<State>, run: seq<Action>, plan: seq<Pid>, n: nat)
    requires IsRun(states, run, plan) && n <= |run| && LaunchError(true) !in run[..n]
    ensures !states[n].late && LateStart !in run[..n]
  {
    if n > 0 {
      assert run[..n] == run[..n - 1] + [run[n - 1]];
      assert run[n - 1] in run[..n];
      NoneLate(states, run, plan, n - 1);
      NotLate(states[n - 1], run[n - 1]);
    }
  }

  lemma NotLate(s: State, a: Action)
    requires Enabled(s, a) && !s.late && a != LaunchError(true)
    ensures !Step(s, a).late && a != LateStart
  {
  }

  /** The order is kept in every run in which no launch is reported as failed while it is still under way. */
  lemma OrderUnlessAbandoned(states: seq<State>, run: seq<Action>, plan: seq<Pid>, n: nat)
    requires IsRun(states, run, plan) && n <= |run| && LaunchError(true) !in run[..n]
    ensures InOrder(states[n].history)
  {
    NoneLate(states, run, plan, n);
    OrderWithoutLateStart(states, run, plan, n);
  }

  ghost predicate Reached(s: State, plan: seq<Pid>) {
    exists states, run :: IsRun(states, run, plan) && states[|run|] == s
  }

  lemma OneMore(s: State, plan: seq<Pid>, a: Action)
    requires Reached(s, plan) && Enabled(s, a)
    ensures Reached(Step(s, a), plan)
  {
    var states, run :| IsRun(states, run, plan) && states[|run|] == s;
    var longer, more := states + [Step(s, a)], run + [a];
    forall i | 0 <= i < |more| ensures Enabled(longer[i], more[i]) && longer[i + 1] == Step(longer[i], more[i]) {
      if i < |run| { assert states[i + 1] == Step(states[i], run[i]); }
    }
    assert IsRun(longer, more, plan);
  }

  lemma LaunchAbandoned(pid: Pid) returns (s: State)
    ensures Reached(s, [pid]) && s.planned && s.late && s.helper == Absent
    ensures s.history == [Entry(Launcher, Scheduled), Entry(Launcher, Failed)]
  {
    s := Init([pid]);
    assert IsRun([s], [], [pid]);
    OneMore(s, [pid], WritePlan(true));
    s := Step(s, WritePlan(true));
    OneMore(s, [pid], Schedule(Written));
    s := Step(s, Schedule(Written));
    OneMore(s, [pid], LaunchError(true));
    s := Step(s, LaunchError(true));
    OneMore(s, [pid], ReportFailure(Written));
    s := Step(s, ReportFailure(Written));
  }

  /** A launch that is abandoned while under way starts the helper all the same: its `waiting_for_parent`
      then follows the launcher's `failed`. */
  lemma LateStartBreaksOrder(pid: Pid) returns (s: State)
    ensures Reached(s, [pid]) && !InOrder(s.history)
  {
    s := LaunchAbandoned(pid);
    OneMore(s, [pid], LateStart);
    s := Step(s, LateStart);
    OneMore(s, [pid], ReadPlan(true));
    s := Step(s, ReadPlan(true));
    OneMore(s, [pid], Announce(Written));
    s := Step(s, Announce(Written));
    assert !Follows(s.history[1].status, s.history[2].status);
  }

  /** And it can always be upset otherwise: in whatever state an abandoned launch has been reported with its
      plan still there, the helper may start, read the plan and announce itself, and its status is then out
      of order. */
  lemma AbandonedAlwaysBreaks(s: State, plan: seq<Pid>)
    requires Reached(s, plan) && s.late && s.planned && s.helper == Absent && Reported(s.history)
    ensures Enabled(s, LateStart)
    ensures Enabled(Step(s, LateStart), ReadPlan(true))
    ensures Enabled(Step(Step(s, LateStart), ReadPlan(true)), Announce(Written))
    ensures var t := Step(Step(Step(s, LateStart), ReadPlan(true)), Announce(Written)); Reached(t, plan) && !InOrder(t.history)
  {
    var states, run :| IsRun(states, run, plan) && states[|run|] == s;
    RunTold(states, run, plan, |run|);
    OneMore(s, plan, LateStart);
    var s1 := Step(s, LateStart);
    OneMore(s1, plan, ReadPlan(true));
    var s2 := Step(s1, ReadPlan(true));
    OneMore(s2, plan, Announce(Written));
    AnnouncedAfterFailure(s.history);
  }

  lemma AnnouncedAfterFailure(h: seq<Entry>)
    requires Reported(h)
    ensures !InOrder(h + [Entry(Helper, WaitingForParent)])
  {
    var g := h + [Entry(Helper, WaitingForParent)];
    var i :| 0 <= i < |h| && h[i] == Entry(Launcher, Failed);
    assert !Follows(g[i].status, g[i + 1].status);
  }
}
