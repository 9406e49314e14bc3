/** `pb tunnel create`: any number of runs for one host and tunnel name, each of which may stop anywhere, over the
    durable journal of that name. Runs for other names only draw keys from the same supply. */
module TunnelCreate {
  import opened Common
  import opened DomainList
  import opened TunnelJournal

  // ---------------------------------------------------------------- the runs

  /** A valid command line. Its digest is taken to determine it. */
  datatype Request = Request(name: string, mode: string, scheme: string, address: string, duration: int, domains: seq<string>)

  datatype Body = Body(name: string, mode: string, scheme: string, address: string, expires: Option<int>)

  type Saved = Journal<Request>

  datatype Point =
    | Creating
    | Recording(tunnel: (string, string))
    | Connecting
    | Readying
    | AtDomain(index: nat)
    | Keeping(index: nat, id: string)
    | Rejecting

  datatype Process = Idle | Running(request: Request, journal: Saved, point: Point)

  /** What the world sees; `life` numbers the journals in the order they were begun. */
  datatype Event =
    | TunnelCall(life: int, key: Key, body: Body)
    | TunnelSaved(life: int, tunnel: (string, string))
    | Activated(life: int, tunnelID: string)
    | ReadySaved(life: int)
    | DomainCall(life: int, index: nat, key: Key, tunnelID: string, hostname: string)
    | DomainSaved(life: int, index: nat, id: string)
    | Completed(life: int)

  /** `journals` remembers every journal as it was last on disk; `keys` have been drawn so far. */
  datatype State = State(name: string, disk: Option<Saved>, process: Process, keys: nat, journals: seq<Saved>, log: seq<Event>)

  /** The service may be asked again before it answers. */
  datatype TunnelReply = Again | Refused | NameTaken | Made(tunnelID: string, operationID: string, replayed: bool, name: string)
  datatype DomainReply = AskAgain | NoDomain | Domain(id: string, replayed: bool, echoes: bool)

  datatype Action =
    | Begin(request: Request, now: int, write: Write)
    | CreateTunnel(reply: TunnelReply)
    | Record(write: Write)
    | Connect(ok: bool)
    | CreateDomain(answer: DomainReply)
    | Complete(removed: bool)
    | Stop
    | Elsewhere(drawn: nat)

  function Init(name: string): State {
    State(name, None, Idle, 0, [], [])
  }

  predicate Enabled(s: State, a: Action) {
    match a
    case Begin(request, _, _) => s.process == Idle && request.name == s.name && Increasing(request.domains)
    case Stop => s.process != Idle
    case Elsewhere(_) => true
    case CreateTunnel(_) => s.process.Running? && s.process.point == Creating
    case Record(_) =>
      s.process.Running? && (s.process.point.Recording? || s.process.point == Readying || s.process.point.Keeping?)
    case Connect(_) => s.process.Running? && s.process.point == Connecting
    case CreateDomain(_) =>
      s.process.Running? && s.process.point.AtDomain? && s.process.point.index < |s.process.request.domains|
    case Complete(_) =>
      s.process.Running? && (s.process.point == Rejecting || s.process.point == AtDomain(|s.process.request.domains|))
  }

  function BodyFor(r: Request, expires: Option<int>): Body {
    Body(r.name, r.mode, r.scheme, r.address, expires)
  }

  function Fresh(r: Request, key: Key, now: int): Saved {
    Journal(r, key, None, Prepared, if r.duration > 0 then Some(now + r.duration) else None,
            seq(|r.domains|, i requires 0 <= i => TunnelJournal.Domain(key + 1 + i, None, Prepared)))
  }

  function Began(s: State, r: Request, now: int, write: Write): State {
    if |r.domains| > MAXIMUM_DOMAINS then s
    else if s.disk.Some? then
      if s.disk.value.digest != r || |s.disk.value.domains| != |r.domains| then s
      else s.(process := Running(r, s.disk.value, Creating))
    else
      var j := Fresh(r, s.keys, now);
      var t := s.(keys := s.keys + 1 + |r.domains|);
      if write == Failed then t
      else t.(disk := Some(j), journals := s.journals + [j],
              process := if write == Write.Saved then Running(r, j, Creating) else Idle)
  }

  function Life(s: State): int {
    |s.journals| - 1
  }

  function Logged(s: State, e: Event): State {
    s.(log := s.log + [e])
  }

  function CreateStep(s: State, reply: TunnelReply): State
    requires s.process.Running?
  {
    var j := s.process.journal;
    var t := Logged(s, TunnelCall(Life(s), j.tunnelKey, BodyFor(s.process.request, j.expires)));
    match reply
    case Again => t
    case Refused => t.(process := Idle)
    case NameTaken => t.(process := if j.created.Some? then Idle else s.process.(point := Rejecting))
    case Made(tunnelID, operationID, replayed, name) =>
      if j.created.Some? && (!replayed || j.created.value != (tunnelID, operationID)) then t.(process := Idle)
      else if name != s.process.request.name then t.(process := Idle)
      else t.(process := s.process.(point := Recording((tunnelID, operationID))))
  }

  /** The state after a record: `written` says that `file` is the new record, `ok` that this is known. */
  function AfterRecord(s: State, file: Option<Saved>, ok: bool, written: bool, e: Event, point: Point): State
    requires s.process.Running? && (written ==> file.Some?)
  {
    if !written then s.(process := Idle)
    else
      Logged(s.(disk := file, journals := if s.journals == [] then [] else s.journals[Life(s) := file.value],
                process := if ok then Running(s.process.request, file.value, point) else Idle), e)
  }

  /** A record reaches the disk unless it is refused or its write fails; only a confirmed one goes on. */
  function Persisted(s: State, next: Option<Saved>, write: Write, e: Event, point: Point): State
    requires s.process.Running?
  {
    AfterRecord(s, next, write == Write.Saved, next.Some? && write != Failed, e, point)
  }

  function RecordStep(s: State, write: Write): State
    requires Enabled(s, Record(write))
  {
    var j := s.process.journal;
    match s.process.point
    case Recording(tunnel) =>
      Persisted(s, RecordTunnel(j, tunnel.0, tunnel.1), write, TunnelSaved(Life(s), tunnel), Connecting)
    case Readying =>
      Persisted(s, RecordConnectorReady(j), write, ReadySaved(Life(s)), AtDomain(0))
    case Keeping(index, id) =>
      Persisted(s, RecordDomain(j, index, id), write, DomainSaved(Life(s), index, id), AtDomain(index + 1))
  }

  function TunnelOf(j: Saved): string {
    if j.created.Some? then j.created.value.0 else ""
  }

  /** Reading the connector back when readiness is recorded; activating it otherwise. */
  function ConnectStep(s: State, ok: bool): State
    requires s.process.Running?
  {
    var j := s.process.journal;
    if Rank(j.stage) >= 2 then s.(process := if ok then s.process.(point := AtDomain(0)) else Idle)
    else
      Logged(s, Activated(Life(s), TunnelOf(j))).(process := if ok then s.process.(point := Readying) else Idle)
  }

  function DomainStep(s: State, reply: DomainReply): State
    requires Enabled(s, CreateDomain(reply))
  {
    var i, j := s.process.point.index, s.process.journal;
    if i >= |j.domains| then s.(process := Idle) else
    var d := j.domains[i];
    var t := Logged(s, DomainCall(Life(s), i, d.key, TunnelOf(j), s.process.request.domains[i]));
    match reply
    case AskAgain => t
    case NoDomain => t.(process := Idle)
    case Domain(id, replayed, echoes) =>
      if d.id.Some? && (!replayed || d.id != Some(id)) then t.(process := Idle)
      else if !echoes then t.(process := Idle)
      else t.(process := s.process.(point := Keeping(i, id)))
  }

  function CompleteStep(s: State, removed: bool): State
    requires s.process.Running?
  {
    if CanComplete(s.process.journal) && removed then Logged(s.(disk := None, process := Idle), Completed(Life(s)))
    else s.(process := Idle)
  }

  function Step(s: State, a: Action): State
    requires Enabled(s, a)
  {
    match a
    case Begin(request, now, write) => Began(s, request, now, write)
    case CreateTunnel(reply) => CreateStep(s, reply)
    case Record(write) => RecordStep(s, write)
    case Connect(ok) => ConnectStep(s, ok)
    case CreateDomain(reply) => DomainStep(s, reply)
    case Complete(removed) => CompleteStep(s, removed)
    case Stop => s.(process := Idle)
    case Elsewhere(drawn) => s.(keys := s.keys + drawn)
  }

  // ---------------------------------------------------------------- what every step keeps

  /** A journal keeps its keys in one block, one per domain after the tunnel's own. */
  ghost predicate Sound(j: Saved) {
    && Valid(j) && Settled(j) && |j.domains| == |j.digest.domains| && Increasing(j.digest.domains)
    && forall i :: 0 <= i < |j.domains| ==> j.domains[i].key == j.tunnelKey + 1 + i
  }

  ghost predicate Ordered(js: seq<Saved>, keys: nat) {
    && (forall e :: 0 <= e < |js| ==> Sound(js[e]) && js[e].tunnelKey + |js[e].domains| < keys)
    && forall e, f :: 0 <= e < f < |js| ==> js[e].tunnelKey + |js[e].domains| < js[f].tunnelKey
  }

  predicate RecordedTo(ds: seq<TunnelJournal.Domain>, n: nat) {
    forall i :: 0 <= i < n && i < |ds| ==> ds[i].id.Some?
  }

  ghost predicate AtPoint(r: Request, j: Saved, p: Point) {
    match p
    case Creating => true
    case Recording(_) => true
    case Rejecting => j.created.None?
    case Connecting => j.created.Some?
    case Readying => j.created.Some?
    case AtDomain(i) => i <= |r.domains| && Rank(j.stage) >= 2 && RecordedTo(j.domains, i)
    case Keeping(i, _) => i < |r.domains| && Rank(j.stage) >= 2 && RecordedTo(j.domains, i)
  }

  ghost predicate Held(s: State) {
    && (s.disk.Some? ==> s.journals != [] && s.journals[Life(s)] == s.disk.value)
    && (s.process.Running? ==>
          && s.disk == Some(s.process.journal) && s.process.journal.digest == s.process.request
          && |s.process.journal.domains| == |s.process.request.domains|
          && AtPoint(s.process.request, s.process.journal, s.process.point))
  }

  /** An event agrees with its journal as that journal was last on disk. */
  ghost predicate Agrees(e: Event, j: Saved) {
    match e
    case TunnelCall(_, key, body) => key == j.tunnelKey && body == BodyFor(j.digest, j.expires)
    case TunnelSaved(_, tunnel) => j.created == Some(tunnel)
    case Activated(_, tunnelID) => j.created.Some? && j.created.value.0 == tunnelID
    case ReadySaved(_) => Rank(j.stage) >= 2
    case DomainCall(_, i, key, tunnelID, hostname) =>
      && i < |j.domains| == |j.digest.domains| && key == j.domains[i].key && hostname == j.digest.domains[i]
      && j.created.Some? && j.created.value.0 == tunnelID && Rank(j.stage) >= 2
    case DomainSaved(_, i, id) => i < |j.domains| && j.domains[i].id == Some(id)
    case Completed(_) => CanComplete(j)
  }

  ghost predicate Told(log: seq<Event>, js: seq<Saved>) {
    forall n :: ToldAt(log, js, n)
  }

  ghost predicate ToldAt(log: seq<Event>, js: seq<Saved>, n: int) {
    0 <= n < |log| ==> 0 <= log[n].life < |js| && Agrees(log[n], js[log[n].life])
  }

  /** Nothing is activated after its readiness is saved, and nothing follows a journal's end. */
  ghost predicate MayFollow(first: Event, second: Event) {
    first.life == second.life ==> !first.Completed? && !(first.ReadySaved? && second.Activated?)
  }

  ghost predicate InTurn(log: seq<Event>) {
    forall n, m :: 0 <= n < m < |log| ==> MayFollow(log[n], log[m])
  }

  ghost predicate Ended(s: State) {
    forall n :: 0 <= n < |s.log| && s.log[n].Completed? && s.disk.Some? ==> s.log[n].life < Life(s)
  }

  ghost predicate Inv(s: State) {
    Ordered(s.journals, s.keys) && Held(s) && Told(s.log, s.journals) && InTurn(s.log) && Ended(s)
  }

  /** How the journals may change: those on record only extend, and one may be added. */
  ghost predicate Grows(js: seq<Saved>, ks: seq<Saved>) {
    |js| <= |ks| && forall e :: ExtendsAt(js, ks, e)
  }

  ghost predicate ExtendsAt(js: seq<Saved>, ks: seq<Saved>, e: int) {
    0 <= e < |js| && e < |ks| ==> Extends(js[e], ks[e])
  }

  lemma AgreesLater(e: Event, j: Saved, k: Saved)
    requires Agrees(e, j) && Valid(j) && Extends(j, k) && (e.Completed? ==> j == k)
    ensures Agrees(e, k)
  {
  }

  /** What an event of the journal on disk has to meet to be the next one. */
  lemma LogOne(s: State, e: Event)
    requires Inv(s) && s.disk.Some? && e.life == Life(s) && Agrees(e, s.disk.value)
    requires e.Activated? ==> Rank(s.disk.value.stage) < 2
    ensures Told(s.log + [e], s.journals) && InTurn(s.log + [e])
  {
    var log := s.log + [e];
    forall n ensures ToldAt(log, s.journals, n) { assert ToldAt(s.log, s.journals, n); }
    forall n, m | 0 <= n < m < |log| ensures MayFollow(log[n], log[m]) {
      if m == |s.log| {
        assert ToldAt(s.log, s.journals, n);
      } else {
        assert MayFollow(s.log[n], s.log[m]);
      }
    }
  }

  /** An event of a step that leaves disk and journals alone. */
  lemma LoggedKeeps(s: State, e: Event, process: Process)
    requires Inv(s) && s.disk.Some? && e.life == Life(s) && Agrees(e, s.disk.value) && !e.Completed?
    requires e.Activated? ==> Rank(s.disk.value.stage) < 2
    requires process == Idle || Held(s.(process := process))
    ensures Inv(Logged(s, e).(process := process))
  {
    LogOne(s, e);
  }

  /** A step that only replaces the journal on disk. */
  lemma ReplacedKeeps(s: State, next: Saved)
    requires Inv(s) && s.disk.Some? && Valid(next) && Settled(next) && Extends(s.disk.value, next)
    ensures var t := s.(disk := Some(next), journals := s.journals[Life(s) := next], process := Idle);
            Inv(t) && Grows(s.journals, t.journals)
  {
    var js := s.journals[Life(s) := next];
    assert Sound(next);
    forall n ensures ToldAt(s.log, js, n) {
      assert ToldAt(s.log, s.journals, n);
      if 0 <= n < |s.log| { AgreesLater(s.log[n], s.journals[s.log[n].life], js[s.log[n].life]); }
    }
  }

  lemma FreshSound(r: Request, key: Key, now: int)
    requires |r.domains| <= MAXIMUM_DOMAINS && Increasing(r.domains)
    ensures Sound(Fresh(r, key, now))
  {
    var j := Fresh(r, key, now);
    assert j.domains != [] ==> j.domains[0].id.None?;
  }

  lemma AddedKeeps(s: State, j: Saved, keys: nat)
    requires Inv(s) && s.process == Idle && s.disk.None? && Sound(j)
    requires j.tunnelKey == s.keys && s.keys + |j.domains| < keys
    ensures var t := State(s.name, Some(j), Idle, keys, s.journals + [j], s.log);
            Inv(t) && Grows(s.journals, t.journals)
  {
    var js := s.journals + [j];
    assert forall e :: 0 <= e < |s.journals| ==> js[e] == s.journals[e];
    forall n ensures ToldAt(s.log, js, n) { assert ToldAt(s.log, s.journals, n); }
    forall n | 0 <= n < |s.log| ensures s.log[n].life < |s.journals| { assert ToldAt(s.log, s.journals, n); }
  }

  lemma StartedKeeps(s: State, r: Request)
    requires Inv(s) && s.disk.Some? && s.disk.value.digest == r && |s.disk.value.domains| == |r.domains|
    ensures Inv(s.(process := Running(r, s.disk.value, Creating))) && Grows(s.journals, s.journals)
  {
  }

  lemma DrawnKeeps(s: State, keys: nat)
    requires Inv(s) && s.process == Idle && s.keys <= keys
    ensures Inv(s.(keys := keys)) && Grows(s.journals, s.journals)
  {
  }

  lemma BeganKeeps(s: State, r: Request, now: int, write: Write)
    requires Inv(s) && s.process == Idle && Increasing(r.domains)
    ensures Inv(Began(s, r, now, write)) && Grows(s.journals, Began(s, r, now, write).journals)
  {
    if |r.domains| > MAXIMUM_DOMAINS {
    } else if s.disk.Some? {
      if s.disk.value.digest == r && |s.disk.value.domains| == |r.domains| { StartedKeeps(s, r); }
    } else if write == Failed {
      DrawnKeeps(s, s.keys + 1 + |r.domains|);
    } else {
      var j, keys := Fresh(r, s.keys, now), s.keys + 1 + |r.domains|;
      FreshSound(r, s.keys, now);
      AddedKeeps(s, j, keys);
      StartedKeeps(State(s.name, Some(j), Idle, keys, s.journals + [j], s.log), r);
    }
  }

  lemma CreateKeeps(s: State, reply: TunnelReply)
    requires Inv(s) && Enabled(s, CreateTunnel(reply))
    ensures Inv(CreateStep(s, reply)) && Grows(s.journals, CreateStep(s, reply).journals)
  {
    var j := s.process.journal;
    LoggedKeeps(s, TunnelCall(Life(s), j.tunnelKey, BodyFor(s.process.request, j.expires)), CreateStep(s, reply).process);
  }

  lemma ConnectKeeps(s: State, ok: bool)
    requires Inv(s) && Enabled(s, Connect(ok))
    ensures Inv(ConnectStep(s, ok)) && Grows(s.journals, ConnectStep(s, ok).journals)
  {
    var j := s.process.journal;
    if Rank(j.stage) < 2 {
      LoggedKeeps(s, Activated(Life(s), TunnelOf(j)), ConnectStep(s, ok).process);
    }
  }

  lemma DomainKeeps(s: State, reply: DomainReply)
    requires Inv(s) && Enabled(s, CreateDomain(reply))
    ensures Inv(DomainStep(s, reply)) && Grows(s.journals, DomainStep(s, reply).journals)
  {
    var i, j := s.process.point.index, s.process.journal;
    var e := DomainCall(Life(s), i, j.domains[i].key, TunnelOf(j), s.process.request.domains[i]);
    LoggedKeeps(s, e, DomainStep(s, reply).process);
  }

  lemma CompleteKeeps(s: State, removed: bool)
    requires Inv(s) && Enabled(s, Complete(removed))
    ensures Inv(CompleteStep(s, removed)) && Grows(s.journals, CompleteStep(s, removed).journals)
  {
    if CanComplete(s.process.journal) { LogOne(s, Completed(Life(s))); }
  }

  lemma PersistedKeeps(s: State, next: Option<Saved>, write: Write, e: Event, point: Point)
    requires Inv(s) && s.process.Running?
    requires next.Some? ==>
               && Valid(next.value) && Settled(next.value) && Extends(s.process.journal, next.value)
               && e.life == Life(s) && !e.Activated? && !e.Completed? && Agrees(e, next.value)
               && AtPoint(s.process.request, next.value, point)
    ensures Inv(Persisted(s, next, write, e, point)) && Grows(s.journals, Persisted(s, next, write, e, point).journals)
  {
    if next.Some? && write != Failed {
      ReplacedKeeps(s, next.value);
      var t := s.(disk := next, journals := s.journals[Life(s) := next.value], process := Idle);
      LoggedKeeps(t, e, Persisted(s, next, write, e, point).process);
    }
  }

  lemma RecordTunnelKeeps(s: State, write: Write)
    requires Inv(s) && s.process.Running? && s.process.point.Recording?
    ensures Inv(RecordStep(s, write)) && Grows(s.journals, RecordStep(s, write).journals)
  {
    var j, tunnel := s.process.journal, s.process.point.tunnel;
    RecordsExtend(j, tunnel.0, tunnel.1, 0, "");
    PersistedKeeps(s, RecordTunnel(j, tunnel.0, tunnel.1), write, TunnelSaved(Life(s), tunnel), Connecting);
  }

  lemma RecordReadyKeeps(s: State, write: Write)
    requires Inv(s) && s.process.Running? && s.process.point == Readying
    ensures Inv(RecordStep(s, write)) && Grows(s.journals, RecordStep(s, write).journals)
  {
    RecordsExtend(s.process.journal, "", "", 0, "");
    PersistedKeeps(s, RecordConnectorReady(s.process.journal), write, ReadySaved(Life(s)), AtDomain(0));
  }

  lemma RecordDomainKeeps(s: State, write: Write)
    requires Inv(s) && s.process.Running? && s.process.point.Keeping?
    ensures Inv(RecordStep(s, write)) && Grows(s.journals, RecordStep(s, write).journals)
  {
    var j, index, id := s.process.journal, s.process.point.index, s.process.point.id;
    RecordsExtend(j, "", "", index, id);
    PersistedKeeps(s, RecordDomain(j, index, id), write, DomainSaved(Life(s), index, id), AtDomain(index + 1));
  }

  /** Every step keeps the invariant, and no step changes what a journal has recorded. */
  lemma StepKeeps(s: State, a: Action)
    requires Inv(s) && Enabled(s, a)
    ensures Inv(Step(s, a)) && Grows(s.journals, Step(s, a).journals)
  {
    match a
    case Begin(request, now, write) => BeganKeeps(s, request, now, write);
    case CreateTunnel(reply) => CreateKeeps(s, reply);
    case Record(write) =>
      if s.process.point.Recording? { RecordTunnelKeeps(s, write); }
      else if s.process.point == Readying { RecordReadyKeeps(s, write); }
      else { RecordDomainKeeps(s, write); }
    case Connect(ok) => ConnectKeeps(s, ok);
    case CreateDomain(reply) => DomainKeeps(s, reply);
    case Complete(removed) => CompleteKeeps(s, removed);
    case Stop =>
    case Elsewhere(_) =>
  }

  // ---------------------------------------------------------------- every run

  /** Any interleaving of runs, replies, failures and stops, from an empty disk. */
  ghost predicate IsRun(states: seq<State>, run: seq<Action>) {
    && |states| == |run| + 1 && states[0] == Init(states[0].name)
    && forall i :: 0 <= i < |run| ==> Moves(states[i], run[i], states[i + 1])
  }

  ghost predicate Moves(s: State, a: Action, t: State) {
    Enabled(s, a) && t == Step(s, a)
  }

  lemma {:induction false} RunKeeps(states: seq<State>, run: seq<Action>, n: nat)
    requires IsRun(states, run) && n <= |run|
    ensures Inv(states[n])
  {
    if n > 0 {
      RunKeeps(states, run, n - 1);
      assert Moves(states[n - 1], run[n - 1], states[n]);
      StepKeeps(states[n - 1], run[n - 1]);
    }
  }

  lemma OneMore(states: seq<State>, run: seq<Action>, n: nat)
    requires IsRun(states, run) && n < |run|
    ensures Grows(states[n].journals, states[n + 1].journals)
  {
    RunKeeps(states, run, n);
    assert Moves(states[n], run[n], states[n + 1]);
    StepKeeps(states[n], run[n]);
  }

  lemma GrowsTransitive(a: seq<Saved>, b: seq<Saved>, c: seq<Saved>)
    requires Grows(a, b) && Grows(b, c)
    ensures Grows(a, c)
  {
    forall e ensures ExtendsAt(a, c, e) {
      assert ExtendsAt(a, b, e) && ExtendsAt(b, c, e);
      if 0 <= e < |a| { ExtendsTransitive(a[e], b[e], c[e]); }
    }
  }

  /** A recorded identifier never changes and no journal goes back a stage, however many runs it takes. */
  lemma {:induction false} NothingIsForgotten(states: seq<State>, run: seq<Action>, n: nat, m: nat)
    requires IsRun(states, run) && n <= m <= |run|
    ensures Grows(states[n].journals, states[m].journals)
  {
    if n < m {
      NothingIsForgotten(states, run, n, m - 1);
      OneMore(states, run, m - 1);
      GrowsTransitive(states[n].journals, states[m - 1].journals, states[m].journals);
    }
  }

  lemma KeyBelongs(s: State, e: int, f: int, i: int, k: int)
    requires Inv(s) && 0 <= e < |s.journals| && 0 <= f < |s.journals|
    requires 0 <= i <= |s.journals[e].domains| && 0 <= k <= |s.journals[f].domains|
    ensures s.journals[e].tunnelKey + i == s.journals[f].tunnelKey + k <==> e == f && i == k
  {
  }

  /** All create calls in the life of one journal carry one key and one body, and a key is never used
      with a second body, nor for both a tunnel and a domain. */
  lemma OneKeyOneBody(states: seq<State>, run: seq<Action>, n: nat, a: nat, b: nat)
    requires IsRun(states, run) && n <= |run|
    requires a < |states[n].log| && b < |states[n].log| && states[n].log[a].TunnelCall?
    ensures var x, y := states[n].log[a], states[n].log[b];
            && (y.TunnelCall? ==> (x.life == y.life <==> x.key == y.key))
            && (y.TunnelCall? && x.key == y.key ==> x.body == y.body)
            && (y.DomainCall? ==> x.key != y.key)
  {
    RunKeeps(states, run, n);
    var s := states[n];
    var x, y := s.log[a], s.log[b];
    assert ToldAt(s.log, s.journals, a) && ToldAt(s.log, s.journals, b);
    KeyBelongs(s, x.life, y.life, 0, if y.DomainCall? then y.index + 1 else 0);
  }

  /** In the life of one journal a domain key and a host name determine each other; across all lives
      a key belongs to one host name of one tunnel. */
  lemma OneKeyOneHostname(states: seq<State>, run: seq<Action>, n: nat, a: nat, b: nat)
    requires IsRun(states, run) && n <= |run|
    requires a < |states[n].log| && b < |states[n].log| && states[n].log[a].DomainCall? && states[n].log[b].DomainCall?
    ensures var x, y := states[n].log[a], states[n].log[b];
            && (x.key == y.key ==> x.life == y.life && x.hostname == y.hostname)
            && (x.life == y.life ==> x.tunnelID == y.tunnelID && (x.key == y.key <==> x.hostname == y.hostname))
  {
    RunKeeps(states, run, n);
    var s := states[n];
    var x, y := s.log[a], s.log[b];
    assert ToldAt(s.log, s.journals, a) && ToldAt(s.log, s.journals, b);
    KeyBelongs(s, x.life, y.life, x.index + 1, y.index + 1);
    assert Sound(s.journals[x.life]);
    TotalOrder(x.hostname, y.hostname);
  }

  /** Once readiness is on disk the connector is never activated again, and a finished journal is silent. */
  lemma NoSecondActivation(states: seq<State>, run: seq<Action>, n: nat, a: nat, b: nat)
    requires IsRun(states, run) && n <= |run| && a < b < |states[n].log|
    requires states[n].log[a].life == states[n].log[b].life
    ensures states[n].log[a].ReadySaved? ==> !states[n].log[b].Activated?
    ensures !states[n].log[a].Completed?
  {
    RunKeeps(states, run, n);
    assert MayFollow(states[n].log[a], states[n].log[b]);
  }

  /** A run that reaches its end is never refused completion; what it completes is a tunnel whose
      readiness and whose every domain are on record. A rejected run completes a journal that created nothing. */
  lemma EndIsComplete(states: seq<State>, run: seq<Action>, n: nat)
    requires IsRun(states, run) && n <= |run| && states[n].process.Running?
    requires Enabled(states[n], Complete(true))
    ensures var j := states[n].process.journal;
            && CanComplete(j)
            && (states[n].process.point == Rejecting <==> j.created.None?)
            && (states[n].process.point != Rejecting ==> Rank(j.stage) >= 2 && AllRecorded(j.domains))
  {
    RunKeeps(states, run, n);
  }

  /** A rerun of an interrupted request takes up the journal as it was left, without drawing a key;
      another request for the same name does nothing at all. */
  lemma RerunResumes(s: State, r: Request, now: int, write: Write)
    requires Inv(s) && s.process == Idle && s.disk.Some? && Increasing(r.domains)
    ensures Began(s, r, now, write) ==
            if r == s.disk.value.digest then s.(process := Running(r, s.disk.value, Creating)) else s
  {
    assert Sound(s.journals[Life(s)]);
  }

  // ---------------------------------------------------------------- the session in use

  /** The session's file is the journal on disk, also between commands; a running command holds the session open
      with its journal. There is no session before the first journal. */
  ghost predicate Matches(session: Session?<Request>, s: State)
    reads session
  {
    if session == null then s.disk == None && s.process == Idle
    else session.file == s.disk && (s.process.Running? ==> session.Open() && session.journal == s.process.journal)
  }

  method PerformRecord(session: Session<Request>, s: State, write: Write) returns (t: State)
    requires Inv(s) && Enabled(s, Record(write)) && Matches(session, s)
    modifies session
    ensures t == Step(s, Record(write)) && Matches(session, t)
  {
    var ok, written;
    match s.process.point
    case Recording(tunnel) =>
      ok, written := session.RecordTunnelAs(tunnel.0, tunnel.1, write);
      t := AfterRecord(s, session.file, ok, written, TunnelSaved(Life(s), tunnel), Connecting);
    case Readying =>
      ok, written := session.RecordReady(write);
      t := AfterRecord(s, session.file, ok, written, ReadySaved(Life(s)), AtDomain(0));
    case Keeping(index, id) =>
      ok, written := session.RecordDomainAt(index, id, write);
      t := AfterRecord(s, session.file, ok, written, DomainSaved(Life(s), index, id), AtDomain(index + 1));
  }

  method PerformComplete(session: Session<Request>, s: State, removed: bool) returns (t: State)
    requires Inv(s) && Enabled(s, Complete(removed)) && Matches(session, s)
    modifies session
    ensures t == Step(s, Complete(removed)) && Matches(session, t)
  {
    var gone := session.Complete(removed);
    t := s.(disk := session.file, process := Idle);
    if gone { t := Logged(t, Completed(Life(s))); }
  }

  /** One action carried out with the session that the command holds. */
  method Perform(session: Session?<Request>, s: State, a: Action) returns (session': Session?<Request>, t: State)
    requires Inv(s) && Enabled(s, a) && Matches(session, s)
    modifies session
    ensures t == Step(s, a) && Matches(session', t) && (session' == session || fresh(session'))
  {
    session' := session;
    match a
    case Record(write) => t := PerformRecord(session, s, write);
    case Complete(removed) => t := PerformComplete(session, s, removed);
    case Begin(_, _, _) =>
      t := Step(s, a);
      StepKeeps(s, a);
      if t.disk.Some? {
        assert Sound(t.journals[Life(t)]);
        session' := new Session<Request>(t.disk.value);
      }
    case _ => t := Step(s, a);
  }

  /** What a schedule comes to: every wish that is possible when its turn comes, and no other. */
  function Schedule(s: State, wishes: seq<Action>): seq<Action>
    decreases |wishes|
  {
    if wishes == [] then []
    else if Enabled(s, wishes[0]) then [wishes[0]] + Schedule(Step(s, wishes[0]), wishes[1..])
    else Schedule(s, wishes[1..])
  }

  /** The commands driven by any schedule go through a run of the system, so that what is proved of every run
      holds of their session and its file. A wish that is not possible when its turn comes is passed over. */
  method Replay(name: string, wishes: seq<Action>) returns (session: Session?<Request>, states: seq<State>, run: seq<Action>)
    ensures IsRun(states, run) && states[0] == Init(name) && Matches(session, states[|run|])
    ensures run == Schedule(Init(name), wishes)
  {
    session, states, run := null, [Init(name)], [];
    for i := 0 to |wishes|
      invariant IsRun(states, run) && states[0] == Init(name)
      invariant Matches(session, states[|run|]) && (session == null || fresh(session))
      invariant run + Schedule(states[|run|], wishes[i..]) == Schedule(Init(name), wishes)
    {
      assert wishes[i..][1..] == wishes[i + 1..];
      if Enabled(states[|run|], wishes[i]) {
        RunKeeps(states, run, |run|);
        var t;
        session, t := Perform(session, states[|run|], wishes[i]);
        LongerRun(states, run, wishes[i]);
        states, run := states + [t], run + [wishes[i]];
      }
    }
  }

  lemma LongerRun(states: seq<State>, run: seq<Action>, a: Action)
    requires IsRun(states, run) && Enabled(states[|run|], a)
    ensures IsRun(states + [Step(states[|run|], a)], run + [a])
  {
    var longer, more := states + [Step(states[|run|], a)], run + [a];
    forall i | 0 <= i < |more| ensures Moves(longer[i], more[i], longer[i + 1]) {
      if i < |run| { assert Moves(states[i], run[i], states[i + 1]); }
    }
  }
}
