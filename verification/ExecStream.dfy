/** The event loop of `pb exec`: it reads a remote event log through carriers that can be lost
    and attaches again where it left off, at most twice. */
module ExecStream {
  import opened Common

  datatype Stream = NoStream | Stdout | Stderr

  datatype State = NoState | Started | Exited | Signaled | Failed | Canceled | Unknown(name: string)

  /** `number` is the position the remote gave the event; 0 on events the carrier makes up. */
  datatype Event = Event(number: nat, stream: Stream, state: State, data: string, code: int)
  {
    predicate IsStarted() { state == Started }

    predicate IsTerminal() { stream == NoStream && state != NoState && state != Started }

    predicate IsFailure() { state == Failed || state == Canceled }
  }

  /** Errors as far as the loop tells them apart. */
  datatype Err = NoErr | TransportLost | Remote(code: string) | StartUncertain | Other

  const UINT64: nat := 0x1_0000_0000_0000_0000

  // ---------------------------------------------------------------- the remote log

  /** Positions grow (with gaps: the remote also numbers state changes it does not send), fit
      64 bits with one to spare, and nothing follows the terminal event. */
  ghost predicate ValidLog(log: seq<Event>) {
    && (forall i :: 0 <= i < |log| ==> 0 < log[i].number < UINT64 - 1 && !log[i].IsStarted())
    && (forall i, j :: 0 <= i < j < |log| ==> log[i].number < log[j].number)
    && (forall i :: 0 <= i < |log| - 1 ==> !log[i].IsTerminal())
  }

  /** The index of the first event at or after position `n`. */
  function StartIndex(log: seq<Event>, n: nat): (k: nat)
    ensures k <= |log| && (k > 0 ==> log[k - 1].number < n) && (k < |log| ==> log[k].number >= n)
  {
    if log == [] || log[|log| - 1].number < n then |log| else StartIndex(log[..|log| - 1], n)
  }

  /** The events without the "started" announcements. */
  function Body(s: seq<Event>): (b: seq<Event>)
    ensures |b| <= |s|
  {
    if s == [] then []
    else
      var e := s[|s| - 1];
      Body(s[..|s| - 1]) + if e.IsStarted() then [] else [e]
  }

  lemma BodyNext(s: seq<Event>, e: Event)
    ensures Body(s + [e]) == Body(s) + if e.IsStarted() then [] else [e]
  {
    assert (s + [e])[..|s|] == s;
  }

  // ---------------------------------------------------------------- carriers

  /** How the reading of a carrier ends when no terminal event came: the event channel closes,
      or the select is handed the outcome or the timeout of a cancellation. */
  datatype Ending = Closed | CancelDone(ok: bool) | CancelTimeout

  function EndErr(e: Ending): Err {
    match e
    case Closed => NoErr
    case CancelDone(ok) => if ok then Remote("exec_canceled") else Other
    case CancelTimeout => Other
  }

  /** One carrier from dial to loss: the events it hands over and how that ends, what `Wait`
      says then, whether a cancellation is requested by then, and whether the half-close of an
      input already at its end fails when the carrier is installed. */
  datatype Connection = Connection(events: seq<Event>, ending: Ending, code: int, waitErr: Err, canceled: bool, setFails: bool)

  predicate IsMadeUp(e: Event) {
    e.number == 0 && e.stream == NoStream && e.state == Failed
  }

  predicate ReportsResult(e: Event, c: Connection) {
    if e.IsFailure() then c.waitErr.Remote? else c.waitErr == NoErr && c.code == e.code
  }

  /** What attaching before event `k` of the log allows event number `j` of a carrier to be: a
      "started" announcement, the next event of a contiguous run of the log from there, or a
      failure report of the carrier's own. After a terminal event `Wait` gives that event's
      result. */
  ghost predicate CarriesEvent(log: seq<Event>, k: nat, c: Connection, j: nat)
    requires j < |c.events|
  {
    var e, i := c.events[j], k + |Body(c.events[..j])|;
    && (if e.IsStarted() then e.number == 0 else (i < |log| && e == log[i]) || IsMadeUp(e))
    && (e.IsTerminal() ==> ReportsResult(e, c))
  }

  /** The carrier contract. */
  ghost predicate Carries(log: seq<Event>, k: nat, c: Connection) {
    forall j :: 0 <= j < |c.events| ==> CarriesEvent(log, k, c, j)
  }

  /** Outcomes of one attempt to dial. */
  datatype Dial = Interrupted | NoDescriptor | Refused(err: Err) | Connected(conn: Connection)

  // ---------------------------------------------------------------- the loop

  datatype Progress = Progress(last: nat, emitted: bool, saw: bool, written: seq<Event>)

  /** What was written is the first `k` events of the log, in order, without gap or repetition,
      with at most one "started" and, once a terminal event was seen, possibly a carrier's own
      failure report at the end. */
  ghost predicate InOrder(log: seq<Event>, k: nat, p: Progress) {
    var b := Body(p.written);
    && k <= |log| && p.last == (if k == 0 then 0 else log[k - 1].number)
    && |p.written| == |b| + (if p.emitted then 1 else 0)
    && (if p.saw then EndsRight(log, k, b) else b == log[..k] && (k > 0 ==> !log[k - 1].IsTerminal()))
  }

  ghost predicate EndsRight(log: seq<Event>, k: nat, b: seq<Event>)
    requires k <= |log|
  {
    || (k == |log| && k > 0 && b == log && log[k - 1].IsTerminal())
    || (b != [] && IsMadeUp(b[|b| - 1]) && b[..|b| - 1] == log[..k])
  }

  function Max(x: nat, y: nat): nat { if x > y then x else y }

  /** One event, as the first case of the select handles it when the write succeeds. */
  function Handle(p: Progress, e: Event): Progress {
    var p := p.(last := Max(p.last, e.number));
    if e.IsStarted() && p.emitted then p
    else p.(emitted := p.emitted || e.IsStarted(), saw := p.saw || e.IsTerminal(), written := p.written + [e])
  }

  /** Attaching after the last number seen resumes exactly after the events written. */
  lemma ResumeIndex(log: seq<Event>, k: nat)
    requires ValidLog(log) && k <= |log|
    ensures k > 0 ==> StartIndex(log, log[k - 1].number + 1) == k
    ensures StartIndex(log, 0) == 0 && StartIndex(log, 1) == 0
  {
    FirstIndex(log, 0, 0);
    FirstIndex(log, 1, 0);
    if k > 0 { FirstIndex(log, log[k - 1].number + 1, k); }
  }

  /** In increasing numbers the place of `n` is the only one that splits them. */
  lemma FirstIndex(log: seq<Event>, n: nat, k: nat)
    requires ValidLog(log) && k <= |log| && (k > 0 ==> log[k - 1].number < n) && (k < |log| ==> log[k].number >= n)
    ensures StartIndex(log, n) == k
  {
  }

  lemma ReadStarted(log: seq<Event>, k: nat, p: Progress, e: Event)
    requires InOrder(log, k, p) && e.IsStarted() && e.number == 0
    ensures InOrder(log, k, Handle(p, e))
  {
    BodyNext(p.written, e);
  }

  /** The next event of the log: it is new, and it is the one after what was written. */
  lemma ReadLogged(log: seq<Event>, k: nat, p: Progress)
    requires ValidLog(log) && InOrder(log, k, p) && !p.saw && k < |log|
    ensures InOrder(log, k + 1, Handle(p, log[k]))
    ensures Handle(p, log[k]).saw <==> log[k].IsTerminal()
  {
    BodyNext(p.written, log[k]);
    assert k > 0 ==> log[k - 1].number < log[k].number;
    assert log[..k] + [log[k]] == log[..k + 1];
    assert log[..|log|] == log;
  }

  lemma ReadMadeUp(log: seq<Event>, k: nat, p: Progress, e: Event)
    requires InOrder(log, k, p) && !p.saw && IsMadeUp(e)
    ensures InOrder(log, k, Handle(p, e)) && Handle(p, e).saw
  {
    BodyNext(p.written, e);
  }

  /** Where the reading of a carrier stands after `j` of its events. */
  ghost predicate Reading(log: seq<Event>, k0: nat, c: Connection, j: nat, p: Progress) {
    j <= |c.events| && !p.saw && InOrder(log, k0 + |Body(c.events[..j])|, p)
  }

  lemma ReadEvent(log: seq<Event>, k0: nat, c: Connection, j: nat, p: Progress)
    requires ValidLog(log) && Carries(log, k0, c) && j < |c.events| && Reading(log, k0, c, j, p)
    ensures var p' := Handle(p, c.events[j]);
            if c.events[j].IsTerminal() then (exists k :: InOrder(log, k, p')) && p'.saw && Concludes(p', c)
            else Reading(log, k0, c, j + 1, p')
  {
    var e := c.events[j];
    assert CarriesEvent(log, k0, c, j);
    BodyStep(c.events, j);
    var k := HandleInOrder(log, k0 + |Body(c.events[..j])|, p, e);
    assert e.IsTerminal() ==> Handle(p, e).written == p.written + [e];
  }

  lemma BodyStep(events: seq<Event>, j: nat)
    requires j < |events|
    ensures |Body(events[..j + 1])| == |Body(events[..j])| + if events[j].IsStarted() then 0 else 1
  {
    BodyNext(events[..j], events[j]);
    assert events[..j + 1] == events[..j] + [events[j]];
  }

  /** All events of a carrier up to its first terminal one. */
  function HandleAll(p: Progress, events: seq<Event>): Progress
    decreases |events|
  {
    if events == [] then p
    else if events[0].IsTerminal() then Handle(p, events[0])
    else HandleAll(Handle(p, events[0]), events[1..])
  }

  lemma {:induction false} HandleAllGrows(p: Progress, events: seq<Event>)
    ensures p.written <= HandleAll(p, events).written
    decreases |events|
  {
    if events != [] && !events[0].IsTerminal() { HandleAllGrows(Handle(p, events[0]), events[1..]); }
  }

  ghost predicate HasTerminal(c: Connection) {
    exists j :: 0 <= j < |c.events| && c.events[j].IsTerminal()
  }

  /** The inner loop: handle everything one carrier hands over until it ends, a terminal event comes or a
      cancellation is decided. It stops short only at a write that fails. */
  method Consume(ghost log: seq<Event>, ghost k0: nat, c: Connection, p0: Progress, writeFails: nat -> bool)
    returns (p: Progress, err: Err, wrote: bool)
    requires ValidLog(log) && Carries(log, k0, c) && InOrder(log, k0, p0) && !p0.saw
    ensures exists k :: InOrder(log, k, p)
    ensures wrote ==> p == HandleAll(p0, c.events) && (p.saw <==> HasTerminal(c))
    ensures wrote && p.saw ==> err == NoErr && Concludes(p, c)
    ensures wrote && !p.saw ==> err == EndErr(c.ending) && Reading(log, k0, c, |c.events|, p)
    ensures !wrote ==> writeFails(|p.written|) && p.written < HandleAll(p0, c.events).written
    ensures !wrote ==> exists j :: 0 <= j < |c.events| && Reading(log, k0, c, j, p)
  {
    p, err, wrote := p0, NoErr, true;
    assert c.events[..0] == [] && c.events[0..] == c.events;
    for j := 0 to |c.events|
      invariant Reading(log, k0, c, j, p) && HandleAll(p, c.events[j..]) == HandleAll(p0, c.events)
      invariant forall i :: 0 <= i < j ==> !c.events[i].IsTerminal()
    {
      var e := c.events[j];
      assert c.events[j..][0] == e && c.events[j..][1..] == c.events[j + 1..];
      if (!e.IsStarted() || !p.emitted) && writeFails(|p.written|) {
        HandleAllGrows(Handle(p, e), c.events[j + 1..]);
        wrote := false;
        return;
      }
      ReadEvent(log, k0, c, j, p);
      p := Handle(p, e);
      if e.IsTerminal() { return; }
    }
    err := EndErr(c.ending);
  }

  /** The last event written is terminal and the carrier reports its result. */
  ghost predicate Concludes(p: Progress, c: Connection) {
    p.written != [] && var e := p.written[|p.written| - 1]; e.IsTerminal() && ReportsResult(e, c)
  }

  lemma HandleInOrder(log: seq<Event>, k: nat, p: Progress, e: Event) returns (k': nat)
    requires ValidLog(log) && InOrder(log, k, p) && !p.saw
    requires if e.IsStarted() then e.number == 0 else (k < |log| && e == log[k]) || IsMadeUp(e)
    ensures InOrder(log, k', Handle(p, e))
    ensures Handle(p, e).saw <==> e.IsTerminal()
    ensures !e.IsTerminal() ==> k' == k + if e.IsStarted() then 0 else 1
  {
    k' := k;
    if e.IsStarted() {
      ReadStarted(log, k, p, e);
    } else if IsMadeUp(e) {
      ReadMadeUp(log, k, p, e);
    } else {
      ReadLogged(log, k, p);
      k' := k + 1;
    }
  }

  // ---------------------------------------------------------------- exit status

  datatype Exit = Success | ExitCode(code: int) | WriteFailed | DialFailed

  /** The process exit status the command settles on. */
  function FinishExecResult(saw: bool, code: int, err: Err): Exit {
    var err := if err == NoErr && !saw then TransportLost else err;
    match err
    case NoErr => if code != 0 then ExitCode(code) else Success
    case Remote(c) =>
      if c == "exec_timeout" then ExitCode(124) else if c == "exec_canceled" then ExitCode(130) else ExitCode(125)
    case _ => ExitCode(255)
  }

  /** Success is reported only for a terminal event that was seen and a zero status. */
  lemma SuccessNeedsTerminal(saw: bool, code: int, err: Err)
    ensures FinishExecResult(saw, code, err) == Success <==> saw && err == NoErr && code == 0
  {
  }

  // ---------------------------------------------------------------- attach and reattach

  ghost predicate GoodDial(log: seq<Event>, from: nat, d: Dial) {
    match d
    case Connected(c) => Carries(log, StartIndex(log, from), c)
    case Refused(e) => e != NoErr
    case _ => true
  }

  datatype Report = Report(exit: Exit, progress: Progress, reattachments: nat, dials: nat, canceled: bool)

  /** The exit status that a terminal event calls for. */
  ghost predicate ExitMatches(e: Event, exit: Exit) {
    if e.IsFailure() then exit in {ExitCode(124), ExitCode(125), ExitCode(130)}
    else if e.code == 0 then exit == Success
    else exit == ExitCode(e.code)
  }

  /** What every run promises. */
  ghost predicate Faithful(log: seq<Event>, r: Report) {
    && (exists k :: InOrder(log, k, r.progress))
    && r.reattachments <= 2 && r.dials <= 3 + r.reattachments
    && (r.exit == Success ==> Body(r.progress.written) == log && log != []
                              && log[|log| - 1].IsTerminal() && log[|log| - 1].code == 0)
    && (r.progress.saw && !r.canceled && r.exit != WriteFailed ==>
          r.progress.written != [] && ExitMatches(r.progress.written[|r.progress.written| - 1], r.exit))
  }

  function NextFrom(last: nat): nat {
    var n := (last + 1) % UINT64;
    if n == 0 then 1 else n
  }

  /** An attempt after which no other is made. */
  predicate NoFurther(d: Dial) {
    match d
    case Refused(e) => e != StartUncertain
    case Connected(c) => c.setFails
    case _ => true
  }

  /** The retry loop around a lost carrier. */
  method Reattach(ghost log: seq<Event>, from: nat, dial: (nat, nat) -> Dial, dials0: nat, reattachments0: nat)
    returns (c: Option<Connection>, err: Err, dials: nat, reattachments: nat)
    requires reattachments0 < 2 && forall n, f :: GoodDial(log, f, dial(n, f))
    ensures reattachments0 < reattachments <= 2 && dials - dials0 == reattachments - reattachments0
    ensures err == NoErr <==> c.Some?
    ensures c.Some? ==> Carries(log, StartIndex(log, from), c.value) && dial(dials - 1, from) == Connected(c.value)
    ensures c.None? && reattachments < 2 ==> NoFurther(dial(dials - 1, from))
  {
    c, err, dials, reattachments := None, TransportLost, dials0, reattachments0;
    while reattachments < 2
      invariant reattachments0 <= reattachments <= 2 && dials - dials0 == reattachments - reattachments0
      invariant c == None && err != NoErr
    {
      reattachments := reattachments + 1;
      var d := dial(dials, from);
      assert GoodDial(log, from, d);
      dials := dials + 1;
      match d {
        case Interrupted => err := Other; return;
        case NoDescriptor => err := Other; return;
        case Refused(e) =>
          err := e;
          if e != StartUncertain { return; }
        case Connected(conn) => c, err := Some(conn), NoErr; return;
      }
    }
  }

  /** The first dial, retried twice while it is unclear whether the command started. */
  method FirstDial(ghost log: seq<Event>, dial: (nat, nat) -> Dial) returns (d: Dial, dials: nat)
    requires forall n, f :: GoodDial(log, f, dial(n, f))
    ensures 1 <= dials <= 3 && GoodDial(log, 0, d) && d == dial(dials - 1, 0)
    ensures forall n :: 0 <= n < dials - 1 ==> dial(n, 0) == Refused(StartUncertain)
    ensures d == Refused(StartUncertain) ==> dials == 3
  {
    d, dials := dial(0, 0), 1;
    assert GoodDial(log, 0, d);
    while dials < 3 && d == Refused(StartUncertain)
      invariant 1 <= dials <= 3 && GoodDial(log, 0, d) && d == dial(dials - 1, 0)
      invariant forall n :: 0 <= n < dials - 1 ==> dial(n, 0) == Refused(StartUncertain)
      decreases 3 - dials
    {
      d := dial(dials, 0);
      assert GoodDial(log, 0, d);
      dials := dials + 1;
    }
  }

  function Start(): Progress {
    Progress(0, false, false, [])
  }

  /** What is known after reading these carriers one after the other. */
  function ReadAll(carriers: seq<Connection>): Progress {
    if carriers == [] then Start()
    else HandleAll(ReadAll(carriers[..|carriers| - 1]), carriers[|carriers| - 1].events)
  }

  /** The carrier ended without a terminal event because the transport was lost, and nobody asked to cancel. */
  ghost predicate Lost(c: Connection) {
    && !HasTerminal(c) && !c.canceled
    && (if EndErr(c.ending) == NoErr then c.waitErr == TransportLost else EndErr(c.ending) == TransportLost)
  }

  /** Carrier `i` was attached right after what the carriers before it had shown. */
  ghost predicate Attached(dial: (nat, nat) -> Dial, carriers: seq<Connection>, i: nat)
    requires i < |carriers|
  {
    DialsTo(dial, if i == 0 then 0 else NextFrom(ReadAll(carriers[..i]).last), carriers[i])
  }

  ghost predicate DialsTo(dial: (nat, nat) -> Dial, from: nat, c: Connection) {
    exists n :: dial(n, from) == Connected(c)
  }

  ghost predicate Linked(dial: (nat, nat) -> Dial, carriers: seq<Connection>) {
    && (forall i :: 0 <= i < |carriers| ==> Attached(dial, carriers, i))
    && (forall i :: 0 <= i < |carriers| - 1 ==> Lost(carriers[i]))
  }

  lemma LinkedMore(dial: (nat, nat) -> Dial, carriers: seq<Connection>, c: Connection)
    requires Linked(dial, carriers) && (carriers != [] ==> Lost(carriers[|carriers| - 1]))
    requires DialsTo(dial, if carriers == [] then 0 else NextFrom(ReadAll(carriers).last), c)
    ensures Linked(dial, carriers + [c])
  {
    var more := carriers + [c];
    forall i | 0 <= i < |more| ensures Attached(dial, more, i) {
      if i < |carriers| {
        assert Attached(dial, carriers, i) && more[..i] == carriers[..i];
      } else {
        assert more[..i] == carriers;
      }
    }
  }

  /** All these carriers were read to their end, and if the last was lost it could not be replaced: no attempt was
      left, or the last one allowed no other. */
  ghost predicate Finished(dial: (nat, nat) -> Dial, carriers: seq<Connection>, p: Progress, dials: nat, reattachments: nat) {
    && carriers != [] && p == ReadAll(carriers) && dials >= 1
    && var last := carriers[|carriers| - 1];
       && (p.saw <==> HasTerminal(last))
       && (Lost(last) ==>
             || reattachments == 2
             || (reattachments >= |carriers| && NoFurther(dial(dials - 1, NextFrom(p.last)))))
  }

  /** Of what these carriers handed over, the event after those written could not be written. */
  ghost predicate CutShort(writeFails: nat -> bool, carriers: seq<Connection>, p: Progress) {
    writeFails(|p.written|) && p.written < ReadAll(carriers).written
  }

  /** The first dial failed for good. */
  ghost predicate NeverStarted(dial: (nat, nat) -> Dial, dials: nat) {
    1 <= dials <= 3 && !dial(dials - 1, 0).Connected? && (dial(dials - 1, 0) == Refused(StartUncertain) ==> dials == 3)
  }

  /** Nothing is left undone: every carrier is read to its end, a lost one is replaced while attempts are left,
      and a run ends before a terminal event only for a reason that the last carrier or the last dial gives. */
  ghost predicate Thorough(dial: (nat, nat) -> Dial, writeFails: nat -> bool, carriers: seq<Connection>, r: Report) {
    && Linked(dial, carriers)
    && match r.exit
       case DialFailed => carriers == [] && NeverStarted(dial, r.dials)
       case WriteFailed => CutShort(writeFails, carriers, r.progress)
       case _ => Finished(dial, carriers, r.progress, r.dials, r.reattachments)
  }

  /** Where the loop stands before it reads the carrier `c`. */
  ghost predicate Ready(log: seq<Event>, dial: (nat, nat) -> Dial, k: nat, c: Connection, p: Progress, dials: nat,
                        reattachments: nat, carriers: seq<Connection>) {
    && InOrder(log, k, p) && !p.saw && Carries(log, k, c)
    && |carriers| <= reattachments <= 2 && 1 <= dials <= 3 + reattachments
    && p == ReadAll(carriers) && Linked(dial, carriers + [c])
  }

  /** How a turn of the loop ends: a write failed, another carrier is attached, or the loop is left with the
      carrier installed last, the status and the error. */
  datatype Outcome = Broken | Again(next: Connection) | Stop(current: Connection, code: int, err: Err)

  /** The terminal event seen, if any, is reported with its carrier's own result. */
  ghost predicate Reported(p: Progress, o: Outcome)
    requires o.Stop?
  {
    p.saw ==> Concludes(p, o.current) && o.err == o.current.waitErr && o.code == o.current.code
  }

  /** One turn of the loop: a carrier is read, and replaced if it was lost. */
  method Turn(ghost log: seq<Event>, dial: (nat, nat) -> Dial, writeFails: nat -> bool, ghost k0: nat, c: Connection, p0: Progress,
              dials0: nat, reattachments0: nat, ghost before: seq<Connection>)
    returns (o: Outcome, ghost k: nat, p: Progress, dials: nat, reattachments: nat, ghost carriers: seq<Connection>)
    requires ValidLog(log) && forall n, f :: GoodDial(log, f, dial(n, f))
    requires Ready(log, dial, k0, c, p0, dials0, reattachments0, before)
    ensures exists i :: InOrder(log, i, p)
    ensures reattachments0 <= reattachments <= 2 && 1 <= dials <= 3 + reattachments && Linked(dial, carriers)
    ensures o.Broken? ==> CutShort(writeFails, carriers, p)
    ensures o.Again? ==> Ready(log, dial, k, o.next, p, dials, reattachments, carriers) && reattachments0 < reattachments
    ensures o.Stop? ==> Finished(dial, carriers, p, dials, reattachments) && Reported(p, o)
  {
    carriers, k, dials, reattachments := before + [c], k0, dials0, reattachments0;
    var err, wrote;
    p, err, wrote := Consume(log, k0, c, p0, writeFails);
    assert carriers[..|before|] == before;
    if !wrote { return Broken, k, p, dials, reattachments, carriers; }
    var code := 0;
    if err == NoErr { code, err := c.code, c.waitErr; }
    if c.canceled || err == NoErr || err != TransportLost || p.saw || reattachments >= 2 {
      o := Stop(c, code, err);
      return;
    }
    k := Resume(log, p);
    var replacement;
    replacement, err, dials, reattachments := Reattach(log, NextFrom(p.last), dial, dials, reattachments);
    if replacement == None {
      o := Stop(c, code, err);
    } else if replacement.value.setFails {
      o := Stop(replacement.value, code, Other);
    } else {
      LinkedMore(dial, carriers, replacement.value);
      o := Again(replacement.value);
    }
  }

  /** `lateCancel` is None unless a cancellation is asked for before the command ends, and says
      whether the remote confirms it in time.
      Against any carriers that keep the contract, however often they are lost, what is written
      is an in-order prefix of the remote log without gap or repetition, and the exit status is
      zero only when the whole log was written and its terminal event says so. Everything that the
      carriers hand over is read, and a lost carrier is replaced while attempts are left. */
  method ActionRemoteExec(ghost log: seq<Event>, dial: (nat, nat) -> Dial, writeFails: nat -> bool,
                          lateCancel: Option<bool>)
    returns (r: Report, ghost carriers: seq<Connection>)
    requires ValidLog(log) && forall n, f :: GoodDial(log, f, dial(n, f))
    ensures Faithful(log, r) && Thorough(dial, writeFails, carriers, r)
  {
    var p := Start();
    carriers := [];
    assert log[..0] == [] && InOrder(log, 0, p);
    var d, dials := FirstDial(log, dial);
    if !d.Connected? { return Report(DialFailed, p, 0, dials, false), []; }
    var c := d.conn;
    ResumeIndex(log, 0);
    LinkedMore(dial, carriers, c);
    var o, reattachments;
    o, p, dials, reattachments, carriers := Follow(log, dial, writeFails, c, dials);
    if o.Broken? { return Report(WriteFailed, p, reattachments, dials, false), carriers; }
    var canceled, err := o.current.canceled || lateCancel.Some?, o.err;
    if canceled && err != NoErr && err != Remote("exec_canceled") && lateCancel == Some(true) {
      err := Remote("exec_canceled");
    }
    r := Report(FinishExecResult(p.saw, o.code, err), p, reattachments, dials, canceled);
    Settle(log, p, o.current, o.code, err, r);
  }

  /** The loop over the carriers, from the first one on. */
  method Follow(ghost log: seq<Event>, dial: (nat, nat) -> Dial, writeFails: nat -> bool, c0: Connection, dials0: nat)
    returns (o: Outcome, p: Progress, dials: nat, reattachments: nat, ghost carriers: seq<Connection>)
    requires ValidLog(log) && forall n, f :: GoodDial(log, f, dial(n, f))
    requires Ready(log, dial, 0, c0, Start(), dials0, 0, [])
    ensures exists i :: InOrder(log, i, p)
    ensures reattachments <= 2 && 1 <= dials <= 3 + reattachments && Linked(dial, carriers)
    ensures match o
            case Broken => CutShort(writeFails, carriers, p)
            case Again(_) => false
            case Stop(_, _, _) => Finished(dial, carriers, p, dials, reattachments) && Reported(p, o)
  {
    var c := c0;
    ghost var k := 0;
    p, dials, reattachments, carriers := Start(), dials0, 0, [];
    while true
      invariant Ready(log, dial, k, c, p, dials, reattachments, carriers)
      decreases 2 - reattachments
    {
      o, k, p, dials, reattachments, carriers := Turn(log, dial, writeFails, k, c, p, dials, reattachments, carriers);
      if !o.Again? { return; }
      c := o.next;
    }
  }

  /** The position to attach at is where the writing stopped. */
  lemma Resume(log: seq<Event>, p: Progress) returns (k: nat)
    requires ValidLog(log) && !p.saw && exists k :: InOrder(log, k, p)
    ensures InOrder(log, k, p) && StartIndex(log, NextFrom(p.last)) == k
  {
    k :| InOrder(log, k, p);
    ResumeIndex(log, k);
    NoWrap(p.last);
  }

  /** The wrap-around guard: after the very last 64-bit number the next attach starts over. */
  lemma NoWrap(last: nat)
    requires last < UINT64
    ensures NextFrom(last) == last + 1 <==> last != UINT64 - 1
    ensures last == UINT64 - 1 ==> NextFrom(last) == 1
  {
  }

  lemma Settle(log: seq<Event>, p: Progress, c: Connection, code: int, err: Err, r: Report)
    requires exists k :: InOrder(log, k, p)
    requires p.saw ==> Concludes(p, c) && (r.canceled || (err == c.waitErr && code == c.code))
    requires p.saw && err == NoErr ==> c.waitErr == NoErr && code == c.code
    requires r == Report(FinishExecResult(p.saw, code, err), p, r.reattachments, r.dials, r.canceled)
    requires r.reattachments <= 2 && r.dials <= 3 + r.reattachments
    ensures Faithful(log, r)
  {
    if p.saw {
      var k :| InOrder(log, k, p);
      var w := p.written;
      BodyNext(w[..|w| - 1], w[|w| - 1]);
      assert w == w[..|w| - 1] + [w[|w| - 1]];
    }
  }
}
