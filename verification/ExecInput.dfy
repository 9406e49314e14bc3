/** Standard input of `pb exec`: a forwarder copies it to whichever carrier is current while the
    event loop replaces lost carriers. The shared reference holds the current carrier, a channel
    that is closed to wake waiters, and a sticky end-of-input flag, all under one mutex. */
module ExecInput {
  import opened Common

  type Conn = nat

  const BUFFER_SIZE: nat := 32768

  // ---------------------------------------------------------------- the shared reference

  /** Channels are numbered in order of creation; `closes` counts closings of each. */
  datatype Ref = Ref(conn: Option<Conn>, chan: nat, closes: multiset<nat>, eof: bool)
  {
    function Wake(): Ref {
      this.(closes := closes + multiset{chan}, chan := chan + 1)
    }

    function Set(c: Conn): Ref {
      this.(conn := Some(c)).Wake()
    }

    function Clear(c: Conn): Ref {
      if conn == Some(c) then this.(conn := None).Wake() else this
    }

    function CloseInput(): Ref {
      this.(eof := true)
    }
  }

  /** The reference as the source keeps it. Each method is the part of the source's method that runs under
      the mutex; what it returns decides the half-close that follows unlocked. `closes` is the state of the
      channels. A waiter holds the channel it was given and wakes when that channel is closed. */
  class ExecConnectionRef {
    var conn: Option<Conn>
    var changed: nat
    var eof: bool
    var closes: multiset<nat>

    /** Every channel handed out before is closed, once; the present one is open. */
    ghost predicate Valid() reads this {
      forall ch: nat :: closes[ch] == if ch < changed then 1 else 0
    }

    function Value(): Ref reads this {
      Ref(conn, changed, closes, eof)
    }

    constructor (c: Conn)
      ensures Valid() && conn == Some(c) && changed == 0 && !eof && closes == multiset{}
    {
      conn, changed, eof, closes := Some(c), 0, false, multiset{};
    }

    /** Wakes every waiter there is and nobody who comes later. */
    method Set(c: Conn) returns (halfClose: bool)
      requires Valid()
      modifies this
      ensures Valid() && conn == Some(c) && eof == old(eof) && halfClose == eof
      ensures closes == old(closes) + multiset{old(changed)} && changed == old(changed) + 1
    {
      conn := Some(c);
      halfClose := eof;
      closes := closes + multiset{changed};
      changed := changed + 1;
    }

    /** Wakes every waiter if it takes the carrier away, and nobody otherwise. */
    method Clear(c: Conn)
      requires Valid()
      modifies this
      ensures Valid() && conn != Some(c) && eof == old(eof)
      ensures old(conn) == Some(c) ==> conn == None && closes == old(closes) + multiset{old(changed)} && changed == old(changed) + 1
      ensures old(conn) != Some(c) ==> conn == old(conn) && closes == old(closes) && changed == old(changed)
    {
      if conn == Some(c) {
        conn := None;
        closes := closes + multiset{changed};
        changed := changed + 1;
      }
    }

    /** Wakes nobody. */
    method CloseInput() returns (halfClose: Option<Conn>)
      requires Valid()
      modifies this
      ensures Valid() && eof && conn == old(conn) == halfClose && closes == old(closes) && changed == old(changed)
    {
      eof := true;
      halfClose := conn;
    }

    /** What a waiter finds: a carrier, or an open channel, so that it sleeps until the next change. */
    method Look() returns (current: Option<Conn>, channel: nat)
      requires Valid()
      ensures current == conn && channel == changed && channel !in closes
    {
      current, channel := conn, changed;
    }
  }

  // ---------------------------------------------------------------- the whole system

  /** What a read came back with besides data. */
  datatype Next = More | AtEof | Broken

  /** Where the forwarder stands; `lo..hi` is the unsent part of its buffer in standard input. */
  datatype Forwarder =
    | Reading
    | Waiting(lo: nat, hi: nat, next: Next)
    | Blocked(chan: nat, lo: nat, hi: nat, next: Next)
    | Sending(conn: Conn, lo: nat, hi: nat, next: Next)
    | Clearing(conn: Conn, next: Next)
    | Ending
    | Finished

  /** A failed write: the bytes from `at`, where it stopped, to the end of its buffer are lost. */
  datatype Failure = Failure(at: nat, end: nat)

  /** A stretch of standard input: accepted by a carrier, or given up after a failed write. */
  datatype Piece = Sent(conn: Conn, lo: nat, hi: nat) | Dropped(lo: nat, hi: nat)

  /** `owed` are half-closes decided under the mutex but not carried out yet; `ends` are the offsets at
      which a read ended, and `failures` the failed writes so far. */
  datatype State = State(ref: Ref, used: set<Conn>, owed: multiset<Conn>, halfClosed: multiset<Conn>,
                         fwd: Forwarder, offset: nat, pieces: seq<Piece>, ends: set<nat>, failures: seq<Failure>)

  datatype Action =
    | Set(conn: Conn)
    | Clear(conn: Conn)
    | Read(n: nat, next: Next)
    | Check
    | Wake
    | Cancel
    | Write(written: int, failed: bool, accepted: nat)
    | ClearFailed
    | CloseInput
    | HalfClose(conn: Conn)

  function Init(c: Conn): State {
    State(Ref(Some(c), 0, multiset{}, false), {c}, multiset{}, multiset{}, Reading, 0, [], {0}, [])
  }

  function After(next: Next): Forwarder {
    match next
    case More => Reading
    case AtEof => Ending
    case Broken => Finished
  }

  predicate WriteFails(a: Action, len: nat)
    requires a.Write?
  {
    a.failed || a.written <= 0 || a.written > len
  }

  /** What the event loop, the reader, the carriers and the scheduler may do next. A carrier is
      installed once; end of input comes only at the end of `total` bytes; a failed write may
      have passed on any part of its bytes. */
  predicate Enabled(s: State, a: Action, total: nat) {
    match a
    case Set(c) => c !in s.used
    case Clear(_) => true
    case Read(n, next) =>
      && s.fwd.Reading? && n <= BUFFER_SIZE && s.offset + n <= total
      && (next == AtEof ==> s.offset + n == total)
    case Check => s.fwd.Waiting?
    case Wake => s.fwd.Blocked? && s.fwd.chan in s.ref.closes
    case Cancel => s.fwd.Blocked?
    case Write(_, _, accepted) => s.fwd.Sending? && accepted <= s.fwd.hi - s.fwd.lo
    case ClearFailed => s.fwd.Clearing?
    case CloseInput => s.fwd.Ending?
    case HalfClose(c) => c in s.owed
  }

  function Append(pieces: seq<Piece>, p: Piece): seq<Piece> {
    if p.lo == p.hi then pieces else pieces + [p]
  }

  /** A failed write: part of the buffer may have been passed on, the rest is lost. */
  function GivenUp(pieces: seq<Piece>, c: Conn, lo: nat, mid: nat, hi: nat): seq<Piece> {
    Append(Append(pieces, Sent(c, lo, mid)), Dropped(mid, hi))
  }

  function Step(s: State, a: Action, total: nat): State
    requires Enabled(s, a, total)
  {
    match a
    case Set(c) =>
      s.(ref := s.ref.Set(c), used := s.used + {c}, owed := if s.ref.eof then s.owed + multiset{c} else s.owed)
    case Clear(c) => s.(ref := s.ref.Clear(c))
    case Read(n, next) =>
      s.(offset := s.offset + n, ends := s.ends + {s.offset + n},
         fwd := if n > 0 then Waiting(s.offset, s.offset + n, next) else After(next))
    case Check =>
      s.(fwd := if s.ref.conn.Some? then Sending(s.ref.conn.value, s.fwd.lo, s.fwd.hi, s.fwd.next)
                else Blocked(s.ref.chan, s.fwd.lo, s.fwd.hi, s.fwd.next))
    case Wake => s.(fwd := Waiting(s.fwd.lo, s.fwd.hi, s.fwd.next))
    case Cancel => s.(fwd := Finished)
    case Write(written, _, accepted) =>
      var f := s.fwd;
      if WriteFails(a, f.hi - f.lo) then
        s.(fwd := Clearing(f.conn, f.next), failures := s.failures + [Failure(f.lo + accepted, f.hi)],
           pieces := GivenUp(s.pieces, f.conn, f.lo, f.lo + accepted, f.hi))
      else
        s.(fwd := if f.lo + written == f.hi then After(f.next) else f.(lo := f.lo + written),
           pieces := s.pieces + [Sent(f.conn, f.lo, f.lo + written)])
    case ClearFailed => s.(ref := s.ref.Clear(s.fwd.conn), fwd := After(s.fwd.next))
    case CloseInput =>
      s.(ref := s.ref.CloseInput(), fwd := Finished,
         owed := if s.ref.conn.Some? then s.owed + multiset{s.ref.conn.value} else s.owed)
    case HalfClose(c) => s.(owed := s.owed - multiset{c}, halfClosed := s.halfClosed + multiset{c})
  }

  /** A run: the states passed through and the actions between them. */
  ghost predicate IsRun(c: Conn, states: seq<State>, run: seq<Action>, total: nat) {
    && |states| == |run| + 1 && states[0] == Init(c)
    && forall i :: 0 <= i < |run| ==> Enabled(states[i], run[i], total) && states[i + 1] == Step(states[i], run[i], total)
  }

  function CurrentAtEof(s: State): set<Conn> {
    if s.ref.eof && s.ref.conn.Some? then {s.ref.conn.value} else {}
  }

  /** The carriers that were current in some state at or after the end of input. */
  function CurrentAfterEof(states: seq<State>): set<Conn> {
    if states == [] then {} else CurrentAfterEof(states[..|states| - 1]) + CurrentAtEof(states[|states| - 1])
  }

  // ---------------------------------------------------------------- channels and half-closes

  /** Every channel but the newest is closed, once; a blocked forwarder holds a channel that is
      closed or no carrier is installed. */
  ghost predicate ChannelsKept(s: State) {
    && (forall i: nat :: s.ref.closes[i] == if i < s.ref.chan then 1 else 0)
    && (s.fwd.Blocked? ==> s.fwd.chan <= s.ref.chan && (s.fwd.chan == s.ref.chan ==> s.ref.conn == None))
  }

  /** Half-closes decided or done: one for every carrier current at or after end of input. */
  function ClosesOf(s: State, c: Conn): int {
    s.owed[c] + s.halfClosed[c]
  }

  ghost predicate HalfClosesKept(s: State, after: set<Conn>) {
    && (forall c :: ClosesOf(s, c) == if c in after then 1 else 0)
    && after <= s.used && (s.ref.conn.Some? ==> s.ref.conn.value in s.used)
    && (if s.ref.eof then s.fwd == Finished && (s.ref.conn.Some? ==> s.ref.conn.value in after) else after == {})
  }

  lemma ChannelsStep(s: State, a: Action, total: nat)
    requires Enabled(s, a, total) && ChannelsKept(s)
    ensures ChannelsKept(Step(s, a, total))
  {
  }

  lemma HalfClosesStep(s: State, a: Action, total: nat, after: set<Conn>)
    requires Enabled(s, a, total) && HalfClosesKept(s, after)
    ensures HalfClosesKept(Step(s, a, total), after + CurrentAtEof(Step(s, a, total)))
  {
    var s' := Step(s, a, total);
    if a.Set? {
      SetHalfCloses(s, a, total, after);
    } else if !a.CloseInput? {
      assert after + CurrentAtEof(s') == after;
      assert forall x :: ClosesOf(s', x) == ClosesOf(s, x);
    }
  }

  /** A carrier installed after the end of input is half-closed by whoever installs it. */
  lemma SetHalfCloses(s: State, a: Action, total: nat, after: set<Conn>)
    requires a.Set? && Enabled(s, a, total) && HalfClosesKept(s, after)
    ensures HalfClosesKept(Step(s, a, total), after + CurrentAtEof(Step(s, a, total)))
  {
    assert a.conn !in after;
  }

  // ---------------------------------------------------------------- bytes

  function Frontier(pieces: seq<Piece>): nat {
    if pieces == [] then 0 else pieces[|pieces| - 1].hi
  }

  /** The pieces follow one another from the start of standard input without gap or overlap. */
  ghost predicate TileAt(pieces: seq<Piece>, i: int) {
    0 <= i < |pieces| ==> Frontier(pieces[..i]) == pieces[i].lo < pieces[i].hi
  }

  ghost predicate Tiles(pieces: seq<Piece>) {
    forall i :: TileAt(pieces, i)
  }

  /** The stretches given up, in order. */
  function Drops(pieces: seq<Piece>): seq<Failure> {
    if pieces == [] then []
    else
      var p := pieces[|pieces| - 1];
      Drops(pieces[..|pieces| - 1]) + if p.Dropped? then [Failure(p.lo, p.hi)] else []
  }

  /** The failed writes that left something unsent. */
  function Lossy(failures: seq<Failure>): seq<Failure> {
    if failures == [] then []
    else
      var f := failures[|failures| - 1];
      Lossy(failures[..|failures| - 1]) + if f.at < f.end then [f] else []
  }

  /** The stretch lies in one buffer and reaches to its end. */
  ghost predicate ToBufferEnd(f: Failure, ends: set<nat>) {
    f.end in ends && forall e :: e in ends ==> e <= f.at || f.end <= e
  }

  /** The gaps are exactly what the failed writes left unsent, in order and one gap each. */
  ghost predicate GapsExplained(s: State) {
    Drops(s.pieces) == Lossy(s.failures)
  }

  ghost predicate GapsEnd(failures: seq<Failure>, ends: set<nat>, offset: nat) {
    forall f :: f in failures ==> ToBufferEnd(f, ends) && f.end <= offset
  }

  /** No read has ended inside the unsent part of the buffer. */
  ghost predicate Whole(ends: set<nat>, lo: nat, hi: nat) {
    forall e :: e in ends ==> e <= lo || e == hi
  }

  ghost predicate BytesKept(s: State, total: nat) {
    && Tiles(s.pieces) && GapsEnd(s.failures, s.ends, s.offset) && s.offset in s.ends && s.offset <= total
    && (forall e :: e in s.ends ==> e <= s.offset)
    && (match s.fwd
        case Waiting(lo, hi, next) => Frontier(s.pieces) == lo < hi == s.offset && Whole(s.ends, lo, hi) && (next == AtEof ==> hi == total)
        case Blocked(_, lo, hi, next) => Frontier(s.pieces) == lo < hi == s.offset && Whole(s.ends, lo, hi) && (next == AtEof ==> hi == total)
        case Sending(_, lo, hi, next) => Frontier(s.pieces) == lo < hi == s.offset && Whole(s.ends, lo, hi) && (next == AtEof ==> hi == total)
        case Reading => Frontier(s.pieces) == s.offset
        case Clearing(_, next) => Frontier(s.pieces) == s.offset && (next == AtEof ==> s.offset == total)
        case Ending => Frontier(s.pieces) == s.offset == total
        case Finished => Frontier(s.pieces) <= s.offset && (s.ref.eof ==> Frontier(s.pieces) == total))
    && (s.ref.eof ==> s.fwd == Finished)
  }

  lemma AppendTiles(pieces: seq<Piece>, p: Piece)
    requires Tiles(pieces) && p.lo == Frontier(pieces) && p.lo <= p.hi
    ensures Tiles(Append(pieces, p)) && Frontier(Append(pieces, p)) == p.hi
    ensures forall q :: q in Append(pieces, p) ==> q in pieces || (q == p && p.lo < p.hi)
  {
    var q := Append(pieces, p);
    forall i ensures TileAt(q, i) {
      assert TileAt(pieces, i);
      if 0 <= i < |pieces| { assert q[..i] == pieces[..i]; } else if i == |pieces| < |q| { assert q[..i] == pieces; }
    }
  }

  lemma GiveUp(pieces: seq<Piece>, c: Conn, lo: nat, mid: nat, hi: nat)
    requires Tiles(pieces) && Frontier(pieces) == lo <= mid <= hi
    ensures Tiles(GivenUp(pieces, c, lo, mid, hi)) && Frontier(GivenUp(pieces, c, lo, mid, hi)) == hi
  {
    AppendTiles(pieces, Sent(c, lo, mid));
    AppendTiles(Append(pieces, Sent(c, lo, mid)), Dropped(mid, hi));
  }

  lemma GapAdded(failures: seq<Failure>, f: Failure, ends: set<nat>, offset: nat)
    requires GapsEnd(failures, ends, offset) && ToBufferEnd(f, ends) && f.end <= offset
    ensures GapsEnd(failures + [f], ends, offset)
  {
  }

  lemma FailedWriteStep(s: State, a: Action, total: nat)
    requires a.Write? && Enabled(s, a, total) && BytesKept(s, total) && WriteFails(a, s.fwd.hi - s.fwd.lo)
    ensures BytesKept(Step(s, a, total), total)
  {
    var f, t := s.fwd, Step(s, a, total);
    GiveUp(s.pieces, f.conn, f.lo, f.lo + a.accepted, f.hi);
    GapAdded(s.failures, Failure(f.lo + a.accepted, f.hi), s.ends, s.offset);
    assert t.pieces == GivenUp(s.pieces, f.conn, f.lo, f.lo + a.accepted, f.hi);
  }

  lemma WriteStep(s: State, a: Action, total: nat)
    requires a.Write? && Enabled(s, a, total) && BytesKept(s, total) && !WriteFails(a, s.fwd.hi - s.fwd.lo)
    ensures BytesKept(Step(s, a, total), total)
  {
    var f := s.fwd;
    AppendTiles(s.pieces, Sent(f.conn, f.lo, f.lo + a.written));
    assert Step(s, a, total).pieces == Append(s.pieces, Sent(f.conn, f.lo, f.lo + a.written));
  }

  lemma AppendDrops(pieces: seq<Piece>, p: Piece)
    requires p.lo <= p.hi
    ensures Drops(Append(pieces, p)) == Drops(pieces) + if p.Dropped? && p.lo < p.hi then [Failure(p.lo, p.hi)] else []
  {
    assert (pieces + [p])[..|pieces|] == pieces;
  }

  lemma LossyMore(failures: seq<Failure>, f: Failure)
    ensures Lossy(failures + [f]) == Lossy(failures) + if f.at < f.end then [f] else []
  {
    assert (failures + [f])[..|failures|] == failures;
  }

  lemma GapsGivenUp(pieces: seq<Piece>, failures: seq<Failure>, c: Conn, lo: nat, mid: nat, hi: nat)
    requires lo <= mid <= hi && Drops(pieces) == Lossy(failures)
    ensures Drops(GivenUp(pieces, c, lo, mid, hi)) == Lossy(failures + [Failure(mid, hi)])
  {
    AppendDrops(pieces, Sent(c, lo, mid));
    AppendDrops(Append(pieces, Sent(c, lo, mid)), Dropped(mid, hi));
    LossyMore(failures, Failure(mid, hi));
  }

  lemma GapsAfterWrite(s: State, a: Action, total: nat)
    requires a.Write? && Enabled(s, a, total) && GapsExplained(s)
    ensures GapsExplained(Step(s, a, total))
  {
    var f := s.fwd;
    if WriteFails(a, f.hi - f.lo) {
      GapsGivenUp(s.pieces, s.failures, f.conn, f.lo, f.lo + a.accepted, f.hi);
    } else {
      AppendDrops(s.pieces, Sent(f.conn, f.lo, f.lo + a.written));
    }
  }

  lemma GapsStep(s: State, a: Action, total: nat)
    requires Enabled(s, a, total) && GapsExplained(s)
    ensures GapsExplained(Step(s, a, total))
  {
    if a.Write? {
      GapsAfterWrite(s, a, total);
    } else {
      assert Step(s, a, total).pieces == s.pieces && Step(s, a, total).failures == s.failures;
    }
  }

  /** A later read cannot end inside an earlier gap. */
  lemma ReadStep(s: State, a: Action, total: nat)
    requires a.Read? && Enabled(s, a, total) && BytesKept(s, total)
    ensures BytesKept(Step(s, a, total), total)
  {
    var s' := Step(s, a, total);
    forall f | f in s'.failures ensures ToBufferEnd(f, s'.ends) && f.end <= s'.offset {
      assert ToBufferEnd(f, s.ends);
    }
  }

  lemma BytesStep(s: State, a: Action, total: nat)
    requires Enabled(s, a, total) && BytesKept(s, total)
    ensures BytesKept(Step(s, a, total), total)
  {
    if a.Write? {
      if WriteFails(a, s.fwd.hi - s.fwd.lo) { FailedWriteStep(s, a, total); } else { WriteStep(s, a, total); }
    } else if a.Read? {
      ReadStep(s, a, total);
    }
  }

  // ---------------------------------------------------------------- every run

  lemma {:induction false} RunKeeps(c: Conn, states: seq<State>, run: seq<Action>, total: nat)
    requires IsRun(c, states, run, total)
    ensures var s := states[|run|];
            ChannelsKept(s) && HalfClosesKept(s, CurrentAfterEof(states)) && BytesKept(s, total) && GapsExplained(s)
    decreases |run|
  {
    var before := states[..|states| - 1];
    if run == [] {
      assert before == [];
    } else {
      var n := |run| - 1;
      assert IsRun(c, before, run[..n], total);
      RunKeeps(c, before, run[..n], total);
      ChannelsStep(states[n], run[n], total);
      HalfClosesStep(states[n], run[n], total, CurrentAfterEof(before));
      BytesStep(states[n], run[n], total);
      GapsStep(states[n], run[n], total);
    }
  }

  lemma {:induction false} AfterEofMeans(states: seq<State>, c: Conn)
    ensures c in CurrentAfterEof(states) <==>
            exists i :: 0 <= i < |states| && states[i].ref.eof && states[i].ref.conn == Some(c)
  {
    if states != [] {
      var before := states[..|states| - 1];
      AfterEofMeans(before, c);
      assert forall i :: 0 <= i < |before| ==> before[i] == states[i];
    }
  }

  /** In every interleaving, once no call is outstanding, a carrier has been half-closed exactly
      once if it was current at or after the end of input and never otherwise. */
  lemma HalfClosedExactlyOnce(c0: Conn, states: seq<State>, run: seq<Action>, total: nat, c: Conn)
    requires IsRun(c0, states, run, total) && states[|run|].owed == multiset{}
    ensures states[|run|].halfClosed[c] == 1 <==>
            exists i :: 0 <= i < |states| && states[i].ref.eof && states[i].ref.conn == Some(c)
    ensures states[|run|].halfClosed[c] <= 1
  {
    RunKeeps(c0, states, run, total);
    AfterEofMeans(states, c);
  }

  /** No channel is ever closed twice, and whenever a carrier is installed a blocked forwarder
      can wake: its channel has been closed. */
  lemma NoDoubleCloseNoLostWake(c0: Conn, states: seq<State>, run: seq<Action>, total: nat)
    requires IsRun(c0, states, run, total)
    ensures var s := states[|run|];
            && (forall ch: nat :: s.ref.closes[ch] <= 1)
            && (s.fwd.Blocked? && s.ref.conn.Some? ==> Enabled(s, Wake, total))
  {
    RunKeeps(c0, states, run, total);
  }

  /** Nothing is written to any carrier once some half-close has been decided. */
  lemma NoWriteAfterHalfClose(c0: Conn, states: seq<State>, run: seq<Action>, total: nat, c: Conn)
    requires IsRun(c0, states, run, total) && (c in states[|run|].owed || c in states[|run|].halfClosed)
    ensures states[|run|].fwd == Finished
  {
    RunKeeps(c0, states, run, total);
    var s := states[|run|];
    assert ClosesOf(s, c) > 0;
  }

  /** The offsets of the bytes that carriers accepted, in the order they were sent. */
  function AcceptedOffsets(pieces: seq<Piece>): seq<nat> {
    if pieces == [] then []
    else
      var p := pieces[|pieces| - 1];
      AcceptedOffsets(pieces[..|pieces| - 1])
      + if p.Sent? && p.lo <= p.hi then seq(p.hi - p.lo, i requires 0 <= i => p.lo + i) else []
  }

  ghost predicate Increasing(s: seq<nat>, bound: nat) {
    (forall i :: 0 <= i < |s| ==> s[i] < bound) && forall i, j :: 0 <= i < j < |s| ==> s[i] < s[j]
  }

  lemma {:induction false} TilesIncrease(pieces: seq<Piece>)
    requires Tiles(pieces)
    ensures Increasing(AcceptedOffsets(pieces), Frontier(pieces))
    ensures (forall p :: p in pieces ==> p.Sent?) ==>
              AcceptedOffsets(pieces) == seq(Frontier(pieces), i requires 0 <= i => i)
    decreases |pieces|
  {
    if pieces != [] {
      var before, p := pieces[..|pieces| - 1], pieces[|pieces| - 1];
      forall i ensures TileAt(before, i) {
        assert TileAt(pieces, i);
        assert 0 <= i < |before| ==> before[..i] == pieces[..i];
      }
      assert TileAt(pieces, |pieces| - 1);
      TilesIncrease(before);
      assert pieces[..|pieces| - 1] == before && Frontier(before) == p.lo;
    }
  }

  lemma {:induction false} DropsMean(pieces: seq<Piece>, f: Failure)
    ensures f in Drops(pieces) <==> Dropped(f.at, f.end) in pieces
  {
    if pieces != [] {
      DropsMean(pieces[..|pieces| - 1], f);
      assert pieces == pieces[..|pieces| - 1] + [pieces[|pieces| - 1]];
    }
  }

  lemma {:induction false} LossyMeans(failures: seq<Failure>, f: Failure)
    ensures f in Lossy(failures) <==> f in failures && f.at < f.end
    ensures |Lossy(failures)| <= |failures|
  {
    if failures != [] {
      LossyMeans(failures[..|failures| - 1], f);
      assert failures == failures[..|failures| - 1] + [failures[|failures| - 1]];
    }
  }

  lemma {:induction false} NoDrops(pieces: seq<Piece>)
    requires Drops(pieces) == []
    ensures forall p :: p in pieces ==> p.Sent?
  {
    forall p | p in pieces ensures p.Sent? {
      if p.Dropped? { DropsMean(pieces, Failure(p.lo, p.hi)); }
    }
  }

  /** The bytes accepted by all carriers together are a subsequence of standard input in order, no byte sent
      twice. A stretch is missing exactly if a failed write left it unsent; it then runs to the end of the
      buffer of that write and no further, and there are no more gaps than failed writes. If input ended
      without a failed write, all of it was accepted. */
  lemma InputInOrder(c0: Conn, states: seq<State>, run: seq<Action>, total: nat)
    requires IsRun(c0, states, run, total)
    ensures var s := states[|run|];
            && Increasing(AcceptedOffsets(s.pieces), total) && Tiles(s.pieces)
            && (forall lo, hi :: Dropped(lo, hi) in s.pieces <==> Failure(lo, hi) in s.failures && lo < hi)
            && (forall f :: f in s.failures ==> ToBufferEnd(f, s.ends))
            && Drops(s.pieces) == Lossy(s.failures) && |Drops(s.pieces)| <= |s.failures|
            && (s.ref.eof && s.failures == [] ==> AcceptedOffsets(s.pieces) == seq(total, i requires 0 <= i => i))
  {
    RunKeeps(c0, states, run, total);
    var s := states[|run|];
    TilesIncrease(s.pieces);
    forall lo, hi ensures Dropped(lo, hi) in s.pieces <==> Failure(lo, hi) in s.failures && lo < hi {
      DropsMean(s.pieces, Failure(lo, hi));
      LossyMeans(s.failures, Failure(lo, hi));
    }
    LossyMeans(s.failures, Failure(0, 0));
    if s.failures == [] { NoDrops(s.pieces); }
  }

  // ---------------------------------------------------------------- the reference in use

  /** One action of the system carried out on the object. */
  method Perform(ref: ExecConnectionRef, s: State, a: Action, total: nat) returns (t: State)
    requires ref.Valid() && ref.Value() == s.ref && Enabled(s, a, total)
    modifies ref
    ensures ref.Valid() && ref.Value() == t.ref && t == Step(s, a, total)
  {
    match a {
      case Set(c) =>
        var halfClose := ref.Set(c);
        t := s.(used := s.used + {c}, owed := if halfClose then s.owed + multiset{c} else s.owed);
      case Clear(c) =>
        ref.Clear(c);
        t := s;
      case Check =>
        var current, channel := ref.Look();
        t := s.(fwd := if current.Some? then Sending(current.value, s.fwd.lo, s.fwd.hi, s.fwd.next)
                       else Blocked(channel, s.fwd.lo, s.fwd.hi, s.fwd.next));
      case ClearFailed =>
        ref.Clear(s.fwd.conn);
        t := s.(fwd := After(s.fwd.next));
      case CloseInput =>
        var current := ref.CloseInput();
        t := s.(fwd := Finished, owed := if current.Some? then s.owed + multiset{current.value} else s.owed);
      case _ =>
        t := Step(s, a, total);
    }
    t := t.(ref := ref.Value());
  }

  /** What a schedule comes to: every wish that is possible when its turn comes, and no other. */
  function Schedule(s: State, wishes: seq<Action>, total: nat): seq<Action>
    decreases |wishes|
  {
    if wishes == [] then []
    else if Enabled(s, wishes[0], total) then [wishes[0]] + Schedule(Step(s, wishes[0], total), wishes[1..], total)
    else Schedule(s, wishes[1..], total)
  }

  /** The object driven by any schedule goes through a run of the system: what is proved of every run holds
      of it. A wish that is not possible when its turn comes is passed over. */
  method Replay(c: Conn, wishes: seq<Action>, total: nat)
    returns (ref: ExecConnectionRef, states: seq<State>, run: seq<Action>)
    ensures fresh(ref) && ref.Valid() && IsRun(c, states, run, total) && ref.Value() == states[|run|].ref
    ensures run == Schedule(Init(c), wishes, total)
  {
    ref := new ExecConnectionRef(c);
    states, run := [Init(c)], [];
    for i := 0 to |wishes|
      invariant fresh(ref) && ref.Valid() && IsRun(c, states, run, total) && ref.Value() == states[|run|].ref
      invariant run + Schedule(states[|run|], wishes[i..], total) == Schedule(Init(c), wishes, total)
    {
      assert wishes[i..][1..] == wishes[i + 1..];
      if Enabled(states[|run|], wishes[i], total) {
        var t := Perform(ref, states[|run|], wishes[i], total);
        OneMore(c, states, run, total, wishes[i]);
        states, run := states + [t], run + [wishes[i]];
      }
    }
  }

  lemma OneMore(c: Conn, states: seq<State>, run: seq<Action>, total: nat, a: Action)
    requires IsRun(c, states, run, total) && Enabled(states[|run|], a, total)
    ensures IsRun(c, states + [Step(states[|run|], a, total)], run + [a], total)
  {
    var longer, more := states + [Step(states[|run|], a, total)], run + [a];
    forall i | 0 <= i < |more| ensures Enabled(longer[i], more[i], total) && longer[i + 1] == Step(longer[i], more[i], total) {
      if i < |run| { assert states[i + 1] == Step(states[i], run[i], total); }
    }
  }
}
