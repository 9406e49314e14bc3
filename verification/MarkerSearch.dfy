/** The benchmark's terminal reader: bytes arrive in reads of at most 64 KiB, the buffer is cut
    to its last 8 MiB after every read, and a bulk transfer is the text between two markers. */
module MarkerSearch {
  import opened Common

  type Byte = x: int | 0 <= x < 256

  const READ_SIZE: nat := 65536
  const BUFFER_LIMIT: nat := 0x80_0000

  // ---------------------------------------------------------------- first occurrence

  predicate At(s: seq<Byte>, m: seq<Byte>, i: int) {
    0 <= i && i + |m| <= |s| && forall j :: 0 <= j < |m| ==> s[i + j] == m[j]
  }

  /** Index of the first occurrence, or -1, as `bytearray.find`. */
  function Find(s: seq<Byte>, m: seq<Byte>): (r: int)
    ensures r == -1 ==> forall i :: !At(s, m, i)
    ensures r != -1 ==> At(s, m, r) && forall i :: i < r ==> !At(s, m, i)
  {
    FindFrom(s, m, 0)
  }

  function FindFrom(s: seq<Byte>, m: seq<Byte>, k: nat): (r: int)
    ensures r == -1 ==> forall i :: k <= i ==> !At(s, m, i)
    ensures r != -1 ==> At(s, m, r) && k <= r && forall i :: k <= i < r ==> !At(s, m, i)
    decreases |s| - k
  {
    if At(s, m, k) then k
    else if k + |m| >= |s| then -1
    else FindFrom(s, m, k + 1)
  }

  lemma FindIs(s: seq<Byte>, m: seq<Byte>, k: int)
    requires At(s, m, k) && forall i :: i < k ==> !At(s, m, i)
    ensures Find(s, m) == k
  {
  }

  lemma AtExtends(s: seq<Byte>, t: seq<Byte>, m: seq<Byte>, i: int)
    ensures At(s, m, i) ==> At(s + t, m, i)
    ensures i + |m| <= |s| ==> (At(s + t, m, i) <==> At(s, m, i))
  {
  }

  lemma AtShift(p: seq<Byte>, s: seq<Byte>, m: seq<Byte>, i: int)
    requires i >= 0
    ensures At(p + s, m, |p| + i) <==> At(s, m, i)
  {
    if At(p + s, m, |p| + i) {
      forall j | 0 <= j < |m| ensures s[i + j] == m[j] { assert (p + s)[|p| + i + j] == s[i + j]; }
    }
  }

  /** More bytes never move the first occurrence. */
  lemma FindStable(s: seq<Byte>, t: seq<Byte>, m: seq<Byte>)
    requires Find(s, m) != -1
    ensures Find(s + t, m) == Find(s, m)
  {
    var k := Find(s, m);
    AtExtends(s, t, m, k);
    forall i | i < k ensures !At(s + t, m, i) { AtExtends(s, t, m, i); }
    FindIs(s + t, m, k);
  }

  /** No occurrence begins within the first `n` bytes. */
  ghost predicate NoneBefore(s: seq<Byte>, m: seq<Byte>, n: int) {
    forall i :: i < n ==> !At(s, m, i)
  }

  /** Once none begins in `p`, the first occurrence in `p + s` is the one in `s`. */
  lemma FindAfter(p: seq<Byte>, s: seq<Byte>, m: seq<Byte>)
    requires NoneBefore(p + s, m, |p|)
    ensures Find(p + s, m) == if Find(s, m) == -1 then -1 else |p| + Find(s, m)
  {
    forall i | i >= 0 ensures At(p + s, m, |p| + i) == At(s, m, i) { AtShift(p, s, m, i); }
    var k := Find(s, m);
    if k == -1 {
      forall i ensures !At(p + s, m, i) {
        if i >= |p| { assert !At(s, m, i - |p|); AtShift(p, s, m, i - |p|); }
      }
    } else {
      forall i | i < |p| + k ensures !At(p + s, m, i) {
        if i >= |p| { assert !At(s, m, i - |p|); AtShift(p, s, m, i - |p|); }
      }
      FindIs(p + s, m, |p| + k);
    }
  }

  /** `rest` is what follows the first occurrence of `m`. */
  ghost predicate Follows(s: seq<Byte>, m: seq<Byte>, rest: seq<Byte>) {
    Find(s, m) != -1 && rest == s[Find(s, m) + |m|..]
  }

  /** `start` is what comes before the first occurrence of `m`. */
  ghost predicate UpTo(s: seq<Byte>, m: seq<Byte>, start: seq<Byte>) {
    Find(s, m) != -1 && start == s[..Find(s, m)]
  }

  /** The text between the first `b` and the first `e` after it. */
  function Between(s: seq<Byte>, b: seq<Byte>, e: seq<Byte>): (r: Option<seq<Byte>>)
    ensures r.Some? <==> Find(s, b) != -1 && Find(s[Find(s, b) + |b|..], e) != -1
  {
    var i := Find(s, b);
    if i == -1 then None
    else
      var rest := s[i + |b|..];
      var j := Find(rest, e);
      if j == -1 then None else Some(rest[..j])
  }

  // ---------------------------------------------------------------- the byte stream

  function Trimmed(s: seq<Byte>): (t: seq<Byte>)
    ensures |t| <= BUFFER_LIMIT && |t| <= |s| && t == s[|s| - |t|..]
    ensures |s| <= BUFFER_LIMIT ==> t == s
  {
    if |s| > BUFFER_LIMIT then s[|s| - BUFFER_LIMIT..] else s
  }

  /** What begins before the cut of a short read would have been complete before that read. */
  lemma CutIsEarly(gone: nat, pending: nat, chunk: nat, m: nat, i: nat)
    requires pending <= BUFFER_LIMIT && chunk <= READ_SIZE && m <= BUFFER_LIMIT - READ_SIZE + 1
    requires gone == 0 || pending == BUFFER_LIMIT
    requires i < gone + pending + chunk - if pending + chunk > BUFFER_LIMIT then BUFFER_LIMIT else pending + chunk
    ensures i + m <= gone + pending
  {
  }

  /** A read of a short chunk cuts off no occurrence that was not already looked for. */
  lemma TrimLosesNothing(gone: seq<Byte>, pending: seq<Byte>, chunk: seq<Byte>, m: seq<Byte>)
    requires |pending| <= BUFFER_LIMIT && |chunk| <= READ_SIZE && |m| <= BUFFER_LIMIT - READ_SIZE + 1
    requires Find(gone + pending, m) == -1 && (gone == [] || |pending| == BUFFER_LIMIT)
    ensures var left := Trimmed(pending + chunk);
            var cut := |gone + pending + chunk| - |left|;
            && gone + pending + chunk == (gone + pending + chunk)[..cut] + left
            && NoneBefore(gone + pending + chunk, m, cut)
            && (cut == 0 || |left| == BUFFER_LIMIT)
  {
    var s, left := gone + pending + chunk, Trimmed(pending + chunk);
    var cut := |s| - |left|;
    SuffixOf(gone, pending, chunk, left);
    forall i | i < cut ensures !At(s, m, i) {
      if i >= 0 {
        CutIsEarly(|gone|, |pending|, |chunk|, |m|, i);
        AtExtends(gone + pending, chunk, m, i);
      }
    }
  }

  lemma SuffixOf(gone: seq<Byte>, pending: seq<Byte>, chunk: seq<Byte>, left: seq<Byte>)
    requires |left| <= |pending + chunk| && left == (pending + chunk)[|pending + chunk| - |left|..]
    ensures var s := gone + pending + chunk; s == s[..|s| - |left|] + left
  {
    assert gone + pending + chunk == gone + (pending + chunk);
  }

  /** The bound on the marker is exact: for every longer marker that the buffer could hold there are a buffer
      and one more read that lose it although it has wholly arrived. */
  lemma LongMarkerIsLost(m: seq<Byte>) returns (first: seq<Byte>, second: seq<Byte>)
    requires BUFFER_LIMIT - READ_SIZE + 1 < |m| <= BUFFER_LIMIT
    ensures |second| <= READ_SIZE && |first| <= BUFFER_LIMIT
    ensures Find(first, m) == -1 && Find(first + second, m) == 0
    ensures Find(Trimmed(first + second), m) == -1
  {
    var n := |m|;
    var last := m[n - 1];
    var other: Byte := if last == 0 then 1 else 0;
    first, second := m[..n - 1], [last] + seq(BUFFER_LIMIT - n + 1, _ => other);
    var s := first + second;
    assert At(s, m, 0);
    FindIs(s, m, 0);
    var left := Trimmed(s);
    assert |left| == BUFFER_LIMIT && left == s[1..];
    forall i ensures !At(left, m, i) {
      if 0 <= i && i + n <= |left| { assert left[i + (n - 1)] == s[i + n] == other; }
    }
  }

  /** And a marker longer than the buffer is never found. */
  lemma HugeMarkerIsLost(m: seq<Byte>, s: seq<Byte>)
    requires |m| > BUFFER_LIMIT
    ensures Find(Trimmed(s), m) == -1
  {
  }

  // ---------------------------------------------------------------- the session

  /** A terminal whose future is fixed: `input` is everything it will ever print and read
      number k is offered `sizes(k)` bytes of it, none when it times out. */
  class PtySession {
    const input: seq<Byte>
    const sizes: nat -> nat
    var turn: nat
    var at: nat
    var pending: seq<Byte>

    function ReadLength(k: nat, from: nat): (n: nat)
      requires from <= |input|
      ensures n <= READ_SIZE && from + n <= |input|
    {
      var n := if sizes(k) < READ_SIZE then sizes(k) else READ_SIZE;
      if from + n <= |input| then n else |input| - from
    }

    /** How much has been delivered after `k` reads. */
    function Offset(k: nat): (n: nat)
      ensures n <= |input|
    {
      if k == 0 then 0 else Offset(k - 1) + ReadLength(k - 1, Offset(k - 1))
    }

    ghost predicate Valid() reads this {
      at == Offset(turn) && |pending| <= BUFFER_LIMIT
    }

    /** Everything buffered and still to come. */
    ghost function Stream(): seq<Byte>
      requires at <= |input|
      reads this
    {
      pending + input[at..]
    }

    constructor (input: seq<Byte>, sizes: nat -> nat)
      ensures Valid() && this.input == input && this.sizes == sizes && turn == 0 && Stream() == input
    {
      this.input, this.sizes, turn, at, pending := input, sizes, 0, 0, [];
    }

    method ReadOnce() returns (chunk: seq<Byte>)
      requires Valid()
      modifies this
      ensures Valid() && turn == old(turn) + 1
      ensures old(at) <= at <= old(at) + READ_SIZE && chunk == input[old(at)..at]
      ensures pending == Trimmed(old(pending) + chunk)
    {
      var n := ReadLength(turn, at);
      chunk := input[at..at + n];
      at, turn := at + n, turn + 1;
      pending := pending + chunk;
      if |pending| > BUFFER_LIMIT {
        pending := pending[|pending| - BUFFER_LIMIT..];
      }
    }

    method Consume(marker: seq<Byte>) returns (found: bool)
      requires Valid()
      modifies this`pending
      ensures Valid() && found == (Find(old(pending), marker) != -1)
      ensures pending == if found then old(pending)[Find(old(pending), marker) + |marker|..] else old(pending)
    {
      var index := Find(pending, marker);
      if index < 0 { return false; }
      pending := pending[index + |marker|..];
      return true;
    }

    /** What a search that began at offset `from` with buffer `start` has seen by offset `to`. */
    ghost function Seen(start: seq<Byte>, from: nat, to: nat): seq<Byte>
      requires from <= to <= |input|
    {
      start + input[from..to]
    }

    /** The marker was not in what had arrived before read number `k`, the last one made. */
    ghost predicate Missing(start: seq<Byte>, from: nat, k: nat, m: seq<Byte>) {
      k > 0 && from <= Offset(k - 1) && Find(Seen(start, from, Offset(k - 1)), m) == -1
    }

    lemma SeenMore(start: seq<Byte>, from: nat, to: nat, to': nat)
      requires from <= to <= to' <= |input|
      ensures Seen(start, from, to') == Seen(start, from, to) + input[to..to']
      ensures start + input[from..] == Seen(start, from, to) + input[to..]
    {
    }

    /** One turn of the loop below: look for the marker, and read once if it is not there. */
    method WaitTurn(marker: seq<Byte>, ghost seen: seq<Byte>, ghost gone: seq<Byte>)
      returns (found: bool, ghost gone': seq<Byte>)
      requires Valid() && |marker| <= BUFFER_LIMIT - READ_SIZE + 1 && Tracked(seen, gone, pending, marker)
      modifies this
      ensures Valid() && old(at) <= at && old(turn) <= turn
      ensures found ==> var s := seen + input[old(at)..]; Find(s, marker) != -1 && Stream() == s[Find(s, marker) + |marker|..]
      ensures !found ==> Find(seen, marker) == -1 && turn == old(turn) + 1
      ensures !found ==> Tracked(seen + input[old(at)..at], gone', pending, marker)
    {
      ghost var before := pending;
      gone' := gone;
      found := Consume(marker);
      if found {
        AfterMarker(gone, before, input[at..], marker);
      } else {
        var chunk := ReadOnce();
        gone' := ReadTracked(seen, gone, before, chunk, marker);
      }
    }

    /** The loop runs until the marker is consumed or `ticks` turns pass. On success the buffer
        and what is still to come are exactly the stream after the marker's first occurrence;
        it fails only when the marker had not arrived before the last read. */
    method WaitMarker(marker: seq<Byte>, ticks: nat) returns (found: bool)
      requires Valid() && |marker| <= BUFFER_LIMIT - READ_SIZE + 1
      modifies this
      ensures Valid() && old(at) <= at && old(turn) <= turn
      ensures found ==> Follows(old(Stream()), marker, Stream())
      ensures !found ==> turn == old(turn) + ticks && (ticks > 0 ==> Missing(old(pending), old(at), turn, marker))
    {
      ghost var gone: seq<Byte> := [];
      for tick := 0 to ticks
        invariant Valid() && turn == old(turn) + tick && old(at) <= at
        invariant Tracked(Seen(old(pending), old(at), at), gone, pending, marker)
        invariant tick > 0 ==> Missing(old(pending), old(at), turn, marker)
      {
        ghost var p := at;
        found, gone := WaitTurn(marker, Seen(old(pending), old(at), p), gone);
        SeenMore(old(pending), old(at), p, at);
        if found { return; }
      }
      found := false;
    }

    /** One turn of the collection loop: all but the last few buffered bytes are moved out, the
        rest kept in case a marker has half arrived. */
    method CollectTurn(end: seq<Byte>, collected: seq<Byte>, ghost seen: seq<Byte>)
      returns (done: bool, collected': seq<Byte>)
      requires Valid() && |end| <= BUFFER_LIMIT - READ_SIZE + 1 && Collected(seen, collected, pending, end)
      modifies this
      ensures Valid() && old(at) <= at
      ensures done ==> var s := seen + input[old(at)..]; Find(s, end) != -1 && collected' == s[..Find(s, end)]
      ensures !done ==> Find(seen, end) == -1 && turn == old(turn) + 1
      ensures !done ==> Collected(seen + input[old(at)..at], collected', pending, end)
    {
      var index := Find(pending, end);
      if index >= 0 {
        UpToMarker(collected, pending, input[at..], end);
        return true, collected + pending[..index];
      }
      ghost var before := pending;
      var keep := if |end| > 0 then |end| - 1 else 0;
      var take := if |pending| > keep then |pending| - keep else 0;
      collected' := collected + pending[..take];
      pending := pending[take..];
      var chunk := ReadOnce();
      ReadCollected(seen, collected, before, take, chunk, end);
      done := false;
    }

    method Collect(end: seq<Byte>, ticks: nat) returns (r: Option<seq<Byte>>)
      requires Valid() && |end| <= BUFFER_LIMIT - READ_SIZE + 1
      modifies this
      ensures Valid()
      ensures r.Some? ==> UpTo(old(Stream()), end, r.value)
      ensures r.None? ==> turn == old(turn) + ticks && (ticks > 0 ==> Missing(old(pending), old(at), turn, end))
    {
      var collected: seq<Byte> := [];
      for tick := 0 to ticks
        invariant Valid() && turn == old(turn) + tick && old(at) <= at
        invariant Collected(Seen(old(pending), old(at), at), collected, pending, end)
        invariant tick > 0 ==> Missing(old(pending), old(at), turn, end)
      {
        ghost var p := at;
        var done;
        done, collected := CollectTurn(end, collected, Seen(old(pending), old(at), p));
        SeenMore(old(pending), old(at), p, at);
        if done { return Some(collected); }
      }
      r := None;
    }

    /** However the stream is cut into reads, a bulk transfer that ends in time returns the bytes between the
        first begin marker and the first end marker after it. It fails only if these had not both arrived
        before the last read. */
    method Bulk(begin: seq<Byte>, end: seq<Byte>, waitTicks: nat, collectTicks: nat)
      returns (r: Option<seq<Byte>>)
      requires Valid() && |begin| <= BUFFER_LIMIT - READ_SIZE + 1 && |end| <= BUFFER_LIMIT - READ_SIZE + 1
      modifies this
      ensures Valid()
      ensures r.Some? ==> r == Between(old(Stream()), begin, end)
      ensures r.None? ==> turn >= old(turn) + (if waitTicks < collectTicks then waitTicks else collectTicks)
      ensures r.None? && waitTicks > 0 && collectTicks > 0 ==> NotBoth(old(pending), old(at), turn, begin, end)
    {
      var ready := WaitMarker(begin, waitTicks);
      if !ready { return None; }
      ghost var middle, start := pending, at;
      r := Collect(end, collectTicks);
      if r.None? && collectTicks > 0 {
        StillMissing(old(pending), old(at), middle, start, turn, begin, end);
      }
    }

    /** The two markers had not both arrived, in this order, before read number `k`. */
    ghost predicate NotBoth(start: seq<Byte>, from: nat, k: nat, begin: seq<Byte>, end: seq<Byte>) {
      k > 0 && from <= Offset(k - 1) && Between(Seen(start, from, Offset(k - 1)), begin, end) == None
    }

    lemma StillMissing(before: seq<Byte>, from: nat, middle: seq<Byte>, start: nat, k: nat, begin: seq<Byte>, end: seq<Byte>)
      requires from <= start <= |input| && Missing(middle, start, k, end)
      requires Follows(before + input[from..], begin, middle + input[start..])
      ensures NotBoth(before, from, k, begin, end)
    {
      ArrivedAfter(before, from, middle, start, Offset(k - 1), begin);
    }

    /** What has arrived by offset `to` after the first marker is what the buffer then held and what came since. */
    lemma ArrivedAfter(before: seq<Byte>, from: nat, middle: seq<Byte>, start: nat, to: nat, m: seq<Byte>)
      requires from <= start <= to <= |input|
      requires Follows(before + input[from..], m, middle + input[start..])
      ensures Follows(Seen(before, from, to), m, Seen(middle, start, to))
    {
      var s, t := before + input[from..], Seen(before, from, to);
      var k := Find(s, m);
      assert s == t + input[to..];
      assert middle + input[start..] == Seen(middle, start, to) + input[to..];
      assert k + |m| <= |t|;
      AtExtends(t, input[to..], m, k);
      FindStable(t, input[to..], m);
      assert s[k + |m|..] == t[k + |m|..] + input[to..];
      Cancel(t[k + |m|..], Seen(middle, start, to), input[to..]);
    }
  }

  lemma Cancel(x: seq<Byte>, y: seq<Byte>, z: seq<Byte>)
    requires x + z == y + z
    ensures x == y
  {
    assert |x + z| == |y + z|;
    assert x == (x + z)[..|x|] && y == (y + z)[..|y|];
  }

  /** The buffer and what was cut from its front make up what has been delivered, and the
      marker does not begin in the part that is gone. */
  ghost predicate Tracked(delivered: seq<Byte>, gone: seq<Byte>, buffer: seq<Byte>, m: seq<Byte>) {
    && gone + buffer == delivered && NoneBefore(delivered, m, |gone|)
    && |buffer| <= BUFFER_LIMIT && (gone == [] || |buffer| == BUFFER_LIMIT)
  }

  lemma ReadTracked(delivered: seq<Byte>, gone: seq<Byte>, buffer: seq<Byte>, chunk: seq<Byte>, m: seq<Byte>)
    returns (gone': seq<Byte>)
    requires Tracked(delivered, gone, buffer, m) && Find(buffer, m) == -1
    requires |m| <= BUFFER_LIMIT - READ_SIZE + 1 && |chunk| <= READ_SIZE
    ensures Find(delivered, m) == -1 && Tracked(delivered + chunk, gone', Trimmed(buffer + chunk), m)
  {
    FindAfter(gone, buffer, m);
    TrimLosesNothing(gone, buffer, chunk, m);
    var all := gone + buffer + chunk;
    gone' := all[..|all| - |Trimmed(buffer + chunk)|];
  }

  /** What is collected and what is buffered make up what has been delivered, and the marker
      does not begin in the collected part. */
  ghost predicate Collected(delivered: seq<Byte>, collected: seq<Byte>, buffer: seq<Byte>, m: seq<Byte>) {
    && collected + buffer == delivered && NoneBefore(delivered, m, |collected|)
    && |buffer| <= BUFFER_LIMIT && (collected != [] ==> |buffer| + 1 >= |m|)
  }

  lemma ReadCollected(delivered: seq<Byte>, collected: seq<Byte>, buffer: seq<Byte>, take: nat, chunk: seq<Byte>, m: seq<Byte>)
    requires Collected(delivered, collected, buffer, m) && Find(buffer, m) == -1
    requires |m| <= BUFFER_LIMIT - READ_SIZE + 1 && |chunk| <= READ_SIZE
    requires m != [] ==> take == if |buffer| > |m| - 1 then |buffer| - (|m| - 1) else 0
    requires take <= |buffer|
    ensures Find(delivered, m) == -1
    ensures Collected(delivered + chunk, collected + buffer[..take], Trimmed(buffer[take..] + chunk), m)
  {
    FindAfter(collected, buffer, m);
    if m == [] { assert At(buffer, m, 0); }
    var c, b := collected + buffer[..take], buffer[take..];
    assert c + b == delivered && c + (b + chunk) == delivered + chunk;
    HalfArrived(c, b, chunk, m);
  }

  lemma UpToMarker(collected: seq<Byte>, buffer: seq<Byte>, rest: seq<Byte>, m: seq<Byte>)
    requires NoneBefore(collected + buffer, m, |collected|) && Find(buffer, m) != -1
    ensures var s := collected + buffer + rest;
            Find(s, m) != -1 && s[..Find(s, m)] == collected + buffer[..Find(buffer, m)]
  {
    FindAfter(collected, buffer, m);
    FindStable(collected + buffer, rest, m);
  }

  lemma AfterMarker(gone: seq<Byte>, before: seq<Byte>, rest: seq<Byte>, m: seq<Byte>)
    requires NoneBefore(gone + before, m, |gone|) && Find(before, m) != -1
    ensures var s := gone + before + rest;
            Find(s, m) != -1 && s[Find(s, m) + |m|..] == before[Find(before, m) + |m|..] + rest
  {
    FindAfter(gone, before, m);
    FindStable(gone + before, rest, m);
  }

  /** With all but |m| - 1 bytes moved out, an occurrence in the moved part would have been
      complete before the read. */
  lemma HalfArrived(collected: seq<Byte>, before: seq<Byte>, chunk: seq<Byte>, m: seq<Byte>)
    requires Find(collected + before, m) == -1 && (before == [] || |before| < |m|)
    requires collected != [] ==> |before| + 1 >= |m|
    ensures NoneBefore(collected + (before + chunk), m, |collected|)
  {
    assert collected + (before + chunk) == collected + before + chunk;
    forall i | i < |collected| ensures !At(collected + (before + chunk), m, i) {
      AtExtends(collected + before, chunk, m, i);
    }
  }
}
