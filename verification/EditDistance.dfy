/** The rolling-row edit distance that suggests near-miss session names, against the
    recursive Levenshtein distance and against the least number of single edits. */
module EditDistance {

  /** A character as Go's `range` over a string yields it: a code point and the number of
      bytes it occupies, by which the loop index advances. */
  datatype Char = Rune(code: nat, width: nat)

  type Rune = r: Char | 1 <= r.width <= 4 && (r.code < 128 ==> r.width == 1) witness Rune(0, 1)

  type Text = seq<Rune>

  /** Every character is one byte long, as in all ASCII text. */
  predicate Narrow(s: Text) {
    forall i :: 0 <= i < |s| ==> s[i].width == 1
  }

  predicate IsAscii(s: Text) {
    forall i :: 0 <= i < |s| ==> s[i].code < 128
  }

  /** The code points alone, which is what the loop compares. */
  function Codes(s: Text): (c: seq<nat>)
    ensures |c| == |s|
  {
    seq(|s|, i requires 0 <= i < |s| => s[i].code)
  }

  function ByteLen(s: Text): (n: nat)
    ensures |s| <= n
  {
    if s == [] then 0 else ByteLen(s[..|s| - 1]) + s[|s| - 1].width
  }

  lemma NarrowLen(s: Text)
    ensures ByteLen(s) == |s| <==> Narrow(s)
  {
    if s != [] {
      NarrowLen(s[..|s| - 1]);
      assert s == s[..|s| - 1] + [s[|s| - 1]];
    }
  }

  function Min3(x: int, y: int, z: int): (m: int)
    ensures m <= x && m <= y && m <= z && (m == x || m == y || m == z)
  {
    var m := if y < x then y else x;
    if z < m then z else m
  }

  function Cost<T(==)>(x: T, y: T): nat {
    if x == y then 0 else 1
  }

  /** Levenshtein distance, by cases on the last characters. */
  function Lev<T(==)>(a: seq<T>, b: seq<T>): nat
    decreases |a| + |b|
  {
    if a == [] then |b|
    else if b == [] then |a|
    else
      var a', b' := a[..|a| - 1], b[..|b| - 1];
      Min3(Lev(a, b') + 1, Lev(a', b) + 1, Lev(a', b') + Cost(a[|a| - 1], b[|b| - 1]))
  }

  /** The cell recurrence of one row, for its first `k` cells. */
  ghost predicate FollowsRow(x: nat, b: seq<nat>, prev: seq<int>, current: seq<int>, k: nat) {
    k <= |b| && |prev| == |current| == |b| + 1 && forall m :: 0 <= m < k ==> FollowsCell(x, b, prev, current, m)
  }

  ghost predicate FollowsCell(x: nat, b: seq<nat>, prev: seq<int>, current: seq<int>, m: int)
    requires 0 <= m < |b| && |prev| == |current| == |b| + 1
  {
    current[m + 1] == Min3(current[m] + 1, prev[m + 1] + 1, prev[m] + Cost(x, b[m]))
  }

  /** Where the one-byte characters at the end of `b` begin: after its last wide character, if it has one. */
  function TailStart(b: Text): (t: nat)
    ensures t <= |b| && (t > 0 ==> b[t - 1].width > 1)
    ensures forall i :: t <= i < |b| ==> b[i].width == 1
  {
    if b == [] || b[|b| - 1].width > 1 then |b| else TailStart(b[..|b| - 1])
  }

  function Tail(b: Text): Text {
    b[TailStart(b)..]
  }

  /** The column at which the tail begins. */
  function TailColumn(b: Text): nat {
    ByteLen(b[..TailStart(b)])
  }

  lemma TailNarrow(b: Text)
    ensures Narrow(b) <==> TailStart(b) == 0
    ensures Narrow(b) ==> Tail(b) == b && TailColumn(b) == 0
  {
    var t := TailStart(b);
    if t > 0 { assert b[t - 1].width > 1; }
    assert b[0..] == b && b[..0] == [];
  }

  /** The byte offsets of the characters: those of the tail are consecutive, and a wide character before
      it writes to a column before the tail. */
  lemma {:induction false} OffsetStep(b: Text, m: nat)
    requires m < |b|
    ensures ByteLen(b[..m + 1]) == ByteLen(b[..m]) + b[m].width <= ByteLen(b)
    ensures m >= TailStart(b) ==> ByteLen(b[..m]) == TailColumn(b) + (m - TailStart(b))
    ensures m < TailStart(b) ==> ByteLen(b[..m]) + 1 < TailColumn(b)
    decreases |b|, m
  {
    var t := TailStart(b);
    assert b[..m + 1][..m] == b[..m];
    PrefixFits(b, m + 1);
    if m > t {
      OffsetStep(b, m - 1);
    } else if m < t {
      var c := b[..t];
      assert c[..m] == b[..m];
      PrefixFits(c, m);
    }
  }

  lemma RowLength(b: Text)
    ensures ByteLen(b) == TailColumn(b) + |Tail(b)|
  {
    var t := TailStart(b);
    if t < |b| {
      OffsetStep(b, |b| - 1);
      assert b[..|b|] == b;
    } else {
      assert b[..t] == b;
    }
  }

  /** The inner loop: one new row from the row before, with the source's byte offsets. From the column of the
      tail on it obeys the cell recurrence; that column itself is never written unless it is the first. */
  method NextRow(ra: Rune, i: nat, b: Text, prev: array<int>) returns (current: array<int>)
    requires prev.Length == ByteLen(b) + 1
    ensures fresh(current) && current.Length == prev.Length
    ensures TailColumn(b) < prev.Length == TailColumn(b) + |Tail(b)| + 1
    ensures current[TailColumn(b)] == if Narrow(b) then i + 1 else 0
    ensures FollowsRow(ra.code, Codes(Tail(b)), prev[TailColumn(b)..], current[TailColumn(b)..], |Tail(b)|)
  {
    var n := ByteLen(b);
    ghost var t, c, v := TailStart(b), TailColumn(b), Codes(Tail(b));
    RowLength(b);
    TailNarrow(b);
    current := new int[n + 1](_ => 0);
    current[0] := i + 1;
    var j := 0;
    assert b[..0] == [];
    if t > 0 { OffsetStep(b, 0); }
    for m := 0 to |b|
      invariant fresh(current) && current.Length == n + 1
      invariant j == ByteLen(b[..m])
      invariant current[c] == if Narrow(b) then i + 1 else 0
      invariant m >= t ==> FollowsRow(ra.code, v, prev[c..], current[c..], m - t)
    {
      OffsetStep(b, m);
      WriteCell(ra, b[m], prev, current, j, b, m);
      j := j + b[m].width;
    }
    assert b[..|b|] == b;
  }

  /** One cell of the row, and what it does to the columns of the tail. */
  method WriteCell(ra: Rune, rb: Rune, prev: array<int>, current: array<int>, j: nat, ghost b: Text, ghost m: nat)
    requires prev != current && prev.Length == current.Length == TailColumn(b) + |Tail(b)| + 1
    requires m < |b| && b[m] == rb && j == ByteLen(b[..m]) && j + 1 < current.Length
    requires if m < TailStart(b) then j + 1 < TailColumn(b) else j == TailColumn(b) + (m - TailStart(b))
    requires m >= TailStart(b) ==>
               FollowsRow(ra.code, Codes(Tail(b)), prev[TailColumn(b)..], current[TailColumn(b)..], m - TailStart(b))
    modifies current
    ensures current[TailColumn(b)] == old(current[TailColumn(b)])
    ensures m >= TailStart(b) ==>
              FollowsRow(ra.code, Codes(Tail(b)), prev[TailColumn(b)..], current[TailColumn(b)..], m - TailStart(b) + 1)
  {
    ghost var before, c, t := current[..], TailColumn(b), TailStart(b);
    var cost := Cost(ra.code, rb.code);
    current[j + 1] := Min3(current[j] + 1, prev[j + 1] + 1, prev[j] + cost);
    if m >= t {
      assert current[c..] == before[c..][m - t + 1 := current[j + 1]];
      RowGrows(ra.code, Codes(Tail(b)), prev[c..], before[c..], current[c..], m - t);
    }
  }

  lemma RowGrows(x: nat, v: seq<nat>, prev: seq<int>, before: seq<int>, current: seq<int>, k: nat)
    requires k < |v| && FollowsRow(x, v, prev, before, k) && |current| == |before|
    requires current == before[k + 1 := Min3(before[k] + 1, prev[k + 1] + 1, prev[k] + Cost(x, v[k]))]
    ensures FollowsRow(x, v, prev, current, k + 1)
  {
    forall q | 0 <= q < k + 1 ensures FollowsCell(x, v, prev, current, q) {
      if q < k { assert FollowsCell(x, v, prev, before, q); }
    }
  }

  /** The text on which the byte offsets of `a` are its character indices. */
  predicate OffsetsAreIndices(a: Text) {
    a == [] || Narrow(a[..|a| - 1])
  }

  /** What the source puts in the first column of row `r`: a byte offset plus one. */
  function LeftEdge(a: Text, r: nat): int
    requires r <= |a|
  {
    if r == 0 then 0 else ByteLen(a[..r - 1]) + 1
  }

  // ---------------------------------------------------------------- least costs

  /** The cost of entering the text `w` at row `r` for `e[r]` and going on from there. */
  function Via(e: seq<int>, a: seq<nat>, w: seq<nat>, r: nat): int
    requires r <= |a| < |e|
  {
    e[r] + Lev(a[r..], w)
  }

  /** `d` is the least cost over all rows of entry. */
  ghost predicate IsLeast(e: seq<int>, a: seq<nat>, w: seq<nat>, d: int) {
    && |a| < |e| && (forall r :: 0 <= r <= |a| ==> d <= Via(e, a, w, r))
    && exists r :: 0 <= r <= |a| && d == Via(e, a, w, r)
  }

  lemma ViaStep(e: seq<int>, a: seq<nat>, w: seq<nat>, r: nat)
    requires r < |a| < |e| && w != []
    ensures var a', w' := a[..|a| - 1], w[..|w| - 1];
            Via(e, a, w, r) == Min3(Via(e, a, w', r) + 1, Via(e, a', w, r) + 1, Via(e, a', w', r) + Cost(a[|a| - 1], w[|w| - 1]))
  {
    assert a[r..][..|a| - r - 1] == a[..|a| - 1][r..];
  }

  /** Least costs obey the cell recurrence. */
  lemma LeastStep(e: seq<int>, a: seq<nat>, w: seq<nat>, left: int, up: int, diagonal: int)
    requires a != [] && w != [] && |a| < |e|
    requires IsLeast(e, a, w[..|w| - 1], left) && IsLeast(e, a[..|a| - 1], w, up) && IsLeast(e, a[..|a| - 1], w[..|w| - 1], diagonal)
    ensures IsLeast(e, a, w, Min3(left + 1, up + 1, diagonal + Cost(a[|a| - 1], w[|w| - 1])))
  {
    var a', w', cost := a[..|a| - 1], w[..|w| - 1], Cost(a[|a| - 1], w[|w| - 1]);
    var d := Min3(left + 1, up + 1, diagonal + cost);
    forall r | 0 <= r <= |a| ensures d <= Via(e, a, w, r) {
      if r < |a| {
        ViaStep(e, a, w, r);
        assert left <= Via(e, a, w', r) && up <= Via(e, a', w, r) && diagonal <= Via(e, a', w', r);
      } else {
        assert left <= Via(e, a, w', r) && a[r..] == [];
      }
    }
    var r: nat;
    if d == left + 1 {
      r :| 0 <= r <= |a| && left == Via(e, a, w', r);
      if r == |a| { assert a[r..] == []; } else { ViaStep(e, a, w, r); }
    } else if d == up + 1 {
      r :| 0 <= r <= |a'| && up == Via(e, a', w, r);
      ViaStep(e, a, w, r);
    } else {
      r :| 0 <= r <= |a'| && diagonal == Via(e, a', w', r);
      ViaStep(e, a, w, r);
    }
    assert d == Via(e, a, w, r);
  }

  /** Before any of `w`, a row costs one more than the row above or is an entry itself. */
  lemma LeastColumn(e: seq<int>, a: seq<nat>, up: int)
    requires a != [] && |a| < |e| && IsLeast(e, a[..|a| - 1], [], up)
    ensures IsLeast(e, a, [], if e[|a|] < up + 1 then e[|a|] else up + 1)
  {
    var a' := a[..|a| - 1];
    var d := if e[|a|] < up + 1 then e[|a|] else up + 1;
    assert forall r :: 0 <= r <= |a'| ==> Via(e, a, [], r) == Via(e, a', [], r) + 1;
    assert Via(e, a, [], |a|) == e[|a|];
    forall r | 0 <= r <= |a| ensures d <= Via(e, a, [], r) {
      if r <= |a'| { assert up <= Via(e, a', [], r); }
    }
    if d == up + 1 {
      var r :| 0 <= r <= |a'| && up == Via(e, a', [], r);
      assert d == Via(e, a, [], r);
    }
  }

  lemma LeastTop(e: seq<int>, w: seq<nat>)
    requires e != []
    ensures IsLeast(e, [], w, e[0] + |w|)
  {
    assert Via(e, [], w, 0) == e[0] + |w|;
  }

  ghost predicate LeastCell(e: seq<int>, a: seq<nat>, w: seq<nat>, row: seq<int>, q: int)
    requires |row| == |w| + 1
  {
    0 <= q <= |w| ==> IsLeast(e, a, w[..q], row[q])
  }

  /** The row holds the least costs of every prefix of `w`. */
  ghost predicate IsLeastRow(e: seq<int>, a: seq<nat>, w: seq<nat>, row: seq<int>) {
    |row| == |w| + 1 && forall q :: LeastCell(e, a, w, row, q)
  }

  lemma LeastCellStep(e: seq<int>, a: seq<nat>, w: seq<nat>, prev: seq<int>, current: seq<int>, q: nat)
    requires a != [] && |a| < |e| && IsLeastRow(e, a[..|a| - 1], w, prev) && q < |w|
    requires FollowsRow(a[|a| - 1], w, prev, current, |w|) && LeastCell(e, a, w, current, q)
    ensures LeastCell(e, a, w, current, q + 1)
  {
    var a' := a[..|a| - 1];
    assert FollowsCell(a[|a| - 1], w, prev, current, q);
    assert LeastCell(e, a', w, prev, q) && LeastCell(e, a', w, prev, q + 1);
    assert w[..q + 1][..q] == w[..q] && w[..q + 1][q] == w[q];
    LeastStep(e, a, w[..q + 1], current[q], prev[q + 1], prev[q]);
  }

  /** The cell recurrence carries rows of least costs to rows of least costs. */
  lemma LeastRow(e: seq<int>, a: seq<nat>, w: seq<nat>, prev: seq<int>, current: seq<int>)
    requires a != [] && |a| < |e| && IsLeastRow(e, a[..|a| - 1], w, prev)
    requires FollowsRow(a[|a| - 1], w, prev, current, |w|) && IsLeast(e, a, [], current[0])
    ensures IsLeastRow(e, a, w, current)
  {
    assert w[..0] == [];
    for q := 0 to |w|
      invariant forall m :: m <= q ==> LeastCell(e, a, w, current, m)
    {
      LeastCellStep(e, a, w, prev, current, q);
    }
  }

  lemma LeastFirstRow(e: seq<int>, w: seq<nat>, row: seq<int>)
    requires e != [] && |row| == |w| + 1 && forall q :: 0 <= q <= |w| ==> row[q] == e[0] + q
    ensures IsLeastRow(e, [], w, row)
  {
    forall q ensures LeastCell(e, [], w, row, q) {
      if 0 <= q <= |w| { LeastTop(e, w[..q]); }
    }
  }

  // ---------------------------------------------------------------- one-byte text

  /** The least cost of crossing the first character `x` of `b` into row `r`, for a given first column. */
  function Entry(edge: int, above: int, y: nat, x: nat): int {
    if above + Cost(y, x) < edge + 1 then above + Cost(y, x) else edge + 1
  }

  function Entries(a: Text, x: nat): (e: seq<int>)
    ensures |e| == |a| + 1
  {
    seq(|a| + 1, r requires 0 <= r <= |a| => if r == 0 then 1 else Entry(LeftEdge(a, r), LeftEdge(a, r - 1), a[r - 1].code, x))
  }

  /** The entries of the true distance, whose first column counts characters. */
  function TrueEntries(a: seq<nat>, x: nat): (e: seq<int>)
    ensures |e| == |a| + 1
  {
    seq(|a| + 1, r requires 0 <= r <= |a| => if r == 0 then 1 else Entry(r, r - 1, a[r - 1], x))
  }

  lemma EntriesAbove(a: Text, x: nat)
    ensures forall r :: 0 <= r <= |a| ==> Entries(a, x)[r] >= TrueEntries(Codes(a), x)[r]
    ensures OffsetsAreIndices(a) ==> Entries(a, x) == TrueEntries(Codes(a), x)
  {
    if OffsetsAreIndices(a) {
      forall r | 0 <= r <= |a| ensures LeftEdge(a, r) == r {
        if r > 0 { OffsetIsIndex(a, r - 1); }
      }
    }
  }

  lemma OffsetIsIndex(a: Text, k: nat)
    requires k < |a| && OffsetsAreIndices(a)
    ensures ByteLen(a[..k]) == k
  {
    forall i | 0 <= i < k ensures a[..k][i].width == 1 {
      assert a[..k][i] == a[..|a| - 1][i];
    }
    NarrowLen(a[..k]);
  }

  /** `e` holds the entries of the true distance for the text `a`. */
  ghost predicate AreTrue(e: seq<int>, a: seq<nat>, x: nat) {
    |a| < |e| && e[0] == 1 && forall r :: 1 <= r <= |a| ==> e[r] == Entry(r, r - 1, a[r - 1], x)
  }

  lemma {:induction false} LevUnfold(a: seq<nat>, b: seq<nat>)
    requires a != [] && b != []
    ensures Lev(a, b) == Min3(Lev(a, b[..|b| - 1]) + 1, Lev(a[..|a| - 1], b) + 1,
                              Lev(a[..|a| - 1], b[..|b| - 1]) + Cost(a[|a| - 1], b[|b| - 1]))
  {
  }

  lemma LevColumn(e: seq<int>, a: seq<nat>, x: nat)
    requires a != [] && AreTrue(e, a, x) && IsLeast(e, a[..|a| - 1], [], Lev(a[..|a| - 1], [x]))
    ensures IsLeast(e, a, [], Lev(a, [x]))
  {
    assert [x][..0] == [];
    LevUnfold(a, [x]);
    LeastColumn(e, a, Lev(a[..|a| - 1], [x]));
  }

  lemma LevCell(e: seq<int>, a: seq<nat>, b: seq<nat>, w: seq<nat>)
    requires a != [] && |b| > 1 && w != [] && w[|w| - 1] == b[|b| - 1] && |a| < |e|
    requires IsLeast(e, a, w[..|w| - 1], Lev(a, b[..|b| - 1]))
    requires IsLeast(e, a[..|a| - 1], w, Lev(a[..|a| - 1], b))
    requires IsLeast(e, a[..|a| - 1], w[..|w| - 1], Lev(a[..|a| - 1], b[..|b| - 1]))
    ensures IsLeast(e, a, w, Lev(a, b))
  {
    LeastStep(e, a, w, Lev(a, b[..|b| - 1]), Lev(a[..|a| - 1], b), Lev(a[..|a| - 1], b[..|b| - 1]));
    LevUnfold(a, b);
  }

  lemma Middle(b: seq<nat>)
    requires |b| > 1
    ensures b[..|b| - 1][1..] == b[1..][..|b| - 2]
  {
  }

  /** The Levenshtein distance is the least cost with its own entries. */
  lemma {:induction false} LevIsLeast(e: seq<int>, a: seq<nat>, b: seq<nat>)
    requires b != [] && AreTrue(e, a, b[0])
    ensures IsLeast(e, a, b[1..], Lev(a, b))
    decreases |a| + |b|
  {
    if a == [] {
      LeastTop(e, b[1..]);
    } else {
      LevIsLeast(e, a[..|a| - 1], b);
      if |b| == 1 {
        assert b == [b[0]] && b[1..] == [];
        LevColumn(e, a, b[0]);
      } else {
        var b' := b[..|b| - 1];
        LevIsLeast(e, a, b');
        LevIsLeast(e, a[..|a| - 1], b');
        Middle(b);
        LevCell(e, a, b, b[1..]);
      }
    }
  }

  /** What the rows of one-byte text mean: nothing below the distance, and the distance itself exactly if
      some best path crosses the first character of `b` at no more than its true cost. */
  ghost predicate NarrowValue(a: Text, b: Text, d: int) {
    var c, e := Codes(a), Codes(b);
    && d >= Lev(c, e)
    && (b != [] ==>
          && IsLeast(Entries(a, e[0]), c, e[1..], d)
          && (d == Lev(c, e) <==> exists r :: 0 <= r <= |c| && Via(Entries(a, e[0]), c, e[1..], r) == Lev(c, e)))
  }

  lemma NarrowMeans(a: Text, b: Text, d: int)
    requires b != [] && IsLeast(Entries(a, b[0].code), Codes(a), Codes(b)[1..], d)
    ensures NarrowValue(a, b, d) && (OffsetsAreIndices(a) ==> d == Lev(Codes(a), Codes(b)))
  {
    var c, w, e, f := Codes(a), Codes(b)[1..], Entries(a, b[0].code), TrueEntries(Codes(a), b[0].code);
    EntriesAbove(a, b[0].code);
    LevIsLeast(f, c, Codes(b));
    var r :| 0 <= r <= |c| && d == Via(e, c, w, r);
    assert Lev(c, Codes(b)) <= Via(f, c, w, r) <= Via(e, c, w, r);
  }

  // ---------------------------------------------------------------- wide text

  /** `d` is the least distance from a proper tail of `a` to `v`. */
  ghost predicate LeastTail(a: seq<nat>, v: seq<nat>, d: int) {
    && (forall r :: 1 <= r <= |a| ==> d <= Lev(a[r..], v))
    && exists r :: 1 <= r <= |a| && d == Lev(a[r..], v)
  }

  /** The tail of `a` from `r` is within `bound` of `v`. */
  ghost predicate Near(a: seq<nat>, v: seq<nat>, bound: int, r: nat) {
    1 <= r <= |a| && Lev(a[r..], v) <= bound
  }

  lemma NearLeft(a: seq<nat>, v: seq<nat>, bound: int, r: nat)
    requires v != [] && Near(a, v[..|v| - 1], bound, r)
    ensures Near(a, v, bound + 1, r)
  {
    if a[r..] != [] { LevUnfold(a[r..], v); }
  }

  lemma NearBelow(a: seq<nat>, v: seq<nat>, bound: int, r: nat)
    requires |a| > 1 && v != [] && r < |a|
    ensures Near(a[..|a| - 1], v, bound, r) ==> Near(a, v, bound + 1, r)
    ensures Near(a[..|a| - 1], v[..|v| - 1], bound, r) ==> Near(a, v, bound + Cost(a[|a| - 1], v[|v| - 1]), r)
  {
    assert a[r..][..|a| - r - 1] == a[..|a| - 1][r..];
    LevUnfold(a[r..], v);
  }

  /** Some proper tail of `a` is as near to `v` as `a` is to a longer text that ends in `v`. */
  lemma {:induction false} TailIsNear(a: seq<nat>, u: seq<nat>, v: seq<nat>) returns (r: nat)
    requires a != [] && u != []
    ensures Near(a, v, Lev(a, u + v), r)
    decreases |a| + |v|
  {
    if v == [] {
      r := |a|;
    } else {
      var a', b := a[..|a| - 1], u + v;
      assert b[..|b| - 1] == u + v[..|v| - 1];
      LevUnfold(a, b);
      if Lev(a, b) == Lev(a, b[..|b| - 1]) + 1 {
        r := TailIsNear(a, u, v[..|v| - 1]);
        NearLeft(a, v, Lev(a, b[..|b| - 1]), r);
      } else if a' == [] {
        r := 1;
      } else if Lev(a, b) == Lev(a', b) + 1 {
        r := TailIsNear(a', u, v);
        NearBelow(a, v, Lev(a', b), r);
      } else {
        r := TailIsNear(a', u, v[..|v| - 1]);
        NearBelow(a, v, Lev(a', b[..|b| - 1]), r);
      }
    }
  }

  function WideEntries(column: nat, n: nat): (e: seq<int>)
    ensures |e| == n + 1
  {
    seq(n + 1, r requires 0 <= r <= n => if r == 0 then column else 0)
  }

  /** What the rows mean when `b` has a wide character: the cost of everything up to it is forgotten. The
      result never exceeds the distance, and is right exactly if no proper tail of `a` is nearer to what
      follows that character than `a` is to `b`. */
  ghost predicate WideValue(a: Text, b: Text, d: int) {
    var c, v, e := Codes(a), Codes(Tail(b)), Codes(b);
    && LeastTail(c, v, d) && d <= Lev(c, e)
    && (d == Lev(c, e) <==> forall r :: 1 <= r <= |c| ==> Lev(c, e) <= Lev(c[r..], v))
  }

  lemma ForgottenFirst(column: nat, c: seq<nat>, v: seq<nat>, d: int)
    requires c != [] && column > 1 && IsLeast(WideEntries(column, |c|), c, v, d)
    ensures LeastTail(c, v, d)
  {
    var e := WideEntries(column, |c|);
    DropFirst(c, v);
    forall r | 1 <= r <= |c| ensures d <= Lev(c[r..], v) { assert d <= Via(e, c, v, r); }
    assert c[0..] == c && d <= Via(e, c, v, 1);
    var r :| 0 <= r <= |c| && d == Via(e, c, v, r);
  }

  lemma WideMeans(a: Text, b: Text, d: int)
    requires a != [] && !Narrow(b) && IsLeast(WideEntries(TailColumn(b), |a|), Codes(a), Codes(Tail(b)), d)
    ensures WideValue(a, b, d)
  {
    var t, c, v := TailStart(b), Codes(a), Codes(Tail(b));
    TailNarrow(b);
    OffsetStep(b, t - 1);
    ForgottenFirst(TailColumn(b), c, v, d);
    var u := Codes(b)[..t];
    assert Codes(b) == u + v;
    var near := TailIsNear(c, u, v);
    assert d <= Lev(c[near..], v);
  }

  lemma {:induction false} DropFirst(a: seq<nat>, v: seq<nat>)
    requires a != []
    ensures Lev(a[1..], v) <= Lev(a, v) + 1
  {
    assert a[1..] == a[..0] + a[1..];
    InsertCostsOne(a[1..], a, 0);
    Triangle(a[1..], a, v);
  }

  // ---------------------------------------------------------------- the whole

  /** What the row holds after `k` characters of `a`, from the column of the tail on. */
  ghost predicate RowReached(a: Text, b: Text, k: nat, row: seq<int>) {
    && k <= |a| && |row| == ByteLen(b) + 1 == TailColumn(b) + |Tail(b)| + 1
    && var c, v, tail := Codes(a[..k]), Codes(Tail(b)), row[TailColumn(b)..];
       if !Narrow(b) then IsLeastRow(WideEntries(TailColumn(b), |a|), c, v, tail)
       else tail[0] == LeftEdge(a, k) && (v != [] ==> IsLeastRow(Entries(a, v[0]), c, v[1..], tail[1..]))
  }

  lemma FirstRow(a: Text, b: Text, row: seq<int>)
    requires |row| == ByteLen(b) + 1 && forall q :: 0 <= q < |row| ==> row[q] == q
    ensures RowReached(a, b, 0, row)
  {
    RowLength(b);
    TailNarrow(b);
    var c, v := TailColumn(b), Codes(Tail(b));
    if !Narrow(b) {
      LeastFirstRow(WideEntries(c, |a|), v, row[c..]);
    } else if v != [] {
      LeastFirstRow(Entries(a, v[0]), v[1..], row[c..][1..]);
    }
  }

  lemma WideRowStep(a: Text, v: seq<nat>, column: nat, k: nat, prev: seq<int>, current: seq<int>)
    requires k < |a| && IsLeastRow(WideEntries(column, |a|), Codes(a[..k]), v, prev)
    requires FollowsRow(a[k].code, v, prev, current, |v|) && current[0] == 0
    ensures IsLeastRow(WideEntries(column, |a|), Codes(a[..k + 1]), v, current)
  {
    var e, c := WideEntries(column, |a|), Codes(a[..k + 1]);
    assert c[..k] == Codes(a[..k]) && c[k] == a[k].code;
    assert Via(e, c, [], k + 1) == 0;
    assert IsLeast(e, c, [], 0);
    LeastRow(e, c, v, prev, current);
  }

  lemma NarrowRowStep(a: Text, v: seq<nat>, k: nat, prev: seq<int>, current: seq<int>)
    requires k < |a| && v != [] && |prev| == |v| + 1
    requires IsLeastRow(Entries(a, v[0]), Codes(a[..k]), v[1..], prev[1..]) && prev[0] == LeftEdge(a, k)
    requires FollowsRow(a[k].code, v, prev, current, |v|) && current[0] == LeftEdge(a, k + 1)
    ensures IsLeastRow(Entries(a, v[0]), Codes(a[..k + 1]), v[1..], current[1..])
  {
    var e, c, x := Entries(a, v[0]), Codes(a[..k + 1]), a[k].code;
    assert c[..k] == Codes(a[..k]) && c[k] == x;
    assert FollowsCell(x, v, prev, current, 0);
    forall q | 0 <= q < |v| - 1 ensures FollowsCell(x, v[1..], prev[1..], current[1..], q) {
      assert FollowsCell(x, v, prev, current, q + 1);
    }
    assert LeastCell(e, c[..k], v[1..], prev[1..], 0) && v[1..][..0] == [];
    LeastColumn(e, c, prev[1]);
    LeastRow(e, c, v[1..], prev[1..], current[1..]);
  }

  lemma RowStep(a: Text, b: Text, k: nat, prev: seq<int>, current: seq<int>)
    requires k < |a| && RowReached(a, b, k, prev) && |current| == |prev|
    requires current[TailColumn(b)] == if Narrow(b) then ByteLen(a[..k]) + 1 else 0
    requires FollowsRow(a[k].code, Codes(Tail(b)), prev[TailColumn(b)..], current[TailColumn(b)..], |Tail(b)|)
    ensures RowReached(a, b, k + 1, current)
  {
    var t, v := TailColumn(b), Codes(Tail(b));
    if !Narrow(b) {
      WideRowStep(a, v, t, k, prev[t..], current[t..]);
    } else if v != [] {
      NarrowRowStep(a, v, k, prev[t..], current[t..]);
    }
  }

  lemma LastRow(a: Text, b: Text, row: seq<int>)
    requires RowReached(a, b, |a|, row)
    ensures Measured(a, b, row[ByteLen(b)])
  {
    assert a[..|a|] == a;
    TailNarrow(b);
    NarrowLen(b);
    var t, v := TailColumn(b), Codes(Tail(b));
    if !Narrow(b) {
      assert LeastCell(WideEntries(t, |a|), Codes(a), v, row[t..], |v|) && v[..|v|] == v;
      if a != [] { WideMeans(a, b, row[ByteLen(b)]); } else { EmptyFirst(b, row[ByteLen(b)]); }
    } else if b != [] {
      assert LeastCell(Entries(a, v[0]), Codes(a), v[1..], row[t..][1..], |v| - 1) && v[1..][..|v| - 1] == v[1..];
      NarrowMeans(a, b, row[ByteLen(b)]);
    } else {
      EmptySecond(a);
    }
  }

  lemma EmptyFirst(b: Text, d: int)
    requires !Narrow(b) && IsLeast(WideEntries(TailColumn(b), 0), [], Codes(Tail(b)), d)
    ensures d == ByteLen(b)
  {
    RowLength(b);
    assert Via(WideEntries(TailColumn(b), 0), [], Codes(Tail(b)), 0) == ByteLen(b);
  }

  lemma EmptySecond(a: Text)
    ensures LeftEdge(a, |a|) >= |a| && (LeftEdge(a, |a|) == |a| <==> OffsetsAreIndices(a))
  {
    if a != [] { NarrowLen(a[..|a| - 1]); }
  }

  /** The result on all texts. */
  ghost predicate Measured(a: Text, b: Text, d: int) {
    && (Narrow(b) && OffsetsAreIndices(a) ==> d == Lev(Codes(a), Codes(b)))
    && (Narrow(b) ==> NarrowValue(a, b, d))
    && (b == [] ==> (d == Lev(Codes(a), []) <==> OffsetsAreIndices(a)))
    && (a == [] ==> d == ByteLen(b) && (d == Lev([], Codes(b)) <==> Narrow(b)))
    && (a != [] && !Narrow(b) ==> WideValue(a, b, d))
  }

  /** The rolling rows of the source, whose columns are byte offsets. With one-byte characters (the last of
      `a` may be wide) the result is the Levenshtein distance. Where the offsets go astray it need not be, and
      `NarrowValue` and `WideValue` say what it is instead and exactly when that is the distance all the same. */
  method EditDistance(a: Text, b: Text) returns (d: int)
    ensures Narrow(b) && OffsetsAreIndices(a) ==> d == Lev(Codes(a), Codes(b))
    ensures Narrow(b) ==> NarrowValue(a, b, d)
    ensures b == [] ==> (d == Lev(Codes(a), []) <==> OffsetsAreIndices(a))
    ensures a == [] ==> d == ByteLen(b) && (d == Lev([], Codes(b)) <==> Narrow(b))
    ensures a != [] && !Narrow(b) ==> WideValue(a, b, d)
  {
    var n := ByteLen(b);
    var prev := new int[n + 1](j => j);
    var i := 0;
    FirstRow(a, b, prev[..]);
    for k := 0 to |a|
      invariant prev.Length == n + 1 && i == ByteLen(a[..k])
      invariant RowReached(a, b, k, prev[..])
    {
      OffsetStep(a, k);
      var current := NextRow(a[k], i, b, prev);
      assert prev[..][TailColumn(b)..] == prev[TailColumn(b)..] && current[..][TailColumn(b)..] == current[TailColumn(b)..];
      RowStep(a, b, k, prev[..], current[..]);
      i := i + a[k].width;
      prev := current;
    }
    LastRow(a, b, prev[..]);
    d := prev[n];
  }

  /** All ASCII text is covered. */
  lemma AsciiIsCovered(a: Text)
    requires IsAscii(a)
    ensures Narrow(a) && OffsetsAreIndices(a)
  {
  }

  lemma PrefixFits(b: Text, m: nat)
    requires m <= |b|
    ensures ByteLen(b[..m]) + (|b| - m) <= ByteLen(b)
    ensures 0 < m < |b| ==> ByteLen(b[..m]) + b[|b| - 1].width <= ByteLen(b)
    decreases |b|
  {
    if m < |b| {
      assert b[..|b| - 1][..m] == b[..m];
      PrefixFits(b[..|b| - 1], m);
    } else {
      assert b[..m] == b;
    }
  }

  /** Outside ASCII the distance is wrong: "a" and a two-byte letter come out at 0. */
  method WideCharacterBreaksDistance() returns (d: int)
    ensures d == 0 && Lev(Codes([Rune(97, 1)]), Codes([Rune(233, 2)])) == 1
  {
    var a: Text, b: Text := [Rune(97, 1)], [Rune(233, 2)];
    d := EditDistance(a, b);
    assert Codes(a) == [97] && Codes(b) == [233];
    assert Lev([97], [233]) == 1;
  }

  lemma {:induction false} Symmetric<T>(a: seq<T>, b: seq<T>)
    ensures Lev(a, b) == Lev(b, a)
    decreases |a| + |b|
  {
    if a != [] && b != [] {
      Symmetric(a, b[..|b| - 1]);
      Symmetric(a[..|a| - 1], b);
      Symmetric(a[..|a| - 1], b[..|b| - 1]);
    }
  }

  lemma {:induction false} ZeroOnlyOnEqual<T>(a: seq<T>, b: seq<T>)
    ensures Lev(a, b) == 0 <==> a == b
    decreases |a| + |b|
  {
    if a != [] && b != [] {
      var a', b' := a[..|a| - 1], b[..|b| - 1];
      ZeroOnlyOnEqual(a', b');
      assert a == a' + [a[|a| - 1]] && b == b' + [b[|b| - 1]];
    }
  }

  lemma {:induction false} LengthBounds<T>(a: seq<T>, b: seq<T>)
    ensures |a| <= |b| + Lev(a, b) && |b| <= |a| + Lev(a, b) && Lev(a, b) <= |a| + |b|
    decreases |a| + |b|
  {
    if a != [] && b != [] {
      LengthBounds(a, b[..|b| - 1]);
      LengthBounds(a[..|a| - 1], b);
      LengthBounds(a[..|a| - 1], b[..|b| - 1]);
    }
  }

  lemma {:induction false} Triangle<T>(a: seq<T>, b: seq<T>, c: seq<T>)
    ensures Lev(a, c) <= Lev(a, b) + Lev(b, c)
    decreases |a| + |b| + |c|
  {
    LengthBounds(a, b);
    LengthBounds(b, c);
    LengthBounds(a, c);
    if a != [] && b != [] && c != [] {
      var a', b', c' := a[..|a| - 1], b[..|b| - 1], c[..|c| - 1];
      Triangle(a', b, c);
      Triangle(a, b, c');
      Triangle(a, b', c);
      Triangle(a, b', c');
      Triangle(a', b', c);
      Triangle(a', b', c');
    }
  }

  /** Dropping one character of `b` gives `a`. */
  ghost predicate Inserts<T>(a: seq<T>, b: seq<T>) {
    exists i :: 0 <= i < |b| && a == b[..i] + b[i + 1..]
  }

  /** One character differs, at most. */
  ghost predicate Substitutes<T>(a: seq<T>, b: seq<T>) {
    |a| == |b| && exists i :: 0 <= i < |b| && b == a[..i] + [b[i]] + a[i + 1..]
  }

  ghost predicate OneEdit<T>(a: seq<T>, b: seq<T>) {
    Inserts(a, b) || Inserts(b, a) || Substitutes(a, b)
  }

  /** A chain of texts from `a` to `b`, each one edit from the one before. */
  ghost predicate EditChain<T>(a: seq<T>, b: seq<T>, p: seq<seq<T>>) {
    && p != [] && p[0] == a && p[|p| - 1] == b
    && forall i :: 0 < i < |p| ==> OneEdit(p[i - 1], p[i])
  }

  lemma {:induction false} InsertCostsOne<T>(a: seq<T>, b: seq<T>, i: nat)
    requires i < |b| && a == b[..i] + b[i + 1..]
    ensures Lev(a, b) <= 1
    decreases |b|
  {
    if i == |b| - 1 {
      assert a == b[..|b| - 1];
      ZeroOnlyOnEqual(a, a);
      assert a != [] ==> Lev(a, b) <= Lev(a, b[..|b| - 1]) + 1;
    } else {
      var a', b' := a[..|a| - 1], b[..|b| - 1];
      assert a' == b'[..i] + b'[i + 1..];
      InsertCostsOne(a', b', i);
    }
  }

  lemma {:induction false} SubstituteCostsOne<T>(a: seq<T>, b: seq<T>, i: nat)
    requires i < |a| == |b| && b == a[..i] + [b[i]] + a[i + 1..]
    ensures Lev(a, b) <= 1
    decreases |b|
  {
    var a', b' := a[..|a| - 1], b[..|b| - 1];
    if i == |b| - 1 {
      assert a' == b';
      ZeroOnlyOnEqual(a', b');
    } else {
      assert b' == a'[..i] + [b'[i]] + a'[i + 1..];
      SubstituteCostsOne(a', b', i);
    }
  }

  lemma OneEditCostsOne<T>(a: seq<T>, b: seq<T>)
    requires OneEdit(a, b)
    ensures Lev(a, b) <= 1
  {
    if Inserts(a, b) {
      var i :| 0 <= i < |b| && a == b[..i] + b[i + 1..];
      InsertCostsOne(a, b, i);
    } else if Inserts(b, a) {
      var i :| 0 <= i < |a| && b == a[..i] + a[i + 1..];
      InsertCostsOne(b, a, i);
      Symmetric(a, b);
    } else {
      var i :| 0 <= i < |b| && b == a[..i] + [b[i]] + a[i + 1..];
      SubstituteCostsOne(a, b, i);
    }
  }

  /** No chain of edits is shorter than the distance. */
  lemma {:induction false} NoShorterChain<T>(a: seq<T>, b: seq<T>, p: seq<seq<T>>)
    requires EditChain(a, b, p)
    ensures Lev(a, b) <= |p| - 1
    decreases |p|
  {
    if |p| == 1 {
      ZeroOnlyOnEqual(a, b);
    } else {
      var q := p[..|p| - 1];
      NoShorterChain(a, q[|q| - 1], q);
      OneEditCostsOne(q[|q| - 1], b);
      Triangle(a, q[|q| - 1], b);
    }
  }

  lemma OneEditExtends<T>(a: seq<T>, b: seq<T>, x: T)
    requires OneEdit(a, b)
    ensures OneEdit(a + [x], b + [x])
  {
    if Inserts(a, b) {
      InsertsExtends(a, b, x);
    } else if Inserts(b, a) {
      InsertsExtends(b, a, x);
    } else {
      var i :| 0 <= i < |b| && b == a[..i] + [b[i]] + a[i + 1..];
      SliceExtends(a, x, i);
      assert b + [x] == (a + [x])[..i] + [(b + [x])[i]] + (a + [x])[i + 1..];
    }
  }

  lemma SliceExtends<T>(a: seq<T>, x: T, i: nat)
    requires i < |a|
    ensures (a + [x])[..i] == a[..i] && (a + [x])[i + 1..] == a[i + 1..] + [x]
  {
  }

  lemma InsertsExtends<T>(a: seq<T>, b: seq<T>, x: T)
    requires Inserts(a, b)
    ensures Inserts(a + [x], b + [x])
  {
    var i :| 0 <= i < |b| && a == b[..i] + b[i + 1..];
    SliceExtends(b, x, i);
    assert a + [x] == (b + [x])[..i] + (b + [x])[i + 1..];
  }

  lemma {:induction false} ChainExtends<T>(a: seq<T>, b: seq<T>, p: seq<seq<T>>, x: T)
    requires EditChain(a, b, p)
    ensures EditChain(a + [x], b + [x], seq(|p|, i requires 0 <= i < |p| => p[i] + [x]))
  {
    var q := seq(|p|, i requires 0 <= i < |p| => p[i] + [x]);
    forall i | 0 < i < |p| ensures OneEdit(q[i - 1], q[i]) {
      OneEditExtends(p[i - 1], p[i], x);
    }
  }

  /** A chain to a shorter text grows by the edit that adds the last character. */
  lemma AppendStep<T>(a: seq<T>, b: seq<T>, p: seq<seq<T>>)
    requires b != [] && EditChain(a, b[..|b| - 1], p)
    ensures EditChain(a, b, p + [b])
  {
    assert b[..|b| - 1] == b[..|b| - 1] + b[|b|..];
  }

  lemma DropStep<T>(a: seq<T>, b: seq<T>, p: seq<seq<T>>)
    requires a != [] && EditChain(a[..|a| - 1], b, p)
    ensures EditChain(a, b, [a] + p)
  {
    assert a[..|a| - 1] == a[..|a| - 1] + a[|a|..];
  }

  lemma SubstituteStep<T>(a: seq<T>, c: seq<T>, b: seq<T>, p: seq<seq<T>>)
    requires a != [] && |c| == |a| && c[..|a| - 1] == a[..|a| - 1] && EditChain(c, b, p)
    ensures EditChain(a, b, [a] + p)
  {
    assert c == a[..|a| - 1] + [c[|a| - 1]] + a[|a|..];
  }

  /** Some chain of edits has exactly the length of the distance. */
  lemma {:induction false} ShortestChain<T>(a: seq<T>, b: seq<T>) returns (p: seq<seq<T>>)
    ensures EditChain(a, b, p) && |p| - 1 == Lev(a, b)
    decreases |a| + |b|, 1
  {
    if a == [] && b == [] {
      p := [a];
    } else if b != [] && Lev(a, b) == Lev(a, b[..|b| - 1]) + 1 {
      p := ShortestChain(a, b[..|b| - 1]);
      AppendStep(a, b, p);
      p := p + [b];
    } else if a != [] && Lev(a, b) == Lev(a[..|a| - 1], b) + 1 {
      p := ShortestChain(a[..|a| - 1], b);
      DropStep(a, b, p);
      p := [a] + p;
    } else {
      p := MatchLast(a, b);
    }
  }

  lemma {:induction false} MatchLast<T>(a: seq<T>, b: seq<T>) returns (p: seq<seq<T>>)
    requires a != [] && b != []
    requires Lev(a, b) == Lev(a[..|a| - 1], b[..|b| - 1]) + Cost(a[|a| - 1], b[|b| - 1])
    ensures EditChain(a, b, p) && |p| - 1 == Lev(a, b)
    decreases |a| + |b|, 0
  {
    var a', b', y := a[..|a| - 1], b[..|b| - 1], b[|b| - 1];
    var q := ShortestChain(a', b');
    ChainExtends(a', b', q, y);
    p := seq(|q|, i requires 0 <= i < |q| => q[i] + [y]);
    assert b == b' + [y];
    if a[|a| - 1] == y {
      assert a == a' + [y];
    } else {
      SubstituteStep(a, a' + [y], b, p);
      p := [a] + p;
    }
  }
}
