/** The custom domains of `pb tunnel create`: cleaned, without repeats, in order. */
module DomainList {
  import opened Common

  predicate Before(a: string, b: string) {
    if a == [] || b == [] then a == [] && b != []
    else if a[0] != b[0] then a[0] < b[0]
    else Before(a[1..], b[1..])
  }

  lemma {:induction false} TotalOrder(a: string, b: string)
    ensures a == b <==> !Before(a, b) && !Before(b, a)
    ensures !(Before(a, b) && Before(b, a))
  {
    if a != [] && b != [] && a[0] == b[0] {
      TotalOrder(a[1..], b[1..]);
      assert a == [a[0]] + a[1..] && b == [b[0]] + b[1..];
    }
  }

  lemma {:induction false} Transitive(a: string, b: string, c: string)
    requires Before(a, b) && Before(b, c)
    ensures Before(a, c)
  {
    if a != [] && a[0] == b[0] && b[0] == c[0] { Transitive(a[1..], b[1..], c[1..]); }
  }

  predicate Increasing(s: seq<string>) {
    forall i, j :: 0 <= i < j < |s| ==> Before(s[i], s[j])
  }

  ghost predicate Gives(flags: seq<string>, clean: string -> Option<string>, h: string) {
    exists i :: 0 <= i < |flags| && clean(flags[i]) == Some(h)
  }

  /** `domains` is what the command works on: the cleaned flags, without repeats and in order. */
  ghost predicate Collected(flags: seq<string>, clean: string -> Option<string>, domains: seq<string>) {
    && Increasing(domains) && |domains| == |flags|
    && (forall i :: 0 <= i < |flags| ==> clean(flags[i]).Some? && clean(flags[i]).value in domains)
    && (forall h :: h in domains ==> Gives(flags, clean, h))
  }

  predicate Distinct(flags: seq<string>, clean: string -> Option<string>) {
    && (forall i :: 0 <= i < |flags| ==> clean(flags[i]).Some?)
    && forall i, j :: 0 <= i < j < |flags| ==> clean(flags[i]) != clean(flags[j])
  }

  method Insert(sorted: seq<string>, x: string) returns (r: seq<string>)
    requires Increasing(sorted) && x !in sorted
    ensures Increasing(r) && |r| == |sorted| + 1
    ensures forall h :: h in r <==> h == x || h in sorted
  {
    var k := |sorted|;
    while k > 0 && Before(x, sorted[k - 1])
      invariant 0 <= k <= |sorted|
      invariant forall i :: k <= i < |sorted| ==> Before(x, sorted[i])
    {
      k := k - 1;
    }
    forall i | 0 <= i < k ensures Before(sorted[i], x) {
      TotalOrder(sorted[k - 1], x);
      if i < k - 1 { Transitive(sorted[i], sorted[k - 1], x); }
    }
    r := sorted[..k] + [x] + sorted[k..];
    assert sorted == sorted[..k] + sorted[k..];
  }

  /** `clean` trims, lower-cases and validates one host name. */
  method CollectDomains(flags: seq<string>, clean: string -> Option<string>) returns (r: Option<seq<string>>)
    ensures r.Some? <==> Distinct(flags, clean)
    ensures r.Some? ==> Collected(flags, clean, r.value)
  {
    var domains := [];
    for n := 0 to |flags|
      invariant Distinct(flags[..n], clean) && Collected(flags[..n], clean, domains)
    {
      var hostname := clean(flags[n]);
      assert forall i :: 0 <= i < n ==> flags[..n][i] == flags[i];
      if hostname.None? { return None; }
      if hostname.value in domains { return None; }
      domains := Insert(domains, hostname.value);
      assert flags[..n + 1] == flags[..n] + [flags[n]];
      assert flags[..n + 1][n] == flags[n];
      forall h | h in domains ensures Gives(flags[..n + 1], clean, h) {
        if h != hostname.value {
          var i :| 0 <= i < n && clean(flags[..n][i]) == Some(h);
          assert flags[..n + 1][i] == flags[..n][i];
        }
      }
    }
    assert flags[..|flags|] == flags;
    r := Some(domains);
  }

  lemma LastIsGreatest(a: seq<string>)
    requires a != [] && Increasing(a)
    ensures forall h :: h in a && h != a[|a| - 1] ==> Before(h, a[|a| - 1])
    ensures forall h :: h in a[..|a| - 1] <==> h in a && h != a[|a| - 1]
  {
    var x, p := a[|a| - 1], a[..|a| - 1];
    TotalOrder(x, x);
    assert a == p + [x];
    assert x !in p;
  }

  lemma {:induction false} IncreasingUnique(a: seq<string>, b: seq<string>)
    requires Increasing(a) && Increasing(b)
    requires forall h :: h in a <==> h in b
    ensures a == b
  {
    if b != [] { assert b[0] in a; }
    if a != [] {
      assert a[0] in b;
      LastIsGreatest(a);
      LastIsGreatest(b);
      var x, y, p, q := a[|a| - 1], b[|b| - 1], a[..|a| - 1], b[..|b| - 1];
      TotalOrder(x, y);
      assert x in b && y in a;
      forall h: string ensures h in p <==> h in q {
        assert h in a <==> h in b;
      }
      IncreasingUnique(p, q);
      assert a == p + [x] && b == q + [y];
    }
  }

  /** Two command lines work on the same list exactly when their flags give the same host names:
      neither the order of the flags nor how a name was typed matters. */
  lemma PermutedFlagsAgree(f: seq<string>, g: seq<string>, clean: string -> Option<string>, a: seq<string>, b: seq<string>)
    requires Collected(f, clean, a) && Collected(g, clean, b)
    ensures a == b <==> forall h :: Gives(f, clean, h) <==> Gives(g, clean, h)
  {
    if forall h :: Gives(f, clean, h) <==> Gives(g, clean, h) {
      forall h ensures h in a <==> h in b {
        assert Gives(f, clean, h) <==> Gives(g, clean, h);
      }
      IncreasingUnique(a, b);
    }
  }
}
