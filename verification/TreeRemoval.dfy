/** Uninstall cleanup: recursive removal of a directory tree that keeps every preserved Inbox
    and the directories above it. Paths are lists of components below the filesystem root. */
module TreeRemoval {

  type Name = string
  type Path = seq<Name>

  // ---------------------------------------------------------------- lexical paths

  /** `filepath.Clean` on an absolute path. */
  function Clean(p: Path): (r: Path)
    ensures IsClean(r)
    ensures IsClean(p) ==> r == p
  {
    if p == [] then []
    else
      var q, c := Clean(p[..|p| - 1]), p[|p| - 1];
      if c == "" || c == "." then q
      else if c == ".." then if q == [] then [] else q[..|q| - 1]
      else q + [c]
  }

  predicate IsClean(p: Path) {
    forall i :: 0 <= i < |p| ==> p[i] != "" && p[i] != "." && p[i] != ".."
  }

  function Common(a: Path, b: Path): (n: nat)
    ensures n <= |a| && n <= |b| && a[..n] == b[..n]
    ensures n < |a| && n < |b| ==> a[n] != b[n]
  {
    if a == [] || b == [] || a[0] != b[0] then 0 else 1 + Common(a[1..], b[1..])
  }

  /** `filepath.Rel`: climb from `base` to the common ancestor, then descend to `target`. The
      empty list stands for ".". */
  function Rel(base: Path, target: Path): Path {
    var n := Common(base, target);
    seq(|base| - n, _ => "..") + target[n..]
  }

  predicate PathWithinOrEqual(root: Path, candidate: Path) {
    var relative := Rel(root, candidate);
    relative == [] || relative[0] != ".."
  }

  /** The test through `Rel` is the prefix test, save for a candidate that climbs right below
      the root; a cleaned candidate never does. */
  lemma WithinIsPrefix(root: Path, candidate: Path)
    ensures PathWithinOrEqual(root, candidate) <==>
            (root <= candidate && (|candidate| > |root| ==> candidate[|root|] != ".."))
  {
    var n := Common(root, candidate);
    assert root == root[..n] + root[n..];
    assert n == |root| ==> root == root[..n] && root[..n] <= candidate;
  }

  // ---------------------------------------------------------------- what should remain

  datatype Kind = Directory | File(content: string) | Symlink(target: Path)

  type Tree = map<Path, Kind>

  predicate Inside(keeps: set<Path>, p: Path) {
    exists k :: k in keeps && k <= p
  }

  predicate Above(keeps: set<Path>, p: Path) {
    exists k :: k in keeps && p <= k
  }

  /** Outside the removed root, inside a preserved path, or on the way down to one. */
  predicate Survives(root: Path, keeps: set<Path>, p: Path) {
    !(root <= p) || Inside(keeps, p) || Above(keeps, p)
  }

  function Kept(t: Tree, root: Path, keeps: set<Path>): Tree {
    map p | p in t && Survives(root, keeps, p) :: t[p]
  }

  function Parent(p: Path): Path {
    if p == [] then [] else p[..|p| - 1]
  }

  /** Every node but the filesystem root sits in a directory. */
  ghost predicate WellFormed(t: Tree) {
    && (forall p :: p in t ==> IsClean(p))
    && (forall p {:trigger Parent(p)} :: p in t && p != [] ==> Parent(p) in t && t[Parent(p)].Directory?)
  }

  ghost predicate SubTree(s: Tree, t: Tree) {
    forall p :: p in s ==> p in t && s[p] == t[p]
  }

  lemma KeptWellFormed(t: Tree, root: Path, keeps: set<Path>)
    requires WellFormed(t)
    ensures WellFormed(Kept(t, root, keeps))
  {
    var t' := Kept(t, root, keeps);
    forall p | p in t' && p != [] ensures Parent(p) in t' && t'[Parent(p)].Directory? {
      var q := Parent(p);
      assert q in t && t[q].Directory?;
      if root <= q {
        if k :| k in keeps && k <= p {
          if k == p { assert q <= k; } else { assert k <= q; }
        } else {
          var k :| k in keeps && p <= k;
          assert q <= k;
        }
      }
    }
  }

  /** Removing again removes nothing more. */
  lemma KeptIdempotent(t: Tree, root: Path, keeps: set<Path>)
    ensures Kept(Kept(t, root, keeps), root, keeps) == Kept(t, root, keeps)
  {
  }

  /** The result of removing a list of roots. */
  function KeptAll(t: Tree, roots: seq<Path>, keeps: set<Path>): Tree {
    map p | p in t && forall r :: r in roots ==> Survives(r, keeps, p) :: t[p]
  }

  lemma KeptAllStep(t: Tree, roots: seq<Path>, r: Path, keeps: set<Path>)
    ensures Kept(KeptAll(t, roots, keeps), r, keeps) == KeptAll(t, roots + [r], keeps)
  {
    forall p: Path
      ensures (forall x :: x in roots + [r] ==> Survives(x, keeps, p)) <==>
              ((forall x :: x in roots ==> Survives(x, keeps, p)) && Survives(r, keeps, p))
    {
      assert r in roots + [r];
      assert forall x :: x in roots ==> x in roots + [r];
    }
  }

  /** The order of the roots does not matter, nor does listing one twice. */
  lemma KeptAllOrder(t: Tree, a: seq<Path>, b: seq<Path>, keeps: set<Path>)
    requires forall r :: r in a <==> r in b
    ensures KeptAll(t, a, keeps) == KeptAll(t, b, keeps)
  {
  }

  // ---------------------------------------------------------------- the removal

  /** A filesystem with any pattern of failures: a stat or a listing may fail, and a recursive
      removal of `r` may leave any `remains(r, p)` behind. */
  class FileSystem {
    var nodes: Tree
    const statFails: Path -> bool
    const listFails: Path -> bool
    const remains: (Path, Path) -> bool

    ghost predicate Valid() reads this {
      && WellFormed(nodes)
      && forall r, p, q :: remains(r, p) && r <= q <= p ==> remains(r, q)
    }

    ghost predicate Faultless() {
      (forall p :: !statFails(p) && !listFails(p)) && forall r, p :: !remains(r, p)
    }

    /** `os.RemoveAll`: nil exactly when nothing is left at or below the root. */
    method RemoveAll(root: Path) returns (ok: bool)
      requires Valid() && root != []
      modifies this`nodes
      ensures Valid()
      ensures nodes == map p | p in old(nodes) && (!(root <= p) || remains(root, p)) :: old(nodes)[p]
      ensures ok <==> forall p :: p in nodes ==> !(root <= p)
      ensures Faultless() ==> ok
    {
      var t := nodes;
      nodes := map p | p in t && (!(root <= p) || remains(root, p)) :: t[p];
      ok := forall p :: p in nodes ==> !(root <= p);
      forall p | p in nodes && p != [] ensures Parent(p) in nodes && nodes[Parent(p)].Directory? {
        var q := Parent(p);
        assert q in t && t[q].Directory?;
        if root <= q { assert remains(root, p) ==> remains(root, q); }
      }
    }
  }

  function Children(t: Tree, root: Path): set<Name> {
    set p | p in t && |p| == |root| + 1 && root <= p :: p[|root|]
  }

  function CleanAll(preserved: seq<Path>): set<Path> {
    set k | k in preserved :: Clean(k)
  }

  function Deepest(preserved: seq<Path>): (d: nat)
    ensures forall k :: k in preserved ==> |Clean(k)| <= d
  {
    if preserved == [] then 0
    else
      var d, n := Deepest(preserved[1..]), |Clean(preserved[0])|;
      if d < n then n else d
  }

  /** Every node on the way down to a preserved path is a directory. */
  ghost predicate SoundAncestors(t: Tree, root: Path, keeps: set<Path>) {
    forall p :: p in t && root <= p && Above(keeps, p) && !Inside(keeps, p) ==> t[p].Directory?
  }

  ghost predicate Between(before: Tree, after: Tree, root: Path, keeps: set<Path>) {
    SubTree(after, before) && SubTree(Kept(before, root, keeps), after)
  }

  /** What a removal promises: all that should remain is kept, whatever fails; success is reported only when
      nothing else is left. Without failures nothing else is left in any case, and success is reported exactly
      when no file or link lies on the way down to a preserved path. */
  ghost predicate Outcome(before: Tree, after: Tree, root: Path, keeps: set<Path>, ok: bool, faultless: bool) {
    && Between(before, after, root, keeps)
    && (ok ==> after == Kept(before, root, keeps))
    && (faultless ==> after == Kept(before, root, keeps) && (ok <==> SoundAncestors(before, root, keeps)))
  }

  lemma NothingToDo(t: Tree, root: Path, keeps: set<Path>, faultless: bool)
    requires WellFormed(t) && (Inside(keeps, root) || root !in t)
    ensures Outcome(t, t, root, keeps, true, faultless)
  {
    if Inside(keeps, root) {
      var k :| k in keeps && k <= root;
      forall p | p in t && root <= p ensures Inside(keeps, p) { assert k <= p; }
    } else {
      NothingBelow(t, root);
    }
    assert Kept(t, root, keeps) == t;
  }

  lemma NothingToKeep(t: Tree, after: Tree, root: Path, keeps: set<Path>, ok: bool, faultless: bool)
    requires !Inside(keeps, root) && !Above(keeps, root) && SubTree(after, t) && (faultless ==> ok)
    requires forall p :: p in t && !(root <= p) ==> p in after
    requires ok ==> forall p :: p in after ==> !(root <= p)
    ensures Outcome(t, after, root, keeps, ok, faultless)
  {
    forall p | root <= p ensures !Above(keeps, p) && !Inside(keeps, p) {
      forall k | k in keeps ensures !(p <= k) && !(k <= p) {
        assert p <= k ==> root <= k;
        assert k <= p && |k| <= |root| ==> k <= root;
        assert k <= p && |root| <= |k| ==> root <= k;
      }
    }
    if ok { assert forall p :: p in after <==> p in Kept(t, root, keeps); }
  }

  lemma Refused(t: Tree, root: Path, keeps: set<Path>, faultless: bool)
    requires WellFormed(t)
    requires faultless ==> root in t && !t[root].Directory? && Above(keeps, root) && !Inside(keeps, root)
    ensures Outcome(t, t, root, keeps, false, faultless)
  {
    if faultless {
      forall p | p in t ensures Survives(root, keeps, p) {
        if root <= p { ParentChain(t, root, p); }
      }
      assert Kept(t, root, keeps) == t;
    }
  }

  method RemovePathPreserving(fs: FileSystem, path: Path, preserved: seq<Path>) returns (ok: bool)
    requires fs.Valid()
    modifies fs`nodes
    ensures fs.Valid()
    ensures Clean(path) == [] ==> !ok && fs.nodes == old(fs.nodes)
    ensures Clean(path) != [] ==>
              Outcome(old(fs.nodes), fs.nodes, Clean(path), CleanAll(preserved), ok, fs.Faultless())
    decreases if |Clean(path)| > Deepest(preserved) then 0 else Deepest(preserved) + 1 - |Clean(path)|, 1
  {
    var root := Clean(path);
    ghost var keeps, faultless := CleanAll(preserved), fs.Faultless();
    if root == [] { return false; }
    var inside := AnyWithin(root, preserved, false);
    if inside {
      NothingToDo(fs.nodes, root, keeps, faultless);
      return true;
    }
    var containsInbox := AnyWithin(root, preserved, true);
    if !containsInbox {
      ok := fs.RemoveAll(root);
      NothingToKeep(old(fs.nodes), fs.nodes, root, keeps, ok, faultless);
      return;
    }
    if fs.statFails(root) {
      Refused(fs.nodes, root, keeps, faultless);
      return false;
    }
    if root !in fs.nodes {
      NothingToDo(fs.nodes, root, keeps, faultless);
      return true;
    }
    if !fs.nodes[root].Directory? {
      Refused(fs.nodes, root, keeps, faultless);
      return false;
    }
    if fs.listFails(root) {
      Refused(fs.nodes, root, keeps, faultless);
      return false;
    }
    ok := RemoveChildren(fs, root, preserved);
  }

  /** The two scans of the preserved list. */
  method AnyWithin(root: Path, preserved: seq<Path>, below: bool) returns (found: bool)
    requires IsClean(root)
    ensures found == if below then Above(CleanAll(preserved), root) else Inside(CleanAll(preserved), root)
  {
    for i := 0 to |preserved|
      invariant forall j :: 0 <= j < i ==> if below then !(root <= Clean(preserved[j])) else !(Clean(preserved[j]) <= root)
    {
      var keep := Clean(preserved[i]);
      WithinIsPrefix(keep, root);
      WithinIsPrefix(root, keep);
      assert keep in CleanAll(preserved);
      if below && PathWithinOrEqual(root, keep) { return true; }
      if !below && PathWithinOrEqual(keep, root) { return true; }
    }
    found := false;
  }

  lemma NothingBelow(t: Tree, root: Path)
    requires WellFormed(t) && root !in t
    ensures forall p :: p in t ==> !(root <= p)
  {
    forall p | p in t && root <= p ensures false { ParentChain(t, root, p); }
  }

  lemma {:induction false} ParentChain(t: Tree, root: Path, p: Path)
    requires WellFormed(t) && p in t && root <= p
    ensures root in t && (root != p ==> t[root].Directory? && p[|root|] in Children(t, root))
    decreases |p|
  {
    if root != p {
      var q := Parent(p);
      assert root <= q;
      ParentChain(t, root, q);
      if root == q { assert p[|root|] in Children(t, root); }
    }
  }

  /** Progress of the loop over a listing: the children in `left` are untouched. `clean` says that the others
      left nothing behind that should go. */
  ghost predicate Cleaning(before: Tree, now: Tree, root: Path, keeps: set<Path>, left: set<Name>, clean: bool) {
    && Between(before, now, root, keeps)
    && (forall p :: p in before && root < p && p[|root|] in left ==> p in now)
    && (clean ==> forall p :: p in now ==> Survives(root, keeps, p) || (root < p && p[|root|] in left))
  }

  /** Every child handled so far was sound. */
  ghost predicate SoundSoFar(before: Tree, root: Path, keeps: set<Path>, done: set<Name>) {
    forall n :: n in done ==> SoundAncestors(before, root + [n], keeps)
  }

  ghost predicate Progress(before: Tree, now: Tree, root: Path, keeps: set<Path>, all: set<Name>, left: set<Name>, ok: bool,
                           faultless: bool) {
    && left <= all && Cleaning(before, now, root, keeps, left, ok || faultless)
    && (faultless ==> ok == SoundSoFar(before, root, keeps, all - left))
  }

  lemma ChildCleaned(before: Tree, now: Tree, after: Tree, root: Path, keeps: set<Path>, left: set<Name>, n: Name,
                     clean: bool, childClean: bool)
    requires Cleaning(before, now, root, keeps, left, clean) && n in left
    requires Between(now, after, root + [n], keeps) && (childClean ==> after == Kept(now, root + [n], keeps))
    ensures Cleaning(before, after, root, keeps, left - {n}, clean && childClean)
  {
    var c := root + [n];
    assert forall p :: c <= p ==> root < p && p[|root|] == n;
    forall p | p in Kept(before, root, keeps) ensures p in after && after[p] == before[p] {
      assert p in now && Survives(c, keeps, p);
      assert p in Kept(now, c, keeps);
    }
    forall p | p in before && root < p && p[|root|] in left - {n} ensures p in after {
      assert p in Kept(now, c, keeps);
    }
    if clean && childClean {
      forall p | p in after ensures Survives(root, keeps, p) || (root < p && p[|root|] in left - {n}) {
        assert p in now;
        if root < p && p[|root|] == n { assert p == root + [n] + p[|root| + 1..]; }
      }
    }
  }

  /** An untouched child is as sound as it was. */
  lemma ChildSound(before: Tree, now: Tree, root: Path, keeps: set<Path>, left: set<Name>, n: Name, clean: bool)
    requires Cleaning(before, now, root, keeps, left, clean) && n in left
    ensures SoundAncestors(now, root + [n], keeps) == SoundAncestors(before, root + [n], keeps)
  {
    var c := root + [n];
    forall p | c <= p ensures p in now <==> p in before { assert root < p && p[|root|] == n; }
  }

  lemma SoundStep(before: Tree, root: Path, keeps: set<Path>, all: set<Name>, left: set<Name>, n: Name)
    requires n in left && left <= all
    ensures SoundSoFar(before, root, keeps, all - (left - {n})) ==
            (SoundSoFar(before, root, keeps, all - left) && SoundAncestors(before, root + [n], keeps))
  {
    assert all - (left - {n}) == (all - left) + {n};
  }

  lemma ChildTurn(before: Tree, now: Tree, after: Tree, root: Path, keeps: set<Path>, all: set<Name>, left: set<Name>, n: Name,
                  ok: bool, child: bool, faultless: bool)
    requires Progress(before, now, root, keeps, all, left, ok, faultless) && n in left
    requires Outcome(now, after, root + [n], keeps, child, faultless)
    ensures Progress(before, after, root, keeps, all, left - {n}, ok && child, faultless)
  {
    ChildCleaned(before, now, after, root, keeps, left, n, ok || faultless, child || faultless);
    ChildSound(before, now, root, keeps, left, n, ok || faultless);
    SoundStep(before, root, keeps, all, left, n);
  }

  /** The loop over the listing, in any order; an error in one child does not stop it. */
  method RemoveChildren(fs: FileSystem, root: Path, preserved: seq<Path>) returns (ok: bool)
    requires fs.Valid() && IsClean(root) && root in fs.nodes && fs.nodes[root].Directory?
    requires Above(CleanAll(preserved), root) && !Inside(CleanAll(preserved), root)
    modifies fs`nodes
    ensures fs.Valid()
    ensures Outcome(old(fs.nodes), fs.nodes, root, CleanAll(preserved), ok, fs.Faultless())
    decreases if |root| > Deepest(preserved) then 0 else Deepest(preserved) + 1 - |root|, 0
  {
    ghost var before, keeps, faultless := fs.nodes, CleanAll(preserved), fs.Faultless();
    Shallow(preserved, root);
    var entries := Children(fs.nodes, root);
    ghost var all := entries;
    ok := true;
    StartProgress(before, root, keeps, faultless);
    while entries != {}
      invariant fs.Valid() && Progress(before, fs.nodes, root, keeps, all, entries, ok, faultless)
      decreases |entries|
    {
      var name :| name in entries;
      ghost var now := fs.nodes;
      ChildName(before, root, name);
      var child := RemovePathPreserving(fs, root + [name], preserved);
      ChildTurn(before, now, fs.nodes, root, keeps, all, entries, name, ok, child, faultless);
      ok := ok && child;
      entries := entries - {name};
    }
    FinishProgress(before, fs.nodes, root, keeps, ok, faultless);
  }

  lemma Shallow(preserved: seq<Path>, root: Path)
    requires Above(CleanAll(preserved), root) && !Inside(CleanAll(preserved), root)
    ensures |root| + 1 <= Deepest(preserved)
  {
    var k :| k in CleanAll(preserved) && root <= k;
    assert |k| == |root| ==> k <= root;
  }

  lemma ChildName(t: Tree, root: Path, name: Name)
    requires WellFormed(t) && name in Children(t, root)
    ensures root + [name] in t && Clean(root + [name]) == root + [name]
  {
    var p :| p in t && |p| == |root| + 1 && root <= p && p[|root|] == name;
    assert p == root + [name];
  }

  lemma StartProgress(t: Tree, root: Path, keeps: set<Path>, faultless: bool)
    requires WellFormed(t) && Above(keeps, root)
    ensures Progress(t, t, root, keeps, Children(t, root), Children(t, root), true, faultless)
  {
    forall p | p in t ensures Survives(root, keeps, p) || (root < p && p[|root|] in Children(t, root)) {
      if root < p { ParentChain(t, root, p); }
    }
  }

  lemma FinishProgress(before: Tree, now: Tree, root: Path, keeps: set<Path>, ok: bool, faultless: bool)
    requires WellFormed(before) && root in before && before[root].Directory?
    requires Progress(before, now, root, keeps, Children(before, root), {}, ok, faultless)
    ensures Outcome(before, now, root, keeps, ok, faultless)
  {
    var all := Children(before, root);
    assert all - {} == all;
    SoundChildren(before, root, keeps);
    if ok || faultless {
      assert forall p :: p in now <==> p in Kept(before, root, keeps);
    }
  }

  lemma SoundChildren(t: Tree, root: Path, keeps: set<Path>)
    requires WellFormed(t) && root in t && t[root].Directory?
    ensures SoundAncestors(t, root, keeps) == SoundSoFar(t, root, keeps, Children(t, root))
  {
    if SoundAncestors(t, root, keeps) {
      forall n | n in Children(t, root) ensures SoundAncestors(t, root + [n], keeps) {
        forall p | p in t && root + [n] <= p ensures root <= p { }
      }
    }
    if SoundSoFar(t, root, keeps, Children(t, root)) {
      forall p | p in t && root <= p && Above(keeps, p) && !Inside(keeps, p) ensures t[p].Directory? {
        if p != root {
          ParentChain(t, root, p);
          var n := p[|root|];
          assert p == root + [n] + p[|root| + 1..];
          assert SoundAncestors(t, root + [n], keeps);
        }
      }
    }
  }

  /** A removal argument as the command line gives it. */
  datatype Argument = Absolute(path: Path) | Relative(path: Path)

  predicate SafeRoot(a: Argument) {
    a.Absolute? && Clean(a.path) != []
  }

  function SafeRoots(roots: seq<Argument>): (r: seq<Path>) {
    if roots == [] then []
    else SafeRoots(roots[..|roots| - 1])
         + if SafeRoot(roots[|roots| - 1]) then [Clean(roots[|roots| - 1].path)] else []
  }

  ghost predicate BetweenAll(before: Tree, after: Tree, roots: seq<Path>, keeps: set<Path>, ok: bool) {
    && SubTree(after, before) && SubTree(KeptAll(before, roots, keeps), after)
    && (ok ==> after == KeptAll(before, roots, keeps))
  }

  lemma NextRoot(before: Tree, now: Tree, after: Tree, roots: seq<Path>, r: Path, keeps: set<Path>, ok: bool, removed: bool)
    requires BetweenAll(before, now, roots, keeps, ok) && Between(now, after, r, keeps)
    requires removed ==> after == Kept(now, r, keeps)
    ensures BetweenAll(before, after, roots + [r], keeps, ok && removed)
  {
    KeptAllStep(before, roots, r, keeps);
    var s := KeptAll(before, roots, keeps);
    forall p | p in Kept(s, r, keeps) ensures p in after && after[p] == before[p] {
      assert p in Kept(now, r, keeps);
    }
  }

  /** What lies on the way down to a preserved path is the same after any removal. */
  lemma SoundKept(t: Tree, roots: seq<Path>, r: Path, keeps: set<Path>)
    ensures SoundAncestors(KeptAll(t, roots, keeps), r, keeps) == SoundAncestors(t, r, keeps)
  {
    forall p | p in t && Above(keeps, p) ensures p in KeptAll(t, roots, keeps) { }
  }

  ghost predicate RootSound(t: Tree, a: Argument, keeps: set<Path>) {
    SafeRoot(a) && SoundAncestors(t, Clean(a.path), keeps)
  }

  ghost predicate AllSound(t: Tree, roots: seq<Argument>, keeps: set<Path>) {
    forall i :: 0 <= i < |roots| ==> RootSound(t, roots[i], keeps)
  }

  /** What the loop over all roots promises: the same as for one root, and without failures success exactly
      when every root is safe and sound in the tree as it was at the start. */
  ghost predicate RootsOutcome(before: Tree, after: Tree, roots: seq<Argument>, keeps: set<Path>, ok: bool, faultless: bool) {
    && BetweenAll(before, after, SafeRoots(roots), keeps, ok || faultless)
    && (ok ==> forall i :: 0 <= i < |roots| ==> SafeRoot(roots[i]))
    && (faultless ==> (ok <==> AllSound(before, roots, keeps)))
  }

  lemma UnsafeRoot(before: Tree, now: Tree, roots: seq<Argument>, a: Argument, keeps: set<Path>, ok: bool, faultless: bool)
    requires RootsOutcome(before, now, roots, keeps, ok, faultless) && !SafeRoot(a)
    ensures RootsOutcome(before, now, roots + [a], keeps, false, faultless)
  {
    var more := roots + [a];
    assert more[..|roots|] == roots && more[|roots|] == a;
    assert !RootSound(before, more[|roots|], keeps);
  }

  lemma SafeRootDone(before: Tree, now: Tree, after: Tree, roots: seq<Argument>, a: Argument, keeps: set<Path>, ok: bool,
                     removed: bool, faultless: bool)
    requires RootsOutcome(before, now, roots, keeps, ok, faultless) && SafeRoot(a)
    requires Outcome(now, after, Clean(a.path), keeps, removed, faultless)
    ensures RootsOutcome(before, after, roots + [a], keeps, ok && removed, faultless)
  {
    var more := roots + [a];
    assert more[..|roots|] == roots && more[|roots|] == a;
    assert forall i :: 0 <= i < |roots| ==> more[i] == roots[i];
    NextRoot(before, now, after, SafeRoots(roots), Clean(a.path), keeps, ok || faultless, removed || faultless);
    if faultless {
      SoundKept(before, SafeRoots(roots), Clean(a.path), keeps);
      assert AllSound(before, more, keeps) <==> AllSound(before, roots, keeps) && RootSound(before, more[|roots|], keeps);
    }
  }

  /** The cleanup loop over all roots: it goes on after an error. */
  method RemoveRoots(fs: FileSystem, roots: seq<Argument>, preserved: seq<Path>) returns (ok: bool)
    requires fs.Valid()
    modifies fs`nodes
    ensures fs.Valid()
    ensures RootsOutcome(old(fs.nodes), fs.nodes, roots, CleanAll(preserved), ok, fs.Faultless())
  {
    ghost var before, keeps, faultless := fs.nodes, CleanAll(preserved), fs.Faultless();
    ok := true;
    assert KeptAll(before, [], keeps) == before;
    for i := 0 to |roots|
      invariant fs.Valid() && RootsOutcome(before, fs.nodes, roots[..i], keeps, ok, faultless)
    {
      assert roots[..i + 1] == roots[..i] + [roots[i]];
      if !SafeRoot(roots[i]) {
        UnsafeRoot(before, fs.nodes, roots[..i], roots[i], keeps, ok, faultless);
        ok := false;
      } else {
        ghost var now := fs.nodes;
        var removed := RemovePathPreserving(fs, roots[i].path, preserved);
        SafeRootDone(before, now, fs.nodes, roots[..i], roots[i], keeps, ok, removed, faultless);
        ok := ok && removed;
      }
    }
    assert roots[..|roots|] == roots;
  }

  // ---------------------------------------------------------------- again, and in another order

  /** Whatever fails, a removal changes nothing in a tree that holds only what should remain. */
  lemma CleanStaysClean(before: Tree, after: Tree, root: Path, keeps: set<Path>, ok: bool, faultless: bool)
    requires Outcome(before, after, root, keeps, ok, faultless) && before == Kept(before, root, keeps)
    ensures after == before
  {
    assert forall p :: p in after <==> p in before;
  }

  /** A removal that left nothing to remove changes nothing when it is made again, whatever fails then; and
      without failures it reports the same. */
  method RemoveAgain(fs: FileSystem, path: Path, preserved: seq<Path>) returns (first: bool, second: bool)
    requires fs.Valid()
    modifies fs`nodes
    ensures fs.Valid()
    ensures (first || fs.Faultless()) && Clean(path) != [] ==> fs.nodes == Kept(old(fs.nodes), Clean(path), CleanAll(preserved))
    ensures fs.Faultless() ==> first == second
  {
    ghost var before, root, keeps := fs.nodes, Clean(path), CleanAll(preserved);
    first := RemovePathPreserving(fs, path, preserved);
    ghost var middle := fs.nodes;
    second := RemovePathPreserving(fs, path, preserved);
    if root != [] && (first || fs.Faultless()) {
      KeptIdempotent(before, root, keeps);
      CleanStaysClean(middle, fs.nodes, root, keeps, second, fs.Faultless());
      KeptAlone(before, root, keeps);
      SoundKept(before, [root], root, keeps);
    }
  }

  lemma KeptAlone(t: Tree, root: Path, keeps: set<Path>)
    ensures Kept(t, root, keeps) == KeptAll(t, [root], keeps)
  {
    assert forall p :: (forall r :: r in [root] ==> Survives(r, keeps, p)) <==> Survives(root, keeps, p);
  }

  lemma {:induction false} SafeRootsMean(roots: seq<Argument>, r: Path)
    ensures r in SafeRoots(roots) <==> exists a :: a in roots && SafeRoot(a) && Clean(a.path) == r
  {
    if roots != [] {
      var before, last := roots[..|roots| - 1], roots[|roots| - 1];
      SafeRootsMean(before, r);
      assert roots == before + [last];
    }
  }

  /** Without failures two loops over the same roots in any order leave the same tree and report the same. */
  lemma OrderDoesNotMatter(before: Tree, a: seq<Argument>, b: seq<Argument>, keeps: set<Path>, afterA: Tree, afterB: Tree, okA: bool, okB: bool)
    requires forall r :: r in a <==> r in b
    requires RootsOutcome(before, afterA, a, keeps, okA, true) && RootsOutcome(before, afterB, b, keeps, okB, true)
    ensures afterA == afterB && okA == okB
  {
    forall r ensures r in SafeRoots(a) <==> r in SafeRoots(b) {
      SafeRootsMean(a, r);
      SafeRootsMean(b, r);
    }
    KeptAllOrder(before, SafeRoots(a), SafeRoots(b), keeps);
    SoundAnyOrder(before, a, b, keeps);
    SoundAnyOrder(before, b, a, keeps);
  }

  lemma SoundAnyOrder(t: Tree, a: seq<Argument>, b: seq<Argument>, keeps: set<Path>)
    requires forall r :: r in b ==> r in a
    ensures AllSound(t, a, keeps) ==> AllSound(t, b, keeps)
  {
    forall i | AllSound(t, a, keeps) && 0 <= i < |b| ensures RootSound(t, b[i], keeps) {
      assert b[i] in b;
      var j :| 0 <= j < |a| && a[j] == b[i];
    }
  }
}
