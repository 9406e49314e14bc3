/** Resolving a tunnel, route or domain by identifier or name against a paginated listing that
    the server may answer in any way. */
module TunnelSelector {
  import opened Common

  const MAX_PAGES: nat := 10

  type Cursor = string

  /** One answer of the listing call, after its retries. */
  datatype Reply<T> = Failed | Page(items: seq<T>, next: Cursor)

  /** The server: what page number `n`, asked for at a cursor, answers. */
  type Server<!T> = (nat, Cursor) -> Reply<T>

  /** A resource as the selectors see it, and what makes it match. */
  datatype Selector<!T> = Selector(id: T -> string, matches: T -> bool)

  datatype Result<T> = Found(item: T) | NotFound | Ambiguous | Unsafe | ReadError

  // ---------------------------------------------------------------- what reading to the end means

  /** Page `i` was asked for at its cursor and answered with these items and the next cursor. */
  ghost predicate Answers<T>(server: Server<T>, cursors: seq<Cursor>, pages: seq<seq<T>>, i: nat)
    requires i < |pages| <= |cursors|
  {
    server(i, cursors[i]) == Page(pages[i], if i + 1 < |cursors| then cursors[i + 1] else "")
  }

  ghost predicate Distinct(cursors: seq<Cursor>) {
    forall i, j :: 0 <= i < j < |cursors| ==> cursors[i] != cursors[j]
  }

  /** The pages of a complete listing: each is asked for at the cursor the page before gave, no
      cursor comes twice, the last one gives none, and there are at most ten. */
  ghost predicate IsListing<T>(server: Server<T>, cursors: seq<Cursor>, pages: seq<seq<T>>) {
    && 0 < |pages| <= MAX_PAGES && |cursors| == |pages| && cursors[0] == "" && Distinct(cursors)
    && (forall i :: 0 <= i < |pages| ==> Answers(server, cursors, pages, i))
  }

  function Concat<T>(pages: seq<seq<T>>): seq<T> {
    if pages == [] then [] else Concat(pages[..|pages| - 1]) + pages[|pages| - 1]
  }

  // ---------------------------------------------------------------- the plain scan

  /** The identifiers that match, in a whole listing. */
  function MatchIds<T(==)>(s: Selector<T>, items: seq<T>): set<string> {
    set x | x in items && s.matches(x) :: s.id(x)
  }

  function PresetIds<T(==)>(s: Selector<T>, preset: Option<T>): set<string> {
    if preset.Some? then {s.id(preset.value)} else {}
  }

  /** The last matching item, or the one known beforehand. */
  function LastMatch<T(==)>(s: Selector<T>, preset: Option<T>, items: seq<T>): Option<T> {
    if items == [] then preset
    else
      var x := items[|items| - 1];
      if s.matches(x) then Some(x) else LastMatch(s, preset, items[..|items| - 1])
  }

  /** The answer of a scan over the whole listing: the only identifier that matches, if one does. */
  ghost predicate AgreesWithScan<T>(s: Selector<T>, preset: Option<T>, items: seq<T>, r: Result<T>) {
    var ids := Ids(s, preset, items);
    match r
    case Found(x) => ids == {s.id(x)} && Some(x) == LastMatch(s, preset, items)
    case NotFound => ids == {}
    case Ambiguous => exists a, b :: a in ids && b in ids && a != b
    case _ => false
  }

  // ---------------------------------------------------------------- the selectors' loop

  /** What the loop has read: the pages so far form a chain from the start. */
  ghost predicate Chain<T>(server: Server<T>, cursors: seq<Cursor>, pages: seq<seq<T>>, seen: set<Cursor>) {
    && |cursors| == |pages| + 1 && cursors[0] == "" && Distinct(cursors)
    && (forall i :: 0 <= i < |pages| ==> Answers(server, cursors, pages, i))
    && (forall c :: c in seen <==> c in cursors)
  }

  function Ids<T(==)>(s: Selector<T>, preset: Option<T>, items: seq<T>): set<string> {
    PresetIds(s, preset) + MatchIds(s, items)
  }

  /** `k` is held exactly if it is one of the identifiers, and with it the last item. */
  ghost predicate HeldRight<T>(id: T -> string, matches: map<string, T>, ids: set<string>, last: Option<T>, k: string) {
    (k in matches <==> k in ids) && (k in matches ==> Some(matches[k]) == last && id(matches[k]) == k)
  }

  ghost predicate Recalls<T>(id: T -> string, matches: map<string, T>, ids: set<string>, last: Option<T>) {
    |matches| <= 1 && forall k :: HeldRight(id, matches, ids, last, k)
  }

  /** What the loop remembers of the items so far: at most one matching identifier. */
  ghost predicate Remembers<T>(s: Selector<T>, preset: Option<T>, items: seq<T>, matches: map<string, T>) {
    Recalls(s.id, matches, Ids(s, preset, items), LastMatch(s, preset, items))
  }

  lemma RecalledIds<T>(id: T -> string, matches: map<string, T>, ids: set<string>, last: Option<T>)
    requires Recalls(id, matches, ids, last)
    ensures matches.Keys == ids
  {
    forall k ensures k in matches.Keys <==> k in ids { assert HeldRight(id, matches, ids, last, k); }
  }

  lemma RecallNext<T>(id: T -> string, matches: map<string, T>, ids: set<string>, last: Option<T>, x: T)
    requires Recalls(id, matches, ids, last)
    ensures var more := matches[id(x) := x];
            if |more| <= 1 then Recalls(id, more, ids + {id(x)}, Some(x)) else |ids + {id(x)}| > 1
  {
    var more := matches[id(x) := x];
    RecalledIds(id, matches, ids, last);
    assert more.Keys == ids + {id(x)} && |more| == |more.Keys|;
    if |more| <= 1 {
      Singleton(more.Keys, id(x));
      forall k ensures HeldRight(id, more, ids + {id(x)}, Some(x), k) { assert HeldRight(id, matches, ids, last, k); }
    }
  }

  lemma MatchIdsNext<T>(s: Selector<T>, items: seq<T>, x: T)
    ensures MatchIds(s, items + [x]) == MatchIds(s, items) + if s.matches(x) then {s.id(x)} else {}
  {
    var more := items + [x];
    assert more[|items|] == x && forall y :: y in items ==> y in more;
  }

  lemma IdsNext<T>(s: Selector<T>, preset: Option<T>, items: seq<T>, x: T)
    ensures Ids(s, preset, items + [x]) == if s.matches(x) then Ids(s, preset, items) + {s.id(x)} else Ids(s, preset, items)
  {
    MatchIdsNext(s, items, x);
  }

  lemma IdsGrow<T>(s: Selector<T>, preset: Option<T>, items: seq<T>, more: seq<T>)
    requires forall x :: x in items ==> x in more
    ensures Ids(s, preset, items) <= Ids(s, preset, more)
  {
  }

  lemma LastMatchNext<T>(s: Selector<T>, preset: Option<T>, items: seq<T>, x: T)
    ensures LastMatch(s, preset, items + [x]) == if s.matches(x) then Some(x) else LastMatch(s, preset, items)
  {
    assert (items + [x])[..|items|] == items;
  }

  lemma RememberNext<T>(s: Selector<T>, preset: Option<T>, items: seq<T>, matches: map<string, T>, x: T)
    requires Remembers(s, preset, items, matches)
    ensures var more := if s.matches(x) then matches[s.id(x) := x] else matches;
            if |more| <= 1 then Remembers(s, preset, items + [x], more) else |Ids(s, preset, items + [x])| > 1
  {
    IdsNext(s, preset, items, x);
    LastMatchNext(s, preset, items, x);
    if s.matches(x) { RecallNext(s.id, matches, Ids(s, preset, items), LastMatch(s, preset, items), x); }
  }

  lemma Singleton(keys: set<string>, k: string)
    requires |keys| <= 1 && k in keys
    ensures keys == {k}
  {
    assert |keys - {k}| == |keys| - 1;
    assert keys == (keys - {k}) + {k};
  }

  lemma TwoOf(keys: set<string>)
    requires |keys| > 1
    ensures exists a, b :: a in keys && b in keys && a != b
  {
    var a :| a in keys;
    assert |keys - {a}| > 0;
    var b :| b in keys - {a};
  }

  method ScanItem<T(==)>(s: Selector<T>, ghost preset: Option<T>, ghost items: seq<T>, matches: map<string, T>, x: T)
    returns (more: map<string, T>)
    requires Remembers(s, preset, items, matches)
    ensures if |more| <= 1 then Remembers(s, preset, items + [x], more) else |Ids(s, preset, items + [x])| > 1
  {
    RememberNext(s, preset, items, matches, x);
    more := if s.matches(x) then matches[s.id(x) := x] else matches;
  }

  /** One page: stop at a second identifier, else go on remembering. */
  method ScanPage<T(==)>(s: Selector<T>, ghost preset: Option<T>, ghost before: seq<T>, page: seq<T>, matches0: map<string, T>)
    returns (matches: map<string, T>, ambiguous: bool, ghost read: nat)
    requires Remembers(s, preset, before, matches0)
    ensures ambiguous ==> read <= |page| && |Ids(s, preset, before + page[..read])| > 1
    ensures !ambiguous ==> Remembers(s, preset, before + page, matches)
  {
    matches, ambiguous, read := matches0, false, 0;
    ghost var items := before;
    for i := 0 to |page|
      invariant !ambiguous && items == before + page[..i] && Remembers(s, preset, items, matches)
    {
      var x := page[i];
      matches := ScanItem(s, preset, items, matches, x);
      items := items + [x];
      TakeMore(before, page, i);
      if |matches| > 1 {
        read := i + 1;
        ambiguous := true;
        return;
      }
    }
    read := |page|;
    assert page[..read] == page;
  }

  lemma TakeMore<T>(before: seq<T>, page: seq<T>, i: nat)
    requires i < |page|
    ensures before + page[..i] + [page[i]] == before + page[..i + 1]
  {
  }

  /** A complete listing can only continue the chain read so far. */
  lemma {:induction false} ListingFollowsChain<T>(server: Server<T>, cursors: seq<Cursor>, pages: seq<seq<T>>, seen: set<Cursor>,
                                                  cs: seq<Cursor>, ps: seq<seq<T>>, k: nat)
    requires Chain(server, cursors, pages, seen) && IsListing(server, cs, ps) && k <= |pages|
    ensures k < |ps|
    ensures forall i :: 0 <= i < k ==> ps[i] == pages[i]
    ensures forall i :: 0 <= i <= k ==> cs[i] == cursors[i]
    decreases k
  {
    if k > 0 {
      ListingFollowsChain(server, cursors, pages, seen, cs, ps, k - 1);
      assert Answers(server, cursors, pages, k - 1) && Answers(server, cs, ps, k - 1);
      assert cursors[k] != cursors[0];
    }
  }

  lemma {:induction false} InConcat<T>(pages: seq<seq<T>>, k: nat, x: T)
    requires k < |pages| && x in pages[k]
    ensures x in Concat(pages)
    decreases |pages|
  {
    if k < |pages| - 1 { InConcat(pages[..|pages| - 1], k, x); }
  }

  lemma {:induction false} ConcatPrefix<T>(ps: seq<seq<T>>, k: nat, x: T)
    requires k <= |ps| && x in Concat(ps[..k])
    ensures x in Concat(ps)
    decreases |ps|
  {
    if k < |ps| {
      assert ps[..|ps| - 1][..k] == ps[..k];
      ConcatPrefix(ps[..|ps| - 1], k, x);
    } else {
      assert ps[..k] == ps;
    }
  }

  /** Once two identifiers match in what was read, they match in every complete listing. */
  lemma AmbiguityStands<T>(server: Server<T>, s: Selector<T>, preset: Option<T>, cursors: seq<Cursor>, pages: seq<seq<T>>,
                           seen: set<Cursor>, page: seq<T>, next: Cursor, read: nat, cs: seq<Cursor>, ps: seq<seq<T>>)
    requires Chain(server, cursors, pages, seen) && server(|pages|, cursors[|pages|]) == Page(page, next) && read <= |page|
    requires |Ids(s, preset, Concat(pages) + page[..read])| > 1
    requires IsListing(server, cs, ps)
    ensures AgreesWithScan(s, preset, Concat(ps), Ambiguous)
  {
    var k := |pages|;
    ListingFollowsChain(server, cursors, pages, seen, cs, ps, k);
    assert Answers(server, cs, ps, k) && ps[k] == page;
    assert ps[..k] == pages;
    var items := Concat(pages) + page[..read];
    forall x | x in items ensures x in Concat(ps) {
      if x in Concat(pages) { ConcatPrefix(ps, k, x); } else { assert x in page; InConcat(ps, k, x); }
    }
    IdsGrow(s, preset, items, Concat(ps));
    TwoOf(Ids(s, preset, items));
  }

  /** No complete listing continues a chain at a failed read, at a cursor seen before, or beyond
      ten pages. */
  lemma NoListing<T>(server: Server<T>, cursors: seq<Cursor>, pages: seq<seq<T>>, seen: set<Cursor>,
                     cs: seq<Cursor>, ps: seq<seq<T>>)
    requires Chain(server, cursors, pages, seen) && IsListing(server, cs, ps)
    ensures |pages| < MAX_PAGES
    ensures var reply := server(|pages|, cursors[|pages|]);
            reply.Page? && (reply.next == "" || reply.next !in seen)
  {
    var k := |pages|;
    ListingFollowsChain(server, cursors, pages, seen, cs, ps, k);
    assert Answers(server, cs, ps, k);
    if k + 1 < |ps| {
      forall i | 0 <= i < |cursors| ensures cursors[i] != cs[k + 1] { assert cs[i] == cursors[i]; }
    }
  }

  /** A chain whose next page is the last is a complete listing, and the only one. */
  lemma ListingEnds<T>(server: Server<T>, cursors: seq<Cursor>, pages: seq<seq<T>>, seen: set<Cursor>, page: seq<T>)
    requires Chain(server, cursors, pages, seen) && |pages| < MAX_PAGES
    requires server(|pages|, cursors[|pages|]) == Page(page, "")
    ensures IsListing(server, cursors, pages + [page])
    ensures forall cs, ps :: IsListing(server, cs, ps) ==> ps == pages + [page]
  {
    var all := pages + [page];
    forall i | 0 <= i < |all| ensures Answers(server, cursors, all, i) {
      if i < |pages| { assert Answers(server, cursors, pages, i); }
    }
    forall cs, ps | IsListing(server, cs, ps) ensures ps == all {
      var k := |pages|;
      ListingFollowsChain(server, cursors, pages, seen, cs, ps, k);
      assert k + 1 < |cs| ==> cs[k + 1] != cs[0];
      assert Answers(server, cs, ps, k);
    }
  }

  lemma ChainGrows<T>(server: Server<T>, cursors: seq<Cursor>, pages: seq<seq<T>>, seen: set<Cursor>, page: seq<T>, next: Cursor)
    requires Chain(server, cursors, pages, seen) && server(|pages|, cursors[|pages|]) == Page(page, next) && next !in seen
    ensures Chain(server, cursors + [next], pages + [page], seen + {next})
  {
    var cs, ps := cursors + [next], pages + [page];
    forall i | 0 <= i < |ps| ensures Answers(server, cs, ps, i) {
      if i < |pages| { assert Answers(server, cursors, pages, i); }
    }
    forall i, j | 0 <= i < j < |cs| ensures cs[i] != cs[j] {
      if j == |cursors| { assert cursors[i] in seen; }
    }
  }

  /** The answer agrees with a scan of every complete listing the server could give. */
  ghost predicate Agrees<T(!new)>(server: Server<T>, s: Selector<T>, preset: Option<T>, r: Result<T>) {
    forall cs, ps :: IsListing(server, cs, ps) ==> AgreesWithScan(s, preset, Concat(ps), r)
  }

  /** No complete listing goes on from here. */
  lemma Dead<T(!new)>(server: Server<T>, s: Selector<T>, preset: Option<T>, cursors: seq<Cursor>, pages: seq<seq<T>>,
                      seen: set<Cursor>, r: Result<T>)
    requires Chain(server, cursors, pages, seen)
    requires |pages| >= MAX_PAGES || var reply := server(|pages|, cursors[|pages|]);
                                     reply.Failed? || (reply.next != "" && reply.next in seen)
    ensures Agrees(server, s, preset, r)
  {
    forall cs, ps | IsListing(server, cs, ps) ensures false {
      NoListing(server, cursors, pages, seen, cs, ps);
    }
  }

  lemma TwoMatches<T(!new)>(server: Server<T>, s: Selector<T>, preset: Option<T>, cursors: seq<Cursor>, pages: seq<seq<T>>,
                            seen: set<Cursor>, page: seq<T>, next: Cursor, read: nat)
    requires Chain(server, cursors, pages, seen) && server(|pages|, cursors[|pages|]) == Page(page, next) && read <= |page|
    requires |Ids(s, preset, Concat(pages) + page[..read])| > 1
    ensures Agrees(server, s, preset, Ambiguous)
  {
    forall cs, ps | IsListing(server, cs, ps) ensures AgreesWithScan(s, preset, Concat(ps), Ambiguous) {
      AmbiguityStands(server, s, preset, cursors, pages, seen, page, next, read, cs, ps);
    }
  }

  /** The item, or that there is none, was settled on a complete listing of `calls` pages. */
  ghost predicate Settled<T(!new)>(server: Server<T>, s: Selector<T>, preset: Option<T>, r: Result<T>, calls: nat) {
    exists cs, ps :: IsListing(server, cs, ps) && |ps| == calls && AgreesWithScan(s, preset, Concat(ps), r)
  }

  lemma LastPage<T(!new)>(server: Server<T>, s: Selector<T>, preset: Option<T>, cursors: seq<Cursor>, pages: seq<seq<T>>,
                          seen: set<Cursor>, page: seq<T>, matches: map<string, T>, r: Result<T>)
    requires Chain(server, cursors, pages, seen) && |pages| < MAX_PAGES
    requires server(|pages|, cursors[|pages|]) == Page(page, "") && Remembers(s, preset, Concat(pages) + page, matches)
    requires if |matches| == 1 then r.Found? && exists k :: k in matches && r.item == matches[k] else r == NotFound
    ensures Agrees(server, s, preset, r) && Settled(server, s, preset, r, |pages| + 1)
  {
    ListingEnds(server, cursors, pages, seen, page);
    ConcatNext(pages, page);
    Verdict(s, preset, Concat(pages) + page, matches, r);
  }

  lemma Verdict<T>(s: Selector<T>, preset: Option<T>, items: seq<T>, matches: map<string, T>, r: Result<T>)
    requires Remembers(s, preset, items, matches)
    requires if |matches| == 1 then r.Found? && exists k :: k in matches && r.item == matches[k] else r == NotFound
    ensures AgreesWithScan(s, preset, items, r)
  {
    RecalledIds(s.id, matches, Ids(s, preset, items), LastMatch(s, preset, items));
    if |matches| == 1 {
      var k :| k in matches && r.item == matches[k];
      assert HeldRight(s.id, matches, Ids(s, preset, items), LastMatch(s, preset, items), k);
      assert |matches.Keys| == 1;
      Singleton(matches.Keys, k);
    }
  }

  /** Why an answer other than an item or its absence was given after reading `pages`: in the page that came next
      a second identifier matched, it could not be read, or it led back; or there were ten pages and still more. */
  ghost predicate ReasonAt<T(!new)>(server: Server<T>, s: Selector<T>, preset: Option<T>, r: Result<T>, calls: nat,
                                    cursors: seq<Cursor>, pages: seq<seq<T>>, seen: set<Cursor>) {
    && Chain(server, cursors, pages, seen)
    && var reply := server(|pages|, cursors[|pages|]);
       match r
       case Ambiguous => calls == |pages| + 1 && reply.Page? && |Ids(s, preset, Concat(pages) + reply.items)| > 1
       case ReadError => calls == |pages| + 1 && reply.Failed?
       case Unsafe =>
         || (calls == |pages| == MAX_PAGES && |Ids(s, preset, Concat(pages))| <= 1)
         || (calls == |pages| + 1 && reply.Page? && reply.next != "" && reply.next in seen
             && |Ids(s, preset, Concat(pages) + reply.items)| <= 1)
       case _ => false
  }

  /** An item, or that there is none, comes from a complete listing of `calls` pages; any other answer has its
      reason in the pages read with that many calls. */
  ghost predicate Grounded<T(!new)>(server: Server<T>, s: Selector<T>, preset: Option<T>, r: Result<T>, calls: nat) {
    if r.Found? || r.NotFound? then Settled(server, s, preset, r, calls)
    else exists cursors, pages, seen :: ReasonAt(server, s, preset, r, calls, cursors, pages, seen)
  }

  lemma FewIds<T>(s: Selector<T>, preset: Option<T>, items: seq<T>, matches: map<string, T>)
    requires Remembers(s, preset, items, matches)
    ensures |Ids(s, preset, items)| <= 1
  {
    RecalledIds(s.id, matches, Ids(s, preset, items), LastMatch(s, preset, items));
    assert |matches.Keys| == |matches|;
  }

  /** Two identifiers that match in part of a page match in all of it. */
  lemma StillTwo<T>(s: Selector<T>, preset: Option<T>, before: seq<T>, page: seq<T>, read: nat)
    requires read <= |page| && |Ids(s, preset, before + page[..read])| > 1
    ensures |Ids(s, preset, before + page)| > 1
  {
    var some, all := Ids(s, preset, before + page[..read]), Ids(s, preset, before + page);
    IdsGrow(s, preset, before + page[..read], before + page);
    assert all == some + (all - some) && |some + (all - some)| == |some| + |all - some|;
  }

  /** Where the loop stands before asking for page number |pages|. */
  ghost predicate Standing<T>(server: Server<T>, s: Selector<T>, preset: Option<T>, cursors: seq<Cursor>, pages: seq<seq<T>>,
                              seen: set<Cursor>, matches: map<string, T>) {
    |pages| <= MAX_PAGES && Chain(server, cursors, pages, seen) && Remembers(s, preset, Concat(pages), matches)
  }

  /** One turn of the loop: a page is read and scanned; it either settles the answer or gives the
      cursor to go on from. */
  method Turn<T(==, !new)>(server: Server<T>, s: Selector<T>, preset: Option<T>, calls: nat, cursor: Cursor, seen: set<Cursor>,
                           matches0: map<string, T>, ghost cursors: seq<Cursor>, ghost pages: seq<seq<T>>)
    returns (r: Option<Result<T>>, next: Cursor, matches: map<string, T>, ghost page: seq<T>)
    requires Standing(server, s, preset, cursors, pages, seen, matches0)
    requires calls == |pages| < MAX_PAGES && cursor == cursors[|pages|]
    ensures r.Some? ==> Agrees(server, s, preset, r.value)
    ensures r.Some? ==> Grounded(server, s, preset, r.value, calls + 1)
    ensures r.None? ==> Standing(server, s, preset, cursors + [next], pages + [page], seen + {next}, matches)
  {
    next, matches, page := "", matches0, [];
    var reply := server(calls, cursor);
    if reply.Failed? {
      Dead(server, s, preset, cursors, pages, seen, ReadError);
      assert ReasonAt(server, s, preset, ReadError, calls + 1, cursors, pages, seen);
      r := Some(ReadError);
      return;
    }
    var ambiguous;
    ghost var read;
    next, page := reply.next, reply.items;
    matches, ambiguous, read := ScanPage(s, preset, Concat(pages), reply.items, matches);
    if ambiguous {
      TwoMatches(server, s, preset, cursors, pages, seen, page, next, read);
      StillTwo(s, preset, Concat(pages), page, read);
      assert ReasonAt(server, s, preset, Ambiguous, calls + 1, cursors, pages, seen);
      r := Some(Ambiguous);
    } else if next == "" {
      var verdict := NotFound;
      if |matches| == 1 {
        var k :| k in matches;
        verdict := Found(matches[k]);
      }
      LastPage(server, s, preset, cursors, pages, seen, page, matches, verdict);
      r := Some(verdict);
    } else if next in seen {
      Dead(server, s, preset, cursors, pages, seen, Unsafe);
      FewIds(s, preset, Concat(pages) + page, matches);
      assert ReasonAt(server, s, preset, Unsafe, calls + 1, cursors, pages, seen);
      r := Some(Unsafe);
    } else {
      ChainGrows(server, cursors, pages, seen, page, next);
      ConcatNext(pages, page);
      r := None;
    }
  }

  /** The page loop shared by the three selectors. Against any server it makes at most ten calls,
      and it returns an item, or that there is none, only when the listing was read to its end; an error has its
      reason in the pages it read. */
  method Resolve<T(==, !new)>(server: Server<T>, s: Selector<T>, preset: Option<T>) returns (r: Result<T>, calls: nat)
    ensures calls <= MAX_PAGES
    ensures Agrees(server, s, preset, r)
    ensures Grounded(server, s, preset, r, calls)
  {
    var cursor: Cursor, seen: set<Cursor>, matches: map<string, T> := "", {""}, map[];
    ghost var cursors: seq<Cursor>, pages: seq<seq<T>> := [""], [];
    if preset.Some? { matches := matches[s.id(preset.value) := preset.value]; }
    StartRemembering(s, preset, matches);
    calls := 0;
    while calls < MAX_PAGES
      invariant calls == |pages| && Standing(server, s, preset, cursors, pages, seen, matches) && cursor == cursors[|pages|]
    {
      var answer, next;
      ghost var page;
      answer, next, matches, page := Turn(server, s, preset, calls, cursor, seen, matches, cursors, pages);
      calls := calls + 1;
      if answer.Some? {
        r := answer.value;
        return;
      }
      cursors, pages := cursors + [next], pages + [page];
      seen := seen + {next};
      cursor := next;
    }
    Dead(server, s, preset, cursors, pages, seen, Unsafe);
    FewIds(s, preset, Concat(pages), matches);
    assert ReasonAt(server, s, preset, Unsafe, calls, cursors, pages, seen);
    r := Unsafe;
  }

  lemma StartRemembering<T>(s: Selector<T>, preset: Option<T>, matches: map<string, T>)
    requires matches == if preset.Some? then map[s.id(preset.value) := preset.value] else map[]
    ensures Remembers(s, preset, [], matches)
  {
  }

  lemma ConcatNext<T>(pages: seq<seq<T>>, page: seq<T>)
    ensures Concat(pages + [page]) == Concat(pages) + page
  {
    assert (pages + [page])[..|pages|] == pages;
  }

  // ---------------------------------------------------------------- tunnels

  datatype Tunnel = Tunnel(id: string, name: string)

  /** The direct read of a tunnel by identifier. */
  datatype Direct = Got(tunnel: Tunnel) | Missing | DirectError

  function DirectMatch(isIdentifier: bool, direct: Direct): Option<Tunnel> {
    if isIdentifier && direct.Got? then Some(direct.tunnel) else None
  }

  predicate DirectFails(value: string, isIdentifier: bool, direct: Direct) {
    isIdentifier && (direct.DirectError? || (direct.Got? && direct.tunnel.id != value))
  }

  function TunnelNamed(value: string): Selector<Tunnel> {
    Selector((t: Tunnel) => t.id, (t: Tunnel) => t.id == value || t.name == value)
  }

  /** A tunnel is matched by identifier or exact name; one that reads like an identifier is also
      asked for directly, and that answer counts as a match. */
  method ResolveTunnelSelector(value: string, wellFormed: bool, isIdentifier: bool, direct: Direct, server: Server<Tunnel>)
    returns (r: Result<Tunnel>, calls: nat)
    ensures !wellFormed || DirectFails(value, isIdentifier, direct) ==> (r == Unsafe || r == ReadError) && calls == 0
    ensures wellFormed && !DirectFails(value, isIdentifier, direct) ==>
              var preset := DirectMatch(isIdentifier, direct);
              Agrees(server, TunnelNamed(value), preset, r) && calls <= MAX_PAGES
              && Grounded(server, TunnelNamed(value), preset, r, calls)
  {
    calls := 0;
    if !wellFormed { return Unsafe, 0; }
    var preset := None;
    if isIdentifier {
      match direct {
        case Got(tunnel) =>
          if tunnel.id != value { return Unsafe, 0; }
          preset := Some(tunnel);
        case Missing =>
        case DirectError => return ReadError, 0;
      }
    }
    r, calls := Resolve(server, TunnelNamed(value), preset);
  }

  // ---------------------------------------------------------------- routes and domains

  datatype Route = Route(id: string, name: string, etag: string)

  datatype Domain = Domain(id: string, hostname: string, etag: string)

  function RouteNamed(value: string): Selector<Route> {
    Selector((t: Route) => t.id, (t: Route) => t.id == value || t.name == value)
  }

  /** Host names are compared without regard to case. */
  function DomainNamed(value: string, equalFold: (string, string) -> bool): Selector<Domain> {
    Selector((t: Domain) => t.id, (t: Domain) => t.id == value || equalFold(t.hostname, value))
  }

  method ResolveTunnelRoute(value: string, wellFormed: bool, server: Server<Route>) returns (r: Result<Route>, calls: nat)
    ensures !wellFormed ==> r == Unsafe && calls == 0
    ensures wellFormed ==> Agrees(server, RouteNamed(value), None, r) && calls <= MAX_PAGES
    ensures wellFormed ==> Grounded(server, RouteNamed(value), None, r, calls)
  {
    if !wellFormed { return Unsafe, 0; }
    r, calls := Resolve(server, RouteNamed(value), None);
  }

  method ResolveTunnelDomain(value: string, wellFormed: bool, equalFold: (string, string) -> bool, server: Server<Domain>)
    returns (r: Result<Domain>, calls: nat)
    ensures !wellFormed ==> r == Unsafe && calls == 0
    ensures wellFormed ==> Agrees(server, DomainNamed(value, equalFold), None, r) && calls <= MAX_PAGES
    ensures wellFormed ==> Grounded(server, DomainNamed(value, equalFold), None, r, calls)
  {
    if !wellFormed { return Unsafe, 0; }
    r, calls := Resolve(server, DomainNamed(value, equalFold), None);
  }
}
