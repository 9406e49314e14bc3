/** The two walkers that refuse JSON text in which an object repeats a name (section 4 of
    RFC 8259), over the token stream of the streaming decoder. One of them also bounds the
    nesting depth. */
module JsonKeys {
  import opened Common

  datatype Token = Scalar(repr: string) | Str(s: string) | LBrace | RBrace | LBracket | RBracket

  datatype Json =
    | Lit(repr: string)
    | Text(s: string)
    | Array(items: seq<Json>)
    | Object(members: seq<Member>)

  datatype Member = Member(key: string, value: Json)

  const DEPTH_LIMIT: nat := 128

  // ---------------------------------------------------------------- what a tree looks like

  function Tokens(v: Json): (ts: seq<Token>)
    ensures ts != [] && !Closes(ts[0])
    decreases v, 1
  {
    match v
    case Lit(r) => [Scalar(r)]
    case Text(s) => [Str(s)]
    case Array(items) => [LBracket] + ItemTokens(items) + [RBracket]
    case Object(ms) => [LBrace] + MemberTokens(ms) + [RBrace]
  }

  function ItemTokens(items: seq<Json>): seq<Token>
    decreases items, 0
  {
    if items == [] then [] else Tokens(items[0]) + ItemTokens(items[1..])
  }

  function MemberTokens(ms: seq<Member>): seq<Token>
    decreases ms, 0
  {
    if ms == [] then [] else [Str(ms[0].key)] + Tokens(ms[0].value) + MemberTokens(ms[1..])
  }

  /** No object at any level repeats a name. */
  predicate UniqueKeys(v: Json) {
    match v
    case Lit(_) => true
    case Text(_) => true
    case Array(items) => forall i :: 0 <= i < |items| ==> UniqueKeys(items[i])
    case Object(ms) =>
      && (forall i, j :: 0 <= i < j < |ms| ==> ms[i].key != ms[j].key)
      && (forall i :: 0 <= i < |ms| ==> UniqueKeys(ms[i].value))
  }

  /** Every value lies at most `limit` levels below the root. */
  predicate NestsWithin(v: Json, limit: int)
    decreases v
  {
    && limit >= 0
    && match v
       case Lit(_) => true
       case Text(_) => true
       case Array(items) => forall x :: x in items ==> NestsWithin(x, limit - 1)
       case Object(ms) => forall m :: m in ms ==> NestsWithin(m.value, limit - 1)
  }

  // ---------------------------------------------------------------- the walk as a function

  predicate Closes(t: Token) {
    t == RBrace || t == RBracket
  }

  /** What is left after one value, or None when it is refused. The bounded walker passes Some(levels left), the
      unbounded one None. A closer where a value is due is a syntax error of the decoder. */
  function Walk(ts: seq<Token>, left: Option<int>): (r: Option<seq<Token>>)
    ensures r.Some? ==> |r.value| < |ts|
    decreases |ts|, 1
  {
    if (left.Some? && left.value < 0) || ts == [] then None
    else match ts[0]
      case Scalar(_) => Some(ts[1..])
      case Str(_) => Some(ts[1..])
      case LBrace => WalkMembers(ts[1..], {}, Below(left))
      case LBracket => WalkItems(ts[1..], Below(left))
      case _ => None
  }

  function Below(left: Option<int>): Option<int> {
    if left.Some? then Some(left.value - 1) else None
  }

  function WalkMembers(ts: seq<Token>, seen: set<string>, left: Option<int>): (r: Option<seq<Token>>)
    ensures r.Some? ==> |r.value| < |ts|
    decreases |ts|, 0
  {
    if ts == [] || Closes(ts[0]) then
      if ts != [] && ts[0] == RBrace then Some(ts[1..]) else None
    else if !ts[0].Str? || ts[0].s in seen then None
    else match Walk(ts[1..], left)
      case None => None
      case Some(rest) => WalkMembers(rest, seen + {ts[0].s}, left)
  }

  function WalkItems(ts: seq<Token>, left: Option<int>): (r: Option<seq<Token>>)
    ensures r.Some? ==> |r.value| < |ts|
    decreases |ts|, 2
  {
    if ts == [] || Closes(ts[0]) then
      if ts != [] && ts[0] == RBracket then Some(ts[1..]) else None
    else match Walk(ts, left)
      case None => None
      case Some(rest) => WalkItems(rest, left)
  }

  predicate Fits(v: Json, left: Option<int>) {
    left.Some? ==> NestsWithin(v, left.value)
  }

  predicate Admits(v: Json, left: Option<int>) {
    UniqueKeys(v) && Fits(v, left)
  }

  /** On the tokens of a tree the walk consumes exactly that value, and accepts exactly when
      no object repeats a name and the nesting fits. */
  lemma {:induction false} WalkTree(v: Json, rest: seq<Token>, left: Option<int>)
    ensures Walk(Tokens(v) + rest, left) == if Admits(v, left) then Some(rest) else None
    decreases v, 1
  {
    var ts := Tokens(v) + rest;
    if left.Some? && left.value < 0 { return; }
    match v {
      case Lit(_) => assert ts[1..] == rest;
      case Text(_) => assert ts[1..] == rest;
      case Array(items) =>
        assert ts[1..] == ItemTokens(items) + [RBracket] + rest;
        WalkItemTree(items, rest, Below(left));
        AdmitsArray(items, left);
      case Object(ms) =>
        assert ts[1..] == MemberTokens(ms) + [RBrace] + rest;
        WalkMemberTree(ms, {}, rest, Below(left));
        AdmitsObject(ms, left);
    }
  }

  lemma AdmitsArray(items: seq<Json>, left: Option<int>)
    requires left.Some? ==> left.value >= 0
    ensures Admits(Array(items), left) == forall i :: 0 <= i < |items| ==> Admits(items[i], Below(left))
  {
    var v := Array(items);
    assert UniqueKeys(v) == forall i :: 0 <= i < |items| ==> UniqueKeys(items[i]);
    assert Fits(v, left) == forall x :: x in items ==> Fits(x, Below(left));
  }

  lemma AdmitsObject(ms: seq<Member>, left: Option<int>)
    requires left.Some? ==> left.value >= 0
    ensures Admits(Object(ms), left) == AdmitsMembers(ms, {}, Below(left))
  {
    var v := Object(ms);
    assert UniqueKeys(v) == ((forall i, j :: 0 <= i < j < |ms| ==> ms[i].key != ms[j].key)
                             && (forall i :: 0 <= i < |ms| ==> UniqueKeys(ms[i].value)));
    assert Fits(v, left) == forall m :: m in ms ==> Fits(m.value, Below(left));
  }

  lemma {:induction false} WalkItemTree(items: seq<Json>, rest: seq<Token>, left: Option<int>)
    ensures WalkItems(ItemTokens(items) + [RBracket] + rest, left)
         == if forall i :: 0 <= i < |items| ==> Admits(items[i], left) then Some(rest) else None
    decreases items, 0
  {
    var ts := ItemTokens(items) + [RBracket] + rest;
    if items == [] {
      assert ts[1..] == rest;
    } else {
      var tail := ItemTokens(items[1..]) + [RBracket] + rest;
      assert ts == Tokens(items[0]) + tail;
      WalkTree(items[0], tail, left);
      WalkItemTree(items[1..], rest, left);
      assert items == [items[0]] + items[1..];
    }
  }

  predicate AdmitsMembers(ms: seq<Member>, seen: set<string>, left: Option<int>) {
    && (forall i, j :: 0 <= i < j < |ms| ==> ms[i].key != ms[j].key)
    && (forall i :: 0 <= i < |ms| ==> ms[i].key !in seen && Admits(ms[i].value, left))
  }

  lemma {:induction false} WalkMemberTree(ms: seq<Member>, seen: set<string>, rest: seq<Token>, left: Option<int>)
    ensures WalkMembers(MemberTokens(ms) + [RBrace] + rest, seen, left)
         == if AdmitsMembers(ms, seen, left) then Some(rest) else None
    decreases ms, 0
  {
    var ts := MemberTokens(ms) + [RBrace] + rest;
    if ms == [] {
      assert ts[1..] == rest;
    } else {
      var tail := MemberTokens(ms[1..]) + [RBrace] + rest;
      assert ts == [Str(ms[0].key)] + (Tokens(ms[0].value) + tail);
      assert ts[1..] == Tokens(ms[0].value) + tail;
      WalkTree(ms[0].value, tail, left);
      WalkMemberTree(ms[1..], seen + {ms[0].key}, rest, left);
      AdmitsCons(ms, seen, left);
    }
  }

  lemma AdmitsCons(ms: seq<Member>, seen: set<string>, left: Option<int>)
    requires ms != []
    ensures AdmitsMembers(ms, seen, left) ==
            (ms[0].key !in seen && Admits(ms[0].value, left) && AdmitsMembers(ms[1..], seen + {ms[0].key}, left))
  {
    var t := ms[1..];
    assert ms == [ms[0]] + t;
    if ms[0].key !in seen && Admits(ms[0].value, left) && AdmitsMembers(t, seen + {ms[0].key}, left) {
      forall i, j | 0 <= i < j < |ms| ensures ms[i].key != ms[j].key {
        assert ms[j] == t[j - 1];
        if i > 0 { assert ms[i] == t[i - 1]; }
      }
      forall i | 0 <= i < |ms| ensures ms[i].key !in seen && Admits(ms[i].value, left) {
        if i > 0 { assert ms[i] == t[i - 1]; }
      }
    }
    if AdmitsMembers(ms, seen, left) {
      forall i | 0 <= i < |t| ensures t[i].key !in seen + {ms[0].key} && Admits(t[i].value, left) {
        assert t[i] == ms[i + 1];
      }
      forall i, j | 0 <= i < j < |t| ensures t[i].key != t[j].key {
        assert t[i] == ms[i + 1] && t[j] == ms[j + 1];
      }
    }
  }

  // ---------------------------------------------------------------- nothing else is accepted

  /** Whatever a walk consumes is the token text of some tree. */
  lemma {:induction false} WalkIsTree(ts: seq<Token>, left: Option<int>) returns (v: Json)
    requires Walk(ts, left).Some?
    ensures ts == Tokens(v) + Walk(ts, left).value
    decreases |ts|, 1
  {
    match ts[0] {
      case Scalar(r) => v := Lit(r);
      case Str(s) => v := Text(s);
      case LBrace =>
        var ms := MembersAreTree(ts[1..], {}, Below(left));
        v := Object(ms);
      case LBracket =>
        var items := ItemsAreTree(ts[1..], Below(left));
        v := Array(items);
    }
  }

  lemma {:induction false} MembersAreTree(ts: seq<Token>, seen: set<string>, left: Option<int>) returns (ms: seq<Member>)
    requires WalkMembers(ts, seen, left).Some?
    ensures ts == MemberTokens(ms) + [RBrace] + WalkMembers(ts, seen, left).value
    decreases |ts|, 0
  {
    if Closes(ts[0]) {
      ms := [];
    } else {
      var v := WalkIsTree(ts[1..], left);
      var rest := Walk(ts[1..], left).value;
      var more := MembersAreTree(rest, seen + {ts[0].s}, left);
      ms := [Member(ts[0].s, v)] + more;
      assert ms[1..] == more;
    }
  }

  lemma {:induction false} ItemsAreTree(ts: seq<Token>, left: Option<int>) returns (items: seq<Json>)
    requires WalkItems(ts, left).Some?
    ensures ts == ItemTokens(items) + [RBracket] + WalkItems(ts, left).value
    decreases |ts|, 2
  {
    if Closes(ts[0]) {
      items := [];
    } else {
      var v := WalkIsTree(ts, left);
      var more := ItemsAreTree(Walk(ts, left).value, left);
      items := [v] + more;
      assert items[1..] == more;
    }
  }

  // ---------------------------------------------------------------- the source's walkers

  /** The streaming decoder: tokens still to come, read one at a time. */
  class Decoder {
    const tokens: seq<Token>
    var pos: nat

    ghost predicate Valid() reads this {
      pos <= |tokens|
    }

    ghost function Rest(): seq<Token>
      requires Valid()
      reads this
    {
      tokens[pos..]
    }

    constructor (ts: seq<Token>)
      ensures Valid() && tokens == ts && Rest() == ts
    {
      tokens, pos := ts, 0;
    }

    predicate More()
      requires Valid()
      reads this
      ensures More() <==> Rest() != [] && !Closes(Rest()[0])
    {
      pos < |tokens| && !Closes(tokens[pos])
    }

    /** A token where a value is due: the decoder refuses a closer there. */
    method NextValue() returns (t: Option<Token>)
      requires Valid()
      modifies this
      ensures Valid()
      ensures old(Rest()) == [] || Closes(old(Rest())[0]) ==> t == None && pos == old(pos)
      ensures old(Rest()) != [] && !Closes(old(Rest())[0]) ==>
                t == Some(old(Rest())[0]) && pos == old(pos) + 1 && Rest() == old(Rest())[1..]
    {
      if !More() { return None; }
      t := Next();
    }

    method Next() returns (t: Option<Token>)
      requires Valid()
      modifies this
      ensures Valid()
      ensures old(Rest()) == [] ==> t == None && pos == old(pos)
      ensures old(Rest()) != [] ==> t == Some(old(Rest()[0])) && pos == old(pos) + 1
      ensures old(Rest()) != [] ==> Rest() == old(Rest())[1..]
    {
      if pos < |tokens| {
        t := Some(tokens[pos]);
        pos := pos + 1;
      } else {
        t := None;
      }
    }
  }

  /** The bounded walker: recursion with the depth as argument, one `seen` set per object. */
  method WalkJsonValue(dec: Decoder, depth: nat) returns (ok: bool)
    requires dec.Valid()
    modifies dec
    ensures dec.Valid() && dec.pos >= old(dec.pos)
    ensures var w := old(Walk(dec.Rest(), Some(DEPTH_LIMIT - depth)));
            ok == w.Some? && (ok ==> dec.Rest() == w.value && dec.pos > old(dec.pos))
    decreases |dec.tokens| - dec.pos, 1
  {
    if depth > DEPTH_LIMIT { return false; }
    var token := dec.Next();
    if token == None { return false; }
    match token.value {
      case Scalar(_) => return true;
      case Str(_) => return true;
      case LBrace => ok := WalkJsonObject(dec, depth);
      case LBracket => ok := WalkJsonArray(dec, depth);
      case _ => return false;
    }
  }

  method WalkJsonObject(dec: Decoder, depth: nat) returns (ok: bool)
    requires dec.Valid()
    modifies dec
    ensures dec.Valid() && dec.pos >= old(dec.pos)
    ensures var w := old(WalkMembers(dec.Rest(), {}, Some(DEPTH_LIMIT - depth - 1)));
            ok == w.Some? && (ok ==> dec.Rest() == w.value)
    decreases |dec.tokens| - dec.pos, 2
  {
    ghost var goal := WalkMembers(dec.Rest(), {}, Some(DEPTH_LIMIT - depth - 1));
    var seen: set<string> := {};
    while dec.More()
      invariant dec.Valid() && dec.pos >= old(dec.pos)
      invariant WalkMembers(dec.Rest(), seen, Some(DEPTH_LIMIT - depth - 1)) == goal
      decreases |dec.tokens| - dec.pos
    {
      var key := dec.Next();
      if key == None || !key.value.Str? { return false; }
      if key.value.s in seen { return false; }
      seen := seen + {key.value.s};
      var member := WalkJsonValue(dec, depth + 1);
      if !member { return false; }
    }
    var end := dec.Next();
    return end == Some(RBrace);
  }

  method WalkJsonArray(dec: Decoder, depth: nat) returns (ok: bool)
    requires dec.Valid()
    modifies dec
    ensures dec.Valid() && dec.pos >= old(dec.pos)
    ensures var w := old(WalkItems(dec.Rest(), Some(DEPTH_LIMIT - depth - 1)));
            ok == w.Some? && (ok ==> dec.Rest() == w.value)
    decreases |dec.tokens| - dec.pos, 2
  {
    ghost var goal := WalkItems(dec.Rest(), Some(DEPTH_LIMIT - depth - 1));
    while dec.More()
      invariant dec.Valid() && dec.pos >= old(dec.pos)
      invariant WalkItems(dec.Rest(), Some(DEPTH_LIMIT - depth - 1)) == goal
      decreases |dec.tokens| - dec.pos
    {
      var item := WalkJsonValue(dec, depth + 1);
      if !item { return false; }
    }
    var end := dec.Next();
    return end == Some(RBracket);
  }

  ghost predicate IsDistinctTree(ts: seq<Token>) {
    exists v: Json :: ts == Tokens(v) && UniqueKeys(v) && NestsWithin(v, DEPTH_LIMIT)
  }

  /** A text is accepted exactly when it is one whole tree in which no object repeats a name
      and no value lies more than 128 levels deep; any token sequence may be given. */
  method RejectDuplicateKeys(ts: seq<Token>) returns (ok: bool)
    ensures ok <==> IsDistinctTree(ts)
  {
    ok := WalkWhole(ts, 0);
    BoundedAccepts(ts);
  }

  method WalkWhole(ts: seq<Token>, depth: nat) returns (ok: bool)
    ensures ok <==> Walk(ts, Some(DEPTH_LIMIT - depth)) == Some([])
  {
    var dec := new Decoder(ts);
    ok := WalkJsonValue(dec, depth);
    if ok {
      var trailing := dec.Next();
      ok := trailing == None;
    }
  }

  lemma BoundedAccepts(ts: seq<Token>)
    ensures Walk(ts, Some(DEPTH_LIMIT)) == Some([]) <==> IsDistinctTree(ts)
  {
    if Walk(ts, Some(DEPTH_LIMIT)) == Some([]) {
      var v := WalkIsTree(ts, Some(DEPTH_LIMIT));
      assert ts == Tokens(v) + [];
      WalkTree(v, [], Some(DEPTH_LIMIT));
    }
    forall v: Json | ts == Tokens(v) && UniqueKeys(v) && NestsWithin(v, DEPTH_LIMIT)
      ensures Walk(ts, Some(DEPTH_LIMIT)) == Some([])
    {
      assert ts == Tokens(v) + [];
      WalkTree(v, [], Some(DEPTH_LIMIT));
    }
  }

  /** The unbounded walker of the access-tunnel answer: the same loops without a depth. */
  method WalkAccessValue(dec: Decoder) returns (ok: bool)
    requires dec.Valid()
    modifies dec
    ensures dec.Valid() && dec.pos >= old(dec.pos)
    ensures var w := old(Walk(dec.Rest(), None));
            ok == w.Some? && (ok ==> dec.Rest() == w.value && dec.pos > old(dec.pos))
    decreases |dec.tokens| - dec.pos
  {
    var token := dec.NextValue();
    if token == None { return false; }
    if token == Some(LBrace) {
      ghost var goal := WalkMembers(dec.Rest(), {}, None);
      var seen: set<string> := {};
      while dec.More()
        invariant dec.Valid() && dec.pos > old(dec.pos)
        invariant WalkMembers(dec.Rest(), seen, None) == goal
        decreases |dec.tokens| - dec.pos
      {
        var key := dec.Next();
        if key == None || !key.value.Str? { return false; }
        if key.value.s in seen { return false; }
        seen := seen + {key.value.s};
        var member := WalkAccessValue(dec);
        if !member { return false; }
      }
      var end := dec.Next();
      return end == Some(RBrace);
    } else if token == Some(LBracket) {
      ghost var goal := WalkItems(dec.Rest(), None);
      while dec.More()
        invariant dec.Valid() && dec.pos > old(dec.pos)
        invariant WalkItems(dec.Rest(), None) == goal
        decreases |dec.tokens| - dec.pos
      {
        var item := WalkAccessValue(dec);
        if !item { return false; }
      }
      var end := dec.Next();
      return end == Some(RBracket);
    }
    return true;
  }

  /** The access walker accepts a text exactly when it is one whole tree in which no object repeats a name,
      however deep; any token sequence may be given. */
  method RejectAccessDuplicates(ts: seq<Token>) returns (ok: bool)
    ensures ok <==> IsUniqueTree(ts)
  {
    var dec := new Decoder(ts);
    ok := WalkAccessValue(dec);
    if ok {
      var trailing := dec.Next();
      ok := trailing == None;
    }
    UnboundedAccepts(ts);
  }

  /** The tokens of one value that repeats no name, at any depth. */
  ghost predicate IsUniqueTree(ts: seq<Token>) {
    exists v :: ts == Tokens(v) && UniqueKeys(v)
  }

  lemma UnboundedAccepts(ts: seq<Token>)
    ensures Walk(ts, None) == Some([]) <==> IsUniqueTree(ts)
  {
    if Walk(ts, None) == Some([]) {
      var v := WalkIsTree(ts, None);
      assert ts == Tokens(v) + [];
      WalkTree(v, [], None);
    }
    forall v: Json | ts == Tokens(v) && UniqueKeys(v) ensures Walk(ts, None) == Some([]) {
      assert ts == Tokens(v) + [];
      WalkTree(v, [], None);
    }
  }

  /** On any token sequence the access walker accepts whatever the bounded one does, and what it accepts
      besides is nested too deep. */
  lemma WalkersAgree(ts: seq<Token>)
    ensures Walk(ts, Some(DEPTH_LIMIT)) == Some([]) ==> Walk(ts, None) == Some([])
    ensures Walk(ts, None) == Some([]) && Walk(ts, Some(DEPTH_LIMIT)) != Some([]) ==>
              exists v :: ts == Tokens(v) && UniqueKeys(v) && !NestsWithin(v, DEPTH_LIMIT)
  {
    BoundedAccepts(ts);
    UnboundedAccepts(ts);
    if IsUniqueTree(ts) {
      var v :| ts == Tokens(v) && UniqueKeys(v);
      assert NestsWithin(v, DEPTH_LIMIT) ==> IsDistinctTree(ts);
    }
    if IsDistinctTree(ts) {
      var v :| ts == Tokens(v) && UniqueKeys(v) && NestsWithin(v, DEPTH_LIMIT);
      assert ts == Tokens(v) + [];
      WalkTree(v, [], None);
    }
  }

  /** On the text of any tree the two walkers differ exactly when names are unique but the
      nesting exceeds the bound. */
  lemma WalkersDiffer(v: Json)
    ensures (Walk(Tokens(v), Some(DEPTH_LIMIT)) != Walk(Tokens(v), None)) ==
            (UniqueKeys(v) && !NestsWithin(v, DEPTH_LIMIT))
  {
    assert Tokens(v) == Tokens(v) + [];
    WalkTree(v, [], Some(DEPTH_LIMIT));
    WalkTree(v, [], None);
  }
}
