/** The on-disk cache of SSH targets: one entry per machine alias, served for five minutes and
    pruned after a day. Times are in nanoseconds; entries keep whole seconds. */
module SshTargetCache {
  import opened Common

  const CACHE_VERSION := 1
  const SECOND := 1_000_000_000
  const TTL := 300 * SECOND
  const PRUNE_SECONDS := 86400

  datatype Entry = Entry(version: int, server: string, alias: string, machine: string, generation: nat,
                         user: string, port: nat, fetchedAt: int)

  /** What the file holds; its version is None when the key is missing or null. A malformed file may still
      have set the version before decoding failed; a parsed one may hold a null entries object. */
  datatype File = Absent | Malformed(version: Option<int>) | Parsed(version: Option<int>, entries: Option<map<string, Entry>>)

  function Unix(now: int): int {
    now / SECOND
  }

  // ---------------------------------------------------------------- load and store

  predicate Complete(e: Entry) {
    e.user != "" && e.port != 0 && e.machine != "" && e.generation != 0
  }

  predicate Fresh(e: Entry, now: int) {
    !(e.fetchedAt * SECOND > now) && !(now - e.fetchedAt * SECOND > TTL)
  }

  /** Decoding leaves a field without a key as it was. */
  function Decoded(version: Option<int>, preset: int): int {
    match version case None => preset case Some(v) => v
  }

  /** Loading decodes into a zero version. */
  function Load(file: File, server: string, alias: string, now: int): Option<Entry> {
    if !file.Parsed? || Decoded(file.version, 0) != CACHE_VERSION || file.entries == None || alias !in file.entries.value then None
    else
      var e := file.entries.value[alias];
      if e.version != CACHE_VERSION || e.server != server || e.alias != alias || !Complete(e) || !Fresh(e, now) then None
      else Some(e)
  }

  function Pruned(m: map<string, Entry>, now: int): map<string, Entry> {
    map k | k in m && !(m[k].fetchedAt < Unix(now) - PRUNE_SECONDS) :: m[k]
  }

  /** The version and the entries that a store starts from: it decodes into the current version. */
  function StartVersion(file: File): int {
    match file
    case Absent => CACHE_VERSION
    case Malformed(v) => Decoded(v, CACHE_VERSION)
    case Parsed(v, _) => Decoded(v, CACHE_VERSION)
  }

  function StartEntries(file: File, now: int): map<string, Entry> {
    if file.Parsed? && StartVersion(file) == CACHE_VERSION && file.entries.Some? then Pruned(file.entries.value, now) else map[]
  }

  function Stored(file: File, e: Entry, now: int): File {
    Parsed(Some(StartVersion(file)), Some(StartEntries(file, now)[e.alias := e]))
  }

  /** A machine as the inventory resolves it. */
  datatype Machine = Machine(id: string, alias: string, generation: int)

  datatype Target = Target(machine: string, generation: nat, user: string, port: nat)

  predicate Identified(server: string, m: Machine) {
    server != "" && m.alias != "" && m.id != "" && m.generation >= 1
  }

  function Lookup(file: File, server: string, m: Machine, now: int): Option<Target> {
    if !Identified(server, m) then None
    else
      match Load(file, server, m.alias, now)
      case None => None
      case Some(e) =>
        if e.machine != m.id || e.generation != m.generation then None
        else Some(Target(e.machine, e.generation, e.user, e.port))
  }

  // ---------------------------------------------------------------- against the history

  /** A successful store: the entry and when it was made. */
  datatype Fetched = Fetched(entry: Entry, at: int)

  /** The latest store under an alias. */
  function Latest(log: seq<Fetched>, alias: string): Option<Entry> {
    if log == [] then None
    else if log[|log| - 1].entry.alias == alias then Some(log[|log| - 1].entry)
    else Latest(log[..|log| - 1], alias)
  }

  ghost predicate WellMade(f: Fetched) {
    var e := f.entry;
    e.version == CACHE_VERSION && Complete(e) && e.fetchedAt == Unix(f.at)
  }

  /** The stores went by a clock that does not run backwards, up to `clock`. */
  ghost predicate Ordered(log: seq<Fetched>, clock: int) {
    && (forall i :: 0 <= i < |log| ==> WellMade(log[i]) && log[i].at <= clock)
    && (forall i, j :: 0 <= i < j < |log| ==> log[i].at <= log[j].at)
  }

  /** The file is what the history left: every entry is the latest store under its alias, and
      the latest store under an alias is there unless it was a day old by now. */
  ghost predicate Reflects(file: File, log: seq<Fetched>, clock: int) {
    && Ordered(log, clock)
    && (if file.Absent? then log == []
        else
          && file.Parsed? && file.version == Some(CACHE_VERSION) && file.entries.Some?
          && forall a :: var m := file.entries.value;
               && (a in m ==> Latest(log, a) == Some(m[a]))
               && (Latest(log, a).Some? && a !in m ==> Latest(log, a).value.fetchedAt < Unix(clock) - PRUNE_SECONDS))
  }

  lemma LatestPush(log: seq<Fetched>, f: Fetched, a: string)
    ensures Latest(log + [f], a) == if f.entry.alias == a then Some(f.entry) else Latest(log, a)
  {
    assert (log + [f])[..|log|] == log;
  }

  lemma {:induction false} LatestOld(log: seq<Fetched>, clock: int, a: string)
    requires Ordered(log, clock) && Latest(log, a).Some?
    ensures Latest(log, a).value.alias == a && Complete(Latest(log, a).value)
    ensures Latest(log, a).value.version == CACHE_VERSION && Latest(log, a).value.fetchedAt <= Unix(clock)
    decreases |log|
  {
    if log[|log| - 1].entry.alias != a { LatestOld(log[..|log| - 1], clock, a); }
  }

  /** A store keeps the file and the history in step. */
  lemma StoreReflects(file: File, log: seq<Fetched>, clock: int, f: Fetched)
    requires Reflects(file, log, clock) && clock <= f.at && WellMade(f)
    ensures Reflects(Stored(file, f.entry, f.at), log + [f], f.at)
  {
    var file', log' := Stored(file, f.entry, f.at), log + [f];
    var m := file'.entries.value;
    forall a
      ensures (a in m ==> Latest(log', a) == Some(m[a]))
           && (Latest(log', a).Some? && a !in m ==> Latest(log', a).value.fetchedAt < Unix(f.at) - PRUNE_SECONDS)
    {
      LatestPush(log, f, a);
    }
  }

  /** A lookup hits exactly when the latest store under the alias was for this server, machine
      and generation and is at most five minutes old; the prune never hides such an entry. */
  lemma LookupExact(file: File, log: seq<Fetched>, clock: int, server: string, m: Machine, now: int)
    requires Reflects(file, log, clock) && clock <= now
    ensures Lookup(file, server, m, now) ==
            var e := Latest(log, m.alias);
            if Identified(server, m) && e.Some? && e.value.server == server && e.value.machine == m.id
               && e.value.generation == m.generation && now - e.value.fetchedAt * SECOND <= TTL
            then Some(Target(m.id, m.generation, e.value.user, e.value.port)) else None
  {
    if Latest(log, m.alias).Some? {
      LatestOld(log, clock, m.alias);
    }
  }

  /** Outside this history the promise fails: a file that names another version survives every store with
      that version, and no lookup is ever served again. A store is visible to a lookup in the same second
      exactly when the file was absent or named no version or the current one. */
  lemma StoreThenLookup(file: File, e: Entry, m: Machine, now: int)
    requires Identified(e.server, m) && e.alias == m.alias && e.machine == m.id && e.generation == m.generation
    requires e.version == CACHE_VERSION && Complete(e) && e.fetchedAt == Unix(now)
    ensures Lookup(Stored(file, e, now), e.server, m, now) == Some(Target(e.machine, e.generation, e.user, e.port))
       <==> (file == Absent || file.version == None || file.version == Some(CACHE_VERSION))
    ensures StartVersion(Stored(file, e, now)) == StartVersion(file)
  {
  }

  /** A file that names no version is never served as it stands, but a store takes its entries over as
      current: what is not a day old can then be served. */
  lemma UnversionedRevives(m: map<string, Entry>, e: Entry, server: string, alias: string, now: int)
    ensures Load(Parsed(None, Some(m)), server, alias, now) == None
    ensures alias != e.alias ==>
              Load(Stored(Parsed(None, Some(m)), e, now), server, alias, now) == Load(Parsed(Some(CACHE_VERSION), Some(m)), server, alias, now)
  {
    if alias in m && Fresh(m[alias], now) { assert alias in Pruned(m, now); }
  }

  // ---------------------------------------------------------------- the cache file

  class CacheFile {
    var file: File
    ghost var log: seq<Fetched>
    ghost var clock: int

    ghost predicate Valid() reads this {
      Reflects(file, log, clock)
    }

    constructor (ghost start: int)
      ensures Valid() && file == Absent && log == [] && clock == start
    {
      file, log, clock := Absent, [], start;
    }

    /** Read, prune entry by entry, update, write back. The write is atomic and may fail. Whatever
        the file held, it becomes what `Stored` says; a file that reflected its history still does. */
    method Store(server: string, alias: string, machine: string, generation: nat, user: string, port: nat,
                 now: int, writes: bool) returns (ok: bool)
      requires clock <= now
      modifies this
      ensures clock == now && (old(Valid()) ==> Valid())
      ensures ok == (writes && user != "" && port != 0 && alias != "" && machine != "" && generation != 0)
      ensures var e := Entry(CACHE_VERSION, server, alias, machine, generation, user, port, Unix(now));
              if ok then file == Stored(old(file), e, now) && log == old(log) + [Fetched(e, now)]
              else file == old(file) && log == old(log)
    {
      if old(Valid()) { KeepsReflecting(file, log, clock, now); }
      if user == "" || port == 0 || alias == "" || machine == "" || generation == 0 {
        clock := now;
        return false;
      }
      var entry := Entry(CACHE_VERSION, server, alias, machine, generation, user, port, Unix(now));
      var version, entries := CACHE_VERSION, map[];
      if !file.Absent? {
        version := Decoded(file.version, version);
        if file.Parsed? && version == CACHE_VERSION && file.entries.Some? {
          entries := Prune(file.entries.value, now);
        }
      }
      entries := entries[alias := entry];
      ok := writes;
      if ok {
        if old(Valid()) { StoreReflects(file, log, clock, Fetched(entry, now)); }
        file := Parsed(Some(version), Some(entries));
        log := log + [Fetched(entry, now)];
      }
      clock := now;
    }

    /** The warm path of `pb ssh`: a fresh cache entry, else the server's live answer, which is stored when the
        machine can be identified. Every target returned is one the server gave for this server address,
        machine and generation, now or at most five minutes ago, and nothing is stored but that live answer.
        Without a server there is no answer; without a generation, a client or an answer the caller falls back
        on the canonical resolution. */
    method ResolveFast(server: string, m: Machine, client: bool, live: Option<(string, nat)>, now: int, writes: bool)
      returns (t: Option<Target>, fallback: bool)
      requires Valid() && clock <= now
      modifies this
      ensures Valid() && clock == now
      ensures t.Some? ==> server != "" && client && t.value.machine == m.id && t.value.generation == m.generation >= 1
      ensures t.Some? ==> live == Some((t.value.user, t.value.port)) || FetchedRecently(old(log), server, t.value, now)
      ensures t.None? <==> server == "" || m.generation < 1 || !client || (live.None? && old(Lookup(file, server, m, now)).None?)
      ensures fallback == (server != "" && t.None?)
      ensures log == old(log) || (live.Some? && m.generation >= 1 && log == old(log) + [Answer(server, m, live.value, now)])
      ensures log != old(log) <==>
              (Identified(server, m) && client && old(Lookup(file, server, m, now)).None? && writes && Usable(live))
    {
      KeepsReflecting(file, log, clock, now);
      clock := now;
      t := None;
      if server == "" { return None, false; }
      if m.generation < 1 || !client { return None, true; }
      LookupExact(file, log, clock, server, m, now);
      t := Lookup(file, server, m, now);
      if t.Some? {
        LatestLogged(log, m.alias);
        return t, false;
      }
      if live == None { return None, true; }
      if Identified(server, m) {
        var _ := Store(server, m.alias, m.id, m.generation, live.value.0, live.value.1, now, writes);
      }
      return Some(Target(m.id, m.generation, live.value.0, live.value.1)), false;
    }
  }

  predicate Usable(live: Option<(string, nat)>) {
    live.Some? && live.value.0 != "" && live.value.1 != 0
  }

  /** What is stored of a live answer. */
  function Answer(server: string, m: Machine, live: (string, nat), now: int): Fetched
    requires m.generation >= 0
  {
    Fetched(Entry(CACHE_VERSION, server, m.alias, m.id, m.generation, live.0, live.1, Unix(now)), now)
  }

  // ---------------------------------------------------------------- any number of calls

  /** One use of the fast path: what is asked, and how the client, the server, the clock and the disk go. */
  datatype Call = Call(server: string, machine: Machine, client: bool, live: Option<(string, nat)>, now: int, writes: bool)

  predicate Answered(c: Call) {
    c.server != "" && c.machine.generation >= 1 && c.client && c.live.Some?
  }

  /** The server gave this target live in call `c`, at most five minutes before `now`. */
  ghost predicate Gave(c: Call, server: string, t: Target, now: int) {
    && c.server == server && c.machine.id == t.machine && c.machine.generation == t.generation
    && c.live == Some((t.user, t.port)) && c.now <= now <= c.now + TTL
  }

  ghost predicate GivenBy(calls: seq<Call>, n: int, server: string, t: Target, now: int) {
    exists j :: 0 <= j < n && j < |calls| && Gave(calls[j], server, t, now)
  }

  /** Every store goes back to a live answer of one of the first `n` calls. */
  ghost predicate FromCalls(log: seq<Fetched>, calls: seq<Call>, n: int) {
    forall f :: f in log ==> ComesFrom(f, calls, n)
  }

  ghost predicate ComesFrom(f: Fetched, calls: seq<Call>, n: int) {
    exists j :: 0 <= j < n && j < |calls| && AnswerOf(calls[j], f)
  }

  ghost predicate AnswerOf(c: Call, f: Fetched) {
    c.live.Some? && c.machine.generation >= 1 && f == Answer(c.server, c.machine, c.live.value, c.now)
  }

  lemma StoredWasGiven(log: seq<Fetched>, calls: seq<Call>, n: int, server: string, t: Target, now: int)
    requires FromCalls(log, calls, n) && FetchedRecently(log, server, t, now)
    ensures GivenBy(calls, n, server, t, now)
  {
    var f :| f in log && f.at <= now && now - f.at <= TTL && f.entry.server == server
             && Target(f.entry.machine, f.entry.generation, f.entry.user, f.entry.port) == t;
    var j :| 0 <= j < n && j < |calls| && AnswerOf(calls[j], f);
    assert Gave(calls[j], server, t, now);
  }

  lemma MoreCalls(log: seq<Fetched>, more: seq<Fetched>, calls: seq<Call>, i: nat)
    requires i < |calls| && FromCalls(log, calls, i)
    requires more == log || (calls[i].live.Some? && calls[i].machine.generation >= 1 &&
                             more == log + [Answer(calls[i].server, calls[i].machine, calls[i].live.value, calls[i].now)])
    ensures FromCalls(more, calls, i + 1)
  {
    forall f | f in more ensures ComesFrom(f, calls, i + 1) {
      if f in log {
        var j :| 0 <= j < i && j < |calls| && AnswerOf(calls[j], f);
      } else {
        assert AnswerOf(calls[i], f);
      }
    }
  }

  /** Over any number of calls with a clock that does not run backwards, every target returned is the live
      answer of that call or of an earlier one for the same server, machine and generation, at most five
      minutes before. */
  method ResolveAll(cache: CacheFile, calls: seq<Call>) returns (targets: seq<Option<Target>>)
    requires cache.Valid() && cache.log == []
    requires forall i :: 0 <= i < |calls| ==> cache.clock <= calls[i].now
    requires forall i, j :: 0 <= i < j < |calls| ==> calls[i].now <= calls[j].now
    modifies cache
    ensures cache.Valid() && |targets| == |calls|
    ensures forall i :: 0 <= i < |calls| && targets[i].Some? ==>
              GivenBy(calls, i + 1, calls[i].server, targets[i].value, calls[i].now)
    ensures forall i :: 0 <= i < |calls| && Answered(calls[i]) ==> targets[i].Some?
  {
    targets := [];
    for i := 0 to |calls|
      invariant cache.Valid() && |targets| == i && FromCalls(cache.log, calls, i)
      invariant forall j :: i <= j < |calls| ==> cache.clock <= calls[j].now
      invariant forall j :: 0 <= j < i && targets[j].Some? ==>
                  GivenBy(calls, j + 1, calls[j].server, targets[j].value, calls[j].now)
      invariant forall j :: 0 <= j < i && Answered(calls[j]) ==> targets[j].Some?
    {
      var c := calls[i];
      ghost var before := cache.log;
      var t, fallback := cache.ResolveFast(c.server, c.machine, c.client, c.live, c.now, c.writes);
      MoreCalls(before, cache.log, calls, i);
      if t.Some? {
        if c.live == Some((t.value.user, t.value.port)) {
          assert Gave(calls[i], c.server, t.value, c.now);
        } else {
          StoredWasGiven(before, calls, i, c.server, t.value, c.now);
        }
        assert GivenBy(calls, i + 1, c.server, t.value, c.now);
      }
      targets := targets + [t];
    }
  }

  /** A logged store of this very target, at most five minutes before `now`. */
  ghost predicate FetchedRecently(log: seq<Fetched>, server: string, t: Target, now: int) {
    exists f :: f in log && f.at <= now && now - f.at <= TTL && f.entry.server == server
                && Target(f.entry.machine, f.entry.generation, f.entry.user, f.entry.port) == t
  }

  lemma {:induction false} LatestLogged(log: seq<Fetched>, a: string)
    requires Latest(log, a).Some?
    ensures exists f :: f in log && f.entry == Latest(log, a).value
    decreases |log|
  {
    if log[|log| - 1].entry.alias == a {
      assert log[|log| - 1] in log;
    } else {
      LatestLogged(log[..|log| - 1], a);
      var f :| f in log[..|log| - 1] && f.entry == Latest(log, a).value;
      assert f in log;
    }
  }

  lemma KeepsReflecting(file: File, log: seq<Fetched>, clock: int, now: int)
    requires Reflects(file, log, clock) && clock <= now
    ensures Reflects(file, log, now)
  {
  }

  method Prune(m: map<string, Entry>, now: int) returns (r: map<string, Entry>)
    ensures r == Pruned(m, now)
  {
    r := m;
    var keys := m.Keys;
    while keys != {}
      invariant keys <= m.Keys
      invariant r == map k | k in m && (k in keys || !(m[k].fetchedAt < Unix(now) - PRUNE_SECONDS)) :: m[k]
      decreases |keys|
    {
      var key :| key in keys;
      if r[key].fetchedAt < Unix(now) - PRUNE_SECONDS {
        r := r - {key};
      }
      keys := keys - {key};
    }
  }
}
