/** Recovery keys of the ENV authority: the files they are exported to, and the three commands that may
    act only on a key that has been read back from its file. */
module EnvRecovery {
  import opened Common

  // ---------------------------------------------------------------- one file

  const MAXIMUM_FILE: nat := 256

  predicate Has(s: string, c: char) {
    exists i :: 0 <= i < |s| && s[i] == c
  }

  predicate Writable(value: string) {
    value != [] && !Has(value, '\0') && !Has(value, '\r') && !Has(value, '\n')
  }

  function Payload(value: string): string {
    value + ['\n']
  }

  function Trimmed(text: string): string {
    if text != [] && text[|text| - 1] == '\n' then text[..|text| - 1] else text
  }

  /** What a file of this text is read as; None when it is refused. */
  function Parsed(text: string): Option<string> {
    if |text| <= 1 || |text| > MAXIMUM_FILE then None
    else
      var value := Trimmed(text);
      if !Writable(value) || Has(value, ' ') || Has(value, '\t') then None else Some(value)
  }

  /** A key that was written reads back as itself exactly when it is short enough and has no blank in it;
      otherwise its file is refused, and it never reads back as another key. */
  lemma WriteThenRead(value: string)
    requires Writable(value)
    ensures Parsed(Payload(value)) == Some(value) <==> |value| < MAXIMUM_FILE && !Has(value, ' ') && !Has(value, '\t')
    ensures Parsed(Payload(value)) == Some(value) || Parsed(Payload(value)) == None
  {
    assert Payload(value)[|value|] == '\n';
    assert Trimmed(Payload(value)) == value;
  }

  /** The only texts read as a key are the key itself and the key with one line end. */
  lemma ReadFromWritten(text: string)
    ensures Parsed(text).Some? ==> (text == Parsed(text).value || text == Payload(Parsed(text).value)) && Writable(Parsed(text).value)
  {
    if text != [] { assert text == text[..|text| - 1] + [text[|text| - 1]]; }
  }

  // ---------------------------------------------------------------- the machine

  type Path = string

  /** `plain` is a regular file that only its owner may read. */
  datatype File = File(text: string, plain: bool)

  datatype Flow = Initialize | Recover | Reset

  /** A key pair prepared for one flow. `held` says that the private key is still in the store. */
  datatype Preparation = Preparation(key: int, confirmed: bool, held: bool)

  datatype Event =
    | Read(path: Path, value: string)
    | Confirmed(flow: Flow, key: int)
    | Called(flow: Flow, key: int)

  /** How one operation goes: a failed write may leave the first `left` characters of its file behind,
      when the process stops there or the file cannot be removed. */
  datatype Fate = Fine | Fails | Leaves(left: nat)

  datatype WriteResult = Wrote | Exists | Error

  function Change(files: map<Path, File>, change: Option<(Path, Option<File>)>): map<Path, File> {
    match change
    case None => files
    case Some((path, None)) => files - {path}
    case Some((path, Some(file))) => files[path := file]
  }

  ghost predicate WasRead(log: seq<Event>, n: int, value: string) {
    exists m :: 0 <= m < n && m < |log| && log[m].Read? && log[m].value == value
  }

  /** The key was read back from a file in the first `n` events. */
  ghost predicate ReadBack(log: seq<Event>, n: int, owner: string -> Option<int>, key: int) {
    exists m :: 0 <= m < n && m < |log| && log[m].Read? && owner(log[m].value) == Some(key)
  }

  ghost predicate WasConfirmed(log: seq<Event>, n: int, flow: Flow, key: int) {
    exists m :: 0 <= m < n && m < |log| && log[m] == Confirmed(flow, key)
  }

  ghost predicate EarnedAt(log: seq<Event>, owner: string -> Option<int>, n: int) {
    0 <= n < |log| ==>
      && (log[n].Confirmed? ==> ReadBack(log, n, owner, log[n].key))
      && (log[n].Called? ==> WasConfirmed(log, n, log[n].flow, log[n].key))
  }

  /** Every confirmation follows a reading of the key, and every call follows a confirmation. */
  ghost predicate Gated(log: seq<Event>, owner: string -> Option<int>) {
    forall n :: EarnedAt(log, owner, n)
  }

  ghost predicate SilentAt(a: seq<Event>, b: seq<Event>, n: int) {
    |a| <= n < |b| ==> !b[n].Called?
  }

  /** `b` continues `a`, and nothing is called in between. */
  ghost predicate Silent(a: seq<Event>, b: seq<Event>) {
    a <= b && forall n :: SilentAt(a, b, n)
  }

  lemma SilentJoin(a: seq<Event>, b: seq<Event>, c: seq<Event>)
    requires Silent(a, b) && Silent(b, c)
    ensures Silent(a, c)
  {
    forall n ensures SilentAt(a, c, n) { assert SilentAt(a, b, n) && SilentAt(b, c, n); }
  }

  lemma GatedMore(log: seq<Event>, owner: string -> Option<int>, e: Event)
    requires Gated(log, owner)
    requires e.Confirmed? ==> ReadBack(log, |log|, owner, e.key)
    requires e.Called? ==> WasConfirmed(log, |log|, e.flow, e.key)
    ensures Gated(log + [e], owner)
    ensures forall flow, key :: WasConfirmed(log, |log|, flow, key) ==> WasConfirmed(log + [e], |log| + 1, flow, key)
  {
    var more := log + [e];
    assert forall m :: 0 <= m < |log| ==> more[m] == log[m];
    forall n ensures EarnedAt(more, owner, n) {
      assert EarnedAt(log, owner, n);
      if 0 <= n < |more| && more[n].Confirmed? {
        var m :| 0 <= m < n && m < |log| && log[m].Read? && owner(log[m].value) == Some(more[n].key);
        assert more[m] == log[m];
      }
      if 0 <= n < |more| && more[n].Called? {
        var m :| 0 <= m < n && m < |log| && log[m] == Confirmed(more[n].flow, more[n].key);
        assert more[m] == log[m];
      }
    }
    forall flow, key | WasConfirmed(log, |log|, flow, key) ensures WasConfirmed(more, |log| + 1, flow, key) {
      var m :| 0 <= m < |log| && log[m] == Confirmed(flow, key);
      assert more[m] == log[m];
    }
  }

  /** Files, secure store and what happened. `imported` is the old key that a recovery was begun with. `text`
      gives the export of each key and `owner` the key that a text stands for; `fate` and `change` settle how
      each operation goes and what a user does to the files before it. */
  class Machine {
    const text: int -> string
    const owner: string -> Option<int>
    const fate: nat -> Fate
    const change: nat -> Option<(Path, Option<File>)>
    var clock: nat
    var files: map<Path, File>
    var pending: map<Flow, Preparation>
    var imported: Option<int>
    var nextKey: int
    var log: seq<Event>

    constructor (text: int -> string, owner: string -> Option<int>, fate: nat -> Fate,
                 change: nat -> Option<(Path, Option<File>)>, files: map<Path, File>)
      requires forall k :: owner(text(k)) == Some(k)
      ensures Valid() && log == [] && pending == map[] && imported == None && this.files == files && clock == 0
      ensures this.text == text && this.owner == owner && this.fate == fate && this.change == change
    {
      this.text, this.owner, this.fate, this.change, this.files := text, owner, fate, change, files;
      clock, pending, imported, nextKey, log := 0, map[], None, 0, [];
    }

    ghost predicate Valid() reads this {
      && (forall k :: owner(text(k)) == Some(k)) && (Recover in pending ==> imported.Some?)
      && Gated(log, owner)
      && (forall flow :: flow in pending && pending[flow].confirmed ==> WasConfirmed(log, |log|, flow, pending[flow].key))
    }

    ghost predicate ChangedAt(n: nat, p: Path) {
      change(n).Some? && change(n).value.0 == p
    }

    /** The user changes this file before one of the operations from `lo` up to `hi`. */
    ghost predicate ChangedBetween(lo: nat, hi: nat, p: Path) {
      exists n: nat :: lo <= n < hi && ChangedAt(n, p)
    }

    ghost predicate HeldAt(before: map<Path, File>, from: nat, after: map<Path, File>, to: nat, made: set<Path>, p: Path) {
      !ChangedBetween(from, to, p) ==>
        (p in before ==> p in after && after[p] == before[p]) && (p in after ==> p in before || p in made)
    }

    /** But for what the user changes in the meantime, every file there was is there unchanged, and no file is
        new that is not one of `made`. */
    ghost predicate Holds(before: map<Path, File>, from: nat, after: map<Path, File>, to: nat, made: set<Path>) {
      from <= to && forall p :: HeldAt(before, from, after, to, made, p)
    }

    twostate predicate FilesKept(made: set<Path>) reads this {
      Holds(old(files), old(clock), files, clock, made)
    }

    lemma Join(before: map<Path, File>, from: nat, middle: map<Path, File>, at: nat, more: set<Path>, made: set<Path>)
      requires Holds(before, from, middle, at, more) && Holds(middle, at, files, clock, made) && more <= made
      ensures Holds(before, from, files, clock, made)
    {
      forall p ensures HeldAt(before, from, files, clock, made, p) {
        assert HeldAt(before, from, middle, at, more, p) && HeldAt(middle, at, files, clock, made, p);
        assert ChangedBetween(from, at, p) || ChangedBetween(at, clock, p) ==> ChangedBetween(from, clock, p);
      }
    }

    lemma Widen(before: map<Path, File>, from: nat, more: set<Path>, made: set<Path>)
      requires Holds(before, from, files, clock, more) && more <= made
      ensures Holds(before, from, files, clock, made)
    {
      forall p ensures HeldAt(before, from, files, clock, made, p) { assert HeldAt(before, from, files, clock, more, p); }
    }

    /** Nothing fails and the user keeps away. */
    ghost predicate Calm() {
      forall n: nat :: fate(n) == Fine && change(n) == None
    }

    /** The key of the flow, old or new, is in the file or can be put there. */
    ghost predicate CanFinish(flow: Flow, path: Path) reads this {
      var key := if flow in pending then pending[flow].key else nextKey;
      && Good(text(key)) && Room(files, path, text(key))
      && (flow in pending ==> Kept(pending[flow]) && (path in files || (pending[flow].held && !pending[flow].confirmed)))
    }

    /** A reset can get through: on a confirmed key without an output, or like any other flow with one. */
    ghost predicate CanReset(output: Option<Path>) reads this {
      match output
      case None => Reset in pending && pending[Reset].confirmed
      case Some(path) => CanFinish(Reset, path)
    }

    /** The file holds an old key with which a recovery may begin or go on. */
    ghost predicate CanImport(input: Path) reads this {
      && Absolute(input) && input in files && files[input].plain && Parsed(files[input].text).Some?
      && var key := owner(Parsed(files[input].text).value); key.Some? && (imported == None || imported == key)
    }

    ghost predicate CanPrepare(input: Option<Path>) reads this {
      match input case None => imported.Some? case Some(path) => CanImport(path)
    }

    ghost predicate CanRotate(path: Path) reads this {
      CanFinish(Recover, path) && (Recover in pending ==> pending[Recover].held)
    }

    method Tick() returns (f: Fate)
      requires Valid()
      modifies `clock, `files
      ensures Valid() && FilesKept({})
      ensures Calm() ==> f == Fine && files == old(files)
    {
      f := fate(clock);
      files := Change(files, change(clock));
      clock := clock + 1;
      forall p ensures HeldAt(old(files), old(clock), files, clock, {}, p) {
        assert ChangedAt(old(clock), p) ==> ChangedBetween(old(clock), clock, p);
      }
    }

    method ReadRecovery(path: Path) returns (r: Option<string>)
      requires Valid()
      modifies `clock, `files, `log
      ensures Valid() && FilesKept({}) && Silent(old(log), log)
      ensures r.None? ==> log == old(log)
      ensures r.Some? ==>
                && log == old(log) + [Read(path, r.value)] && WasRead(log, |log|, r.value)
                && Absolute(path) && path in files && files[path].plain && Parsed(files[path].text) == r
      ensures Calm() ==> files == old(files)
      ensures Calm() && Absolute(path) && path in files && files[path].plain ==> r == Parsed(files[path].text)
    {
      if !Absolute(path) { return None; }
      var f := Tick();
      if f != Fine || path !in files || !files[path].plain { return None; }
      r := Parsed(files[path].text);
      if r.Some? {
        GatedMore(log, owner, Read(path, r.value));
        log := log + [Read(path, r.value)];
        assert log[|log| - 1].Read?;
      }
    }

    /** Creates the file or leaves every file as it was; what it cannot finish it removes, and when even
        that fails a beginning of the text is left where no file was. */
    method WriteRecovery(path: Path, value: string) returns (r: WriteResult)
      requires Valid()
      modifies `clock, `files
      ensures Valid() && FilesKept({path})
      ensures r == Wrote ==> Writable(value) && path in files && files[path] == File(Payload(value), true)
      ensures r == Exists ==> path in files
      ensures path in files && path !in old(files) && !ChangedBetween(old(clock), clock, path) ==>
                files[path].plain && files[path].text <= Payload(value)
      ensures Calm() && Absolute(path) && Writable(value) ==>
                if path in old(files) then r == Exists && files == old(files)
                else r == Wrote && files == old(files)[path := File(Payload(value), true)]
    {
      r := Error;
      if !Absolute(path) || !Writable(value) { return; }
      var f := Tick();
      assert HeldAt(old(files), old(clock), files, clock, {}, path);
      Widen(old(files), old(clock), {}, {path});
      ghost var between := files;
      if path in files { return Exists; }
      files := files[path := File([], true)];
      var payload := Payload(value);
      match f {
        case Fails => files := files - {path};
        case Leaves(left) => files := files[path := File(payload[..if left < |payload| then left else |payload|], true)];
        case Fine =>
          files := files[path := File(payload, true)];
          r := Wrote;
      }
      forall p ensures HeldAt(old(files), old(clock), files, clock, {path}, p) {
        assert HeldAt(old(files), old(clock), between, clock, {path}, p);
      }
    }

    /** On success the file holds the key, whether or not it was there before. */
    method EnsureRecovery(path: Path, value: string) returns (ok: bool)
      requires Valid()
      modifies `clock, `files, `log
      ensures Valid() && FilesKept({path}) && Silent(old(log), log)
      ensures ok ==> path in files && files[path].plain && (files[path].text == value || files[path].text == Payload(value))
      ensures Calm() && Good(value) && Room(old(files), path, value) ==>
                ok && files == old(files)[path := File(Payload(value), true)]
    {
      WriteThenReadGood(value);
      var w := WriteRecovery(path, value);
      if w != Exists { return w == Wrote; }
      ghost var between, at := files, clock;
      var existing := ReadRecovery(path);
      Widen(between, at, {}, {path});
      Join(old(files), old(clock), between, at, {path}, {path});
      if existing.Some? { ReadFromWritten(files[path].text); }
      ok := existing == Some(value);
      assert Calm() && Good(value) && Room(old(files), path, value) ==> files == old(files)[path := File(Payload(value), true)];
    }

    method VerifyRecovery(path: Path, value: string) returns (ok: bool)
      requires Valid()
      modifies `clock, `files, `log
      ensures Valid() && FilesKept({}) && Silent(old(log), log)
      ensures ok ==> log == old(log) + [Read(path, value)]
      ensures Calm() && Good(value) && path in old(files) && Room(old(files), path, value) ==> ok && files == old(files)
    {
      WriteThenReadGood(value);
      var existing := ReadRecovery(path);
      ok := existing == Some(value);
    }

    // -------------------------------------------------------------- the secure store

    method Resume(flow: Flow) returns (r: Lookup)
      requires Valid()
      modifies `clock, `files
      ensures Valid() && FilesKept({})
      ensures r.Found? <==> r != Trouble && flow in pending
      ensures r.Found? ==> r.preparation == pending[flow]
      ensures Calm() ==> r != Trouble && files == old(files)
    {
      var f := Tick();
      if f != Fine { return Trouble; }
      r := if flow in pending then Found(pending[flow]) else Nothing;
    }

    /** An interrupted preparation is taken up; otherwise a fresh key is made. */
    method Begin(flow: Flow) returns (r: Option<Preparation>)
      requires Valid() && (flow == Recover ==> imported.Some?)
      modifies `clock, `files, `pending, `nextKey
      ensures Valid() && FilesKept({})
      ensures r.Some? ==> flow in pending && pending[flow] == r.value
      ensures flow in old(pending) ==> pending == old(pending)
      ensures r.Some? && flow !in old(pending) ==> r.value == Preparation(old(nextKey), false, true)
      ensures Calm() ==> r.Some? && files == old(files)
    {
      var f := Tick();
      if f != Fine { return None; }
      if flow !in pending {
        pending, nextKey := pending[flow := Preparation(nextKey, false, true)], nextKey + 1;
      }
      r := Some(pending[flow]);
    }

    /** Recovery is under way once an old key was imported, even if its replacement was not made yet. */
    method ResumeRecovery() returns (r: Lookup)
      requires Valid()
      modifies `clock, `files, `pending, `nextKey
      ensures Valid() && FilesKept({})
      ensures r == Nothing ==> imported == None && pending == old(pending) && nextKey == old(nextKey)
      ensures r.Found? ==> imported.Some? && Recover in pending && pending[Recover] == r.preparation
      ensures r.Found? ==> if Recover in old(pending) then pending == old(pending) else r.preparation == Preparation(old(nextKey), false, true)
      ensures Calm() ==> files == old(files) && (if imported.Some? then r.Found? else r == Nothing)
    {
      var f := Tick();
      if f != Fine { return Trouble; }
      if imported == None { return Nothing; }
      ghost var between, at := files, clock;
      var p := Begin(Recover);
      Join(old(files), old(clock), between, at, {}, {});
      r := if p.Some? then Found(p.value) else Trouble;
    }

    /** Imports the old key, or checks that it is the one imported before. */
    method BeginRecovery(value: string) returns (r: Option<Preparation>)
      requires Valid()
      modifies `clock, `files, `pending, `imported, `nextKey
      ensures Valid() && FilesKept({})
      ensures old(imported).Some? ==> imported == old(imported)
      ensures r.Some? ==> imported == owner(value) && imported.Some? && Recover in pending && pending[Recover] == r.value
      ensures r.Some? ==> if Recover in old(pending) then pending == old(pending) else r.value == Preparation(old(nextKey), false, true)
      ensures Calm() ==> files == old(files) && (owner(value).Some? && (old(imported) == None || old(imported) == owner(value)) ==> r.Some?)
    {
      if owner(value) == None { return None; }
      var f := Tick();
      if f != Fine { return None; }
      if imported == None {
        imported := owner(value);
      } else if imported != owner(value) {
        return None;
      }
      ghost var between, at := files, clock;
      r := Begin(Recover);
      Join(old(files), old(clock), between, at, {}, {});
    }

    /** Accepts a text that stands for the pending key as proof that it was stored. The commands give it only
        texts that they read from a file, which keeps the gate. */
    method Confirm(flow: Flow, value: string) returns (ok: bool)
      requires Valid()
      modifies `clock, `files, `pending, `log
      ensures old(WasRead(log, |log|, value)) ==> Valid()
      ensures FilesKept({}) && Silent(old(log), log)
      ensures SameKeys(old(pending), pending)
      ensures ok ==> flow in pending && owner(value) == Some(pending[flow].key) && WasConfirmed(log, |log|, flow, pending[flow].key)
      ensures Calm() && old(flow in pending && owner(value) == Some(pending[flow].key) && Kept(pending[flow])) ==> ok
    {
      var f := Tick();
      if f != Fine { return false; }
      if flow !in pending || owner(value) != Some(pending[flow].key) { return false; }
      var p := pending[flow];
      if !p.held { return p.confirmed; }
      if WasRead(log, |log|, value) {
        ghost var m :| 0 <= m < |log| && log[m].Read? && log[m].value == value;
        GatedMore(log, owner, Confirmed(flow, p.key));
      }
      pending := pending[flow := p.(confirmed := true, held := flow != Initialize)];
      log := log + [Confirmed(flow, p.key)];
      assert log[|log| - 1] == Confirmed(flow, p.key);
      ok := true;
    }

    /** Activation, rotation or reset. It is refused by the manager for a key that was not confirmed, and
        no command asks for that. A success may end the preparation. */
    method Call(flow: Flow, key: int) returns (ok: bool)
      requires Valid() && WasConfirmed(log, |log|, flow, key)
      modifies `clock, `files, `pending, `imported, `log
      ensures Valid() && FilesKept({}) && log == old(log) + [Called(flow, key)]
      ensures Calm() ==> ok
    {
      GatedMore(log, owner, Called(flow, key));
      log := log + [Called(flow, key)];
      var f := Tick();
      ok := f == Fine;
      if ok && flow != Initialize { pending := pending - {flow}; }
      if ok && flow == Recover { imported := None; }
    }

    /** Write the pending key, read it back and confirm what was read. */
    method Export(flow: Flow, path: Path, p: Preparation) returns (ok: bool)
      requires Valid() && flow in pending && pending[flow] == p
      modifies `clock, `files, `pending, `log
      ensures Valid() && FilesKept({path}) && Silent(old(log), log)
      ensures SameKeys(old(pending), pending)
      ensures ok ==> WasConfirmed(log, |log|, flow, p.key) && ReadSince(log, |old(log)|, owner, path, p.key)
      ensures Calm() && Good(text(p.key)) && Room(old(files), path, text(p.key)) && p.held ==> ok
    {
      WriteThenReadGood(text(p.key));
      ok := EnsureRecovery(path, text(p.key));
      if !ok { return; }
      ghost var middle := log;
      ghost var between, at := files, clock;
      ok := ReadAndConfirm(flow, path, p.key);
      Widen(between, at, {}, {path});
      Join(old(files), old(clock), between, at, {path}, {path});
      SilentJoin(old(log), middle, log);
    }

    method ReadAndConfirm(flow: Flow, path: Path, ghost key: int) returns (ok: bool)
      requires Valid() && flow in pending && pending[flow].key == key
      modifies `clock, `files, `pending, `log
      ensures Valid() && FilesKept({}) && Silent(old(log), log)
      ensures SameKeys(old(pending), pending)
      ensures ok ==> WasConfirmed(log, |log|, flow, key) && ReadSince(log, |old(log)|, owner, path, key)
      ensures Calm() && Good(text(key)) && old(Kept(pending[flow]) && path in files && Room(files, path, text(key))) ==> ok
    {
      WriteThenReadGood(text(key));
      var exported := ReadRecovery(path);
      if exported == None { return false; }
      ghost var middle := log;
      ghost var between, at := files, clock;
      ok := Confirm(flow, exported.value);
      Join(old(files), old(clock), between, at, {}, {});
      SilentJoin(old(log), middle, log);
      assert log[|middle| - 1] == Read(path, exported.value);
    }

    // -------------------------------------------------------------- the commands

    /** The interrupted preparation, or a new one where that is allowed. */
    method ResumeOrBegin(flow: Flow, allowed: bool) returns (r: Option<Preparation>)
      requires Valid() && flow != Recover
      modifies `clock, `files, `pending, `nextKey
      ensures Valid() && FilesKept({})
      ensures r.Some? ==> flow in pending && pending[flow] == r.value
      ensures r.Some? ==> if flow in old(pending) then pending == old(pending) else r.value == Preparation(old(nextKey), false, true)
      ensures Calm() ==> files == old(files) && (flow in old(pending) || allowed ==> r.Some?)
    {
      var found := Resume(flow);
      if found == Trouble || (found == Nothing && !allowed) { return None; }
      if found.Found? { return Some(found.preparation); }
      ghost var between, at := files, clock;
      r := Begin(flow);
      Join(old(files), old(clock), between, at, {}, {});
    }

    /** Everything `env init` does before it activates; `active` and `initialized` are what the service
        answers about the authority. */
    method InitializeGate(path: Path, active: bool, initialized: bool) returns (r: Option<int>)
      requires Valid()
      modifies this
      ensures Valid() && FilesKept({path}) && Silent(old(log), log)
      ensures r.Some? ==> WasConfirmed(log, |log|, Initialize, r.value) && ReadSince(log, |old(log)|, owner, path, r.value)
      ensures Calm() && !active && !initialized && old(CanFinish(Initialize, path)) ==> r.Some?
    {
      if !Absolute(path) { return None; }
      var begun := ResumeOrBegin(Initialize, !initialized);
      Widen(old(files), old(clock), {}, {path});
      ghost var between, at := files, clock;
      if begun == None { return None; }
      var p := begun.value;
      if (active && !p.confirmed) || (!active && (initialized || (!p.held && !p.confirmed))) { return None; }
      var ok;
      if p.held && !active {
        ok := Export(Initialize, path, p);
      } else {
        ok := ReadAndConfirm(Initialize, path, p.key);
        Widen(between, at, {}, {path});
      }
      Join(old(files), old(clock), between, at, {path}, {path});
      r := if ok then Some(p.key) else None;
    }

    /** A run that activates has read the key back itself. One that finds the authority active only checks
        the file. When nothing fails it activates, also as a rerun. */
    method InitializeAuthority(path: Path, active: bool, initialized: bool) returns (ok: bool)
      requires Valid()
      modifies this
      ensures Valid() && FilesKept({path}) && old(log) <= log
      ensures Silent(old(log), log) || EndsWithCall(old(log), log, owner, path)
      ensures ok && !active ==> EndsWithCall(old(log), log, owner, path)
      ensures active ==> Silent(old(log), log)
      ensures Calm() && !active && !initialized && old(CanFinish(Initialize, path)) ==> ok
    {
      var key := InitializeGate(path, active, initialized);
      if key == None || active { return key.Some?; }
      CallEnds(old(log), log, owner, path, Initialize, key.value);
      ghost var between, at := files, clock;
      ok := Call(Initialize, key.value);
      Widen(between, at, {}, {path});
      Join(old(files), old(clock), between, at, {path}, {path});
    }

    /** The preparation to work on: the interrupted one or a new one. A supplied old key is read from its file
        and must be the one that the interrupted preparation was begun with. */
    method PrepareRecovery(input: Option<Path>) returns (r: Option<Preparation>)
      requires Valid()
      modifies this
      ensures Valid() && FilesKept({}) && Silent(old(log), log)
      ensures old(imported).Some? ==> imported == old(imported)
      ensures r.Some? ==> imported.Some? && Recover in pending && pending[Recover] == r.value
      ensures r.Some? && input.Some? ==> ReadSince(log, |old(log)|, owner, input.value, imported.value)
      ensures r.Some? && Recover in old(pending) ==> pending == old(pending)
      ensures Calm() ==> files == old(files) && (r.Some? <==> old(CanPrepare(input)))
      ensures r.Some? && Recover !in old(pending) ==> r.value == Preparation(old(nextKey), false, true)
    {
      var found := ResumeRecovery();
      if found == Trouble || (found == Nothing && input == None) { return None; }
      if input == None { return Some(found.preparation); }
      ghost var between, at := files, clock;
      r := ImportFrom(input.value);
      Join(old(files), old(clock), between, at, {}, {});
    }

    method ImportFrom(input: Path) returns (r: Option<Preparation>)
      requires Valid()
      modifies this
      ensures Valid() && FilesKept({}) && Silent(old(log), log)
      ensures old(imported).Some? ==> imported == old(imported)
      ensures r.Some? ==> imported.Some? && Recover in pending && pending[Recover] == r.value
      ensures r.Some? ==> ReadSince(log, |old(log)|, owner, input, imported.value)
      ensures r.Some? ==> if Recover in old(pending) then pending == old(pending) else r.value == Preparation(old(nextKey), false, true)
      ensures Calm() ==> files == old(files) && (r.Some? <==> old(CanImport(input)))
    {
      var value := ReadRecovery(input);
      if value == None { return None; }
      ghost var between, at := files, clock;
      r := BeginRecovery(value.value);
      Join(old(files), old(clock), between, at, {}, {});
      if r.Some? { ReadNow(old(log), owner, input, value.value, imported.value); }
    }

    /** Everything `env recovery recover` does before it rotates. */
    method RecoverGate(input: Option<Path>, path: Path) returns (r: Option<int>)
      requires Valid()
      modifies this
      ensures Valid() && FilesKept({path}) && Silent(old(log), log)
      ensures r.Some? ==> WasConfirmed(log, |log|, Recover, r.value) && ReadSince(log, |old(log)|, owner, path, r.value)
      ensures old(imported).Some? && input.Some? && r.Some? ==> ReadSince(log, |old(log)|, owner, input.value, old(imported).value)
      ensures Calm() && input != Some(path) && old(CanPrepare(input) && CanRotate(path)) ==> r.Some?
    {
      if !Absolute(path) || (input.Some? && (!Absolute(input.value) || input.value == path)) { return None; }
      var prepared := PrepareRecovery(input);
      Widen(old(files), old(clock), {}, {path});
      ghost var between, at := files, clock;
      if prepared == None || !prepared.value.held { return None; }
      var p := prepared.value;
      ghost var middle := log;
      var ok;
      if p.confirmed {
        ok := VerifyRecovery(path, text(p.key));
        Widen(between, at, {}, {path});
        if ok { ReadNow(middle, owner, path, text(p.key), p.key); }
      } else {
        ok := Export(Recover, path, p);
      }
      Join(old(files), old(clock), between, at, {path}, {path});
      SilentJoin(old(log), middle, log);
      r := if ok then Some(p.key) else None;
    }

    /** Every run that rotates has read the replacement key back itself. */
    method RecoverAuthority(input: Option<Path>, path: Path) returns (ok: bool)
      requires Valid()
      modifies this
      ensures Valid() && FilesKept({path}) && old(log) <= log
      ensures Silent(old(log), log) || EndsWithCall(old(log), log, owner, path)
      ensures ok ==> EndsWithCall(old(log), log, owner, path)
      ensures old(imported).Some? && input.Some? && ok ==> ReadSince(log, |old(log)|, owner, input.value, old(imported).value)
      ensures Calm() && input != Some(path) && old(CanPrepare(input) && CanRotate(path)) ==> ok
    {
      var key := RecoverGate(input, path);
      if key == None { return false; }
      CallEnds(old(log), log, owner, path, Recover, key.value);
      if input.Some? && old(imported).Some? {
        ReadStays(log, Called(Recover, key.value), |old(log)|, owner, input.value, old(imported).value);
      }
      ghost var between, at := files, clock;
      ok := Call(Recover, key.value);
      Widen(between, at, {}, {path});
      Join(old(files), old(clock), between, at, {path}, {path});
    }

    /** Everything `env reset` does before it asks for the typed phrase. The key of a confirmed preparation
        is checked again only when an output path is given. */
    method ResetGate(output: Option<Path>) returns (r: Option<int>)
      requires Valid()
      modifies this
      ensures Valid() && FilesKept(Outputs(output)) && Silent(old(log), log)
      ensures r.Some? ==> WasConfirmed(log, |log|, Reset, r.value)
      ensures r.Some? && output.Some? ==> ReadSince(log, |old(log)|, owner, output.value, r.value)
      ensures r.Some? && output.None? ==> old(Reset in pending && pending[Reset].confirmed) && r.value == old(pending)[Reset].key
      ensures Calm() && old(CanReset(output)) ==> r.Some?
    {
      if output.Some? && !Absolute(output.value) { return None; }
      var begun := ResumeOrBegin(Reset, true);
      ghost var made := Outputs(output);
      Widen(old(files), old(clock), {}, made);
      ghost var between, at := files, clock;
      if begun == None { return None; }
      var p := begun.value;
      if p.confirmed {
        if output == None { return Some(p.key); }
        var existing := ReadRecovery(output.value);
        Widen(between, at, {}, made);
        Join(old(files), old(clock), between, at, made, made);
        if existing == None || owner(existing.value) != Some(p.key) { return None; }
        ReadNow(old(log), owner, output.value, existing.value, p.key);
        return Some(p.key);
      }
      if output == None || !p.held { return None; }
      var ok := Export(Reset, output.value, p);
      Join(old(files), old(clock), between, at, made, made);
      r := if ok then Some(p.key) else None;
    }

    method ResetAuthority(output: Option<Path>, typed: bool) returns (ok: bool)
      requires Valid()
      modifies this
      ensures Valid() && FilesKept(Outputs(output)) && old(log) <= log
      ensures output.Some? ==> Silent(old(log), log) || EndsWithCall(old(log), log, owner, output.value)
      ensures output.None? && !Silent(old(log), log) ==>
                && Reset in old(pending) && old(pending)[Reset].confirmed
                && |log| > 0 && log[|log| - 1] == Called(Reset, old(pending)[Reset].key)
      ensures ok ==> typed && |log| > |old(log)| && log[|log| - 1].Called?
      ensures !typed ==> Silent(old(log), log)
      ensures Calm() && typed && old(CanReset(output)) ==> ok
    {
      var key := ResetGate(output);
      if key == None { return false; }
      ghost var made, between, at := Outputs(output), files, clock;
      var f := Tick();
      Widen(between, at, {}, made);
      Join(old(files), old(clock), between, at, made, made);
      between, at := files, clock;
      if f != Fine || !typed { return false; }
      if output.Some? { CallEnds(old(log), log, owner, output.value, Reset, key.value); }
      ok := Call(Reset, key.value);
      Widen(between, at, {}, made);
      Join(old(files), old(clock), between, at, made, made);
    }

    method ConfirmFile(path: Path) returns (ok: bool)
      requires Valid()
      modifies this
      ensures Valid() && FilesKept({}) && Silent(old(log), log)
    {
      var value := ReadRecovery(path);
      if value == None { return false; }
      ghost var middle := log;
      ghost var between, at := files, clock;
      ok := Confirm(Initialize, value.value);
      Join(old(files), old(clock), between, at, {}, {});
      SilentJoin(old(log), middle, log);
    }

    method Cancel(flow: Flow)
      requires Valid()
      modifies this
      ensures Valid() && FilesKept({}) && log == old(log)
    {
      var f := Tick();
      if f == Fine {
        pending := pending - {flow};
        if flow == Recover { imported := None; }
      }
    }

    /** Any number of runs of the commands in any order, each stopping wherever it fails or is killed. */
    method RunAll(commands: seq<Command>)
      requires Valid()
      modifies this
      ensures Gated(log, owner) && old(log) <= log && FilesKept(AllOutputs(commands))
    {
      for i := 0 to |commands|
        invariant Valid() && FilesKept(AllOutputs(commands)) && old(log) <= log
      {
        ghost var between, at := files, clock;
        var done := false;
        assert commands[i] in commands && OutputsOf(commands[i]) <= AllOutputs(commands);
        match commands[i] {
          case RunInitialize(path, active, initialized) => done := InitializeAuthority(path, active, initialized);
          case RunRecover(input, path) => done := RecoverAuthority(input, path);
          case RunReset(output, typed) => done := ResetAuthority(output, typed);
          case RunConfirm(path) => done := ConfirmFile(path);
          case RunCancel(flow) => Cancel(flow);
        }
        Widen(between, at, OutputsOf(commands[i]), AllOutputs(commands));
        Join(old(files), old(clock), between, at, AllOutputs(commands), AllOutputs(commands));
      }
    }
  }

  /** What the gate means: before an activation, rotation or reset is asked for, its key was read back from
      a file and then confirmed. */
  lemma CallsAreEarned(log: seq<Event>, owner: string -> Option<int>, n: nat)
    requires Gated(log, owner) && n < |log| && log[n].Called?
    ensures exists m, k :: 0 <= m < k < n && log[m].Read? && owner(log[m].value) == Some(log[n].key) &&
                           log[k] == Confirmed(log[n].flow, log[n].key)
  {
    assert EarnedAt(log, owner, n);
    var k :| 0 <= k < n && log[k] == Confirmed(log[n].flow, log[n].key);
    assert EarnedAt(log, owner, k);
    var m :| 0 <= m < k && log[m].Read? && owner(log[m].value) == Some(log[k].key);
  }

  /** What is found when a preparation is looked up. */
  datatype Lookup = Found(preparation: Preparation) | Nothing | Trouble

  ghost predicate SameKeys(a: map<Flow, Preparation>, b: map<Flow, Preparation>) {
    a.Keys == b.Keys && forall flow :: flow in a ==> a[flow].key == b[flow].key
  }

  predicate Kept(p: Preparation) {
    p.held || p.confirmed
  }

  predicate Absolute(path: Path) {
    path != [] && path[0] == '/'
  }

  /** The key was read back from this file at or after event `n`. */
  ghost predicate ReadSince(log: seq<Event>, n: int, owner: string -> Option<int>, path: Path, key: int) {
    exists m :: 0 <= m < |log| && n <= m && log[m].Read? && log[m].path == path && owner(log[m].value) == Some(key)
  }

  lemma ReadNow(log: seq<Event>, owner: string -> Option<int>, path: Path, value: string, key: int)
    requires owner(value) == Some(key)
    ensures ReadSince(log + [Read(path, value)], |log|, owner, path, key)
  {
    assert (log + [Read(path, value)])[|log|] == Read(path, value);
  }

  lemma ReadStays(log: seq<Event>, e: Event, n: int, owner: string -> Option<int>, path: Path, key: int)
    requires ReadSince(log, n, owner, path, key)
    ensures ReadSince(log + [e], n, owner, path, key)
  {
    var m :| 0 <= m < |log| && n <= m && log[m].Read? && log[m].path == path && owner(log[m].value) == Some(key);
    assert (log + [e])[m] == log[m];
  }

  /** The run that made `b` out of `a` ends by calling for a key that it read back from the file itself. */
  ghost predicate EndsWithCall(a: seq<Event>, b: seq<Event>, owner: string -> Option<int>, path: Path) {
    && |a| < |b| && b[|b| - 1].Called?
    && ReadSince(b, |a|, owner, path, b[|b| - 1].key)
  }

  lemma CallEnds(a: seq<Event>, b: seq<Event>, owner: string -> Option<int>, path: Path, flow: Flow, key: int)
    requires a <= b && ReadSince(b, |a|, owner, path, key)
    ensures EndsWithCall(a, b + [Called(flow, key)], owner, path)
  {
    var m :| 0 <= m < |b| && |a| <= m && b[m].Read? && b[m].path == path && owner(b[m].value) == Some(key);
    assert (b + [Called(flow, key)])[m] == b[m];
  }

  datatype Command =
    | RunInitialize(path: Path, active: bool, initialized: bool)
    | RunRecover(input: Option<Path>, path: Path)
    | RunReset(output: Option<Path>, typed: bool)
    | RunConfirm(path: Path)
    | RunCancel(flow: Flow)

  function Outputs(output: Option<Path>): set<Path> {
    if output.Some? then {output.value} else {}
  }

  /** The file that a command may make. */
  function OutputsOf(c: Command): set<Path> {
    match c
    case RunInitialize(path, _, _) => {path}
    case RunRecover(_, path) => {path}
    case RunReset(output, _) => Outputs(output)
    case _ => {}
  }

  function AllOutputs(commands: seq<Command>): set<Path> {
    set c, p | c in commands && p in OutputsOf(c) :: p
  }

  /** A key as the encoder makes them: it survives being written and read. */
  predicate Good(value: string) {
    Writable(value) && |value| < MAXIMUM_FILE && !Has(value, ' ') && !Has(value, '\t')
  }

  predicate Room(files: map<Path, File>, path: Path, value: string) {
    Absolute(path) && (path in files ==> files[path] == File(Payload(value), true))
  }

  lemma WriteThenReadGood(value: string)
    ensures Good(value) ==> Parsed(Payload(value)) == Some(value)
  {
    if Good(value) { WriteThenRead(value); }
  }
}
