/** The durable journal of `pb tunnel create`: what a crashed run leaves behind for the next. */
module TunnelJournal {
  import opened Common

  const MAXIMUM_DOMAINS: nat := 32

  datatype Stage = Prepared | TunnelCreated | ConnectorReady | DomainsReady

  type Key = nat

  /** One custom domain: its idempotency key and, once recorded, its identifier. */
  datatype Domain = Domain(key: Key, id: Option<string>, stage: Stage)

  /** `digest` stands for the hash of the request and is taken to determine it. */
  datatype Journal<D> = Journal(digest: D, tunnelKey: Key, created: Option<(string, string)>, stage: Stage,
                                expires: Option<int>, domains: seq<Domain>)

  predicate ValidToken(s: string) {
    3 <= |s| <= 256 && forall i :: 0 <= i < |s| ==> '!' <= s[i] <= '~' && s[i] !in "/\\?#%"
  }

  // ---------------------------------------------------------------- validity

  predicate ValidDomain(d: Domain) {
    match d.id
    case None => d.stage == Prepared
    case Some(id) => d.stage == DomainsReady && ValidToken(id)
  }

  predicate AllRecorded(ds: seq<Domain>) {
    forall i :: 0 <= i < |ds| ==> ds[i].id.Some?
  }

  predicate NoneRecorded(ds: seq<Domain>) {
    forall i :: 0 <= i < |ds| ==> ds[i].id.None?
  }

  predicate Valid<D(!new)>(j: Journal<D>) {
    && |j.domains| <= MAXIMUM_DOMAINS
    && (j.created.Some? ==> ValidToken(j.created.value.0) && ValidToken(j.created.value.1))
    && (j.stage == Prepared <==> j.created.None?)
    && (forall i :: 0 <= i < |j.domains| ==> ValidDomain(j.domains[i]))
    && (match j.stage
        case ConnectorReady => true
        case DomainsReady => j.domains != [] && AllRecorded(j.domains)
        case _ => NoneRecorded(j.domains))
  }

  // ---------------------------------------------------------------- the records

  function RecordTunnel<D>(j: Journal<D>, tunnelID: string, operationID: string): Option<Journal<D>> {
    if !ValidToken(tunnelID) || !ValidToken(operationID) then None
    else if j.created.Some? && j.created.value != (tunnelID, operationID) then None
    else Some(j.(created := Some((tunnelID, operationID)), stage := if j.stage == Prepared then TunnelCreated else j.stage))
  }

  function RecordConnectorReady<D>(j: Journal<D>): Option<Journal<D>> {
    if j.created.None? || j.stage == Prepared then None
    else Some(j.(stage := if j.stage == TunnelCreated then ConnectorReady else j.stage))
  }

  function RecordDomain<D>(j: Journal<D>, index: int, id: string): Option<Journal<D>> {
    if (j.stage != ConnectorReady && j.stage != DomainsReady) || index < 0 || index >= |j.domains| || !ValidToken(id) then None
    else if j.domains[index].id.Some? && j.domains[index].id != Some(id) then None
    else
      var ds := j.domains[index := j.domains[index].(id := Some(id), stage := DomainsReady)];
      Some(j.(domains := ds, stage := if AllRecorded(ds) then DomainsReady else j.stage))
  }

  /** A journal may go once nothing was created, or once everything asked for is recorded. */
  predicate CanComplete<D>(j: Journal<D>) {
    if j.created.None? then j.stage == Prepared
    else if j.stage == Prepared || j.stage == TunnelCreated then false
    else if j.domains == [] then j.stage == ConnectorReady
    else j.stage == DomainsReady
  }

  /** What no check asks but every record keeps: the last domain moves the journal on. */
  predicate Settled<D>(j: Journal<D>) {
    j.domains != [] && AllRecorded(j.domains) ==> j.stage == DomainsReady
  }

  function Rank(s: Stage): nat {
    match s case Prepared => 0 case TunnelCreated => 1 case ConnectorReady => 2 case DomainsReady => 3
  }

  /** A later state of the same journal: the request, the keys and the expiry are fixed, stages
      only advance, and an identifier once recorded stays. */
  ghost predicate Extends<D(!new)>(j: Journal<D>, k: Journal<D>) {
    && j.digest == k.digest && j.tunnelKey == k.tunnelKey && j.expires == k.expires && |j.domains| == |k.domains|
    && Rank(j.stage) <= Rank(k.stage)
    && (j.created.Some? ==> k.created == j.created)
    && forall i :: 0 <= i < |j.domains| ==>
         j.domains[i].key == k.domains[i].key && (j.domains[i].id.Some? ==> k.domains[i].id == j.domains[i].id)
  }

  /** A record that goes through leaves a valid journal that extends the one before: the check
      made before every write never fails. */
  lemma RecordsExtend<D(!new)>(j: Journal<D>, tunnelID: string, operationID: string, index: int, id: string)
    requires Valid(j) && Settled(j)
    ensures RecordTunnel(j, tunnelID, operationID).Some? ==>
              var k := RecordTunnel(j, tunnelID, operationID).value; Valid(k) && Settled(k) && Extends(j, k) && Rank(k.stage) >= 1
    ensures RecordConnectorReady(j).Some? ==>
              var k := RecordConnectorReady(j).value; Valid(k) && Settled(k) && Extends(j, k) && Rank(k.stage) >= 2
    ensures RecordDomain(j, index, id).Some? ==>
              var k := RecordDomain(j, index, id).value; Valid(k) && Settled(k) && Extends(j, k) && k.domains[index].id == Some(id)
  {
    if RecordDomain(j, index, id).Some? {
      var k := RecordDomain(j, index, id).value;
      assert j.stage == DomainsReady ==> AllRecorded(k.domains);
      forall i | 0 <= i < |k.domains| ensures ValidDomain(k.domains[i]) { assert ValidDomain(j.domains[i]); }
    }
  }

  lemma ExtendsTransitive<D(!new)>(a: Journal<D>, b: Journal<D>, c: Journal<D>)
    requires Extends(a, b) && Extends(b, c)
    ensures Extends(a, c)
  {
  }

  // ---------------------------------------------------------------- the session

  /** How an atomic replacement of the journal file ends: `Unconfirmed` when the new file is in place
      but syncing its directory failed, so that the caller sees an error. */
  datatype Write = Saved | Failed | Unconfirmed

  /** The journal held by a running command, and its file. */
  class Session<D(==, !new)> {
    var journal: Journal<D>
    var file: Option<Journal<D>>

    ghost predicate Open() reads this {
      Valid(journal) && Settled(journal) && file == Some(journal)
    }

    constructor (j: Journal<D>)
      requires Valid(j) && Settled(j)
      ensures Open() && journal == j
    {
      journal, file := j, Some(j);
    }

    /** `written` says that the file is the new record, `ok` that this is known. A failure puts the held
        journal back. */
    method Update(next: Option<Journal<D>>, write: Write) returns (ok: bool, written: bool)
      requires Open() && (next.Some? ==> Valid(next.value) && Settled(next.value) && Extends(journal, next.value))
      modifies this
      ensures written == (next.Some? && write != Failed) && ok == (written && write == Saved)
      ensures file == if written then next else Some(old(journal))
      ensures if ok then Open() else journal == old(journal)
    {
      ok, written := false, false;
      if next == None { return; }
      var previous := journal;
      journal := next.value;
      if write != Failed { file, written := next, true; }
      ok := write == Saved;
      if !ok { journal := previous; }
    }

    /** However a record ends, the file is a valid journal that takes back nothing of the one before. */
    method RecordTunnelAs(tunnelID: string, operationID: string, write: Write) returns (ok: bool, written: bool)
      requires Open()
      modifies this
      ensures file.Some? && Valid(file.value) && Extends(old(journal), file.value)
      ensures written <==> write != Failed && RecordTunnel(old(journal), tunnelID, operationID).Some?
      ensures written ==> file == RecordTunnel(old(journal), tunnelID, operationID) && file.value.created == Some((tunnelID, operationID))
      ensures ok == (written && write == Saved) && if ok then Open() else journal == old(journal)
      ensures !written ==> file == old(file)
    {
      RecordsExtend(journal, tunnelID, operationID, 0, "");
      ok, written := Update(RecordTunnel(journal, tunnelID, operationID), write);
    }

    method RecordReady(write: Write) returns (ok: bool, written: bool)
      requires Open()
      modifies this
      ensures file.Some? && Valid(file.value) && Extends(old(journal), file.value)
      ensures written <==> write != Failed && RecordConnectorReady(old(journal)).Some?
      ensures written ==> file == RecordConnectorReady(old(journal)) && Rank(file.value.stage) >= 2
      ensures ok == (written && write == Saved) && if ok then Open() else journal == old(journal)
      ensures !written ==> file == old(file)
    {
      RecordsExtend(journal, "", "", 0, "");
      ok, written := Update(RecordConnectorReady(journal), write);
    }

    method RecordDomainAt(index: int, id: string, write: Write) returns (ok: bool, written: bool)
      requires Open()
      modifies this
      ensures file.Some? && Valid(file.value) && Extends(old(journal), file.value)
      ensures written <==> write != Failed && RecordDomain(old(journal), index, id).Some?
      ensures written ==> file == RecordDomain(old(journal), index, id) && file.value.domains[index].id == Some(id)
      ensures ok == (written && write == Saved) && if ok then Open() else journal == old(journal)
      ensures !written ==> file == old(file)
    {
      RecordsExtend(journal, "", "", index, id);
      ok, written := Update(RecordDomain(journal, index, id), write);
    }

    /** Removes the file only if nothing was created, or if readiness and every domain are on record. */
    method Complete(removed: bool) returns (gone: bool)
      requires Open()
      modifies this
      ensures journal == old(journal)
      ensures gone ==> file == None && removed && (journal.created == None || (Rank(journal.stage) >= 2 && AllRecorded(journal.domains)))
      ensures !gone ==> file == old(file)
      ensures gone <==> removed && CanComplete(journal)
    {
      gone := CanComplete(journal) && removed;
      if gone { file := None; }
    }
  }
}
