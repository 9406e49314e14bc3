/** Adding and updating tunnel routes: many flags are merged into a route that must stay well
    formed. */
module TunnelRoute {
  import opened Common

  datatype Scheme = Http | Https | H2c | Unix | Tcp

  datatype Protocol = HttpRoute | TcpPrivate | UnknownProtocol

  datatype Verification = System | CustomCA | InsecureDevelopment | UnknownVerification

  datatype HostMatch = CatchAll | Exact(hostname: string) | OneLabelWildcard(hostname: string)

  datatype Tls = Tls(verification: Verification, serverName: Option<string>, ca: Option<string>, client: Option<string>)

  datatype Origin = Origin(scheme: Scheme, address: string, preserveHost: bool, hostOverride: Option<string>, tls: Option<Tls>)

  datatype Limits = Limits(priority: int, connectMs: int, idleMs: int, streams: int)

  datatype Route = Route(name: string, protocol: Protocol, host: HostMatch, path: Option<string>, origin: Origin,
                         limits: Limits, active: bool)

  // ---------------------------------------------------------------- well-formed routes

  predicate TlsFits(o: Origin) {
    && (o.tls.Some? <==> o.scheme == Https)
    && (o.tls.Some? ==> (o.tls.value.verification == CustomCA <==> o.tls.value.ca.Some?))
  }

  predicate ProtocolFits(r: Route) {
    && r.protocol != UnknownProtocol
    && (r.protocol == TcpPrivate ==> r.origin.scheme == Tcp && r.host == CatchAll && r.path == None)
    && (r.protocol == HttpRoute ==> r.origin.scheme != Tcp)
  }

  predicate LimitsFit(l: Limits) {
    0 <= l.priority <= 1000000 && 100 <= l.connectMs <= 120000 && 1000 <= l.idleMs <= 3600000 && 1 <= l.streams <= 10000
  }

  predicate WellFormed(r: Route) {
    TlsFits(r.origin) && ProtocolFits(r) && LimitsFit(r.limits)
  }

  // ---------------------------------------------------------------- flags

  /** The flags about the origin; Some means given on the command line. */
  datatype OriginFlags = OriginFlags(preserveHost: Option<bool>, hostHeader: Option<string>, clearHostHeader: Option<bool>,
                                     verification: Option<Verification>, serverName: Option<string>, clearServerName: Option<bool>,
                                     ca: Option<string>, clearCa: Option<bool>, client: Option<string>, clearClient: Option<bool>)
  {
    predicate TlsGiven() {
      verification.Some? || serverName.Some? || clearServerName.Some? || ca.Some? || clearCa.Some? || client.Some? || clearClient.Some?
    }

    predicate Given() {
      preserveHost.Some? || hostHeader.Some? || clearHostHeader.Some? || TlsGiven()
    }
  }

  /** The text checks of the command line: valid host, blank text, name, hostname (whether it is a
      wildcard, and its lower-case form), path, origin. */
  datatype Checks = Checks(validHost: string -> bool, blank: string -> bool, validName: string -> bool,
                           hostname: string -> Option<(bool, string)>, path: string -> Option<string>,
                           origin: string -> Option<(Scheme, string)>)

  function HostOf(c: Checks, domain: string): Option<HostMatch> {
    if domain == "" then Some(CatchAll)
    else match c.hostname(domain)
      case None => None
      case Some((wildcard, name)) => Some(if wildcard then OneLabelWildcard(name) else Exact(name))
  }

  predicate IsSet(flag: Option<bool>) {
    flag == Some(true)
  }

  /** A value, its removal, or what was there. */
  function Merge<T>(given: Option<T>, clear: Option<bool>, prior: Option<T>): Option<T> {
    if given.Some? then given else if IsSet(clear) then None else prior
  }

  // ---------------------------------------------------------------- what the flags ask for

  /** Each flag has a proper value, and no value comes with its removal. */
  predicate OriginFlagsOk(c: Checks, f: OriginFlags, scheme: Scheme) {
    && (f.hostHeader.Some? ==> c.validHost(f.hostHeader.value) && !IsSet(f.clearHostHeader))
    && (scheme != Https ==> !f.TlsGiven())
    && f.verification != Some(UnknownVerification)
    && (f.serverName.Some? ==> c.validHost(f.serverName.value) && !IsSet(f.clearServerName))
    && (f.ca.Some? ==> !c.blank(f.ca.value) && !IsSet(f.clearCa))
    && (f.client.Some? ==> !c.blank(f.client.value) && !IsSet(f.clearClient))
  }

  /** A CA reference brings custom verification with it, and its removal takes it away. */
  function MergedVerification(f: OriginFlags, prior: Verification): Verification {
    if f.ca.Some? then CustomCA
    else
      var v := if f.verification.Some? then f.verification.value else prior;
      if IsSet(f.clearCa) && v == CustomCA then System else v
  }

  function MergedTls(f: OriginFlags, prior: Option<Tls>): Tls {
    var base := if prior.Some? then prior.value else Tls(System, None, None, None);
    Tls(MergedVerification(f, base.verification), Merge(f.serverName, f.clearServerName, base.serverName),
        Merge(f.ca, f.clearCa, base.ca), Merge(f.client, f.clearClient, base.client))
  }

  function MergedOrigin(f: OriginFlags, o: Origin): Origin {
    Origin(o.scheme, o.address, if f.preserveHost.Some? then f.preserveHost.value else o.preserveHost,
           Merge(f.hostHeader, f.clearHostHeader, o.hostOverride),
           if o.scheme == Https then Some(MergedTls(f, o.tls)) else None)
  }

  // ---------------------------------------------------------------- applying the origin flags

  /** The TLS settings as the source holds them: a record that routes point to. */
  class TlsRecord {
    var verification: Verification
    var serverName: Option<string>
    var ca: Option<string>
    var client: Option<string>

    constructor (t: Tls)
      ensures View() == t
    {
      verification, serverName, ca, client := t.verification, t.serverName, t.ca, t.client;
    }

    function View(): Tls reads this {
      Tls(verification, serverName, ca, client)
    }
  }

  function ViewTls(t: TlsRecord?): Option<Tls>
    reads t
  {
    if t == null then None else Some(t.View())
  }

  /** The flags are applied to a copy of the TLS record, which is new; the record passed in keeps
      its contents. The merge succeeds exactly when every flag is in order and the outcome fits. */
  method ApplyOriginFlags(c: Checks, f: OriginFlags, o: Origin, tls: TlsRecord?)
    returns (ok: bool, r: Origin, rtls: TlsRecord?)
    requires o.tls == ViewTls(tls)
    ensures ok ==> r == MergedOrigin(f, o) && r.tls == ViewTls(rtls) && TlsFits(r)
    ensures ok <==> OriginFlagsOk(c, f, o.scheme) && TlsFits(MergedOrigin(f, o))
    ensures rtls != null ==> fresh(rtls)
  {
    r, rtls, ok := o, null, false;
    if f.preserveHost.Some? { r := r.(preserveHost := f.preserveHost.value); }
    if f.hostHeader.Some? && IsSet(f.clearHostHeader) { return; }
    if f.hostHeader.Some? {
      if !c.validHost(f.hostHeader.value) { return; }
      r := r.(hostOverride := f.hostHeader);
    } else if IsSet(f.clearHostHeader) {
      r := r.(hostOverride := None);
    }
    if o.scheme != Https {
      if f.TlsGiven() { return; }
      r := r.(tls := None);
      ok := true;
      return;
    }
    var copied := if tls == null then Tls(System, None, None, None) else tls.View();
    var copy := new TlsRecord(copied);
    ok := ApplyTlsFlags(c, f, copy);
    if ok {
      rtls := copy;
      r := r.(tls := Some(copy.View()));
    }
  }

  /** The TLS flags, one after the other, on the copy. */
  method ApplyTlsFlags(c: Checks, f: OriginFlags, t: TlsRecord) returns (ok: bool)
    modifies t
    ensures ok ==> t.View() == MergedTls(f, Some(old(t.View())))
    ensures ok <==> OriginFlagsOk(c, f.(hostHeader := None), Https)
                    && var m := MergedTls(f, Some(old(t.View()))); m.verification == CustomCA <==> m.ca.Some?
  {
    ok := false;
    if f.verification.Some? {
      t.verification := f.verification.value;
      if t.verification == UnknownVerification { return; }
    }
    if f.serverName.Some? && IsSet(f.clearServerName) { return; }
    if f.serverName.Some? {
      if !c.validHost(f.serverName.value) { return; }
      t.serverName := f.serverName;
    } else if IsSet(f.clearServerName) {
      t.serverName := None;
    }
    if f.ca.Some? && IsSet(f.clearCa) { return; }
    if f.ca.Some? {
      if c.blank(f.ca.value) { return; }
      t.ca := f.ca;
      t.verification := CustomCA;
    } else if IsSet(f.clearCa) {
      t.ca := None;
      if t.verification == CustomCA { t.verification := System; }
    }
    if f.client.Some? && IsSet(f.clearClient) { return; }
    if f.client.Some? {
      if c.blank(f.client.value) { return; }
      t.client := f.client;
    } else if IsSet(f.clearClient) {
      t.client := None;
    }
    if t.verification != CustomCA && t.ca != None { return; }
    if t.verification == CustomCA && t.ca == None { return; }
    ok := true;
  }

  // ---------------------------------------------------------------- adding a route

  /** A route with the TLS record its origin points to. */
  datatype Stored = Stored(route: Route, tls: TlsRecord?)
  {
    ghost predicate Valid() reads tls {
      route.origin.tls == ViewTls(tls)
    }
  }

  datatype AddFlags = AddFlags(name: string, protocol: Protocol, domain: string, to: string, path: string,
                               limits: Limits, preserveHost: bool, origin: OriginFlags)

  /** The route that the flags of `route add` describe; None when a text flag is invalid. */
  function Described(c: Checks, f: AddFlags): Option<Route> {
    var origin := c.origin(f.to);
    var host := HostOf(c, f.domain);
    var path := if f.path == "" then Some(None) else match c.path(f.path) { case None => None case Some(p) => Some(Some(p)) };
    if origin == None || host == None || path == None || !c.validName(f.name) then None
    else
      var o := Origin(origin.value.0, origin.value.1, f.preserveHost, None, None);
      Some(Route(f.name, f.protocol, host.value, path.value, MergedOrigin(f.origin, o), f.limits, true))
  }

  /** The route an add command creates, with the checks the command makes. */
  function Added(c: Checks, f: AddFlags): Option<Route> {
    match Described(c, f)
    case None => None
    case Some(r) =>
      if r.protocol == UnknownProtocol || !LimitsFit(r.limits) || Refused(r) then None
      else if !OriginFlagsOk(c, f.origin, r.origin.scheme) || !TlsFits(r.origin) then None
      else Some(r)
  }

  lemma AddExact(c: Checks, f: AddFlags)
    ensures Added(c, f).Some? <==>
            (Described(c, f).Some? && WellFormed(Described(c, f).value) && OriginFlagsOk(c, f.origin, Described(c, f).value.origin.scheme))
    ensures Added(c, f).Some? ==> Added(c, f) == Described(c, f) && WellFormed(Added(c, f).value)
  {
  }

  method RouteAdd(c: Checks, f: AddFlags) returns (ok: bool, s: Stored)
    ensures (if ok then Some(s.route) else None) == Added(c, f)
    ensures ok ==> s.Valid()
  {
    ok := false;
    s := Stored(Route("", UnknownProtocol, CatchAll, None, Origin(Http, "", false, None, None), Limits(0, 0, 0, 0), false), null);
    var split := c.origin(f.to);
    if split == None { return; }
    var scheme, address := split.value.0, split.value.1;
    if !c.validName(f.name) { return; }
    if f.protocol != HttpRoute && f.protocol != TcpPrivate { return; }
    var path: Option<string> := None;
    if f.path != "" {
      path := c.path(f.path);
      if path == None { return; }
    }
    if !LimitsFit(f.limits) { return; }
    var host := CatchAll;
    if f.domain != "" {
      var named := c.hostname(f.domain);
      if named == None { return; }
      host := if named.value.0 then OneLabelWildcard(named.value.1) else Exact(named.value.1);
    }
    if f.protocol == TcpPrivate && (f.domain != "" || path != None || scheme != Tcp) { return; }
    if f.protocol == HttpRoute && scheme == Tcp { return; }
    var tls: TlsRecord? := null;
    if scheme == Https { tls := new TlsRecord(Tls(System, None, None, None)); }
    var o, rtls;
    ok, o, rtls := ApplyOriginFlags(c, f.origin, Origin(scheme, address, f.preserveHost, None, ViewTls(tls)), tls);
    s := Stored(Route(f.name, f.protocol, host, path, o, f.limits, true), rtls);
  }

  // ---------------------------------------------------------------- updating a route

  datatype LimitFlags = LimitFlags(priority: Option<int>, connectMs: Option<int>, idleMs: Option<int>, streams: Option<int>)
  {
    predicate Given() {
      priority.Some? || connectMs.Some? || idleMs.Some? || streams.Some?
    }

    predicate Ok() {
      InRange(priority, 0, 1000000) && InRange(connectMs, 100, 120000) && InRange(idleMs, 1000, 3600000) && InRange(streams, 1, 10000)
    }

    function Over(l: Limits): Limits {
      Limits(Or(priority, l.priority), Or(connectMs, l.connectMs), Or(idleMs, l.idleMs), Or(streams, l.streams))
    }
  }

  datatype UpdateFlags = UpdateFlags(name: Option<string>, to: Option<string>, protocol: Option<Protocol>, domain: Option<string>,
                                     path: Option<string>, clearPath: bool, limits: LimitFlags, enable: bool, disable: bool,
                                     origin: OriginFlags)
  {
    predicate Given() {
      name.Some? || to.Some? || protocol.Some? || domain.Some? || path.Some? || clearPath || limits.Given()
      || enable || disable || origin.Given()
    }
  }

  /** The patch sent to the server: only the fields to change. */
  datatype Patch = Patch(name: Option<string>, origin: Option<Origin>, protocol: Option<Protocol>, host: Option<HostMatch>,
                         path: Option<Option<string>>, limits: LimitFlags, active: Option<bool>)

  const NO_LIMITS := LimitFlags(None, None, None, None)

  const EMPTY_PATCH := Patch(None, None, None, None, None, NO_LIMITS, None)

  function Or<T>(given: Option<T>, prior: T): T {
    if given.Some? then given.value else prior
  }

  predicate InRange(v: Option<int>, lo: int, hi: int) {
    v.Some? ==> lo <= v.value <= hi
  }

  /** The route after the server has applied a patch. */
  function Patched(r: Route, p: Patch): Route {
    Route(Or(p.name, r.name), Or(p.protocol, r.protocol), Or(p.host, r.host), Or(p.path, r.path), Or(p.origin, r.origin),
          p.limits.Over(r.limits), Or(p.active, r.active))
  }

  /** The flags outside the origin have proper values and do not contradict one another. */
  predicate PlainFlagsOk(c: Checks, f: UpdateFlags) {
    && f.Given()
    && (f.name.Some? ==> c.validName(f.name.value)) && (f.to.Some? ==> c.origin(f.to.value).Some?)
    && f.protocol != Some(UnknownProtocol) && (f.domain.Some? ==> HostOf(c, f.domain.value).Some?)
    && (f.path.Some? ==> c.path(f.path.value).Some? && !f.clearPath)
    && f.limits.Ok() && !(f.enable && f.disable)
  }

  /** The origin a `--to` flag asks for, with everything else kept. */
  function Retargeted(c: Checks, f: UpdateFlags, o: Origin): Origin {
    if f.to.Some? && c.origin(f.to.value).Some? then
      o.(scheme := c.origin(f.to.value).value.0, address := c.origin(f.to.value).value.1)
    else o
  }

  /** The route that the flags of `route update` describe, field by field. */
  function Requested(c: Checks, f: UpdateFlags, r: Route): Route
    requires PlainFlagsOk(c, f)
  {
    Route(Or(f.name, r.name), Or(f.protocol, r.protocol),
          if f.domain.Some? then HostOf(c, f.domain.value).value else r.host,
          if f.path.Some? then c.path(f.path.value) else if f.clearPath then None else r.path,
          if f.to.Some? || f.origin.Given() then MergedOrigin(f.origin, Retargeted(c, f, r.origin)) else r.origin,
          f.limits.Over(r.limits),
          if f.enable then true else if f.disable then false else r.active)
  }

  /** The part of the patch that needs no current route. */
  function PlainPatchOf(c: Checks, f: UpdateFlags): Patch {
    Patch(f.name, None, f.protocol, if f.domain.Some? then HostOf(c, f.domain.value) else None,
          if f.path.Some? then Some(c.path(f.path.value)) else if f.clearPath then Some(None) else None,
          f.limits, if f.enable || f.disable then Some(!f.disable) else None)
  }

  lemma PlainPatchMeans(c: Checks, f: UpdateFlags, r: Route)
    requires PlainFlagsOk(c, f)
    ensures Patched(r, PlainPatchOf(c, f)) == Requested(c, f, r).(origin := r.origin)
  {
  }

  method LimitPatch(f: LimitFlags) returns (ok: bool, l: LimitFlags)
    ensures ok == f.Ok() && (ok ==> l == f)
  {
    ok, l := false, NO_LIMITS;
    if f.priority.Some? {
      if f.priority.value < 0 || f.priority.value > 1000000 { return; }
      l := l.(priority := f.priority);
    }
    if f.connectMs.Some? {
      if f.connectMs.value < 100 || f.connectMs.value > 120000 { return; }
      l := l.(connectMs := f.connectMs);
    }
    if f.idleMs.Some? {
      if f.idleMs.value < 1000 || f.idleMs.value > 3600000 { return; }
      l := l.(idleMs := f.idleMs);
    }
    if f.streams.Some? {
      if f.streams.value < 1 || f.streams.value > 10000 { return; }
      l := l.(streams := f.streams);
    }
    ok := true;
  }

  /** The first half of the command: the flags that need no current route. */
  method PlainPatch(c: Checks, f: UpdateFlags) returns (ok: bool, p: Patch)
    ensures ok <==> PlainFlagsOk(c, f)
    ensures ok ==> p == PlainPatchOf(c, f)
  {
    ok, p := false, EMPTY_PATCH;
    if f.name.Some? {
      if !c.validName(f.name.value) { return; }
      p := p.(name := f.name);
    }
    if f.to.Some? && c.origin(f.to.value) == None { return; }
    if f.protocol.Some? {
      if f.protocol.value != HttpRoute && f.protocol.value != TcpPrivate { return; }
      p := p.(protocol := f.protocol);
    }
    if f.domain.Some? {
      if HostOf(c, f.domain.value) == None { return; }
      p := p.(host := HostOf(c, f.domain.value));
    }
    if f.path.Some? {
      if c.path(f.path.value) == None { return; }
      p := p.(path := Some(c.path(f.path.value)));
    }
    if f.clearPath {
      if f.path.Some? { return; }
      p := p.(path := Some(None));
    }
    var fit, limits := LimitPatch(f.limits);
    if !fit { return; }
    p := p.(limits := limits);
    if f.enable && f.disable { return; }
    if f.enable || f.disable { p := p.(active := Some(!f.disable)); }
    if !f.Given() { return; }
    ok := true;
  }

  /** The last check of the command, on the route as it would become. */
  predicate Refused(r: Route) {
    || (r.protocol == TcpPrivate && (r.origin.scheme != Tcp || r.host != CatchAll || r.path != None))
    || (r.protocol == HttpRoute && r.origin.scheme == Tcp)
  }

  predicate OriginTouched(f: UpdateFlags) {
    f.to.Some? || f.origin.Given()
  }

  /** The route an update command leaves, with the checks the command makes: the origin is looked
      at only when a flag touches it, the protocol always, the rest of the route never. */
  function Updated(c: Checks, f: UpdateFlags, r: Route): Option<Route> {
    if !PlainFlagsOk(c, f) then None
    else
      var o := Retargeted(c, f, r.origin);
      var next := Requested(c, f, r);
      if OriginTouched(f) && !(OriginFlagsOk(c, f.origin, o.scheme) && TlsFits(MergedOrigin(f.origin, o))) then None
      else if Refused(next) then None
      else Some(next)
  }

  /** The command computes exactly that, and what it sends makes exactly that route. The current
      route keeps its TLS record as it was. */
  method RouteUpdate(c: Checks, f: UpdateFlags, current: Stored) returns (ok: bool, p: Patch, tls: TlsRecord?)
    requires current.Valid()
    ensures current.Valid()
    ensures (if ok then Some(Patched(current.route, p)) else None) == Updated(c, f, current.route)
    ensures ok ==> Stored(Patched(current.route, p), if p.origin.Some? then tls else current.tls).Valid()
  {
    tls := null;
    ok, p := PlainPatch(c, f);
    if !ok { return; }
    PlainPatchMeans(c, f, current.route);
    if OriginTouched(f) {
      var origin := Retargeted(c, f, current.route.origin);
      var r;
      ok, r, tls := ApplyOriginFlags(c, f.origin, origin, current.tls);
      if !ok { return; }
      p := p.(origin := Some(r));
    }
    assert Patched(current.route, p) == Requested(c, f, current.route);
    ok := !Refused(Patched(current.route, p));
  }

  /** The partial checks are enough: on a well-formed route an update succeeds exactly when its
      flags are in order and the whole route it describes is well formed. */
  lemma UpdateExact(c: Checks, f: UpdateFlags, r: Route)
    requires WellFormed(r)
    ensures Updated(c, f, r).Some? <==>
            (PlainFlagsOk(c, f) && OriginFlagsOk(c, f.origin, Retargeted(c, f, r.origin).scheme) && WellFormed(Requested(c, f, r)))
    ensures Updated(c, f, r).Some? ==> WellFormed(Updated(c, f, r).value)
  {
    if PlainFlagsOk(c, f) {
      var next := Requested(c, f, r);
      assert LimitsFit(next.limits);
      assert next.protocol != UnknownProtocol;
      assert ProtocolFits(next) <==> !Refused(next);
      if !OriginTouched(f) { assert next.origin == r.origin; }
    }
  }

  /** Fields that no flag mentions keep their value. */
  lemma UpdateTouchesOnlyFlags(c: Checks, f: UpdateFlags, r: Route)
    requires Updated(c, f, r).Some?
    ensures var n := Updated(c, f, r).value;
            && (f.name == None ==> n.name == r.name) && (f.protocol == None ==> n.protocol == r.protocol)
            && (f.domain == None ==> n.host == r.host) && (f.path == None && !f.clearPath ==> n.path == r.path)
            && (!f.limits.Given() ==> n.limits == r.limits) && (!f.enable && !f.disable ==> n.active == r.active)
            && (!OriginTouched(f) ==> n.origin == r.origin)
            && (f.to == None && TlsFits(r.origin) && !f.origin.TlsGiven() ==> n.origin.tls == r.origin.tls)
  {
  }

  // ---------------------------------------------------------------- histories

  /** A route's history: created by a successful add, then changed by successful updates. */
  ghost predicate IsHistory(c: Checks, add: AddFlags, updates: seq<UpdateFlags>, routes: seq<Route>) {
    && |routes| == |updates| + 1 && Added(c, add) == Some(routes[0])
    && forall i :: 0 <= i < |updates| ==> Updated(c, updates[i], routes[i]) == Some(routes[i + 1])
  }

  /** Every route that adds and updates can ever make is well formed. */
  lemma {:induction false} HistoryWellFormed(c: Checks, add: AddFlags, updates: seq<UpdateFlags>, routes: seq<Route>, i: nat)
    requires IsHistory(c, add, updates, routes) && i < |routes|
    ensures WellFormed(routes[i])
    decreases i
  {
    if i == 0 {
      AddExact(c, add);
    } else {
      HistoryWellFormed(c, add, updates, routes, i - 1);
      UpdateExact(c, updates[i - 1], routes[i - 1]);
    }
  }
}
