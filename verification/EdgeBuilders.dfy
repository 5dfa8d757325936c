/** The three generators of edge configuration, as host, port and upstream records. */
module EdgeBuilders {
  import opened Common
  import opened RouteDedup
  import opened HopPorts
  import opened RouteNames

  const DEFAULT_BASE := 8095
  const DEFAULT_NODE := "127.0.0.1:8445"

  /** One plain-HTTP server of the shared hop. */
  datatype HopListener = HopListener(port: int, host: string, upstream: string)

  /** One public virtual host, with the port its sign-in callbacks bypass to, if any. */
  datatype VHost = VHost(host: string, bypass: Option<int>)

  datatype Body = Overlay(host: string, node: string) | Bypass(host: string, port: int, callbacks: seq<string>)

  datatype Object = Object(name: string, body: Body)

  datatype Opts = Opts(node: string, base: int, callbacks: seq<string>)

  function DefaultBase(base: int): int { if base == 0 then DEFAULT_BASE else base }

  function HopNames(routes: seq<Route>): seq<string> {
    if routes == [] then [] else
    HopNames(routes[..|routes| - 1]) + (if routes[|routes| - 1].mode.Hop? then [routes[|routes| - 1].service] else [])
  }

  method CollectHopNames(routes: seq<Route>) returns (names: seq<string>)
    ensures names == HopNames(routes)
  {
    names := [];
    for i := 0 to |routes|
      invariant names == HopNames(routes[..i])
    {
      assert routes[..i + 1][..i] == routes[..i];
      if routes[i].mode.Hop? { names := names + [routes[i].service]; }
    }
    assert routes[..|routes|] == routes;
  }

  lemma {:induction false} HopNamesExact(routes: seq<Route>, n: string)
    ensures n in HopNames(routes) <==> exists i :: 0 <= i < |routes| && routes[i].mode.Hop? && routes[i].service == n
  {
    if routes != [] {
      var k := |routes| - 1;
      HopNamesExact(routes[..k], n);
      assert routes == routes[..k] + [routes[k]];
    }
  }

  // ---- the hop ----

  function ListenerAt(routes: seq<Route>, base: int, i: nat): HopListener
    requires i < |routes|
  {
    HopListener(PortOf(HopNames(routes), DefaultBase(base), routes[i].service), routes[i].host, routes[i].upstream)
  }

  function ListenersAt(routes: seq<Route>, base: int): nat -> seq<HopListener> {
    (i: nat) => if i < |routes| && routes[i].mode.Hop? then [ListenerAt(routes, base, i)] else []
  }

  /** The listeners of the first k routes. */
  function Listeners(routes: seq<Route>, base: int, k: nat): seq<HopListener> { Concat(ListenersAt(routes, base), k) }

  method BuildHopConfig(routes: seq<Route>, base: int) returns (out: seq<HopListener>)
    ensures out == Listeners(routes, base, |routes|)
  {
    var names := CollectHopNames(routes);
    var ports := AssignHopPorts(names, DefaultBase(base));
    out := [];
    for k := 0 to |routes|
      invariant out == Listeners(routes, base, k)
    {
      var r := routes[k];
      if r.mode.Hop? {
        HopNamesExact(routes, r.service);
        out := out + [HopListener(ports[r.service], r.host, r.upstream)];
      }
    }
  }

  // ---- the public virtual hosts ----

  /** This builder does not default a zero base port. */
  function VHostAt(routes: seq<Route>, base: int, callbacks: seq<string>, i: nat): VHost
    requires i < |routes|
  {
    VHost(routes[i].host,
          if routes[i].mode.Hop? && callbacks != [] then Some(PortOf(HopNames(routes), base, routes[i].service))
          else None)
  }

  function VHostsAt(routes: seq<Route>, base: int, callbacks: seq<string>): nat -> seq<VHost> {
    (i: nat) => if i < |routes| && routes[i].host != "" then [VHostAt(routes, base, callbacks, i)] else []
  }

  /** The virtual hosts of the first k routes. */
  function VHosts(routes: seq<Route>, base: int, callbacks: seq<string>, k: nat): seq<VHost> {
    Concat(VHostsAt(routes, base, callbacks), k)
  }

  method BuildVHostConfig(routes: seq<Route>, base: int, callbacks: seq<string>) returns (out: seq<VHost>)
    ensures out == VHosts(routes, base, callbacks, |routes|)
  {
    var names := CollectHopNames(routes);
    var ports := AssignHopPorts(names, base);
    out := [];
    for k := 0 to |routes|
      invariant out == VHosts(routes, base, callbacks, k)
    {
      var r := routes[k];
      if r.host != "" {
        var bypass := None;
        if r.mode.Hop? && callbacks != [] {
          HopNamesExact(routes, r.service);
          bypass := Some(ports[r.service]);
        }
        out := out + [VHost(r.host, bypass)];
      }
    }
  }

  // ---- the gateway's route objects ----

  function WithDefaults(opts: Opts): Opts {
    Opts(if opts.node == "" then DEFAULT_NODE else opts.node, DefaultBase(opts.base), opts.callbacks)
  }

  function OverlayAt(routes: seq<Route>, opts: Opts, i: nat): Object
    requires i < |routes|
  {
    Object(OverlayName(routes[i].host), Overlay(routes[i].host, WithDefaults(opts).node))
  }

  function BypassAt(routes: seq<Route>, opts: Opts, i: nat): Object
    requires i < |routes|
  {
    Object(BypassName(routes[i].host),
           Bypass(routes[i].host, PortOf(HopNames(routes), DefaultBase(opts.base), routes[i].service), opts.callbacks))
  }

  predicate HasBypass(routes: seq<Route>, opts: Opts, i: nat)
    requires i < |routes|
  {
    routes[i].mode.Hop? && opts.callbacks != []
  }

  /** The builder's own guard: a hostname, and its first occurrence. */
  predicate Kept(routes: seq<Route>, i: nat)
    requires i < |routes|
  {
    routes[i].host != "" && forall j :: 0 <= j < i ==> routes[j].host != routes[i].host
  }

  function ObjectsAt(routes: seq<Route>, opts: Opts): nat -> seq<Object> {
    (i: nat) =>
      if i >= |routes| || !Kept(routes, i) then []
      else if HasBypass(routes, opts, i) then [OverlayAt(routes, opts, i), BypassAt(routes, opts, i)]
      else [OverlayAt(routes, opts, i)]
  }

  /** The objects of the first k routes. */
  function Objects(routes: seq<Route>, opts: Opts, k: nat): seq<Object> { Concat(ObjectsAt(routes, opts), k) }

  method BuildRoutes(routes: seq<Route>, given: Opts) returns (out: seq<Object>)
    ensures out == Objects(routes, given, |routes|)
  {
    var opts := WithDefaults(given);
    var names := CollectHopNames(routes);
    var ports := AssignHopPorts(names, opts.base);
    out := [];
    var seen: set<string> := {};
    for k := 0 to |routes|
      invariant seen == HostsOf(routes, k)
      invariant out == Objects(routes, given, k)
    {
      var r := routes[k];
      KeptIsNew(routes, k);
      if r.host != "" && r.host !in seen {
        seen := seen + {r.host};
        var objects := [Object(OverlayName(r.host), Overlay(r.host, opts.node))];
        if r.mode.Hop? && opts.callbacks != [] {
          HopNamesExact(routes, r.service);
          objects := objects + [Object(BypassName(r.host), Bypass(r.host, ports[r.service], opts.callbacks))];
        }
        out := out + objects;
      }
    }
  }

  function HostsOf(routes: seq<Route>, k: nat): set<string>
    requires k <= |routes|
  {
    set j | 0 <= j < k && routes[j].host != "" :: routes[j].host
  }

  lemma KeptIsNew(routes: seq<Route>, k: nat)
    requires k < |routes|
    ensures Kept(routes, k) <==> routes[k].host != "" && routes[k].host !in HostsOf(routes, k)
    ensures HostsOf(routes, k + 1) == HostsOf(routes, k) + if routes[k].host == "" then {} else {routes[k].host}
  {
  }

  predicate IsObjectOf(routes: seq<Route>, opts: Opts, i: nat, o: Object)
    requires i < |routes|
  {
    && Kept(routes, i)
    && (o == OverlayAt(routes, opts, i) || (HasBypass(routes, opts, i) && o == BypassAt(routes, opts, i)))
  }

  lemma ObjectsExact(routes: seq<Route>, opts: Opts, k: nat, o: Object)
    requires k <= |routes|
    ensures o in Objects(routes, opts, k) <==> exists i :: 0 <= i < k && IsObjectOf(routes, opts, i, o)
  {
    ConcatExact(ObjectsAt(routes, opts), k, o);
    forall i | 0 <= i < k ensures o in ObjectsAt(routes, opts)(i) <==> IsObjectOf(routes, opts, i, o) {}
  }

  /** On routes with distinct hosts, as the dedup leaves them, the guard drops nothing. */
  lemma GuardDropsNothing(routes: seq<Route>, i: nat)
    requires i < |Dedup(routes)| && Dedup(routes)[i].host != ""
    ensures Kept(Dedup(routes), i)
  {
    DedupHosts(routes);
  }

  lemma ListenersExact(routes: seq<Route>, base: int, k: nat, l: HopListener)
    requires k <= |routes|
    ensures l in Listeners(routes, base, k) <==>
            exists i :: 0 <= i < k && routes[i].mode.Hop? && l == ListenerAt(routes, base, i)
  {
    ConcatExact(ListenersAt(routes, base), k, l);
    forall i | 0 <= i < k
      ensures l in ListenersAt(routes, base)(i) <==> routes[i].mode.Hop? && l == ListenerAt(routes, base, i) {}
  }

  lemma VHostsExact(routes: seq<Route>, base: int, callbacks: seq<string>, k: nat, v: VHost)
    requires k <= |routes|
    ensures v in VHosts(routes, base, callbacks, k) <==>
            exists i :: 0 <= i < k && routes[i].host != "" && v == VHostAt(routes, base, callbacks, i)
  {
    ConcatExact(VHostsAt(routes, base, callbacks), k, v);
    forall i | 0 <= i < k
      ensures v in VHostsAt(routes, base, callbacks)(i) <==>
              routes[i].host != "" && v == VHostAt(routes, base, callbacks, i) {}
  }

  /** The one listener of a host, in the hop config. */
  ghost predicate TheListener(routes: seq<Route>, base: int, host: string, l: HopListener) {
    forall x :: x in Listeners(routes, base, |routes|) && x.host == host <==> x == l
  }

  /** The one bypass object of a host, among the gateway objects. */
  ghost predicate TheBypass(routes: seq<Route>, opts: Opts, host: string, o: Object) {
    forall x :: x in Objects(routes, opts, |routes|) && x.body.Bypass? && x.body.host == host <==> x == o
  }

  /** The one virtual host of a host. */
  ghost predicate TheVHost(routes: seq<Route>, base: int, callbacks: seq<string>, host: string, v: VHost) {
    forall x :: x in VHosts(routes, base, callbacks, |routes|) && x.host == host <==> x == v
  }

  /** With distinct hosts, what the three builders emit for a host comes from its one route. */
  lemma EmittedFor(routes: seq<Route>, opts: Opts, i: nat)
    requires HostsDistinct(routes) && i < |routes| && routes[i].host != "" && routes[i].mode.Hop?
    requires opts.callbacks != []
    ensures TheListener(routes, opts.base, routes[i].host, ListenerAt(routes, opts.base, i))
    ensures TheBypass(routes, opts, routes[i].host, BypassAt(routes, opts, i))
    ensures TheVHost(routes, opts.base, opts.callbacks, routes[i].host, VHostAt(routes, opts.base, opts.callbacks, i))
  {
    forall j | 0 <= j < |routes| && routes[j].host == routes[i].host ensures j == i {}
    forall x ensures x in Listeners(routes, opts.base, |routes|) && x.host == routes[i].host <==>
                     x == ListenerAt(routes, opts.base, i) {
      ListenersExact(routes, opts.base, |routes|, x);
    }
    forall x ensures x in VHosts(routes, opts.base, opts.callbacks, |routes|) && x.host == routes[i].host <==>
                     x == VHostAt(routes, opts.base, opts.callbacks, i) {
      VHostsExact(routes, opts.base, opts.callbacks, |routes|, x);
    }
    assert Kept(routes, i) && IsObjectOf(routes, opts, i, BypassAt(routes, opts, i));
    forall x ensures x in Objects(routes, opts, |routes|) && x.body.Bypass? && x.body.host == routes[i].host <==>
                     x == BypassAt(routes, opts, i) {
      ObjectsExact(routes, opts, |routes|, x);
    }
  }

  /**
   For a hop route of a deduplicated list, the hop config, the gateway objects and the public
   virtual hosts each have exactly one entry for its host. The listener and the gateway's
   bypass carry one port, whatever the base; the virtual host carries it too exactly when the
   base port is not zero.
   */
  lemma PortsAgree(routes: seq<Route>, opts: Opts, i: nat)
    requires HostsDistinct(routes) && i < |routes| && routes[i].host != "" && routes[i].mode.Hop?
    requires opts.callbacks != []
    ensures exists l, o, v ::
              && TheListener(routes, opts.base, routes[i].host, l) && TheBypass(routes, opts, routes[i].host, o)
              && TheVHost(routes, opts.base, opts.callbacks, routes[i].host, v)
              && o.body.Bypass? && o.body.port == l.port && (v.bypass == Some(l.port) <==> opts.base != 0)
  {
    EmittedFor(routes, opts, i);
    var l, o := ListenerAt(routes, opts.base, i), BypassAt(routes, opts, i);
    var v := VHostAt(routes, opts.base, opts.callbacks, i);
    assert TheListener(routes, opts.base, routes[i].host, l) && TheBypass(routes, opts, routes[i].host, o);
    assert TheVHost(routes, opts.base, opts.callbacks, routes[i].host, v);
    assert o.body.Bypass? && o.body.port == l.port && (v.bypass == Some(l.port) <==> opts.base != 0);
  }

  /** Two hop listeners share a port exactly when their routes share a service, and the ports
      fill a range no longer than the list of services. */
  lemma ListenerPorts(routes: seq<Route>, base: int, i: nat, j: nat)
    requires i < |routes| && j < |routes| && routes[i].mode.Hop? && routes[j].mode.Hop?
    ensures ListenerAt(routes, base, i) in Listeners(routes, base, |routes|)
    ensures ListenerAt(routes, base, i).port == ListenerAt(routes, base, j).port <==>
            routes[i].service == routes[j].service
    ensures DefaultBase(base) <= ListenerAt(routes, base, i).port < DefaultBase(base) + |HopNames(routes)|
  {
    ListenersExact(routes, base, |routes|, ListenerAt(routes, base, i));
    HopNamesExact(routes, routes[i].service);
    HopNamesExact(routes, routes[j].service);
    PortsOrdered(HopNames(routes), DefaultBase(base), routes[i].service, routes[j].service);
  }

  // ---- last write wins ----

  function LastBodies(objects: seq<Object>): map<string, Body> {
    if objects == [] then map[] else
    LastBodies(objects[..|objects| - 1])[objects[|objects| - 1].name := objects[|objects| - 1].body]
  }

  lemma {:induction false} LastBodiesExact(objects: seq<Object>, name: string)
    ensures name in LastBodies(objects) <==> exists o :: o in objects && o.name == name
    ensures name in LastBodies(objects) ==> Object(name, LastBodies(objects)[name]) in objects
  {
    if objects != [] {
      var rest, last := objects[..|objects| - 1], objects[|objects| - 1];
      LastBodiesExact(rest, name);
      assert objects == rest + [last];
      if last.name == name {
        assert last in objects && last == Object(name, LastBodies(objects)[name]);
      } else {
        assert forall o :: o in objects && o.name == name ==> o in rest;
      }
    }
  }

  /** The object after which no other bears its name is the one that stays. */
  lemma {:induction false} LastWriteStays(objects: seq<Object>, i: nat)
    requires i < |objects| && forall k :: i < k < |objects| ==> objects[k].name != objects[i].name
    ensures objects[i].name in LastBodies(objects) && LastBodies(objects)[objects[i].name] == objects[i].body
  {
    if i < |objects| - 1 { LastWriteStays(objects[..|objects| - 1], i); }
  }

  /** Two routes whose objects compete for one name. */
  predicate Clash(routes: seq<Route>, opts: Opts, i: nat, j: nat)
    requires i < |routes| && j < |routes|
  {
    && i != j && routes[i].host != "" && routes[j].host != ""
    && (Slug(routes[i].host) == Slug(routes[j].host)
        || (HasBypass(routes, opts, i) && Slug(routes[j].host) == Slug(routes[i].host) + BYPASS_SUFFIX))
  }

  ghost predicate AllServed(objects: seq<Object>) {
    forall o :: o in objects ==> o.name in LastBodies(objects) && LastBodies(objects)[o.name] == o.body
  }

  /** Without a clash, a name stands for one object. */
  lemma SameNameSameObject(routes: seq<Route>, opts: Opts, o: Object, p: Object)
    requires forall i, j :: 0 <= i < |routes| && 0 <= j < |routes| ==> !Clash(routes, opts, i, j)
    requires o in Objects(routes, opts, |routes|) && p in Objects(routes, opts, |routes|) && o.name == p.name
    ensures o == p
  {
    ObjectsExact(routes, opts, |routes|, o);
    ObjectsExact(routes, opts, |routes|, p);
    var i :| 0 <= i < |routes| && IsObjectOf(routes, opts, i, o);
    var j :| 0 <= j < |routes| && IsObjectOf(routes, opts, j, p);
    NamesInjective(routes[i].host, routes[j].host);
    NamesInjective(routes[j].host, routes[i].host);
    assert !Clash(routes, opts, i, j) && !Clash(routes, opts, j, i);
  }

  /** Every object built is the one its name ends up with, exactly when no two hosts clash. */
  lemma ServedExactly(routes: seq<Route>, opts: Opts)
    requires HostsDistinct(routes)
    ensures AllServed(Objects(routes, opts, |routes|)) <==>
            forall i, j :: 0 <= i < |routes| && 0 <= j < |routes| ==> !Clash(routes, opts, i, j)
  {
    var objects := Objects(routes, opts, |routes|);
    if i, j :| 0 <= i < |routes| && 0 <= j < |routes| && Clash(routes, opts, i, j) {
      ClashLoses(routes, opts, i, j);
    } else {
      forall o | o in objects ensures o.name in LastBodies(objects) && LastBodies(objects)[o.name] == o.body {
        LastBodiesExact(objects, o.name);
        SameNameSameObject(routes, opts, o, Object(o.name, LastBodies(objects)[o.name]));
      }
    }
  }

  lemma ClashLoses(routes: seq<Route>, opts: Opts, i: nat, j: nat)
    requires HostsDistinct(routes) && i < |routes| && j < |routes| && Clash(routes, opts, i, j)
    ensures !AllServed(Objects(routes, opts, |routes|))
  {
    var objects := Objects(routes, opts, |routes|);
    assert Kept(routes, i) && Kept(routes, j);
    NamesInjective(routes[i].host, routes[j].host);
    NamesInjective(routes[j].host, routes[i].host);
    var same := Slug(routes[i].host) == Slug(routes[j].host);
    var a := if same then OverlayAt(routes, opts, i) else BypassAt(routes, opts, i);
    var b := OverlayAt(routes, opts, j);
    assert a.name == b.name && a.body != b.body;
    assert IsObjectOf(routes, opts, i, a) && IsObjectOf(routes, opts, j, b);
    ObjectsExact(routes, opts, |routes|, a);
    ObjectsExact(routes, opts, |routes|, b);
  }
}
