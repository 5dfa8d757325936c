/** Collapsing routes that share a hostname to one canonical route per host. */
module RouteDedup {
  import opened Common

  datatype HostingMode = Identity | Direct | Hop

  datatype Route = Route(service: string, host: string, pathPrefix: string, landing: string,
                         upstream: string, mode: HostingMode)

  predicate IsRoot(r: Route) { r.pathPrefix == "" || r.pathPrefix == "/" }

  /** The first route of a host, or its first host-root route. */
  function FirstOf(routes: seq<Route>, host: string, rootOnly: bool): (i: Option<nat>)
    ensures i.Some? ==> i.value < |routes| && routes[i.value].host == host && (rootOnly ==> IsRoot(routes[i.value]))
    ensures forall j :: 0 <= j < |routes| && routes[j].host == host && (rootOnly ==> IsRoot(routes[j])) ==>
              i.Some? && i.value <= j
  {
    if routes == [] then None else
    var n := |routes| - 1;
    var earlier := FirstOf(routes[..n], host, rootOnly);
    if earlier.Some? then earlier
    else if routes[n].host == host && (rootOnly ==> IsRoot(routes[n])) then Some(n) else None
  }

  /** The route that speaks for a host: its first host-root route, else its first route. */
  function Canonical(routes: seq<Route>, host: string): Route
    requires FirstOf(routes, host, false).Some?
  {
    var root := FirstOf(routes, host, true);
    if root.Some? then routes[root.value] else routes[FirstOf(routes, host, false).value]
  }

  /** A position survives if its host is empty or occurs there first. */
  predicate IsHead(routes: seq<Route>, i: nat)
    requires i < |routes|
  {
    routes[i].host == "" || FirstOf(routes, routes[i].host, false) == Some(i)
  }

  function Heads(routes: seq<Route>): (heads: seq<nat>)
    ensures forall k :: 0 <= k < |heads| ==> heads[k] < |routes|
  {
    if routes == [] then [] else
    var n := |routes| - 1;
    if IsHead(routes, n) then Heads(routes[..n]) + [n] else Heads(routes[..n])
  }

  function Speaker(routes: seq<Route>, i: nat): Route
    requires i < |routes|
  {
    if routes[i].host == "" then routes[i] else Canonical(routes, routes[i].host)
  }

  /** The specification: each surviving position, in order, represented by its speaker. */
  function Dedup(routes: seq<Route>): seq<Route> {
    var heads := Heads(routes);
    seq(|heads|, k requires 0 <= k < |heads| => Speaker(routes, heads[k]))
  }

  ghost predicate HostsDistinct(routes: seq<Route>) {
    forall i, j :: 0 <= i < j < |routes| && routes[i].host != "" ==> routes[i].host != routes[j].host
  }

  lemma {:induction false} HeadsExact(routes: seq<Route>)
    ensures forall k, l :: 0 <= k < l < |Heads(routes)| ==> Heads(routes)[k] < Heads(routes)[l]
    ensures forall i :: 0 <= i < |routes| ==> (i in Heads(routes) <==> IsHead(routes, i))
  {
    if routes != [] {
      var n := |routes| - 1;
      HeadsExact(routes[..n]);
      forall i | 0 <= i < n ensures IsHead(routes, i) <==> IsHead(routes[..n], i) {
        var earlier := FirstOf(routes[..n], routes[i].host, false);
        assert routes[..n][i] == routes[i];
      }
    }
  }

  lemma SpeakerHost(routes: seq<Route>, i: nat)
    requires i < |routes|
    ensures Speaker(routes, i).host == routes[i].host
  {
  }

  lemma HeadsDistinct(routes: seq<Route>, k: nat, l: nat)
    requires k < l < |Heads(routes)| && routes[Heads(routes)[k]].host != ""
    ensures routes[Heads(routes)[k]].host != routes[Heads(routes)[l]].host
  {
    HeadsExact(routes);
    var heads := Heads(routes);
    assert heads[k] in heads && heads[l] in heads;
    assert IsHead(routes, heads[k]) && IsHead(routes, heads[l]);
  }

  lemma HostHasHead(routes: seq<Route>, i: nat) returns (k: nat)
    requires i < |routes|
    ensures k < |Heads(routes)| && routes[Heads(routes)[k]].host == routes[i].host
  {
    HeadsExact(routes);
    var heads := Heads(routes);
    var h := if routes[i].host == "" then i else FirstOf(routes, routes[i].host, false).value;
    assert IsHead(routes, h);
    var j :| 0 <= j < |heads| && heads[j] == h;
    k := j;
  }

  /** Every host of the input has exactly one survivor, at the place of its first occurrence. */
  lemma DedupHosts(routes: seq<Route>)
    ensures HostsDistinct(Dedup(routes))
    ensures forall k :: 0 <= k < |Dedup(routes)| ==> Dedup(routes)[k].host == routes[Heads(routes)[k]].host
    ensures forall i :: 0 <= i < |routes| ==> exists r :: r in Dedup(routes) && r.host == routes[i].host
  {
    var out := Dedup(routes);
    forall k | 0 <= k < |out| ensures out[k].host == routes[Heads(routes)[k]].host {
      SpeakerHost(routes, Heads(routes)[k]);
    }
    forall k, l | 0 <= k < l < |out| && out[k].host != "" ensures out[k].host != out[l].host {
      HeadsDistinct(routes, k, l);
    }
    forall i | 0 <= i < |routes| ensures exists r :: r in out && r.host == routes[i].host {
      var k := HostHasHead(routes, i);
      assert out[k] in out;
    }
  }

  /** Distinct hosts are left alone. */
  lemma DedupDistinct(routes: seq<Route>)
    requires HostsDistinct(routes)
    ensures Dedup(routes) == routes
  {
    AllHeads(routes);
    forall i | 0 <= i < |routes| && routes[i].host != "" ensures Canonical(routes, routes[i].host) == routes[i] {
      var root := FirstOf(routes, routes[i].host, true);
    }
  }

  lemma {:induction false} AllHeads(routes: seq<Route>)
    requires HostsDistinct(routes)
    ensures |Heads(routes)| == |routes| && forall k :: 0 <= k < |routes| ==> Heads(routes)[k] == k
  {
    if routes != [] { AllHeads(routes[..|routes| - 1]); }
  }

  lemma DedupIdempotent(routes: seq<Route>)
    ensures Dedup(Dedup(routes)) == Dedup(routes)
  {
    DedupHosts(routes);
    DedupDistinct(Dedup(routes));
  }

  datatype Slot = Slot(idx: nat, isRoot: bool)

  /** What the one-pass loop remembers after a prefix of the routes: for each host, the place
      of its survivor and whether a host-root route speaks for it. */
  ghost predicate SeenOk(routes: seq<Route>, seen: map<string, Slot>) {
    && (forall h :: h in seen <==> h != "" && FirstOf(routes, h, false).Some?)
    && (forall h :: h in seen ==> SlotOk(routes, h, seen[h]))
  }

  ghost predicate SlotOk(routes: seq<Route>, h: string, slot: Slot) {
    && slot.idx < |Heads(routes)| && routes[Heads(routes)[slot.idx]].host == h
    && (slot.isRoot <==> FirstOf(routes, h, true).Some?)
  }

  /** One pass, remembering where each host landed and whether a host-root route speaks for it. */
  method DedupRoutesByHost(routes: seq<Route>) returns (out: seq<Route>)
    ensures out == Dedup(routes)
  {
    out := [];
    var seen: map<string, Slot> := map[];
    for i := 0 to |routes|
      invariant out == Dedup(routes[..i]) && SeenOk(routes[..i], seen)
    {
      var r := routes[i];
      ghost var before, now := routes[..i], routes[..i + 1];
      assert now == before + [r] && now[..i] == before;
      if r.host == "" {
        AppendedDedup(before, r);
        HostlessSeen(before, r, seen);
        out := out + [r];
      } else if r.host in seen {
        var s := seen[r.host];
        if IsRoot(r) && !s.isRoot {
          ReplacedDedup(before, r, s.idx);
          ReplacedSeen(before, r, seen);
          out := out[s.idx := r];
          seen := seen[r.host := Slot(s.idx, true)];
        } else {
          DroppedDedup(before, r);
          DroppedSeen(before, r, seen);
        }
      } else {
        AppendedDedup(before, r);
        AppendedSeen(before, r, seen);
        seen := seen[r.host := Slot(|out|, IsRoot(r))];
        out := out + [r];
      }
    }
    assert routes[..|routes|] == routes;
  }

  lemma Extended(before: seq<Route>, r: Route, h: string, rootOnly: bool)
    ensures FirstOf(before + [r], h, rootOnly) ==
            if FirstOf(before, h, rootOnly).Some? then FirstOf(before, h, rootOnly)
            else if r.host == h && (rootOnly ==> IsRoot(r)) then Some(|before|) else None
  {
    assert (before + [r])[..|before|] == before;
  }

  lemma HeadsExtended(before: seq<Route>, r: Route)
    ensures Heads(before + [r])
            == Heads(before) + if r.host == "" || FirstOf(before, r.host, false).None? then [|before|] else []
  {
    Extended(before, r, r.host, false);
    assert (before + [r])[..|before|] == before;
  }

  /** A new route changes nobody's speaker, except that a first host-root route takes over. */
  lemma SpeakerExtended(before: seq<Route>, r: Route, i: nat)
    requires i < |before|
    ensures Speaker(before + [r], i) ==
            if before[i].host != "" && before[i].host == r.host && IsRoot(r) && FirstOf(before, r.host, true).None?
            then r else Speaker(before, i)
  {
    Extended(before, r, before[i].host, false);
    Extended(before, r, before[i].host, true);
  }

  lemma AppendedDedup(before: seq<Route>, r: Route)
    requires r.host == "" || FirstOf(before, r.host, false).None?
    ensures Dedup(before + [r]) == Dedup(before) + [r]
  {
    HeadsExtended(before, r);
    forall i | 0 <= i < |before|
      ensures Speaker(before + [r], i) == Speaker(before, i)
    {
      SpeakerExtended(before, r, i);
    }
    Extended(before, r, r.host, false);
    Extended(before, r, r.host, true);
  }

  lemma DroppedDedup(before: seq<Route>, r: Route)
    requires r.host != "" && FirstOf(before, r.host, false).Some? && (IsRoot(r) ==> FirstOf(before, r.host, true).Some?)
    ensures Dedup(before + [r]) == Dedup(before)
  {
    HeadsExtended(before, r);
    forall i | 0 <= i < |before|
      ensures Speaker(before + [r], i) == Speaker(before, i)
    {
      SpeakerExtended(before, r, i);
    }
  }

  /** A slot stays right as long as its host-root question has the same answer. */
  lemma SlotExtended(before: seq<Route>, r: Route, h: string, slot: Slot)
    requires SlotOk(before, h, slot)
    ensures SlotOk(before + [r], h, slot.(isRoot := slot.isRoot || (r.host == h && IsRoot(r))))
  {
    HeadsExtended(before, r);
    Extended(before, r, h, true);
  }

  lemma AppendedSeen(before: seq<Route>, r: Route, seen: map<string, Slot>)
    requires SeenOk(before, seen) && r.host !in seen && r.host != ""
    ensures SeenOk(before + [r], seen[r.host := Slot(|Dedup(before)|, IsRoot(r))])
  {
    var seen' := seen[r.host := Slot(|Dedup(before)|, IsRoot(r))];
    forall h ensures h in seen' <==> h != "" && FirstOf(before + [r], h, false).Some? { Extended(before, r, h, false); }
    forall h | h in seen' ensures SlotOk(before + [r], h, seen'[h]) {
      if h == r.host {
        HeadsExtended(before, r);
        Extended(before, r, h, true);
      } else {
        SlotExtended(before, r, h, seen[h]);
      }
    }
  }

  lemma HostlessSeen(before: seq<Route>, r: Route, seen: map<string, Slot>)
    requires SeenOk(before, seen) && r.host == ""
    ensures SeenOk(before + [r], seen)
  {
    forall h ensures h in seen <==> h != "" && FirstOf(before + [r], h, false).Some? { Extended(before, r, h, false); }
    forall h | h in seen ensures SlotOk(before + [r], h, seen[h]) { SlotExtended(before, r, h, seen[h]); }
  }

  lemma DroppedSeen(before: seq<Route>, r: Route, seen: map<string, Slot>)
    requires SeenOk(before, seen) && r.host in seen && (IsRoot(r) ==> seen[r.host].isRoot)
    ensures SeenOk(before + [r], seen)
  {
    forall h ensures h in seen <==> h != "" && FirstOf(before + [r], h, false).Some? { Extended(before, r, h, false); }
    forall h | h in seen ensures SlotOk(before + [r], h, seen[h]) { SlotExtended(before, r, h, seen[h]); }
  }

  lemma ReplacedSeen(before: seq<Route>, r: Route, seen: map<string, Slot>)
    requires SeenOk(before, seen) && r.host in seen && IsRoot(r)
    ensures SeenOk(before + [r], seen[r.host := Slot(seen[r.host].idx, true)])
  {
    var seen' := seen[r.host := Slot(seen[r.host].idx, true)];
    forall h ensures h in seen' <==> h != "" && FirstOf(before + [r], h, false).Some? { Extended(before, r, h, false); }
    forall h | h in seen' ensures SlotOk(before + [r], h, seen'[h]) { SlotExtended(before, r, h, seen[h]); }
  }

  lemma ReplacedDedup(before: seq<Route>, r: Route, s: nat)
    requires r.host != "" && FirstOf(before, r.host, false).Some? && FirstOf(before, r.host, true).None? && IsRoot(r)
    requires s < |Heads(before)| && before[Heads(before)[s]].host == r.host
    ensures Dedup(before + [r]) == Dedup(before)[s := r]
  {
    HeadsExtended(before, r);
    HeadsExact(before);
    var heads := Heads(before);
    forall k | 0 <= k < |heads|
      ensures Speaker(before + [r], heads[k]) == if k == s then r else Speaker(before, heads[k])
    {
      SpeakerExtended(before, r, heads[k]);
      assert heads[k] in heads && heads[s] in heads;
    }
  }

  function WithoutHost(routes: seq<Route>): seq<Route> {
    if routes == [] then [] else
    WithoutHost(routes[..|routes| - 1]) + (if routes[|routes| - 1].host == "" then [routes[|routes| - 1]] else [])
  }

  /** Routes without a hostname all survive, in order. */
  lemma {:induction false} DedupKeepsHostless(routes: seq<Route>)
    ensures WithoutHost(Dedup(routes)) == WithoutHost(routes)
  {
    if routes != [] {
      var n := |routes| - 1;
      var before, r := routes[..n], routes[n];
      assert routes == before + [r];
      DedupKeepsHostless(before);
      var out, prev := Dedup(routes), Dedup(before);
      if r.host == "" || FirstOf(before, r.host, false).None? {
        AppendedDedup(before, r);
        assert out[..|out| - 1] == prev;
      } else {
        HeadsExtended(before, r);
        forall k | 0 <= k < |prev| ensures prev[k].host == out[k].host && (prev[k].host == "" ==> prev[k] == out[k]) {
          SpeakerExtended(before, r, Heads(before)[k]);
        }
        SameHostless(out, prev);
      }
    }
  }

  lemma {:induction false} SameHostless(a: seq<Route>, b: seq<Route>)
    requires |a| == |b| && forall k :: 0 <= k < |a| ==> a[k].host == b[k].host && (a[k].host == "" ==> a[k] == b[k])
    ensures WithoutHost(a) == WithoutHost(b)
  {
    if a != [] { SameHostless(a[..|a| - 1], b[..|b| - 1]); }
  }
}
