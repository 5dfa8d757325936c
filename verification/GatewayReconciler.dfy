/** Convergence of the gateway's route table to the desired objects, under failing calls. */
module GatewayReconciler {
  import opened Common
  import opened Listing
  import opened RouteDedup
  import opened RouteNames
  import opened EdgeBuilders

  type Table = map<string, Body>

  function NamesOf(objects: seq<Object>): set<string> { set o | o in objects :: o.name }

  /** Foreign routes as they were; ours exactly the desired ones, each with its last body. */
  function Converged(table: Table, objects: seq<Object>): Table {
    (map n | n in table && !InNamespace(n) :: table[n]) + LastBodies(objects)
  }

  /** What any pass guarantees, whatever calls failed. */
  ghost predicate SafePass(before: Table, after: Table, objects: seq<Object>) {
    // foreign routes are neither touched nor removed nor created
    && (forall n :: !InNamespace(n) ==> (n in after <==> n in before) && (n in after ==> after[n] == before[n]))
    // a desired route is never removed, and its body is the old one or one built for its name
    && (forall n :: n in NamesOf(objects) && n in before ==> n in after)
    && (forall n :: n in NamesOf(objects) && n in after ==>
          (n in before && after[n] == before[n]) || Object(n, after[n]) in objects)
    // any other route of ours can only disappear
    && (forall n :: InNamespace(n) && n !in NamesOf(objects) && n in after ==> n in before && after[n] == before[n])
  }

  /** After a failure-free pass our names are exactly the desired names, and a further
      failure-free pass changes nothing. */
  lemma ConvergedExact(table: Table, objects: seq<Object>)
    requires forall o :: o in objects ==> InNamespace(o.name)
    ensures forall n :: InNamespace(n) ==> (n in Converged(table, objects) <==> n in NamesOf(objects))
    ensures Converged(Converged(table, objects), objects) == Converged(table, objects)
  {
    forall n ensures n in LastBodies(objects) <==> n in NamesOf(objects) {
      LastBodiesExact(objects, n);
    }
  }

  lemma ObjectsInNamespace(routes: seq<Route>, opts: Opts)
    ensures forall o :: o in Objects(routes, opts, |routes|) ==> InNamespace(o.name)
  {
    forall o | o in Objects(routes, opts, |routes|) ensures InNamespace(o.name) {
      ObjectsExact(routes, opts, |routes|, o);
      var i :| 0 <= i < |routes| && IsObjectOf(routes, opts, i, o);
      NamesInjective(routes[i].host, "");
    }
  }

  function StaleOf(existing: seq<string>, desired: seq<string>): seq<string> {
    if existing == [] then [] else
    var n := existing[|existing| - 1];
    StaleOf(existing[..|existing| - 1], desired) + (if InNamespace(n) && n !in desired then [n] else [])
  }

  lemma {:induction false} StaleOfExact(existing: seq<string>, desired: seq<string>, n: string)
    ensures n in StaleOf(existing, desired) <==> n in existing && InNamespace(n) && n !in desired
  {
    if existing != [] {
      StaleOfExact(existing[..|existing| - 1], desired, n);
      assert existing == existing[..|existing| - 1] + [existing[|existing| - 1]];
    }
  }

  /** Our routes that exist but are no longer desired. */
  method StaleNames(existing: seq<string>, desired: seq<string>) returns (stale: seq<string>)
    ensures forall n :: n in stale <==> n in existing && InNamespace(n) && n !in desired
  {
    var want := set d | d in desired;
    stale := [];
    for i := 0 to |existing|
      invariant stale == StaleOf(existing[..i], desired)
    {
      assert existing[..i + 1][..i] == existing[..i];
      if InNamespace(existing[i]) && existing[i] !in want { stale := stale + [existing[i]]; }
    }
    assert existing[..|existing|] == existing;
    forall n ensures n in stale <==> n in existing && InNamespace(n) && n !in desired {
      StaleOfExact(existing, desired, n);
    }
  }

  // ---- what goes wrong in a pass ----

  /** A call works, is lost, or is applied although the caller sees an error. */
  datatype Call = Works | Lost | Unheard

  /** One pass's luck: the i-th PUT, whether the listing works and which routes it visits, and
      the DELETE of each name. */
  datatype PassWeather = PassWeather(puts: nat -> Call, lists: bool, order: seq<string>, deletes: string -> Call)
  {
    /** No call fails, and the listing misses none of the given routes. */
    ghost predicate Calm(names: set<string>) {
      && (forall i :: puts(i) == Works) && lists && names <= Ids(order) && (forall n :: deletes(n) == Works)
    }
  }

  /** The table after the PUTs of the first k objects. */
  function PutTable(table: Table, objects: seq<Object>, puts: nat -> Call, k: nat): Table
    requires k <= |objects|
  {
    if k == 0 then table else
    var earlier, o := PutTable(table, objects, puts, k - 1), objects[k - 1];
    if puts(k - 1).Lost? then earlier else earlier[o.name := o.body]
  }

  /** What a pass removes: listed routes of ours that are not desired, unless the call is lost. */
  function Pruned(put: Table, objects: seq<Object>, w: PassWeather): set<string> {
    set n | n in put && n in w.order && InNamespace(n) && n !in NamesOf(objects) && !w.deletes(n).Lost?
  }

  /** The table after a whole pass. */
  function PassTable(table: Table, objects: seq<Object>, w: PassWeather): Table {
    var put := PutTable(table, objects, w.puts, |objects|);
    if w.lists then put - Pruned(put, objects, w) else put
  }

  /** After the first k PUTs nothing is lost, and every body was there or was built. */
  lemma {:induction false} PutsAreSafe(table: Table, objects: seq<Object>, puts: nat -> Call, k: nat)
    requires k <= |objects|
    ensures table.Keys <= PutTable(table, objects, puts, k).Keys
    ensures forall n :: n in PutTable(table, objects, puts, k) ==>
              || (n in table && PutTable(table, objects, puts, k)[n] == table[n])
              || Object(n, PutTable(table, objects, puts, k)[n]) in objects
  {
    if k > 0 { PutsAreSafe(table, objects, puts, k - 1); }
  }

  lemma {:induction false} CalmPuts(table: Table, objects: seq<Object>, puts: nat -> Call, k: nat)
    requires k <= |objects| && forall i :: puts(i) == Works
    ensures PutTable(table, objects, puts, k) == table + LastBodies(objects[..k])
  {
    if k > 0 {
      CalmPuts(table, objects, puts, k - 1);
      assert objects[..k][..k - 1] == objects[..k - 1];
    }
  }

  /** Whatever calls fail, a pass is safe. */
  lemma EveryPassSafe(table: Table, objects: seq<Object>, w: PassWeather)
    requires forall o :: o in objects ==> InNamespace(o.name)
    ensures SafePass(table, PassTable(table, objects, w), objects)
  {
    var put := PutTable(table, objects, w.puts, |objects|);
    PutsAreSafe(table, objects, w.puts, |objects|);
    forall n | n in put && n !in NamesOf(objects) ensures n in table && put[n] == table[n] {
      assert Object(n, put[n]) !in objects;
    }
  }

  /** When no call fails and the listing is complete, the table converges. */
  lemma CalmPassConverges(table: Table, objects: seq<Object>, w: PassWeather)
    requires forall o :: o in objects ==> InNamespace(o.name)
    requires w.Calm(table.Keys)
    ensures PassTable(table, objects, w) == Converged(table, objects)
  {
    CalmPuts(table, objects, w.puts, |objects|);
    assert objects[..|objects|] == objects;
    forall n ensures n in LastBodies(objects) <==> n in NamesOf(objects) { LastBodiesExact(objects, n); }
    var put, after := table + LastBodies(objects), PassTable(table, objects, w);
    forall n | n in put ensures n in after <==> n in Converged(table, objects) {
      if n in table && n !in LastBodies(objects) { assert n in Ids(w.order); }
    }
  }

  /** Once converged, and if every object is the one its name ends up with, no further pass
      changes anything, whatever calls fail. */
  lemma ConvergedIsStable(table: Table, objects: seq<Object>, w: PassWeather)
    requires (forall o :: o in objects ==> InNamespace(o.name)) && AllServed(objects)
    ensures PassTable(Converged(table, objects), objects, w) == Converged(table, objects)
  {
    PutsIdle(Converged(table, objects), objects, w.puts, |objects|);
    ConvergedExact(table, objects);
    assert Pruned(Converged(table, objects), objects, w) == {};
  }

  lemma {:induction false} PutsIdle(table: Table, objects: seq<Object>, puts: nat -> Call, k: nat)
    requires k <= |objects| && forall o :: o in objects ==> o.name in table && table[o.name] == o.body
    ensures PutTable(table, objects, puts, k) == table
  {
    if k > 0 {
      PutsIdle(table, objects, puts, k - 1);
      assert objects[k - 1] in objects;
    }
  }

  // ---- the gateway ----

  class Gateway {
    var table: Table

    constructor (table: Table)
      ensures this.table == table
    {
      this.table := table;
    }

    /** An upsert. */
    method Put(o: Object, luck: Call) returns (ok: bool)
      modifies this
      ensures ok == luck.Works?
      ensures table == if luck.Lost? then old(table) else old(table)[o.name := o.body]
    {
      if !luck.Lost? { table := table[o.name := o.body]; }
      ok := luck.Works?;
    }

    /** A removal. */
    method Delete(name: string, luck: Call) returns (ok: bool)
      modifies this
      ensures ok == luck.Works?
      ensures table == if luck.Lost? then old(table) else old(table) - {name}
    {
      if !luck.Lost? { table := table - {name}; }
      ok := luck.Works?;
    }

    /** One pass: PUT every desired object, then prune by the full desired set, not by which
        PUTs succeeded. */
    method ApplyRoutes(desired: seq<Route>, opts: Opts, w: PassWeather) returns (failed: bool)
      modifies this
      ensures table == PassTable(old(table), Objects(desired, opts, |desired|), w)
      ensures failed == !w.lists
    {
      var objects := BuildRoutes(desired, opts);
      var names := PutAll(objects, w.puts);
      if !w.lists { return true; }
      AnswerSound(table.Keys, w.order, |table|);
      AnswerComplete(table.Keys, w.order, |table|);
      var existing := Select(table.Keys, w.order, |table|);
      ListedAll(table.Keys, w.order);
      var stale := StaleNames(existing, names);
      ghost var put := table;
      PruneAll(stale, w.deletes);
      assert table == put - Pruned(put, objects, w);
      return false;
    }

    method PutAll(objects: seq<Object>, puts: nat -> Call) returns (names: seq<string>)
      modifies this
      ensures table == PutTable(old(table), objects, puts, |objects|)
      ensures forall n :: n in names <==> n in NamesOf(objects)
    {
      names := [];
      for i := 0 to |objects|
        invariant table == PutTable(old(table), objects, puts, i)
        invariant forall n :: n in names <==> n in NamesOf(objects[..i])
      {
        assert objects[..i + 1] == objects[..i] + [objects[i]];
        names := names + [objects[i].name];
        var _ := Put(objects[i], puts(i));
      }
      assert objects[..|objects|] == objects;
    }

    method PruneAll(stale: seq<string>, deletes: string -> Call)
      modifies this
      ensures table == old(table) - set n | n in stale && !deletes(n).Lost?
    {
      for i := 0 to |stale|
        invariant table == old(table) - set n | n in stale[..i] && !deletes(n).Lost?
      {
        assert stale[..i + 1] == stale[..i] + [stale[i]];
        var _ := Delete(stale[i], deletes(stale[i]));
      }
      assert stale[..|stale|] == stale;
    }
  }

  lemma ListedAll(pool: set<string>, order: seq<string>)
    ensures forall n :: n in Answer(pool, order, |pool|) <==> n in pool && n in order
  {
    var answer := Answer(pool, order, |pool|);
    AnswerSound(pool, order, |pool|);
    IdsSize(answer);
    SubsetSize(Ids(answer), pool);
    forall n ensures n in answer <==> n in pool && n in order {
      assert n in Ids(answer) <==> n in answer;
      assert n in Ids(order) <==> n in order;
    }
  }

  // ---- whole runs ----

  /** One pass of the reconciler: the routes the database holds, unless the query fails. */
  datatype Pass = Pass(queries: bool, desired: seq<Route>, w: PassWeather)

  function RunTable(table: Table, passes: seq<Pass>, opts: Opts): Table {
    if passes == [] then table else
    var before, p := RunTable(table, passes[..|passes| - 1], opts), passes[|passes| - 1];
    if p.queries then PassTable(before, Objects(p.desired, opts, |p.desired|), p.w) else before
  }

  predicate BuiltBy(p: Pass, opts: Opts, o: Object) { p.queries && o in Objects(p.desired, opts, |p.desired|) }

  /** Over any sequence of passes with any failures, foreign routes are never touched, and
      every body of ours was there from the start or was built for its name by some pass. */
  lemma {:induction false} RunIsSafe(table: Table, passes: seq<Pass>, opts: Opts)
    ensures var end := RunTable(table, passes, opts);
            && (forall n :: !InNamespace(n) ==> (n in end <==> n in table) && (n in end ==> end[n] == table[n]))
            && (forall n :: n in end ==>
                  || (n in table && end[n] == table[n])
                  || exists p :: p in passes && BuiltBy(p, opts, Object(n, end[n])))
  {
    if passes != [] {
      var k := |passes| - 1;
      var before, p, end := RunTable(table, passes[..k], opts), passes[k], RunTable(table, passes, opts);
      RunIsSafe(table, passes[..k], opts);
      assert p in passes && forall q :: q in passes[..k] ==> q in passes;
      if p.queries {
        var objects := Objects(p.desired, opts, |p.desired|);
        ObjectsInNamespace(p.desired, opts);
        EveryPassSafe(before, objects, p.w);
        forall n | n in end ensures (n in before && end[n] == before[n]) || BuiltBy(p, opts, Object(n, end[n])) {
          if InNamespace(n) && n !in NamesOf(objects) { assert n in before; }
        }
      }
    }
  }

  /** A run that ends in a pass where nothing fails ends converged to what that pass desired. */
  lemma RunConverges(table: Table, passes: seq<Pass>, opts: Opts)
    requires passes != [] && passes[|passes| - 1].queries
    requires passes[|passes| - 1].w.Calm(RunTable(table, passes[..|passes| - 1], opts).Keys)
    ensures var last := passes[|passes| - 1];
            RunTable(table, passes, opts) ==
            Converged(RunTable(table, passes[..|passes| - 1], opts), Objects(last.desired, opts, |last.desired|))
  {
    var last := passes[|passes| - 1];
    ObjectsInNamespace(last.desired, opts);
    CalmPassConverges(RunTable(table, passes[..|passes| - 1], opts), Objects(last.desired, opts, |last.desired|),
                      last.w);
  }

  method Reconcile(gateway: Gateway, passes: seq<Pass>, opts: Opts)
    modifies gateway
    ensures gateway.table == RunTable(old(gateway.table), passes, opts)
  {
    for i := 0 to |passes|
      invariant gateway.table == RunTable(old(gateway.table), passes[..i], opts)
    {
      assert passes[..i + 1][..i] == passes[..i];
      if passes[i].queries { var _ := gateway.ApplyRoutes(passes[i].desired, opts, passes[i].w); }
    }
    assert passes[..|passes|] == passes;
  }
}
