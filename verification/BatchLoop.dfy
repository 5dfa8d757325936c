/**
 The batch loop shared by both halves of the key-rotation tool, with every failure left out.

 A row is selected while it is in the pool, a selected row is replaced by its walk, and the
 loop goes on only after a full batch that changed something. Which rows a LIMIT returns is
 unspecified, so a run is described by the picks the database made.
 */
module BatchLoop {
  import opened Common
  import opened Listing

  /** inPool: the WHERE clause. open: the walk would change the row. walk: the rewrite. */
  datatype Job<!T> = Job(inPool: T -> bool, open: T -> bool, walk: T -> T)

  ghost predicate Lawful<T(!new)>(job: Job<T>) {
    forall x :: LawfulAt(job, x)
  }

  predicate LawfulAt<T(==)>(job: Job<T>, x: T) {
    && (job.open(x) ==> job.inPool(x) && job.walk(x) != x)
    && (!job.open(x) ==> job.walk(x) == x)
    && !job.open(job.walk(x))
  }

  function Pool<T>(job: Job<T>, rows: map<string, T>): set<string> {
    set id | id in rows && job.inPool(rows[id])
  }

  function OpenIds<T>(job: Job<T>, rows: map<string, T>): set<string> {
    set id | id in rows && job.open(rows[id])
  }

  /** Rows other than r that the query still returns once they have been walked. */
  function Lingering<T>(job: Job<T>, rows: map<string, T>, r: string): set<string> {
    set id | id in rows && id != r && job.inPool(job.walk(rows[id]))
  }

  function Walked<T>(job: Job<T>, rows: map<string, T>, ids: set<string>): map<string, T> {
    map id | id in rows :: if id in ids then job.walk(rows[id]) else rows[id]
  }

  /** The loop's continuation test: a full, non-empty batch with progress. */
  predicate Continues<T>(job: Job<T>, rows: map<string, T>, batch: nat, pick: seq<string>) {
    |pick| == batch && batch > 0 && Ids(pick) * OpenIds(job, rows) != {}
  }

  ghost predicate Run<T>(job: Job<T>, rows: map<string, T>, batch: nat, picks: seq<seq<string>>) {
    && picks != []
    && IsSelection(picks[0], Pool(job, rows), batch)
    && if Continues(job, rows, batch, picks[0])
       then Run(job, Walked(job, rows, Ids(picks[0])), batch, picks[1..])
       else |picks| == 1
  }

  ghost function Final<T>(job: Job<T>, rows: map<string, T>, picks: seq<seq<string>>): map<string, T> {
    if picks == [] then rows else Final(job, Walked(job, rows, Ids(picks[0])), picks[1..])
  }

  /** The run so far, every batch of which continued. */
  ghost predicate Prefix<T>(job: Job<T>, rows: map<string, T>, batch: nat,
                                picks: seq<seq<string>>, now: map<string, T>) {
    if picks == [] then now == rows else
      && IsSelection(picks[0], Pool(job, rows), batch)
      && Continues(job, rows, batch, picks[0])
      && Prefix(job, Walked(job, rows, Ids(picks[0])), batch, picks[1..], now)
  }

  lemma {:induction false} PrefixExtends<T>(job: Job<T>, rows: map<string, T>, batch: nat,
                                           picks: seq<seq<string>>, now: map<string, T>, pick: seq<string>)
    requires Prefix(job, rows, batch, picks, now)
    requires IsSelection(pick, Pool(job, now), batch) && Continues(job, now, batch, pick)
    ensures Prefix(job, rows, batch, picks + [pick], Walked(job, now, Ids(pick)))
  {
    if picks == [] {
      assert (picks + [pick])[1..] == [];
    } else {
      PrefixExtends(job, Walked(job, rows, Ids(picks[0])), batch, picks[1..], now, pick);
      assert (picks + [pick])[1..] == picks[1..] + [pick];
    }
  }

  lemma {:induction false} PrefixThenStop<T>(job: Job<T>, rows: map<string, T>, batch: nat,
                                            picks: seq<seq<string>>, now: map<string, T>, pick: seq<string>)
    requires Prefix(job, rows, batch, picks, now)
    requires IsSelection(pick, Pool(job, now), batch) && !Continues(job, now, batch, pick)
    ensures Run(job, rows, batch, picks + [pick])
    ensures Final(job, rows, picks + [pick]) == Walked(job, now, Ids(pick))
  {
    if picks == [] {
      assert (picks + [pick])[1..] == [];
    } else {
      PrefixThenStop(job, Walked(job, rows, Ids(picks[0])), batch, picks[1..], now, pick);
      assert (picks + [pick])[1..] == picks[1..] + [pick];
    }
  }

  /** One batch changes nothing about which rows linger or what the full walk would give. */
  lemma StepKeeps<T(!new)>(job: Job<T>, rows: map<string, T>, ids: set<string>, r: string)
    requires Lawful(job)
    ensures Walked(job, Walked(job, rows, ids), rows.Keys) == Walked(job, rows, rows.Keys)
    ensures Lingering(job, Walked(job, rows, ids), r) == Lingering(job, rows, r)
    ensures OpenIds(job, Walked(job, rows, ids)) == OpenIds(job, rows) - ids
  {
    forall id | id in rows ensures job.walk(job.walk(rows[id])) == job.walk(rows[id]) && LawfulAt(job, rows[id]) {
      assert LawfulAt(job, rows[id]) && LawfulAt(job, job.walk(rows[id]));
    }
  }

  /** With too few lingering rows, a stopping batch cannot leave an open row behind. */
  lemma StopCovers<T(!new)>(job: Job<T>, rows: map<string, T>, batch: nat, pick: seq<string>, r: string)
    requires Lawful(job)
    requires IsSelection(pick, Pool(job, rows), batch) && !Continues(job, rows, batch, pick)
    requires r in OpenIds(job, rows) && |Lingering(job, rows, r)| < batch
    ensures r in pick
  {
    assert LawfulAt(job, rows[r]);
    IdsSize(pick);
    if |pick| < batch {
      SubsetSize(Ids(pick), Pool(job, rows));
      assert r in Ids(pick);
    } else if r !in pick {
      forall id | id in pick ensures id in Lingering(job, rows, r) {
        assert id in Pool(job, rows) && id !in Ids(pick) * OpenIds(job, rows);
        assert LawfulAt(job, rows[id]);
      }
      SubsetSize(Ids(pick), Lingering(job, rows, r));
    }
  }

  lemma {:induction false} RunCovers<T(!new)>(job: Job<T>, rows: map<string, T>, batch: nat, picks: seq<seq<string>>)
    requires Lawful(job) && Run(job, rows, batch, picks)
    requires forall r :: r in OpenIds(job, rows) ==> |Lingering(job, rows, r)| < batch
    ensures Final(job, rows, picks) == Walked(job, rows, rows.Keys)
    decreases |picks|
  {
    var next := Walked(job, rows, Ids(picks[0]));
    forall r ensures Lingering(job, next, r) == Lingering(job, rows, r) {
      StepKeeps(job, rows, Ids(picks[0]), r);
    }
    StepKeeps(job, rows, Ids(picks[0]), "");
    if Continues(job, rows, batch, picks[0]) {
      RunCovers(job, next, batch, picks[1..]);
    } else {
      assert picks[1..] == [];
      forall id | id in rows ensures next[id] == job.walk(rows[id]) {
        assert LawfulAt(job, rows[id]);
        if id in OpenIds(job, rows) { StopCovers(job, rows, batch, picks[0], id); }
      }
      assert next == Walked(job, rows, rows.Keys);
    }
  }

  lemma {:induction false} SelectionExists(pool: set<string>, avoid: set<string>, batch: nat)
    returns (pick: seq<string>)
    requires |pool - avoid| >= batch
    ensures IsSelection(pick, pool, batch) && Ids(pick) !! avoid && |pick| == batch
    decreases batch
  {
    if batch == 0 {
      pick := [];
      assert Ids(pick) == {};
    } else {
      var rest := SelectionExists(pool, avoid, batch - 1);
      IdsSize(rest);
      if pool - avoid <= Ids(rest) {
        SubsetSize(pool - avoid, Ids(rest));
        assert false;
      }
      var id :| id in pool - avoid && id !in Ids(rest);
      pick := rest + [id];
      assert Ids(pick) == Ids(rest) + {id};
      IdsSize(pick);
    }
    SubsetSize(pool - avoid, pool);
  }

  lemma PickWithin<T(!new)>(job: Job<T>, rows: map<string, T>, batch: nat, r: string, among: set<string>)
    returns (pick: seq<string>)
    requires Lawful(job) && among <= Lingering(job, rows, r) && |among| >= batch
    ensures IsSelection(pick, Pool(job, rows), batch) && Ids(pick) <= among && r !in Ids(pick)
  {
    var pool := Pool(job, rows);
    forall id | id in among ensures id in pool - {r} {
      assert LawfulAt(job, rows[id]);
    }
    assert pool - (pool - among) == among;
    pick := SelectionExists(pool, pool - among, batch);
  }

  /** If a batch of rows lingers, the database may pick among them only, and so never reach
      another row. */
  lemma {:induction false} RunWithin<T(!new)>(job: Job<T>, rows: map<string, T>, batch: nat, r: string,
                                              among: set<string>)
    returns (picks: seq<seq<string>>)
    requires Lawful(job) && r in rows
    requires among <= Lingering(job, rows, r) && |among| >= batch
    ensures Run(job, rows, batch, picks)
    ensures r in Final(job, rows, picks) && Final(job, rows, picks)[r] == rows[r]
    ensures forall k :: 0 <= k < |picks| ==> Ids(picks[k]) <= among
    decreases |OpenIds(job, rows)|
  {
    var pick := PickWithin(job, rows, batch, r, among);
    if Continues(job, rows, batch, pick) {
      StepKeeps(job, rows, Ids(pick), r);
      FewerOpen(job, rows, pick);
      var rest := RunWithin(job, Walked(job, rows, Ids(pick)), batch, r, among);
      picks := [pick] + rest;
      assert picks[1..] == rest;
    } else {
      picks := [pick];
      assert picks[1..] == [];
    }
  }

  lemma FewerOpen<T(!new)>(job: Job<T>, rows: map<string, T>, pick: seq<string>)
    requires Lawful(job) && Ids(pick) * OpenIds(job, rows) != {}
    ensures |OpenIds(job, Walked(job, rows, Ids(pick)))| < |OpenIds(job, rows)|
  {
    StepKeeps(job, rows, Ids(pick), "");
    var hit :| hit in Ids(pick) * OpenIds(job, rows);
    SubsetSize(OpenIds(job, rows) - Ids(pick), OpenIds(job, rows) - {hit});
  }

  /** If enough rows linger, the database may answer so that the row r is never reached. */
  lemma RunMissing<T(!new)>(job: Job<T>, rows: map<string, T>, batch: nat, r: string) returns (picks: seq<seq<string>>)
    requires Lawful(job)
    requires r in OpenIds(job, rows) && |Lingering(job, rows, r)| >= batch
    ensures Run(job, rows, batch, picks)
    ensures r in Final(job, rows, picks) && Final(job, rows, picks)[r] == rows[r]
  {
    picks := RunWithin(job, rows, batch, r, Lingering(job, rows, r));
  }

  /** Every LIMIT choice leads to full coverage exactly when, for each row that needs work,
      fewer than a batch of other rows stay in the query's view. */
  lemma CoverageExact<T(!new)>(job: Job<T>, rows: map<string, T>, batch: nat)
    requires Lawful(job)
    ensures (forall picks :: Run(job, rows, batch, picks) ==>
               Final(job, rows, picks) == Walked(job, rows, rows.Keys))
            <==> (forall r :: r in OpenIds(job, rows) ==> |Lingering(job, rows, r)| < batch)
  {
    if forall r :: r in OpenIds(job, rows) ==> |Lingering(job, rows, r)| < batch {
      forall picks | Run(job, rows, batch, picks)
        ensures Final(job, rows, picks) == Walked(job, rows, rows.Keys)
      {
        RunCovers(job, rows, batch, picks);
      }
    } else {
      var r :| r in OpenIds(job, rows) && |Lingering(job, rows, r)| >= batch;
      var picks := RunMissing(job, rows, batch, r);
      assert LawfulAt(job, rows[r]);
      assert Walked(job, rows, rows.Keys)[r] != rows[r];
    }
  }
}
