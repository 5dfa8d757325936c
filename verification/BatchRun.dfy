/**
 The batch loop of the rekey tool with everything that goes wrong in it.

 A loop is its table plus its luck: which queries fail, in which order each visits rows, and
 what a round makes of a row it picked. Given these every state of the loop is determined.
 */
module BatchRun {
  import opened Common
  import opened Listing
  import opened BatchLoop

  /**
   inPool: the WHERE clause. effect: what round k leaves of a picked row, were it to write.
   count, errs: what it adds to the two counters. fails, order: the k-th query.
   */
  datatype Loop<!T> = Loop(inPool: T -> bool, effect: (nat, string, T) -> T, count: (nat, string, T) -> nat,
                           errs: (nat, string, T) -> nat, fails: nat -> bool, order: nat -> seq<string>,
                           batch: int, dry: bool)

  type Table<T> = map<string, T>

  function Tagged<T>(l: Loop<T>, rows: Table<T>): set<string> { set id | id in rows && l.inPool(rows[id]) }

  /** A negative limit is an error. */
  predicate Fails<T>(l: Loop<T>, k: nat) { l.fails(k) || l.batch < 0 }

  /** The answer to the k-th query. */
  function Picked<T>(l: Loop<T>, rows: Table<T>, k: nat): seq<string> {
    if Fails(l, k) then [] else Answer(Tagged(l, rows), l.order(k), l.batch)
  }

  function Applied<T>(l: Loop<T>, rows: Table<T>, pick: seq<string>, k: nat): Table<T> {
    map id | id in rows :: if id in pick then l.effect(k, id, rows[id]) else rows[id]
  }

  /** The picked rows a round changes. */
  function Done<T(==)>(l: Loop<T>, rows: Table<T>, pick: seq<string>, k: nat): set<string> {
    set id | id in rows && id in pick && l.effect(k, id, rows[id]) != rows[id]
  }

  function Sum<T>(f: (nat, string, T) -> nat, k: nat, rows: Table<T>, pick: seq<string>): nat {
    if pick == [] then 0 else
    var id := pick[|pick| - 1];
    Sum(f, k, rows, pick[..|pick| - 1]) + (if id in rows then f(k, id, rows[id]) else 0)
  }

  /** The rows before the k-th query. */
  function RowsAt<T>(l: Loop<T>, rows: Table<T>, k: nat): Table<T> {
    if k == 0 || l.dry then rows else
    var before := RowsAt(l, rows, k - 1);
    Applied(l, before, Picked(l, before, k - 1), k - 1)
  }

  function PickAt<T>(l: Loop<T>, rows: Table<T>, k: nat): seq<string> { Picked(l, RowsAt(l, rows, k), k) }

  /** The loop goes on after a full batch with progress, and never in a dry run. */
  predicate GoesOn<T(==)>(l: Loop<T>, rows: Table<T>, k: nat) {
    && !l.dry && !Fails(l, k) && |PickAt(l, rows, k)| == l.batch
    && Done(l, RowsAt(l, rows, k), PickAt(l, rows, k), k) != {}
  }

  function Resealed<T>(l: Loop<T>, rows: Table<T>, k: nat): nat {
    if k == 0 then 0 else
    Resealed(l, rows, k - 1) + Sum(l.count, k - 1, RowsAt(l, rows, k - 1), PickAt(l, rows, k - 1))
  }

  /** A failed query counts as one error. */
  function Errors<T>(l: Loop<T>, rows: Table<T>, k: nat): nat {
    if k == 0 then 0 else
    Errors(l, rows, k - 1)
    + (if Fails(l, k - 1) then 1 else Sum(l.errs, k - 1, RowsAt(l, rows, k - 1), PickAt(l, rows, k - 1)))
  }

  /** The loop ends with round `last`. */
  ghost predicate EndsAt<T>(l: Loop<T>, rows: Table<T>, last: nat) {
    (forall k :: 0 <= k < last ==> GoesOn(l, rows, k)) && !GoesOn(l, rows, last)
  }

  /** So the end is unique. */
  lemma EndsOnce<T>(l: Loop<T>, rows: Table<T>, a: nat, b: nat)
    requires EndsAt(l, rows, a) && EndsAt(l, rows, b)
    ensures a == b
  {
  }

  // ---- laws ----

  /** Only selected rows change, and a change lowers their weight by what is counted. */
  predicate LawfulAt<T(==)>(l: Loop<T>, weight: T -> nat, k: nat, id: string, v: T) {
    && (l.effect(k, id, v) != v ==> l.inPool(v))
    && weight(v) == weight(l.effect(k, id, v)) + l.count(k, id, v)
    && (l.count(k, id, v) == 0 <==> l.effect(k, id, v) == v)
  }

  ghost predicate Lawful<T(!new)>(l: Loop<T>, weight: T -> nat) { forall k, id, v :: LawfulAt(l, weight, k, id, v) }

  /** The sum of a weight over a table. */
  ghost function Total<T>(f: T -> nat, rows: Table<T>): nat
    decreases |rows|
  {
    if rows == map[] then 0 else
    var id :| id in rows;
    f(rows[id]) + Total(f, rows - {id})
  }

  lemma {:induction false} TotalSplit<T>(f: T -> nat, rows: Table<T>, id: string)
    requires id in rows
    ensures Total(f, rows) == f(rows[id]) + Total(f, rows - {id})
    decreases |rows|
  {
    var k :| k in rows && Total(f, rows) == f(rows[k]) + Total(f, rows - {k});
    if k != id {
      TotalSplit(f, rows - {k}, id);
      TotalSplit(f, rows - {id}, k);
      assert rows - {k} - {id} == rows - {id} - {k};
    }
  }

  lemma TotalUpdate<T>(f: T -> nat, rows: Table<T>, id: string, v: T)
    requires id in rows
    ensures Total(f, rows[id := v]) + f(rows[id]) == Total(f, rows) + f(v)
  {
    TotalSplit(f, rows, id);
    TotalSplit(f, rows[id := v], id);
    assert rows[id := v] - {id} == rows - {id};
  }

  lemma PickedSound<T>(l: Loop<T>, rows: Table<T>, k: nat)
    ensures var pick := Picked(l, rows, k);
            Distinct(pick) && Ids(pick) <= Tagged(l, rows) && (!Fails(l, k) ==> |pick| <= l.batch)
    ensures forall id :: id in Picked(l, rows, k) ==> id in Tagged(l, rows)
  {
    if !Fails(l, k) { AnswerSound(Tagged(l, rows), l.order(k), l.batch); }
    forall id | id in Picked(l, rows, k) ensures id in Tagged(l, rows) { assert id in Ids(Picked(l, rows, k)); }
  }

  /** One more row of a batch. */
  lemma AppliedMore<T>(l: Loop<T>, rows: Table<T>, pick: seq<string>, i: nat, k: nat)
    requires i < |pick| && Distinct(pick) && pick[i] in rows
    ensures Applied(l, rows, pick[..i], k)[pick[i]] == rows[pick[i]]
    ensures Applied(l, rows, pick[..i + 1], k) ==
            Applied(l, rows, pick[..i], k)[pick[i] := l.effect(k, pick[i], rows[pick[i]])]
  {
    assert pick[..i + 1] == pick[..i] + [pick[i]] && pick[i] !in pick[..i];
  }

  lemma SumMore<T>(f: (nat, string, T) -> nat, k: nat, rows: Table<T>, pick: seq<string>, i: nat)
    requires i < |pick| && pick[i] in rows
    ensures Sum(f, k, rows, pick[..i + 1]) == Sum(f, k, rows, pick[..i]) + f(k, pick[i], rows[pick[i]])
  {
    assert pick[..i + 1][..i] == pick[..i];
  }

  lemma {:induction false} BatchConserves<T(!new)>(l: Loop<T>, weight: T -> nat, rows: Table<T>, pick: seq<string>,
                                                   k: nat)
    requires Lawful(l, weight) && Distinct(pick) && forall id :: id in pick ==> id in rows
    ensures Total(weight, rows) == Total(weight, Applied(l, rows, pick, k)) + Sum(l.count, k, rows, pick)
    ensures Sum(l.count, k, rows, pick) == 0 <==> Done(l, rows, pick, k) == {}
  {
    if pick == [] {
      assert Applied(l, rows, pick, k) == rows;
    } else {
      var n := |pick| - 1;
      var id := pick[n];
      BatchConserves(l, weight, rows, pick[..n], k);
      assert pick[..n + 1] == pick;
      AppliedMore(l, rows, pick, n, k);
      TotalUpdate(weight, Applied(l, rows, pick[..n], k), id, l.effect(k, id, rows[id]));
      assert LawfulAt(l, weight, k, id, rows[id]);
      DoneMore(l, rows, pick, n, k);
    }
  }

  lemma DoneMore<T>(l: Loop<T>, rows: Table<T>, pick: seq<string>, i: nat, k: nat)
    requires i < |pick| && Distinct(pick) && pick[i] in rows
    ensures Done(l, rows, pick[..i + 1], k) ==
            Done(l, rows, pick[..i], k)
            + (if l.effect(k, pick[i], rows[pick[i]]) != rows[pick[i]] then {pick[i]} else {})
    ensures pick[i] !in Done(l, rows, pick[..i], k)
  {
    assert pick[..i + 1] == pick[..i] + [pick[i]] && pick[i] !in pick[..i];
  }

  lemma {:induction false} RowsAtKeys<T>(l: Loop<T>, rows: Table<T>, k: nat)
    ensures RowsAt(l, rows, k).Keys == rows.Keys
  {
    if k > 0 { RowsAtKeys(l, rows, k - 1); }
  }

  lemma CountsNext<T>(l: Loop<T>, rows: Table<T>, k: nat)
    ensures Resealed(l, rows, k + 1)
            == Resealed(l, rows, k) + Sum(l.count, k, RowsAt(l, rows, k), PickAt(l, rows, k))
    ensures Errors(l, rows, k + 1) == Errors(l, rows, k)
            + (if Fails(l, k) then 1 else Sum(l.errs, k, RowsAt(l, rows, k), PickAt(l, rows, k)))
  {
  }

  lemma RoundConserves<T(!new)>(l: Loop<T>, weight: T -> nat, rows: Table<T>, k: nat)
    requires Lawful(l, weight)
    ensures Total(weight, rows) == Total(weight, Applied(l, rows, Picked(l, rows, k), k))
                                   + Sum(l.count, k, rows, Picked(l, rows, k))
  {
    PickedSound(l, rows, k);
    BatchConserves(l, weight, rows, Picked(l, rows, k), k);
  }

  /** What is counted is what the table lost in weight, whatever went wrong. */
  lemma {:induction false} Conserves<T(!new)>(l: Loop<T>, weight: T -> nat, rows: Table<T>, k: nat)
    requires Lawful(l, weight) && !l.dry
    ensures Total(weight, rows) == Total(weight, RowsAt(l, rows, k)) + Resealed(l, rows, k)
  {
    if k > 0 {
      var n := k - 1;
      Conserves(l, weight, rows, n);
      RoundConserves(l, weight, RowsAt(l, rows, n), n);
      RowsNext(l, rows, n);
      CountsNext(l, rows, n);
      assert k == n + 1;
    }
  }

  /** A round after which the loop goes on lowers the weight, so the loop ends for every table,
      every LIMIT choice and any failures. */
  lemma RoundLowers<T(!new)>(l: Loop<T>, weight: T -> nat, rows: Table<T>, k: nat)
    requires Lawful(l, weight)
    ensures !Fails(l, k) && Done(l, rows, Picked(l, rows, k), k) != {} ==>
              Total(weight, Applied(l, rows, Picked(l, rows, k), k)) < Total(weight, rows)
  {
    PickedSound(l, rows, k);
    BatchConserves(l, weight, rows, Picked(l, rows, k), k);
  }

  /** A property of rows that effects keep holds of every row of every state. */
  lemma {:induction false} RowsKeep<T(!new)>(l: Loop<T>, rows: Table<T>, k: nat, id: string, keeps: T -> bool)
    requires id in rows && keeps(rows[id])
    requires forall j, v {:trigger l.effect(j, id, v)} :: keeps(v) ==> keeps(l.effect(j, id, v))
    ensures id in RowsAt(l, rows, k) && keeps(RowsAt(l, rows, k)[id])
  {
    if k > 0 { RowsKeep(l, rows, k - 1, id, keeps); }
  }

  /** The rows after the last round. */
  lemma RowsNext<T>(l: Loop<T>, rows: Table<T>, k: nat)
    requires !l.dry
    ensures RowsAt(l, rows, k + 1) == Applied(l, RowsAt(l, rows, k), PickAt(l, rows, k), k)
  {
  }

  function Heavy<T>(heavy: T -> bool, rows: Table<T>): set<string> { set id | id in rows && heavy(rows[id]) }

  lemma HeavySplit<T>(heavy: T -> bool, rows: Table<T>, id: string)
    requires id in rows
    ensures |Heavy(heavy, rows)| == |Heavy(heavy, rows - {id})| + (if heavy(rows[id]) then 1 else 0)
  {
    assert Heavy(heavy, rows) == Heavy(heavy, rows - {id}) + (if heavy(rows[id]) then {id} else {});
  }

  /** The total of a weight of one or zero is a number of rows. */
  lemma {:induction false} TotalIsSize<T(!new)>(weight: T -> nat, heavy: T -> bool, rows: Table<T>)
    requires forall v :: weight(v) == if heavy(v) then 1 else 0
    ensures Total(weight, rows) == |Heavy(heavy, rows)|
    decreases |rows|
  {
    if rows == map[] {
      assert Heavy(heavy, rows) == {};
    } else {
      var id :| id in rows;
      TotalSplit(weight, rows, id);
      HeavySplit(heavy, rows, id);
      TotalIsSize(weight, heavy, rows - {id});
    }
  }

  // ---- the loop as it is run ----

  /** Where the loop stands after k rounds, the last of which stopped it or not. */
  ghost predicate Stands<T>(l: Loop<T>, start: Table<T>, rows: Table<T>, resealed: nat, errs: nat, k: nat, stop: bool) {
    && rows == RowsAt(l, start, k) && resealed == Resealed(l, start, k) && errs == Errors(l, start, k)
    && (stop ==> k > 0 && EndsAt(l, start, k - 1)) && (!stop ==> forall j :: 0 <= j < k ==> GoesOn(l, start, j))
  }

  /** The loop is over: its end, its rows and its counts. */
  ghost predicate Ended<T>(l: Loop<T>, start: Table<T>, rows: Table<T>, resealed: nat, errs: nat, last: nat) {
    && EndsAt(l, start, last) && rows == RowsAt(l, start, last + 1)
    && resealed == Resealed(l, start, last + 1) && errs == Errors(l, start, last + 1)
  }

  lemma StandsEnded<T>(l: Loop<T>, start: Table<T>, rows: Table<T>, resealed: nat, errs: nat, k: nat)
    requires Stands(l, start, rows, resealed, errs, k, true)
    ensures k > 0 && Ended(l, start, rows, resealed, errs, k - 1)
  {
    assert k - 1 + 1 == k;
  }

  /** What one round does. */
  ghost predicate RoundDone<T>(l: Loop<T>, rows: Table<T>, k: nat, rows': Table<T>, n: nat, e: nat, stop: bool) {
    var pick := Picked(l, rows, k);
    && rows' == (if l.dry then rows else Applied(l, rows, pick, k))
    && n == Sum(l.count, k, rows, pick) && e == (if Fails(l, k) then 1 else Sum(l.errs, k, rows, pick))
    && (stop <==> l.dry || Fails(l, k) || |pick| != l.batch || Done(l, rows, pick, k) == {})
  }

  lemma RoundStops<T>(l: Loop<T>, start: Table<T>, k: nat, rows': Table<T>, n: nat, e: nat, stop: bool)
    requires RoundDone(l, RowsAt(l, start, k), k, rows', n, e, stop)
    ensures stop <==> !GoesOn(l, start, k)
    ensures rows' == RowsAt(l, start, k + 1)
    ensures Resealed(l, start, k + 1) == Resealed(l, start, k) + n && Errors(l, start, k + 1) == Errors(l, start, k) + e
  {
    CountsNext(l, start, k);
    if l.dry { DryRows(l, start, k); } else { RowsNext(l, start, k); }
  }

  lemma StandsMore<T>(l: Loop<T>, start: Table<T>, rows: Table<T>, resealed: nat, errs: nat, k: nat,
                      rows': Table<T>, n: nat, e: nat, stop: bool)
    requires Stands(l, start, rows, resealed, errs, k, false)
    requires RoundDone(l, rows, k, rows', n, e, stop)
    ensures Stands(l, start, rows', resealed + n, errs + e, k + 1, stop)
  {
    RoundStops(l, start, k, rows', n, e, stop);
  }

  lemma RoundDescends<T(!new)>(l: Loop<T>, weight: T -> nat, rows: Table<T>, k: nat,
                               rows': Table<T>, n: nat, e: nat, stop: bool)
    requires Lawful(l, weight) && RoundDone(l, rows, k, rows', n, e, stop)
    ensures !stop ==> Total(weight, rows') < Total(weight, rows)
  {
    RoundLowers(l, weight, rows, k);
  }

  lemma DryRows<T>(l: Loop<T>, rows: Table<T>, k: nat)
    requires l.dry
    ensures RowsAt(l, rows, k) == rows && RowsAt(l, rows, k + 1) == rows
  {
  }

  // ---- no errors ----

  lemma {:induction false} SumZero<T>(f: (nat, string, T) -> nat, k: nat, rows: Table<T>, pick: seq<string>, id: string)
    requires Sum(f, k, rows, pick) == 0 && id in pick && id in rows
    ensures f(k, id, rows[id]) == 0
  {
    var n := |pick| - 1;
    if pick[n] != id { SumZero(f, k, rows, pick[..n], id); }
  }

  /** Without errors no query failed, and no row picked counted one. */
  lemma {:induction false} NoErrors<T>(l: Loop<T>, rows: Table<T>, k: nat, j: nat)
    requires Errors(l, rows, k) == 0 && j < k
    ensures !Fails(l, j) && forall id :: id in PickAt(l, rows, j) && id in RowsAt(l, rows, j) ==>
              l.errs(j, id, RowsAt(l, rows, j)[id]) == 0
  {
    if j < k - 1 {
      NoErrors(l, rows, k - 1, j);
    } else {
      forall id | id in PickAt(l, rows, j) && id in RowsAt(l, rows, j)
        ensures l.errs(j, id, RowsAt(l, rows, j)[id]) == 0
      {
        SumZero(l.errs, j, RowsAt(l, rows, j), PickAt(l, rows, j), id);
      }
    }
  }

  lemma {:induction false} SumOfZeros<T>(f: (nat, string, T) -> nat, k: nat, rows: Table<T>, pick: seq<string>)
    requires forall id :: id in pick && id in rows ==> f(k, id, rows[id]) == 0
    ensures Sum(f, k, rows, pick) == 0
  {
    if pick != [] { SumOfZeros(f, k, rows, pick[..|pick| - 1]); }
  }

  /** An empty answer ends the loop quietly. */
  lemma EmptyAnswerEnds<T(!new)>(l: Loop<T>, rows: Table<T>)
    requires !l.dry && !Fails(l, 0) && Picked(l, rows, 0) == []
    ensures EndsAt(l, rows, 0) && Errors(l, rows, 1) == 0 && RowsAt(l, rows, 1) == rows
  {
    CountsNext(l, rows, 0);
    RowsNext(l, rows, 0);
    assert Done(l, rows, [], 0) == {};
  }

  // ---- what a stopping round must have reached ----

  /** A round that ends the loop after a working query without lost rows picks every tagged row,
      or a full batch of rows it could not change. */
  lemma StopReaches<T>(l: Loop<T>, rows: Table<T>, last: nat, r: string, blockers: set<string>)
    requires !l.dry && !GoesOn(l, rows, last) && !Fails(l, last)
    requires Tagged(l, RowsAt(l, rows, last)) <= Ids(l.order(last)) && r in Tagged(l, RowsAt(l, rows, last))
    requires |blockers| < l.batch
    requires forall p :: p in PickAt(l, rows, last) && p in RowsAt(l, rows, last) && p != r ==>
               l.effect(last, p, RowsAt(l, rows, last)[p]) != RowsAt(l, rows, last)[p] || p in blockers
    ensures r in PickAt(l, rows, last)
  {
    var now, pick := RowsAt(l, rows, last), PickAt(l, rows, last);
    AnswerComplete(Tagged(l, now), l.order(last), l.batch);
    PickedSound(l, now, last);
    IdsSize(pick);
    SubsetSize(Ids(pick), Tagged(l, now));
    if |pick| == l.batch && r !in pick {
      forall p | p in Ids(pick) ensures p in blockers { assert p !in Done(l, now, pick, last); }
      SubsetSize(Ids(pick), blockers);
    }
  }

  // ---- calm loops are the runs of a job ----

  /** Nothing fails up to round n and every effect is the job's walk. */
  ghost predicate Follows<T(!new)>(l: Loop<T>, job: Job<T>, ids: set<string>) {
    && l.batch >= 0 && !l.dry && l.inPool == job.inPool && (forall k :: !l.fails(k) && ids <= Ids(l.order(k)))
    && (forall k, id, v {:trigger l.effect(k, id, v)} :: id in ids ==> l.effect(k, id, v) == job.walk(v))
  }

  function Picks<T>(l: Loop<T>, rows: Table<T>, k: nat): seq<seq<string>> {
    if k == 0 then [] else Picks(l, rows, k - 1) + [PickAt(l, rows, k - 1)]
  }

  lemma PickFollows<T(!new)>(l: Loop<T>, job: Job<T>, rows: Table<T>, k: nat)
    requires Follows(l, job, rows.Keys)
    ensures IsSelection(Picked(l, rows, k), Pool(job, rows), l.batch) && !Fails(l, k)
  {
    assert Tagged(l, rows) == Pool(job, rows);
    assert !l.fails(k) && rows.Keys <= Ids(l.order(k));
    AnswerComplete(Tagged(l, rows), l.order(k), l.batch);
  }

  lemma EffectFollows<T(!new)>(l: Loop<T>, job: Job<T>, rows: Table<T>, pick: seq<string>, k: nat)
    requires Follows(l, job, rows.Keys) && BatchLoop.Lawful(job)
    ensures Applied(l, rows, pick, k) == Walked(job, rows, Ids(pick))
    ensures Done(l, rows, pick, k) == Ids(pick) * OpenIds(job, rows)
  {
    forall id | id in rows
      ensures l.effect(k, id, rows[id]) == job.walk(rows[id]) && BatchLoop.LawfulAt(job, rows[id]) {}
  }

  lemma RoundFollows<T(!new)>(l: Loop<T>, job: Job<T>, rows: Table<T>, k: nat)
    requires Follows(l, job, rows.Keys) && BatchLoop.Lawful(job)
    ensures var now, pick := RowsAt(l, rows, k), PickAt(l, rows, k);
            && IsSelection(pick, Pool(job, now), l.batch)
            && RowsAt(l, rows, k + 1) == Walked(job, now, Ids(pick))
            && (GoesOn(l, rows, k) <==> Continues(job, now, l.batch, pick))
  {
    var now, pick := RowsAt(l, rows, k), PickAt(l, rows, k);
    RowsAtKeys(l, rows, k);
    PickFollows(l, job, now, k);
    EffectFollows(l, job, now, pick, k);
    RowsNext(l, rows, k);
    assert pick == [] ==> Ids(pick) * OpenIds(job, now) == {};
  }

  lemma {:induction false} PrefixFollows<T(!new)>(l: Loop<T>, job: Job<T>, rows: Table<T>, k: nat)
    requires Follows(l, job, rows.Keys) && BatchLoop.Lawful(job)
    requires forall j :: 0 <= j < k ==> GoesOn(l, rows, j)
    ensures Prefix(job, rows, l.batch, Picks(l, rows, k), RowsAt(l, rows, k))
  {
    if k > 0 {
      var n := k - 1;
      var now, pick, picks := RowsAt(l, rows, n), PickAt(l, rows, n), Picks(l, rows, n);
      PrefixFollows(l, job, rows, n);
      RoundFollows(l, job, rows, n);
      assert GoesOn(l, rows, n);
      PrefixExtends(job, rows, l.batch, picks, now, pick);
      assert Picks(l, rows, k) == picks + [pick] && k == n + 1;
    }
  }

  /** A loop in which nothing fails is a run of its job over the picks it made. */
  lemma CalmIsRun<T(!new)>(l: Loop<T>, job: Job<T>, rows: Table<T>, last: nat)
    requires Follows(l, job, rows.Keys) && BatchLoop.Lawful(job) && EndsAt(l, rows, last)
    ensures Run(job, rows, l.batch, Picks(l, rows, last + 1))
    ensures Final(job, rows, Picks(l, rows, last + 1)) == RowsAt(l, rows, last + 1)
  {
    PrefixFollows(l, job, rows, last);
    RoundFollows(l, job, rows, last);
    PrefixThenStop(job, rows, l.batch, Picks(l, rows, last), RowsAt(l, rows, last), PickAt(l, rows, last));
  }

  // ---- and every run arises ----

  lemma {:induction false} FinalMore<T>(job: Job<T>, rows: Table<T>, picks: seq<seq<string>>, pick: seq<string>)
    ensures Final(job, rows, picks + [pick]) == Walked(job, Final(job, rows, picks), Ids(pick))
  {
    if picks == [] {
      assert (picks + [pick])[1..] == [];
    } else {
      FinalMore(job, Walked(job, rows, Ids(picks[0])), picks[1..], pick);
      assert (picks + [pick])[1..] == picks[1..] + [pick];
    }
  }

  lemma {:induction false} RunAt<T>(job: Job<T>, rows: Table<T>, batch: nat, picks: seq<seq<string>>, n: nat)
    requires Run(job, rows, batch, picks) && n < |picks|
    ensures var now := Final(job, rows, picks[..n]);
            && IsSelection(picks[n], Pool(job, now), batch)
            && (Continues(job, now, batch, picks[n]) <==> n < |picks| - 1)
    decreases n
  {
    if n > 0 {
      RunAt(job, Walked(job, rows, Ids(picks[0])), batch, picks[1..], n - 1);
      assert picks[..n][1..] == picks[1..][..n - 1];
    }
  }

  /** The queries visit the picks of a run first. */
  ghost predicate Visits<T>(l: Loop<T>, picks: seq<seq<string>>) {
    forall k :: 0 <= k < |picks| ==> |picks[k]| <= |l.order(k)| && l.order(k)[..|picks[k]|] == picks[k]
  }

  lemma VisitedPick<T(!new)>(l: Loop<T>, job: Job<T>, rows: Table<T>, pick: seq<string>, k: nat)
    requires Follows(l, job, rows.Keys) && IsSelection(pick, Pool(job, rows), l.batch)
    requires |pick| <= |l.order(k)| && l.order(k)[..|pick|] == pick
    ensures Picked(l, rows, k) == pick
  {
    assert Tagged(l, rows) == Pool(job, rows) && !l.fails(k);
    EveryAnswerArises(pick, l.order(k)[|pick|..], Tagged(l, rows), l.batch);
    assert pick + l.order(k)[|pick|..] == l.order(k);
  }

  lemma RunPick<T(!new)>(l: Loop<T>, job: Job<T>, rows: Table<T>, picks: seq<seq<string>>, n: nat)
    requires Follows(l, job, rows.Keys) && BatchLoop.Lawful(job) && Visits(l, picks)
    requires Run(job, rows, l.batch, picks) && n < |picks| && RowsAt(l, rows, n) == Final(job, rows, picks[..n])
    ensures PickAt(l, rows, n) == picks[n] && (GoesOn(l, rows, n) <==> n < |picks| - 1)
  {
    RunAt(job, rows, l.batch, picks, n);
    RowsAtKeys(l, rows, n);
    VisitedPick(l, job, RowsAt(l, rows, n), picks[n], n);
    RoundFollows(l, job, rows, n);
  }

  lemma RunRowsMore<T(!new)>(l: Loop<T>, job: Job<T>, rows: Table<T>, picks: seq<seq<string>>, n: nat)
    requires Follows(l, job, rows.Keys) && BatchLoop.Lawful(job) && Visits(l, picks)
    requires Run(job, rows, l.batch, picks) && n < |picks| && RowsAt(l, rows, n) == Final(job, rows, picks[..n])
    ensures RowsAt(l, rows, n + 1) == Final(job, rows, picks[..n + 1])
  {
    RunPick(l, job, rows, picks, n);
    RoundFollows(l, job, rows, n);
    FinalMore(job, rows, picks[..n], picks[n]);
    assert picks[..n + 1] == picks[..n] + [picks[n]];
  }

  lemma {:induction false} RunRows<T(!new)>(l: Loop<T>, job: Job<T>, rows: Table<T>, picks: seq<seq<string>>, n: nat)
    requires Follows(l, job, rows.Keys) && BatchLoop.Lawful(job) && Visits(l, picks)
    requires Run(job, rows, l.batch, picks) && n <= |picks|
    ensures RowsAt(l, rows, n) == Final(job, rows, picks[..n])
  {
    if n == 0 {
      assert picks[..0] == [];
    } else {
      RunRows(l, job, rows, picks, n - 1);
      RunRowsMore(l, job, rows, picks, n - 1);
      assert n - 1 + 1 == n;
    }
  }

  /** A loop whose queries visit the picks of a run of its job, in which nothing fails, makes
      those picks and ends with the run. */
  lemma RunIsLoop<T(!new)>(l: Loop<T>, job: Job<T>, rows: Table<T>, picks: seq<seq<string>>)
    requires Follows(l, job, rows.Keys) && BatchLoop.Lawful(job) && Visits(l, picks)
    requires Run(job, rows, l.batch, picks)
    ensures picks != [] && EndsAt(l, rows, |picks| - 1) && RowsAt(l, rows, |picks|) == Final(job, rows, picks)
    ensures forall k :: 0 <= k < |picks| ==> PickAt(l, rows, k) == picks[k]
  {
    forall k | 0 <= k < |picks| ensures PickAt(l, rows, k) == picks[k] && (GoesOn(l, rows, k) <==> k < |picks| - 1) {
      RunRows(l, job, rows, picks, k);
      RunPick(l, job, rows, picks, k);
    }
    RunRows(l, job, rows, picks, |picks|);
    assert picks[..|picks|] == picks;
  }
}
