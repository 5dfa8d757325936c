/** Key rotation over one text column. */
module RekeyColumn {
  import opened Common
  import opened Listing
  import opened Cipher
  import BL = BatchLoop
  import opened BatchRun

  type Rows = map<string, Stored>

  function ColumnJob(ring: Ring): BL.Job<Stored>
    requires ring.Valid()
  {
    BL.Job(StaleIn(ring), v => Openable(ring, v), v => Reseal(ring, v))
  }

  function StaleIds(ring: Ring, rows: Rows): set<string> { set id | id in rows && Stale(ring, rows[id]) }

  function StaleIn(ring: Ring): Stored -> bool { v => Stale(ring, v) }

  /** What goes wrong, by query and row: which queries fail, the order in which each visits
      rows, and which seals and writes fail. */
  datatype Weather = Weather(queryFails: nat -> bool, order: nat -> seq<string>,
                             sealFails: (nat, string) -> bool, writeFails: (nat, string) -> bool)
  {
    /** No query fails, and none loses a row. */
    ghost predicate Complete(ids: set<string>) { forall k :: !queryFails(k) && ids <= Ids(order(k)) }

    /** The row can be re-sealed in round k, as far as the calls for it go. */
    predicate RowCalm(k: nat, id: string, dryRun: bool) { !sealFails(k, id) && (dryRun || !writeFails(k, id)) }

    /** Nothing goes wrong at all. */
    ghost predicate Calm(ids: set<string>, dryRun: bool) {
      Complete(ids) && forall k, id :: id in ids ==> RowCalm(k, id, dryRun)
    }
  }

  predicate Rekeys(ring: Ring, w: Weather, dryRun: bool, k: nat, id: string, v: Stored) {
    Openable(ring, v) && w.RowCalm(k, id, dryRun)
  }

  /** A picked row is re-sealed exactly if it is readable and its calls work, and counts as one
      re-sealed or one error. */
  function ColumnLoop(ring: Ring, w: Weather, batch: int, dryRun: bool): Loop<Stored>
    requires ring.Valid()
  {
    Loop(StaleIn(ring),
         (k: nat, id: string, v: Stored) => if Rekeys(ring, w, dryRun, k, id, v) then Reseal(ring, v) else v,
         (k: nat, id: string, v: Stored) => if Rekeys(ring, w, dryRun, k, id, v) then 1 else 0,
         (k: nat, id: string, v: Stored) => if Rekeys(ring, w, dryRun, k, id, v) then 0 else 1,
         w.queryFails, w.order, batch, dryRun)
  }

  function Weight(ring: Ring): Stored -> nat { v => if Openable(ring, v) then 1 else 0 }

  lemma ColumnLawful(ring: Ring, w: Weather, batch: int, dryRun: bool)
    requires ring.Valid()
    ensures Lawful(ColumnLoop(ring, w, batch, dryRun), Weight(ring))
  {
    forall k, id, v ensures LawfulAt(ColumnLoop(ring, w, batch, dryRun), Weight(ring), k, id, v) {
      ResealMeaning(ring, v);
    }
  }

  lemma ColumnDescends(ring: Ring, w: Weather, batch: int, dryRun: bool, rows: Rows, k: nat, rows': Rows,
                       n: nat, e: nat, stop: bool)
    requires ring.Valid() && RoundDone(ColumnLoop(ring, w, batch, dryRun), rows, k, rows', n, e, stop)
    ensures !stop ==> Total(Weight(ring), rows') < Total(Weight(ring), rows)
  {
    ColumnLawful(ring, w, batch, dryRun);
    RoundDescends(ColumnLoop(ring, w, batch, dryRun), Weight(ring), rows, k, rows', n, e, stop);
  }

  class Column {
    const ring: Ring
    var rows: Rows

    constructor (ring: Ring, rows: Rows)
      ensures this.ring == ring && this.rows == rows
    {
      this.ring, this.rows := ring, rows;
    }

    /** The k-th stale-row query; a negative limit is an error. */
    method Query(batch: int, k: nat, w: Weather) returns (failed: bool, pick: seq<string>)
      ensures failed <==> w.queryFails(k) || batch < 0
      ensures !failed ==> pick == Answer(StaleIds(ring, rows), w.order(k), batch)
      ensures failed ==> pick == []
    {
      pick, failed := [], w.queryFails(k) || batch < 0;
      if !failed { pick := Select(StaleIds(ring, rows), w.order(k), batch); }
    }

    /** One selected row: decrypt, seal under the active key, write back. */
    method RekeyRow(id: string, val: Stored, dryRun: bool, k: nat, w: Weather) returns (did: bool, err: bool)
      requires ring.Valid()
      requires id in rows && rows[id] == val && Stale(ring, val)
      modifies this`rows
      ensures did <==> Rekeys(ring, w, dryRun, k, id, val)
      ensures err == !did
      ensures rows == if did && !dryRun then old(rows)[id := Reseal(ring, val)] else old(rows)
    {
      var plain := Decrypt(ring, val);
      if plain.Err? { return false, true; }
      if w.sealFails(k, id) { return false, true; }
      var sealed := Encrypt(ring, plain.text);
      ResealMeaning(ring, val);
      if sealed == val { return false, false; }
      if dryRun { return true, false; }
      if w.writeFails(k, id) { return false, true; }
      rows := rows[id := sealed];
      return true, false;
    }

    /** The rows of a batch in turn: each ends as the round's effect on it. */
    method RekeyBatch(pick: seq<string>, dryRun: bool, k: nat, w: Weather, ghost l: Loop<Stored>)
      returns (progress: nat, errs: nat)
      requires ring.Valid() && l == ColumnLoop(ring, w, l.batch, dryRun)
      requires Distinct(pick) && forall id :: id in pick ==> id in Tagged(l, rows)
      modifies this`rows
      ensures rows == if dryRun then old(rows) else Applied(l, old(rows), pick, k)
      ensures progress == Sum(l.count, k, old(rows), pick) && errs == Sum(l.errs, k, old(rows), pick)
    {
      ghost var start := rows;
      progress, errs := 0, 0;
      assert Applied(l, start, [], k) == start;
      for i := 0 to |pick|
        invariant rows == if dryRun then start else Applied(l, start, pick[..i], k)
        invariant progress == Sum(l.count, k, start, pick[..i]) && errs == Sum(l.errs, k, start, pick[..i])
      {
        var id := pick[i];
        assert id in pick && id in Tagged(l, start);
        AppliedMore(l, start, pick, i, k);
        SumMore(l.count, k, start, pick, i);
        SumMore(l.errs, k, start, pick, i);
        assert rows[id] == start[id];
        var did, err := RekeyRow(id, rows[id], dryRun, k, w);
        if did { progress := progress + 1; }
        if err { errs := errs + 1; }
      }
      assert pick[..|pick|] == pick;
    }

    /** One turn of the loop: query, batch, and the exit test. */
    method Round(batch: int, dryRun: bool, k: nat, w: Weather) returns (stop: bool, resealed: nat, errs: nat)
      requires ring.Valid()
      modifies this`rows
      ensures RoundDone(ColumnLoop(ring, w, batch, dryRun), old(rows), k, rows, resealed, errs, stop)
    {
      ghost var l, start := ColumnLoop(ring, w, batch, dryRun), rows;
      PickedSound(l, start, k);
      assert Applied(l, start, [], k) == start && Done(l, start, [], k) == {};
      var failed, pick := Query(batch, k, w);
      assert Tagged(l, start) == StaleIds(ring, start);
      if failed { return true, 0, 1; }
      if pick == [] { return true, 0, 0; }
      ColumnLawful(ring, w, batch, dryRun);
      BatchConserves(l, Weight(ring), start, pick, k);
      resealed, errs := RekeyBatch(pick, dryRun, k, w, l);
      stop := dryRun || |pick| < batch || resealed == 0;
    }

    /** The loop's bookkeeping around one turn. */
    method Turn(batch: int, dryRun: bool, k: nat, w: Weather, resealed: nat, errs: nat, ghost start: Rows)
      returns (stop: bool, resealed': nat, errs': nat)
      requires ring.Valid() && Stands(ColumnLoop(ring, w, batch, dryRun), start, rows, resealed, errs, k, false)
      modifies this`rows
      ensures Stands(ColumnLoop(ring, w, batch, dryRun), start, rows, resealed', errs', k + 1, stop)
      ensures !stop ==> Total(Weight(ring), rows) < Total(Weight(ring), old(rows))
    {
      ghost var before := rows;
      var n, e;
      stop, n, e := Round(batch, dryRun, k, w);
      ColumnDescends(ring, w, batch, dryRun, before, k, rows, n, e, stop);
      StandsMore(ColumnLoop(ring, w, batch, dryRun), start, before, resealed, errs, k, rows, n, e, stop);
      resealed', errs' := resealed + n, errs + e;
    }

    /** The whole column. It ends for any contents, any LIMIT choice and any failures, with round
        `last`; rows and counts are those of the loop. */
    method Rekey(batch: int, dryRun: bool, w: Weather) returns (resealed: nat, errs: nat, ghost last: nat)
      requires ring.Valid()
      modifies this`rows
      ensures Ended(ColumnLoop(ring, w, batch, dryRun), old(rows), rows, resealed, errs, last)
    {
      ghost var start := rows;
      resealed, errs := 0, 0;
      var stop, k := false, 0;
      while !stop
        invariant Stands(ColumnLoop(ring, w, batch, dryRun), start, rows, resealed, errs, k, stop)
        decreases !stop, Total(Weight(ring), rows)
      {
        stop, resealed, errs := Turn(batch, dryRun, k, w, resealed, errs, start);
        k := k + 1;
      }
      StandsEnded(ColumnLoop(ring, w, batch, dryRun), start, rows, resealed, errs, k);
      last := k - 1;
    }
  }

  // ---- what every loop keeps ----

  /** Whatever goes wrong, each row is as it was, or was readable and stale and is its own
      re-seal. */
  ghost predicate OnlyReseals(ring: Ring, start: Rows, end: Rows)
    requires ring.Valid()
  {
    && end.Keys == start.Keys
    && forall id :: id in start ==>
         end[id] == start[id] || (Openable(ring, start[id]) && end[id] == Reseal(ring, start[id]))
  }

  lemma ColumnSafe(ring: Ring, w: Weather, batch: int, dryRun: bool, rows: Rows, k: nat)
    requires ring.Valid()
    ensures OnlyReseals(ring, rows, RowsAt(ColumnLoop(ring, w, batch, dryRun), rows, k))
  {
    var l := ColumnLoop(ring, w, batch, dryRun);
    RowsAtKeys(l, rows, k);
    forall id | id in rows
      ensures var v := RowsAt(l, rows, k)[id];
              v == rows[id] || (Openable(ring, rows[id]) && v == Reseal(ring, rows[id]))
    {
      ResealMeaning(ring, rows[id]);
      RowsKeep(l, rows, k, id, v => v == rows[id] || (Openable(ring, rows[id]) && v == Reseal(ring, rows[id])));
    }
  }

  lemma WeightIsSize(ring: Ring, rows: Rows)
    requires ring.Valid()
    ensures Total(Weight(ring), rows) == |BL.OpenIds(ColumnJob(ring), rows)|
  {
    TotalIsSize(Weight(ring), ColumnJob(ring).open, rows);
    assert BL.OpenIds(ColumnJob(ring), rows) == Heavy(ColumnJob(ring).open, rows);
  }

  /** The first count is the number of rows changed. */
  lemma CountIsChanges(ring: Ring, w: Weather, batch: int, rows: Rows, k: nat)
    requires ring.Valid()
    ensures var l := ColumnLoop(ring, w, batch, false);
            Resealed(l, rows, k) == |Changed(rows, RowsAt(l, rows, k))|
  {
    var l := ColumnLoop(ring, w, batch, false);
    ColumnLawful(ring, w, batch, false);
    Conserves(l, Weight(ring), rows, k);
    WeightIsSize(ring, rows);
    WeightIsSize(ring, RowsAt(l, rows, k));
    ColumnSafe(ring, w, batch, false, rows, k);
    OpenAndChanged(ring, rows, RowsAt(l, rows, k));
  }

  lemma OpenAndChanged(ring: Ring, start: Rows, end: Rows)
    requires ring.Valid() && OnlyReseals(ring, start, end)
    ensures |BL.OpenIds(ColumnJob(ring), start)| == |BL.OpenIds(ColumnJob(ring), end)| + |Changed(start, end)|
  {
    var before, after := BL.OpenIds(ColumnJob(ring), start), BL.OpenIds(ColumnJob(ring), end);
    forall id | id in start ensures id in before <==> id in after || id in Changed(start, end) {
      ResealMeaning(ring, start[id]);
    }
    forall id | id in after ensures id !in Changed(start, end) { ResealMeaning(ring, start[id]); }
    assert before == after + Changed(start, end);
  }

  // ---- what a run without errors says ----

  /** Each row is its own re-seal and under the active key; once the old keys are dropped it
      still reads the same. */
  ghost predicate NothingStale(ring: Ring, start: Rows, end: Rows)
    requires ring.Valid()
  {
    && end.Keys == start.Keys
    && (forall id :: id in start ==> end[id] == Reseal(ring, start[id]) && !Stale(ring, end[id]))
    && (forall id :: id in start && Decrypt(ring, start[id]).Ok? ==>
          Decrypt(Retired(ring), end[id]) == Decrypt(ring, start[id]))
  }

  lemma NothingStaleExactly(ring: Ring, start: Rows, end: Rows)
    requires ring.Valid() && OnlyReseals(ring, start, end)
    ensures NothingStale(ring, start, end) <==> forall id :: id in end ==> !Stale(ring, end[id])
  {
    if forall id :: id in end ==> !Stale(ring, end[id]) {
      forall id | id in start
        ensures end[id] == Reseal(ring, start[id])
        ensures Decrypt(ring, start[id]).Ok? ==> Decrypt(Retired(ring), end[id]) == Decrypt(ring, start[id])
      {
        ResealMeaning(ring, start[id]);
        if Decrypt(ring, start[id]).Ok? { SurvivesRetirement(ring, end[id]); }
      }
    }
  }

  /**
   An apply run that reports no errors leaves nothing stale exactly when its last answer held
   every row still stale, whatever else the queries did; with a batch of at least one, exactly
   when the last query lost none of them.
   */
  lemma NoErrorsExact(ring: Ring, w: Weather, batch: int, rows: Rows, last: nat)
    requires ring.Valid()
    requires var l := ColumnLoop(ring, w, batch, false); EndsAt(l, rows, last) && Errors(l, rows, last + 1) == 0
    ensures var l := ColumnLoop(ring, w, batch, false);
            var left, end := Tagged(l, RowsAt(l, rows, last)), RowsAt(l, rows, last + 1);
            && (NothingStale(ring, rows, end) <==> left <= Ids(PickAt(l, rows, last)))
            && (batch > 0 ==> (NothingStale(ring, rows, end) <==> left <= Ids(w.order(last))))
  {
    var l := ColumnLoop(ring, w, batch, false);
    ColumnSafe(ring, w, batch, false, rows, last + 1);
    NothingStaleExactly(ring, rows, RowsAt(l, rows, last + 1));
    RowsAtKeys(l, rows, last);
    RowsAtKeys(l, rows, last + 1);
    forall id | id in rows
      ensures Stale(ring, RowsAt(l, rows, last + 1)[id]) <==>
              id in Tagged(l, RowsAt(l, rows, last)) && id !in Ids(PickAt(l, rows, last))
    {
      QuietLast(ring, w, batch, rows, last, id);
    }
    if batch > 0 { QuietStopIsShort(ring, w, batch, rows, last); }
  }

  /** Without errors what is stale in the end is what the last answer left out. */
  lemma QuietLast(ring: Ring, w: Weather, batch: int, rows: Rows, last: nat, id: string)
    requires ring.Valid() && id in RowsAt(ColumnLoop(ring, w, batch, false), rows, last)
    requires Errors(ColumnLoop(ring, w, batch, false), rows, last + 1) == 0
    ensures var l := ColumnLoop(ring, w, batch, false);
            && id in RowsAt(l, rows, last + 1)
            && (Stale(ring, RowsAt(l, rows, last + 1)[id]) <==>
                  id in Tagged(l, RowsAt(l, rows, last)) && id !in Ids(PickAt(l, rows, last)))
  {
    var l := ColumnLoop(ring, w, batch, false);
    var now, pick := RowsAt(l, rows, last), PickAt(l, rows, last);
    NoErrors(l, rows, last + 1, last);
    RowsNext(l, rows, last);
    PickedSound(l, now, last);
    ResealMeaning(ring, now[id]);
    assert id in pick <==> id in Ids(pick);
  }

  /** Without errors the last batch is short, so it holds all that its query visited. */
  lemma QuietStopIsShort(ring: Ring, w: Weather, batch: int, rows: Rows, last: nat)
    requires ring.Valid() && batch > 0
    requires var l := ColumnLoop(ring, w, batch, false); EndsAt(l, rows, last) && Errors(l, rows, last + 1) == 0
    ensures var l := ColumnLoop(ring, w, batch, false);
            Ids(PickAt(l, rows, last)) == Tagged(l, RowsAt(l, rows, last)) * Ids(w.order(last))
  {
    var l := ColumnLoop(ring, w, batch, false);
    var now, pick := RowsAt(l, rows, last), PickAt(l, rows, last);
    NoErrors(l, rows, last + 1, last);
    AnswerSound(Tagged(l, now), w.order(last), batch);
    if |pick| == batch {
      PickedSound(l, now, last);
      var id := pick[0];
      assert id in Tagged(l, now);
      ResealMeaning(ring, now[id]);
      assert id in Done(l, now, pick, last);
    }
  }

  /** Two runs that report no errors and leave a readable stale row as it was: one whose only
      query loses the row, and one with a batch of zero. */
  lemma NoErrorsYetStale(ring: Ring, tag: string, w: Weather)
    requires ring.Valid() && tag in ring.keys && tag != ring.active && !w.queryFails(0)
    ensures var rows := map["r" := V2(tag, Sealed(ring.keys[tag], "s"))];
            && Openable(ring, rows["r"])
            && (w.order(0) == [] ==>
                  var l := ColumnLoop(ring, w, 1000, false);
                  EndsAt(l, rows, 0) && Errors(l, rows, 1) == 0 && RowsAt(l, rows, 1) == rows)
            && (w.order(0) == ["r"] ==>
                  var l := ColumnLoop(ring, w, 0, false);
                  EndsAt(l, rows, 0) && Errors(l, rows, 1) == 0 && RowsAt(l, rows, 1) == rows)
  {
    var rows := map["r" := V2(tag, Sealed(ring.keys[tag], "s"))];
    if w.order(0) == [] { EmptyAnswerEnds(ColumnLoop(ring, w, 1000, false), rows); }
    if w.order(0) == ["r"] {
      var l := ColumnLoop(ring, w, 0, false);
      AnswerSound(Tagged(l, rows), w.order(0), 0);
      EmptyAnswerEnds(l, rows);
    }
  }

  // ---- coverage ----

  /** The stale rows that are unreadable, or that some round has a call fail for. */
  ghost function Troubled(ring: Ring, w: Weather, rows: Rows): set<string> {
    set id | id in rows && Stale(ring, rows[id]) && (!Openable(ring, rows[id]) || exists k :: !w.RowCalm(k, id, false))
  }

  /** Under failures: if no query fails or loses a row, and fewer than a batch of rows are in
      trouble, every other row ends as its re-seal. */
  lemma CoversTheRest(ring: Ring, w: Weather, batch: int, rows: Rows, last: nat, id: string)
    requires ring.Valid() && w.Complete(rows.Keys) && |Troubled(ring, w, rows)| < batch
    requires EndsAt(ColumnLoop(ring, w, batch, false), rows, last)
    requires id in rows && id !in Troubled(ring, w, rows)
    ensures var end := RowsAt(ColumnLoop(ring, w, batch, false), rows, last + 1);
            id in end && end[id] == Reseal(ring, rows[id])
  {
    var l, troubled := ColumnLoop(ring, w, batch, false), Troubled(ring, w, rows);
    var now := RowsAt(l, rows, last);
    ColumnSafe(ring, w, batch, false, rows, last);
    RowsNext(l, rows, last);
    ResealMeaning(ring, rows[id]);
    if Stale(ring, now[id]) {
      assert !w.queryFails(last) && rows.Keys <= Ids(w.order(last));
      PickedSound(l, now, last);
      forall p | p in PickAt(l, rows, last) && p in now && p != id
        ensures l.effect(last, p, now[p]) != now[p] || p in troubled
      {
        ResealMeaning(ring, rows[p]);
        assert p in Tagged(l, now);
      }
      StopReaches(l, rows, last, id, troubled);
      assert w.RowCalm(last, id, false);
    }
  }

  /** Each row is its own re-seal, and the counts are those of the readable and the unreadable. */
  ghost predicate Covered(ring: Ring, start: Rows, end: Rows, resealed: nat, errs: nat)
    requires ring.Valid()
  {
    && end.Keys == start.Keys && (forall id :: id in start ==> end[id] == Reseal(ring, start[id]))
    && resealed == |BL.OpenIds(ColumnJob(ring), start)|
    && (errs == 0 <==> Stuck(ring, start) == {})
  }

  function Stuck(ring: Ring, rows: Rows): set<string> {
    set id | id in rows && Stale(ring, rows[id]) && !Openable(ring, rows[id])
  }

  /** When nothing goes wrong and fewer than a batch of stale rows are unreadable, an apply run
      leaves each row as its own re-seal, counts the readable stale rows, and reports an error
      exactly when an unreadable row exists. */
  lemma CalmRunCovers(ring: Ring, w: Weather, batch: int, rows: Rows, last: nat)
    requires ring.Valid() && w.Calm(rows.Keys, false) && |Stuck(ring, rows)| < batch
    requires EndsAt(ColumnLoop(ring, w, batch, false), rows, last)
    ensures var l := ColumnLoop(ring, w, batch, false);
            Covered(ring, rows, RowsAt(l, rows, last + 1), Resealed(l, rows, last + 1), Errors(l, rows, last + 1))
  {
    var l := ColumnLoop(ring, w, batch, false);
    CalmRows(ring, w, batch, rows, last);
    CountIsChanges(ring, w, batch, rows, last + 1);
    ResealedChange(ring, rows, RowsAt(l, rows, last + 1));
    CalmErrors(ring, w, batch, rows, last);
  }

  lemma CalmTrouble(ring: Ring, w: Weather, rows: Rows)
    requires w.Calm(rows.Keys, false)
    ensures Troubled(ring, w, rows) == Stuck(ring, rows)
  {
  }

  lemma CalmRows(ring: Ring, w: Weather, batch: int, rows: Rows, last: nat)
    requires ring.Valid() && w.Calm(rows.Keys, false) && |Stuck(ring, rows)| < batch
    requires EndsAt(ColumnLoop(ring, w, batch, false), rows, last)
    ensures var end := RowsAt(ColumnLoop(ring, w, batch, false), rows, last + 1);
            end.Keys == rows.Keys && forall id :: id in rows ==> end[id] == Reseal(ring, rows[id])
  {
    var l := ColumnLoop(ring, w, batch, false);
    CalmTrouble(ring, w, rows);
    RowsAtKeys(l, rows, last + 1);
    ColumnSafe(ring, w, batch, false, rows, last + 1);
    forall id | id in rows ensures RowsAt(l, rows, last + 1)[id] == Reseal(ring, rows[id]) {
      if id !in Stuck(ring, rows) { CoversTheRest(ring, w, batch, rows, last, id); }
    }
  }

  lemma ResealedChange(ring: Ring, start: Rows, end: Rows)
    requires ring.Valid() && end.Keys == start.Keys && forall id :: id in start ==> end[id] == Reseal(ring, start[id])
    ensures Changed(start, end) == BL.OpenIds(ColumnJob(ring), start)
  {
    forall id | id in start ensures id in Changed(start, end) <==> id in BL.OpenIds(ColumnJob(ring), start) {
      ResealMeaning(ring, start[id]);
    }
  }

  lemma CalmErrors(ring: Ring, w: Weather, batch: int, rows: Rows, last: nat)
    requires ring.Valid() && w.Calm(rows.Keys, false) && batch > 0
    requires EndsAt(ColumnLoop(ring, w, batch, false), rows, last)
    ensures Errors(ColumnLoop(ring, w, batch, false), rows, last + 1) == 0 <==> Stuck(ring, rows) == {}
  {
    var l := ColumnLoop(ring, w, batch, false);
    if Errors(l, rows, last + 1) == 0 {
      NoErrorsExact(ring, w, batch, rows, last);
      RowsAtKeys(l, rows, last);
      assert rows.Keys <= Ids(w.order(last));
      forall id | id in rows ensures id !in Stuck(ring, rows) { ResealMeaning(ring, rows[id]); }
    }
    if Stuck(ring, rows) == {} { CalmNoErrors(ring, w, batch, rows, last + 1); }
  }

  lemma {:induction false} CalmNoErrors(ring: Ring, w: Weather, batch: int, rows: Rows, k: nat)
    requires ring.Valid() && w.Calm(rows.Keys, false) && Stuck(ring, rows) == {} && batch >= 0
    ensures Errors(ColumnLoop(ring, w, batch, false), rows, k) == 0
  {
    var l := ColumnLoop(ring, w, batch, false);
    if k > 0 {
      var n := k - 1;
      var now, pick := RowsAt(l, rows, n), PickAt(l, rows, n);
      CalmNoErrors(ring, w, batch, rows, n);
      ColumnSafe(ring, w, batch, false, rows, n);
      PickedSound(l, now, n);
      forall id | id in pick && id in now ensures l.errs(n, id, now[id]) == 0 {
        ResealMeaning(ring, rows[id]);
        assert id in Tagged(l, now) && id !in Stuck(ring, rows) && w.RowCalm(n, id, false);
      }
      SumOfZeros(l.errs, n, now, pick);
      assert !w.queryFails(n);
      CountsNext(l, rows, n);
      assert k == n + 1;
    }
  }

  lemma ColumnJobLawful(ring: Ring)
    requires ring.Valid()
    ensures BL.Lawful(ColumnJob(ring))
  {
    forall v ensures BL.LawfulAt(ColumnJob(ring), v) {
      ResealMeaning(ring, v);
    }
  }

  lemma CalmFollows(ring: Ring, w: Weather, batch: nat, rows: Rows)
    requires ring.Valid() && w.Calm(rows.Keys, false)
    ensures Follows(ColumnLoop(ring, w, batch, false), ColumnJob(ring), rows.Keys)
  {
    var l := ColumnLoop(ring, w, batch, false);
    forall k, id, v | id in rows.Keys ensures l.effect(k, id, v) == ColumnJob(ring).walk(v) {
      assert w.RowCalm(k, id, false);
      ResealMeaning(ring, v);
    }
  }

  /** In calm weather the loop is a run of the column's job ... */
  lemma CalmColumnIsRun(ring: Ring, w: Weather, batch: nat, rows: Rows, last: nat)
    requires ring.Valid() && w.Calm(rows.Keys, false) && EndsAt(ColumnLoop(ring, w, batch, false), rows, last)
    ensures var l := ColumnLoop(ring, w, batch, false);
            && BL.Run(ColumnJob(ring), rows, batch, Picks(l, rows, last + 1))
            && BL.Final(ColumnJob(ring), rows, Picks(l, rows, last + 1)) == RowsAt(l, rows, last + 1)
  {
    ColumnJobLawful(ring);
    CalmFollows(ring, w, batch, rows);
    CalmIsRun(ColumnLoop(ring, w, batch, false), ColumnJob(ring), rows, last);
  }

  /** Nothing fails, and the k-th query visits the k-th pick first. */
  ghost function CalmWeather(picks: seq<seq<string>>, all: seq<string>): Weather {
    Weather((k: nat) => false, (k: nat) => (if k < |picks| then picks[k] else []) + all,
            (k: nat, id: string) => false, (k: nat, id: string) => false)
  }

  /** ... and every run of it arises. */
  lemma RunArises(ring: Ring, rows: Rows, batch: nat, picks: seq<seq<string>>) returns (w: Weather)
    requires ring.Valid() && BL.Run(ColumnJob(ring), rows, batch, picks)
    ensures w.Calm(rows.Keys, false) && picks != []
    ensures var l := ColumnLoop(ring, w, batch, false);
            EndsAt(l, rows, |picks| - 1) && RowsAt(l, rows, |picks|) == BL.Final(ColumnJob(ring), rows, picks)
  {
    var all := OrderOf(rows.Keys);
    w := CalmWeather(picks, all);
    forall k ensures rows.Keys <= Ids(w.order(k)) {
      forall id | id in rows.Keys ensures id in w.order(k) { assert id in Ids(all); }
    }
    ColumnJobLawful(ring);
    CalmFollows(ring, w, batch, rows);
    RunIsLoop(ColumnLoop(ring, w, batch, false), ColumnJob(ring), rows, picks);
  }

  /** Every LIMIT choice re-seals every readable stale row exactly when fewer than a batch of
      stale rows are unreadable, or there is nothing to re-seal. */
  lemma ColumnCoverage(ring: Ring, rows: Rows, batch: nat)
    requires ring.Valid()
    ensures (forall picks :: BL.Run(ColumnJob(ring), rows, batch, picks) ==>
               BL.Final(ColumnJob(ring), rows, picks) == BL.Walked(ColumnJob(ring), rows, rows.Keys))
            <==> (|Stuck(ring, rows)| < batch || BL.OpenIds(ColumnJob(ring), rows) == {})
  {
    var job := ColumnJob(ring);
    ColumnJobLawful(ring);
    BL.CoverageExact(job, rows, batch);
    forall r | r in BL.OpenIds(job, rows) ensures BL.Lingering(job, rows, r) == Stuck(ring, rows) {
      forall id | id in rows ensures id in BL.Lingering(job, rows, r) <==> id in Stuck(ring, rows) {
        ResealMeaning(ring, rows[id]);
      }
    }
    if BL.OpenIds(job, rows) != {} {
      var r :| r in BL.OpenIds(job, rows);
      assert BL.Lingering(job, rows, r) == Stuck(ring, rows);
    }
  }

  /** After full coverage the old keys can be dropped: every readable row reads the same. */
  lemma CoveredThenRetire(ring: Ring, rows: Rows, id: string)
    requires ring.Valid() && id in rows && Decrypt(ring, rows[id]).Ok?
    ensures Decrypt(Retired(ring), BL.Walked(ColumnJob(ring), rows, rows.Keys)[id]) == Decrypt(ring, rows[id])
  {
    ResealMeaning(ring, rows[id]);
    SurvivesRetirement(ring, Reseal(ring, rows[id]));
  }
}
