/** Key rotation over one json/jsonb column. */
module RekeyJson {
  import opened Common
  import opened Listing
  import opened Cipher
  import opened JsonSecrets
  import BL = BatchLoop
  import opened BatchRun
  import opened Text

  type Docs = map<string, Doc>

  predicate MentionsText(s: string) { Contains(s, "encv1:") || Contains(s, "encv2:") }

  /** The SQL pre-filter: a version tag somewhere in the serialized document. It does not ask
      under which key a value is sealed. */
  predicate Mentions(v: Doc) {
    match v
    case Str(s) => IsEncrypted(s) || MentionsText(s.text)
    case Arr(items) => exists i :: 0 <= i < |items| && Mentions(items[i])
    case Obj(keys, values) =>
      || (exists i :: 0 <= i < |keys| && MentionsText(keys[i]))
      || (exists i :: 0 <= i < |values| && Mentions(values[i]))
    case _ => false
  }

  function MentionsTag(): Doc -> bool { v => Mentions(v) }

  function JsonJob(ring: Ring): BL.Job<Doc>
    requires ring.Valid()
  {
    BL.Job(MentionsTag(), v => OpenCount(ring, v) > 0, v => Walk(ring, v))
  }

  lemma {:induction false} StaleIsMentioned(ring: Ring, v: Doc)
    requires StaleCount(ring, v) > 0
    ensures Mentions(v)
    decreases v
  {
    match v
    case Arr(items) =>
      var i := StaleKid(ring, items);
      StaleIsMentioned(ring, items[i]);
    case Obj(_, values) =>
      var i := StaleKid(ring, values);
      StaleIsMentioned(ring, values[i]);
    case _ =>
  }

  lemma {:induction false} StaleKid(ring: Ring, kids: seq<Doc>) returns (i: nat)
    requires StaleSum(ring, kids) > 0
    ensures i < |kids| && StaleCount(ring, kids[i]) > 0
  {
    i := |kids| - 1;
    if StaleCount(ring, kids[i]) == 0 { i := StaleKid(ring, kids[..i]); }
  }

  lemma JsonJobLawful(ring: Ring)
    requires ring.Valid()
    ensures BL.Lawful(JsonJob(ring))
  {
    forall v ensures BL.LawfulAt(JsonJob(ring), v) {
      WalkCorrect(ring, v);
      if OpenCount(ring, v) > 0 { StaleIsMentioned(ring, v); }
    }
  }

  // ---- the loop ----

  /** What goes wrong, by query and document: which queries fail, the order in which each visits
      rows, which documents fail to decode, encode or be written, and which draws of randomness
      fail while one is walked. */
  datatype Weather = Weather(queryFails: nat -> bool, order: nat -> seq<string>, decodeFails: (nat, string) -> bool,
                             drawFails: (nat, string) -> set<nat>, encodeFails: (nat, string) -> bool,
                             writeFails: (nat, string) -> bool)
  {
    /** No query fails, and none loses a row. */
    ghost predicate Complete(ids: set<string>) { forall k :: !queryFails(k) && ids <= Ids(order(k)) }

    predicate Stores(k: nat, id: string, dryRun: bool) { !encodeFails(k, id) && (dryRun || !writeFails(k, id)) }

    predicate DocCalm(k: nat, id: string, dryRun: bool) {
      !decodeFails(k, id) && drawFails(k, id) == {} && Stores(k, id, dryRun)
    }

    /** Nothing goes wrong at all. */
    ghost predicate Calm(ids: set<string>, dryRun: bool) {
      Complete(ids) && forall k, id :: id in ids ==> DocCalm(k, id, dryRun)
    }
  }

  /** What round k makes of a document: its walk with the draws that fail, if it decodes and the
      result can be stored. */
  function DocAfter(ring: Ring, w: Weather, dryRun: bool, k: nat, id: string, v: Doc): Doc
    requires ring.Valid()
  {
    if w.decodeFails(k, id) || !w.Stores(k, id, dryRun) then v else Rewalk(ring, v, w.drawFails(k, id), 0)
  }

  function DocCount(ring: Ring, w: Weather, dryRun: bool, k: nat, id: string, v: Doc): nat {
    if w.decodeFails(k, id) || !w.Stores(k, id, dryRun) then 0 else Hits(ring, v, w.drawFails(k, id), 0)
  }

  /** One for a document that does not decode; else one for each unreadable string and failed
      draw, and one more if something was re-sealed that cannot be stored. */
  function DocErrors(ring: Ring, w: Weather, dryRun: bool, k: nat, id: string, v: Doc): nat {
    if w.decodeFails(k, id) then 1 else
    StuckCount(ring, v) + Misses(w.drawFails(k, id), 0, OpenCount(ring, v))
    + (if Hits(ring, v, w.drawFails(k, id), 0) > 0 && !w.Stores(k, id, dryRun) then 1 else 0)
  }

  function JsonLoop(ring: Ring, w: Weather, batch: int, dryRun: bool): Loop<Doc>
    requires ring.Valid()
  {
    Loop(MentionsTag(), (k: nat, id: string, v: Doc) => DocAfter(ring, w, dryRun, k, id, v),
         (k: nat, id: string, v: Doc) => DocCount(ring, w, dryRun, k, id, v),
         (k: nat, id: string, v: Doc) => DocErrors(ring, w, dryRun, k, id, v), w.queryFails, w.order, batch, dryRun)
  }

  function Opens(ring: Ring): Doc -> nat { v => OpenCount(ring, v) }

  lemma JsonLawful(ring: Ring, w: Weather, batch: int, dryRun: bool)
    requires ring.Valid()
    ensures Lawful(JsonLoop(ring, w, batch, dryRun), Opens(ring))
  {
    forall k, id, v ensures LawfulAt(JsonLoop(ring, w, batch, dryRun), Opens(ring), k, id, v) {
      HitsExact(ring, v, w.drawFails(k, id), 0);
      if OpenCount(ring, v) > 0 {
        OpenAtMostStale(ring, v);
        StaleIsMentioned(ring, v);
      }
    }
  }

  lemma JsonDescends(ring: Ring, w: Weather, batch: int, dryRun: bool, docs: Docs, k: nat, docs': Docs,
                     n: nat, e: nat, stop: bool)
    requires ring.Valid() && RoundDone(JsonLoop(ring, w, batch, dryRun), docs, k, docs', n, e, stop)
    ensures !stop ==> Total(Opens(ring), docs') < Total(Opens(ring), docs)
  {
    JsonLawful(ring, w, batch, dryRun);
    RoundDescends(JsonLoop(ring, w, batch, dryRun), Opens(ring), docs, k, docs', n, e, stop);
  }

  function MentioningIds(docs: Docs): set<string> { set id | id in docs && Mentions(docs[id]) }

  class JsonColumn {
    const ring: Ring
    var docs: Docs

    constructor (ring: Ring, docs: Docs)
      ensures this.ring == ring && this.docs == docs
    {
      this.ring, this.docs := ring, docs;
    }

    /** The k-th tagged-document query; a negative limit is an error. */
    method Query(batch: int, k: nat, w: Weather) returns (failed: bool, pick: seq<string>)
      ensures failed <==> w.queryFails(k) || batch < 0
      ensures !failed ==> pick == Answer(MentioningIds(docs), w.order(k), batch)
      ensures failed ==> pick == []
    {
      pick, failed := [], w.queryFails(k) || batch < 0;
      if !failed { pick := Select(MentioningIds(docs), w.order(k), batch); }
    }

    /** One selected document: decode, walk, encode, write back. */
    method RekeyDoc(id: string, dryRun: bool, k: nat, w: Weather) returns (wrote: bool, n: nat, errs: nat)
      requires ring.Valid() && id in docs
      modifies this`docs
      ensures docs == if dryRun then old(docs) else old(docs)[id := DocAfter(ring, w, dryRun, k, id, old(docs)[id])]
      ensures n == DocCount(ring, w, dryRun, k, id, old(docs)[id]) && (wrote <==> n > 0)
      ensures errs == DocErrors(ring, w, dryRun, k, id, old(docs)[id])
    {
      wrote, n, errs := false, 0, 0;
      HitsExact(ring, docs[id], w.drawFails(k, id), 0);
      assert docs == docs[id := docs[id]];
      if w.decodeFails(k, id) { errs := 1; return; }
      var out, resealed, drawn;
      out, resealed, errs, drawn := ResealJson(ring, docs[id], w.drawFails(k, id), 0);
      if resealed == 0 { return; }
      if w.encodeFails(k, id) { errs := errs + 1; return; }
      if !dryRun {
        if w.writeFails(k, id) { errs := errs + 1; return; }
        docs := docs[id := out];
      }
      wrote, n := true, resealed;
    }

    /** The documents of a batch in turn: each ends as the round's effect on it. */
    method RekeyBatch(pick: seq<string>, dryRun: bool, k: nat, w: Weather, ghost l: Loop<Doc>)
      returns (resealed: nat, progress: nat, errs: nat)
      requires ring.Valid() && l == JsonLoop(ring, w, l.batch, dryRun)
      requires Distinct(pick) && forall id :: id in pick ==> id in docs
      modifies this`docs
      ensures docs == if dryRun then old(docs) else Applied(l, old(docs), pick, k)
      ensures resealed == Sum(l.count, k, old(docs), pick) && errs == Sum(l.errs, k, old(docs), pick)
      ensures progress == 0 <==> resealed == 0
    {
      ghost var start := docs;
      resealed, progress, errs := 0, 0, 0;
      assert Applied(l, start, [], k) == start;
      for i := 0 to |pick|
        invariant docs == if dryRun then start else Applied(l, start, pick[..i], k)
        invariant resealed == Sum(l.count, k, start, pick[..i]) && errs == Sum(l.errs, k, start, pick[..i])
        invariant progress == 0 <==> resealed == 0
      {
        var id := pick[i];
        assert id in pick && id in start;
        AppliedMore(l, start, pick, i, k);
        SumMore(l.count, k, start, pick, i);
        SumMore(l.errs, k, start, pick, i);
        assert docs[id] == start[id];
        var wrote, n, e := RekeyDoc(id, dryRun, k, w);
        errs := errs + e;
        if wrote { resealed, progress := resealed + n, progress + 1; }
      }
      assert pick[..|pick|] == pick;
    }

    /** One turn of the loop: query, batch, and the exit test. */
    method Round(batch: int, dryRun: bool, k: nat, w: Weather) returns (stop: bool, resealed: nat, errs: nat)
      requires ring.Valid()
      modifies this`docs
      ensures RoundDone(JsonLoop(ring, w, batch, dryRun), old(docs), k, docs, resealed, errs, stop)
    {
      ghost var l, start := JsonLoop(ring, w, batch, dryRun), docs;
      PickedSound(l, start, k);
      assert Applied(l, start, [], k) == start && Done(l, start, [], k) == {};
      var failed, pick := Query(batch, k, w);
      assert Tagged(l, start) == MentioningIds(start);
      if failed { return true, 0, 1; }
      if pick == [] { return true, 0, 0; }
      JsonLawful(ring, w, batch, dryRun);
      BatchConserves(l, Opens(ring), start, pick, k);
      var progress;
      resealed, progress, errs := RekeyBatch(pick, dryRun, k, w, l);
      stop := dryRun || |pick| < batch || progress == 0;
    }

    /** The loop's bookkeeping around one turn. */
    method Turn(batch: int, dryRun: bool, k: nat, w: Weather, resealed: nat, errs: nat, ghost start: Docs)
      returns (stop: bool, resealed': nat, errs': nat)
      requires ring.Valid() && Stands(JsonLoop(ring, w, batch, dryRun), start, docs, resealed, errs, k, false)
      modifies this`docs
      ensures Stands(JsonLoop(ring, w, batch, dryRun), start, docs, resealed', errs', k + 1, stop)
      ensures !stop ==> Total(Opens(ring), docs) < Total(Opens(ring), old(docs))
    {
      ghost var before := docs;
      var n, e;
      stop, n, e := Round(batch, dryRun, k, w);
      JsonDescends(ring, w, batch, dryRun, before, k, docs, n, e, stop);
      StandsMore(JsonLoop(ring, w, batch, dryRun), start, before, resealed, errs, k, docs, n, e, stop);
      resealed', errs' := resealed + n, errs + e;
    }

    /** The whole column. It ends for any contents, any LIMIT choice and any failures, with round
        `last`; documents and counts are those of the loop. */
    method Rekey(batch: int, dryRun: bool, w: Weather) returns (resealed: nat, errs: nat, ghost last: nat)
      requires ring.Valid()
      modifies this`docs
      ensures Ended(JsonLoop(ring, w, batch, dryRun), old(docs), docs, resealed, errs, last)
    {
      ghost var start := docs;
      resealed, errs := 0, 0;
      var stop, k := false, 0;
      while !stop
        invariant Stands(JsonLoop(ring, w, batch, dryRun), start, docs, resealed, errs, k, stop)
        decreases !stop, Total(Opens(ring), docs)
      {
        stop, resealed, errs := Turn(batch, dryRun, k, w, resealed, errs, start);
        k := k + 1;
      }
      StandsEnded(JsonLoop(ring, w, batch, dryRun), start, docs, resealed, errs, k);
      last := k - 1;
    }
  }

  // ---- what every loop keeps ----

  ghost predicate DocsRotated(ring: Ring, before: Docs, after: Docs)
    requires ring.Valid()
  {
    after.Keys == before.Keys && forall id :: id in before ==> Rotated(ring, before[id], after[id])
  }

  lemma {:induction false} RotatedRefl(ring: Ring, v: Doc)
    requires ring.Valid()
    ensures Rotated(ring, v, v)
    decreases v
  {
    match v
    case Arr(items) =>
      forall i | 0 <= i < |items| ensures Rotated(ring, items[i], items[i]) { RotatedRefl(ring, items[i]); }
    case Obj(_, values) =>
      forall i | 0 <= i < |values| ensures Rotated(ring, values[i], values[i]) { RotatedRefl(ring, values[i]); }
    case _ =>
  }

  lemma {:induction false} RotatedTrans(ring: Ring, u: Doc, v: Doc, w: Doc)
    requires ring.Valid() && Rotated(ring, u, v) && Rotated(ring, v, w)
    ensures Rotated(ring, u, w)
    decreases u
  {
    match u
    case Str(s) => ResealMeaning(ring, s);
    case Arr(items) =>
      forall i | 0 <= i < |items| ensures Rotated(ring, items[i], w.items[i]) {
        RotatedTrans(ring, items[i], v.items[i], w.items[i]);
      }
    case Obj(_, values) =>
      forall i | 0 <= i < |values| ensures Rotated(ring, values[i], w.values[i]) {
        RotatedTrans(ring, values[i], v.values[i], w.values[i]);
      }
    case _ =>
  }

  ghost function RotatedFrom(ring: Ring, v: Doc): Doc -> bool
    requires ring.Valid()
  {
    x => Rotated(ring, v, x)
  }

  /** Whatever goes wrong, documents only rotate. */
  lemma JsonSafe(ring: Ring, w: Weather, batch: int, dryRun: bool, docs: Docs, k: nat)
    requires ring.Valid()
    ensures DocsRotated(ring, docs, RowsAt(JsonLoop(ring, w, batch, dryRun), docs, k))
  {
    var l := JsonLoop(ring, w, batch, dryRun);
    RowsAtKeys(l, docs, k);
    forall id | id in docs ensures Rotated(ring, docs[id], RowsAt(l, docs, k)[id]) {
      RotatedRefl(ring, docs[id]);
      forall j, v | RotatedFrom(ring, docs[id])(v) ensures RotatedFrom(ring, docs[id])(l.effect(j, id, v)) {
        RewalkExact(ring, v, w.drawFails(j, id), 0);
        RotatedRefl(ring, v);
        RotatedTrans(ring, docs[id], v, l.effect(j, id, v));
      }
      RowsKeep(l, docs, k, id, RotatedFrom(ring, docs[id]));
    }
  }

  /** Whatever failed, every document still means what it meant. */
  lemma DocsMeaning(ring: Ring, before: Docs, after: Docs, id: string)
    requires ring.Valid() && DocsRotated(ring, before, after) && id in before
    ensures Reveal(ring, after[id]) == Reveal(ring, before[id])
  {
    RotatedMeaning(ring, before[id], after[id]);
  }

  /** The first count is the number of strings re-sealed. */
  lemma CountIsDrop(ring: Ring, w: Weather, batch: int, docs: Docs, k: nat)
    requires ring.Valid()
    ensures var l := JsonLoop(ring, w, batch, false);
            Resealed(l, docs, k) == Total(Opens(ring), docs) - Total(Opens(ring), RowsAt(l, docs, k))
  {
    JsonLawful(ring, w, batch, false);
    Conserves(JsonLoop(ring, w, batch, false), Opens(ring), docs, k);
  }

  // ---- what a run without errors says ----

  ghost predicate AllFresh(ring: Ring, docs: Docs) { forall id :: id in docs ==> StaleCount(ring, docs[id]) == 0 }

  /** A document picked without errors ends fully walked, with nothing stale. */
  lemma QuietDoc(ring: Ring, w: Weather, k: nat, id: string, v: Doc)
    requires ring.Valid() && DocErrors(ring, w, false, k, id, v) == 0
    ensures DocAfter(ring, w, false, k, id, v) == Walk(ring, v)
    ensures StaleCount(ring, Walk(ring, v)) == 0 && StuckCount(ring, v) == 0
  {
    var fails := w.drawFails(k, id);
    RewalkExact(ring, v, fails, 0);
    RotatedFully(ring, v, Rewalk(ring, v, fails, 0));
    WalkCorrect(ring, v);
  }

  /** An apply run that reports no errors leaves nothing stale exactly when its last answer held
      every document still stale, whatever the queries did. */
  lemma NoErrorsLast(ring: Ring, w: Weather, batch: int, docs: Docs, last: nat)
    requires ring.Valid() && Errors(JsonLoop(ring, w, batch, false), docs, last + 1) == 0
    ensures var l := JsonLoop(ring, w, batch, false); var now := RowsAt(l, docs, last);
            AllFresh(ring, RowsAt(l, docs, last + 1)) <==>
            forall id :: id in now && StaleCount(ring, now[id]) > 0 ==> id in PickAt(l, docs, last)
  {
    var l := JsonLoop(ring, w, batch, false);
    var now, pick := RowsAt(l, docs, last), PickAt(l, docs, last);
    NoErrors(l, docs, last + 1, last);
    RowsNext(l, docs, last);
    forall id | id in now
      ensures StaleCount(ring, Applied(l, now, pick, last)[id]) == (if id in pick then 0 else StaleCount(ring, now[id]))
    {
      if id in pick {
        assert l.errs(last, id, now[id]) == 0;
        QuietDoc(ring, w, last, id, now[id]);
      }
    }
  }

  /** Documents other than r that hold no unreadable string and stay in the query's view. */
  function Hiders(ring: Ring, docs: Docs, r: string): set<string>
    requires ring.Valid()
  {
    set id | id in docs && id != r && Mentions(Walk(ring, docs[id])) && StuckCount(ring, docs[id]) == 0
  }

  ghost predicate FewHiders(ring: Ring, docs: Docs, batch: int)
    requires ring.Valid()
  {
    forall r :: r in docs && StaleCount(ring, docs[r]) > 0 ==> |Hiders(ring, docs, r)| < batch
  }

  /** A document a quiet round cannot change was rotated fully before, and hides the others. */
  lemma IdleHides(ring: Ring, w: Weather, k: nat, p: string, was: Doc, now: Doc)
    requires ring.Valid() && Rotated(ring, was, now) && Mentions(now)
    requires DocErrors(ring, w, false, k, p, now) == 0 && DocAfter(ring, w, false, k, p, now) == now
    ensures Mentions(Walk(ring, was)) && StuckCount(ring, was) == 0
  {
    QuietDoc(ring, w, k, p, now);
    WalkCorrect(ring, now);
    RotatedFully(ring, was, now);
    RotatedCounts(ring, was, now);
  }

  /** If no query fails or loses a row and no document has a batch of hiders, a run without
      errors leaves nothing stale. */
  lemma QuietRunIsHonest(ring: Ring, w: Weather, batch: int, docs: Docs, last: nat)
    requires ring.Valid() && w.Complete(docs.Keys) && FewHiders(ring, docs, batch)
    requires var l := JsonLoop(ring, w, batch, false); EndsAt(l, docs, last) && Errors(l, docs, last + 1) == 0
    ensures AllFresh(ring, RowsAt(JsonLoop(ring, w, batch, false), docs, last + 1))
  {
    var l := JsonLoop(ring, w, batch, false);
    var now := RowsAt(l, docs, last);
    JsonSafe(ring, w, batch, false, docs, last);
    forall r | r in now && StaleCount(ring, now[r]) > 0 ensures r in PickAt(l, docs, last) {
      QuietReaches(ring, w, batch, docs, last, r);
    }
    NoErrorsLast(ring, w, batch, docs, last);
  }

  lemma QuietReaches(ring: Ring, w: Weather, batch: int, docs: Docs, last: nat, r: string)
    requires ring.Valid() && w.Complete(docs.Keys) && FewHiders(ring, docs, batch)
    requires var l := JsonLoop(ring, w, batch, false); EndsAt(l, docs, last) && Errors(l, docs, last + 1) == 0
    requires var now := RowsAt(JsonLoop(ring, w, batch, false), docs, last); r in now && StaleCount(ring, now[r]) > 0
    ensures r in PickAt(JsonLoop(ring, w, batch, false), docs, last)
  {
    var l := JsonLoop(ring, w, batch, false);
    var now, pick := RowsAt(l, docs, last), PickAt(l, docs, last);
    JsonSafe(ring, w, batch, false, docs, last);
    NoErrors(l, docs, last + 1, last);
    PickedSound(l, now, last);
    StaleIsMentioned(ring, now[r]);
    RotatedCounts(ring, docs[r], now[r]);
    assert docs.Keys <= Ids(w.order(last));
    forall p | p in pick && p in now && p != r
      ensures l.effect(last, p, now[p]) != now[p] || p in Hiders(ring, docs, r)
    {
      assert p in Tagged(l, now) && l.errs(last, p, now[p]) == 0;
      if l.effect(last, p, now[p]) == now[p] { IdleHides(ring, w, last, p, docs[p], now[p]); }
    }
    StopReaches(l, docs, last, r, Hiders(ring, docs, r));
  }

  /** Nothing fails, and the k-th query visits the k-th pick first. */
  ghost function CalmWeather(picks: seq<seq<string>>, all: seq<string>): Weather {
    Weather((k: nat) => false, (k: nat) => (if k < |picks| then picks[k] else []) + all,
            (k: nat, id: string) => false, (k: nat, id: string) => {}, (k: nat, id: string) => false,
            (k: nat, id: string) => false)
  }

  lemma CalmFollows(ring: Ring, w: Weather, batch: nat, docs: Docs)
    requires ring.Valid() && w.Calm(docs.Keys, false)
    ensures Follows(JsonLoop(ring, w, batch, false), JsonJob(ring), docs.Keys)
  {
    var l := JsonLoop(ring, w, batch, false);
    forall k, id, v | id in docs.Keys ensures l.effect(k, id, v) == JsonJob(ring).walk(v) {
      assert w.DocCalm(k, id, false);
      RewalkCalm(ring, v, 0);
    }
  }

  /** For any picks there is weather in which nothing fails and the queries visit them. */
  lemma WeatherFor(ring: Ring, docs: Docs, batch: nat, picks: seq<seq<string>>) returns (w: Weather)
    requires ring.Valid()
    ensures w.Calm(docs.Keys, false)
    ensures Follows(JsonLoop(ring, w, batch, false), JsonJob(ring), docs.Keys)
    ensures Visits(JsonLoop(ring, w, batch, false), picks)
  {
    var all := OrderOf(docs.Keys);
    w := CalmWeather(picks, all);
    forall k ensures docs.Keys <= Ids(w.order(k)) {
      forall id | id in docs.Keys ensures id in w.order(k) { assert id in Ids(all); }
    }
    CalmFollows(ring, w, batch, docs);
  }

  /** With a batch of hiders there is a run, in which nothing fails and no row is lost, that
      reports no errors and never reaches the document. */
  lemma HiddenRun(ring: Ring, docs: Docs, batch: nat, r: string) returns (w: Weather, last: nat)
    requires ring.Valid() && r in docs && StaleCount(ring, docs[r]) > 0 && |Hiders(ring, docs, r)| >= batch
    ensures w.Calm(docs.Keys, false) && EndsAt(JsonLoop(ring, w, batch, false), docs, last)
    ensures Errors(JsonLoop(ring, w, batch, false), docs, last + 1) == 0
    ensures !AllFresh(ring, RowsAt(JsonLoop(ring, w, batch, false), docs, last + 1))
  {
    var picks;
    JsonJobLawful(ring);
    picks := BL.RunWithin(JsonJob(ring), docs, batch, r, Hiders(ring, docs, r));
    w := WeatherFor(ring, docs, batch, picks);
    last := |picks| - 1;
    HiddenEnd(ring, docs, batch, r, w, picks);
    AmongNoErrors(ring, w, batch, docs, picks, Hiders(ring, docs, r), |picks|);
    assert last + 1 == |picks|;
  }

  lemma HiddenEnd(ring: Ring, docs: Docs, batch: nat, r: string, w: Weather, picks: seq<seq<string>>)
    requires ring.Valid() && r in docs && StaleCount(ring, docs[r]) > 0
    requires Follows(JsonLoop(ring, w, batch, false), JsonJob(ring), docs.Keys)
    requires Visits(JsonLoop(ring, w, batch, false), picks) && BL.Run(JsonJob(ring), docs, batch, picks)
    requires r in BL.Final(JsonJob(ring), docs, picks) && BL.Final(JsonJob(ring), docs, picks)[r] == docs[r]
    ensures picks != [] && EndsAt(JsonLoop(ring, w, batch, false), docs, |picks| - 1)
    ensures forall j :: 0 <= j < |picks| ==> PickAt(JsonLoop(ring, w, batch, false), docs, j) == picks[j]
    ensures !AllFresh(ring, RowsAt(JsonLoop(ring, w, batch, false), docs, |picks|))
  {
    JsonJobLawful(ring);
    RunIsLoop(JsonLoop(ring, w, batch, false), JsonJob(ring), docs, picks);
  }

  lemma {:induction false} AmongNoErrors(ring: Ring, w: Weather, batch: nat, docs: Docs, picks: seq<seq<string>>,
                                        among: set<string>, k: nat)
    requires ring.Valid() && w.Calm(docs.Keys, false) && k <= |picks|
    requires forall j :: 0 <= j < |picks| ==> Ids(picks[j]) <= among
    requires forall j :: 0 <= j < |picks| ==> PickAt(JsonLoop(ring, w, batch, false), docs, j) == picks[j]
    requires forall id :: id in docs && id in among ==> StuckCount(ring, docs[id]) == 0
    ensures Errors(JsonLoop(ring, w, batch, false), docs, k) == 0
  {
    var l := JsonLoop(ring, w, batch, false);
    if k > 0 {
      var n := k - 1;
      var now := RowsAt(l, docs, n);
      AmongNoErrors(ring, w, batch, docs, picks, among, n);
      JsonSafe(ring, w, batch, false, docs, n);
      forall id | id in picks[n] && id in now ensures l.errs(n, id, now[id]) == 0 {
        assert id in Ids(picks[n]) && w.DocCalm(n, id, false);
        RotatedCounts(ring, docs[id], now[id]);
        NoMisses(0, OpenCount(ring, now[id]));
      }
      SumOfZeros(l.errs, n, now, picks[n]);
      assert !w.queryFails(n);
      CountsNext(l, docs, n);
      assert k == n + 1;
    }
  }

  /**
   Among the runs in which no query fails or loses a row, those without errors all leave nothing
   stale exactly when each document with a stale string has fewer than a batch of hiders:
   documents without unreadable strings that still mention a tag once walked.
   */
  lemma NoErrorsExact(ring: Ring, docs: Docs, batch: nat)
    requires ring.Valid()
    ensures (forall w: Weather, last: nat ::
               w.Complete(docs.Keys) && EndsAt(JsonLoop(ring, w, batch, false), docs, last)
               && Errors(JsonLoop(ring, w, batch, false), docs, last + 1) == 0 ==>
                 AllFresh(ring, RowsAt(JsonLoop(ring, w, batch, false), docs, last + 1)))
            <==> FewHiders(ring, docs, batch)
  {
    if FewHiders(ring, docs, batch) {
      forall w: Weather, last: nat |
        w.Complete(docs.Keys) && EndsAt(JsonLoop(ring, w, batch, false), docs, last)
        && Errors(JsonLoop(ring, w, batch, false), docs, last + 1) == 0
        ensures AllFresh(ring, RowsAt(JsonLoop(ring, w, batch, false), docs, last + 1))
      {
        QuietRunIsHonest(ring, w, batch, docs, last);
      }
    } else {
      var r :| r in docs && StaleCount(ring, docs[r]) > 0 && |Hiders(ring, docs, r)| >= batch;
      var w, last := HiddenRun(ring, docs, batch, r);
    }
  }

  /**
   Runs that report no errors and leave a readable secret under an old key: one whose only query
   loses its document, one with a batch of zero, and one with a batch of one in which a document
   already rotated hides the other.
   */
  lemma NoErrorsYetStale(ring: Ring, tag: string, w: Weather)
    requires ring.Valid() && tag in ring.keys && tag != ring.active && !w.queryFails(0)
    ensures var stale := Str(V2(tag, Sealed(ring.keys[tag], "s"))); var docs := map["b" := stale];
            && OpenCount(ring, stale) == 1
            && (w.order(0) == [] ==> QuietAndIdle(JsonLoop(ring, w, 1000, false), docs))
            && (w.order(0) == ["b"] ==> QuietAndIdle(JsonLoop(ring, w, 0, false), docs))
            && (w.order(0) == ["a", "b"] && w.DocCalm(0, "a", false) ==>
                  QuietAndIdle(JsonLoop(ring, w, 1, false), docs["a" := Str(Encrypt(ring, "s"))]))
  {
    var stale := Str(V2(tag, Sealed(ring.keys[tag], "s")));
    var docs := map["b" := stale];
    if w.order(0) == [] { EmptyAnswerEnds(JsonLoop(ring, w, 1000, false), docs); }
    if w.order(0) == ["b"] {
      var l := JsonLoop(ring, w, 0, false);
      AnswerSound(Tagged(l, docs), w.order(0), 0);
      EmptyAnswerEnds(l, docs);
    }
    if w.order(0) == ["a", "b"] && w.DocCalm(0, "a", false) { HiddenPair(ring, w, stale); }
  }

  /** The loop ends with its first round, without errors, and changes nothing. */
  ghost predicate QuietAndIdle(l: Loop<Doc>, docs: Docs) {
    EndsAt(l, docs, 0) && Errors(l, docs, 1) == 0 && RowsAt(l, docs, 1) == docs
  }

  lemma HiddenPair(ring: Ring, w: Weather, stale: Doc)
    requires ring.Valid() && !w.queryFails(0) && w.order(0) == ["a", "b"] && w.DocCalm(0, "a", false)
    requires stale.Str? && Openable(ring, stale.s)
    ensures QuietAndIdle(JsonLoop(ring, w, 1, false), map["b" := stale, "a" := Str(Encrypt(ring, "s"))])
  {
    var l, docs := JsonLoop(ring, w, 1, false), map["b" := stale, "a" := Str(Encrypt(ring, "s"))];
    var pool := Tagged(l, docs);
    assert "a" in pool && w.order(0)[..2] == w.order(0) && w.order(0)[..1] == ["a"];
    assert Answer(pool, [], 1) == [];
    assert Answer(pool, ["a"], 1) == ["a"] by { assert ["a"][..0] == []; }
    assert Answer(pool, ["a", "b"], 1) == ["a"];
    assert PickAt(l, docs, 0) == ["a"] && l.effect(0, "a", docs["a"]) == docs["a"];
    assert Done(l, docs, ["a"], 0) == {};
    CountsNext(l, docs, 0);
    RowsNext(l, docs, 0);
    NoMisses(0, 0);
    assert l.errs(0, "a", docs["a"]) == 0;
    SumOfZeros(l.errs, 0, docs, ["a"]);
    assert Applied(l, docs, ["a"], 0) == docs;
  }

  // ---- coverage ----

  /** Documents other than r that may be picked in vain: they still mention a tag once walked,
      or some round has a call fail for them. */
  ghost function Blockers(ring: Ring, w: Weather, docs: Docs, r: string): set<string>
    requires ring.Valid()
  {
    set id | id in docs && id != r && (Mentions(Walk(ring, docs[id])) || exists k :: !w.DocCalm(k, id, false))
  }

  /** Under failures: if no query fails or loses a row, a document for which no call fails ends
      fully walked whenever fewer than a batch of others may be picked in vain. */
  lemma CoversTheRest(ring: Ring, w: Weather, batch: int, docs: Docs, last: nat, r: string)
    requires ring.Valid() && w.Complete(docs.Keys) && EndsAt(JsonLoop(ring, w, batch, false), docs, last)
    requires r in docs && (forall k :: w.DocCalm(k, r, false)) && |Blockers(ring, w, docs, r)| < batch
    ensures var end := RowsAt(JsonLoop(ring, w, batch, false), docs, last + 1);
            r in end && end[r] == Walk(ring, docs[r])
  {
    var l := JsonLoop(ring, w, batch, false);
    var now, pick := RowsAt(l, docs, last), PickAt(l, docs, last);
    JsonSafe(ring, w, batch, false, docs, last);
    JsonSafe(ring, w, batch, false, docs, last + 1);
    RowsNext(l, docs, last);
    RewalkCalm(ring, now[r], 0);
    WalkCorrect(ring, now[r]);
    assert w.DocCalm(last, r, false);
    if OpenCount(ring, now[r]) > 0 { OpenIsReached(ring, w, batch, docs, last, r); }
    RotatedFully(ring, docs[r], RowsAt(l, docs, last + 1)[r]);
  }

  lemma OpenIsReached(ring: Ring, w: Weather, batch: int, docs: Docs, last: nat, r: string)
    requires ring.Valid() && w.Complete(docs.Keys) && EndsAt(JsonLoop(ring, w, batch, false), docs, last)
    requires r in docs && |Blockers(ring, w, docs, r)| < batch
    requires var now := RowsAt(JsonLoop(ring, w, batch, false), docs, last); r in now && OpenCount(ring, now[r]) > 0
    ensures r in PickAt(JsonLoop(ring, w, batch, false), docs, last)
  {
    var l := JsonLoop(ring, w, batch, false);
    var now, pick := RowsAt(l, docs, last), PickAt(l, docs, last);
    JsonSafe(ring, w, batch, false, docs, last);
    PickedSound(l, now, last);
    OpenAtMostStale(ring, now[r]);
    StaleIsMentioned(ring, now[r]);
    assert !w.queryFails(last) && docs.Keys <= Ids(w.order(last));
    forall p | p in pick && p in now && p != r
      ensures l.effect(last, p, now[p]) != now[p] || p in Blockers(ring, w, docs, r)
    {
      assert p in Tagged(l, now);
      if w.DocCalm(last, p, false) && l.effect(last, p, now[p]) == now[p] {
        RewalkCalm(ring, now[p], 0);
        WalkCorrect(ring, now[p]);
        RotatedFully(ring, docs[p], now[p]);
      }
    }
    StopReaches(l, docs, last, r, Blockers(ring, w, docs, r));
  }

  /** What a walked document mentions it mentioned before. */
  lemma WalkMentions(ring: Ring, v: Doc)
    requires ring.Valid() && Mentions(Walk(ring, v))
    ensures Mentions(v)
  {
    WalkCorrect(ring, v);
    if OpenCount(ring, v) > 0 {
      OpenAtMostStale(ring, v);
      StaleIsMentioned(ring, v);
    }
  }

  /** Each document is walked, and the counts are those of the readable and the unreadable. */
  ghost predicate AllWalked(ring: Ring, start: Docs, end: Docs, resealed: nat, errs: nat)
    requires ring.Valid()
  {
    && end.Keys == start.Keys && (forall id :: id in start ==> end[id] == Walk(ring, start[id]))
    && resealed == Total(Opens(ring), start)
    && (errs == 0 <==> forall id :: id in start ==> StuckCount(ring, start[id]) == 0)
  }

  lemma {:induction false} NoneLeft(ring: Ring, docs: Docs)
    requires forall id :: id in docs ==> OpenCount(ring, docs[id]) == 0
    ensures Total(Opens(ring), docs) == 0
    decreases |docs|
  {
    if docs != map[] {
      var id :| id in docs;
      TotalSplit(Opens(ring), docs, id);
      NoneLeft(ring, docs - {id});
    }
  }

  lemma WalkedAll(ring: Ring, start: Docs, end: Docs)
    requires ring.Valid() && end.Keys == start.Keys && forall id :: id in start ==> end[id] == Walk(ring, start[id])
    ensures Total(Opens(ring), end) == 0
  {
    forall id | id in end ensures OpenCount(ring, end[id]) == 0 { WalkCorrect(ring, start[id]); }
    NoneLeft(ring, end);
  }

  /** When nothing goes wrong and the tagged documents fit in one batch, an apply run walks every
      document, counts every readable stale string, and reports an error exactly when a stale
      string cannot be read. */
  lemma CalmRunCovers(ring: Ring, w: Weather, batch: int, docs: Docs, last: nat)
    requires ring.Valid() && w.Calm(docs.Keys, false) && |MentioningIds(docs)| <= batch
    requires EndsAt(JsonLoop(ring, w, batch, false), docs, last)
    ensures var l := JsonLoop(ring, w, batch, false);
            AllWalked(ring, docs, RowsAt(l, docs, last + 1), Resealed(l, docs, last + 1), Errors(l, docs, last + 1))
  {
    var l := JsonLoop(ring, w, batch, false);
    CalmDocs(ring, w, batch, docs, last);
    CountIsDrop(ring, w, batch, docs, last + 1);
    WalkedAll(ring, docs, RowsAt(l, docs, last + 1));
    CalmErrors(ring, w, batch, docs, last);
  }

  lemma CalmDocs(ring: Ring, w: Weather, batch: int, docs: Docs, last: nat)
    requires ring.Valid() && w.Calm(docs.Keys, false) && |MentioningIds(docs)| <= batch
    requires EndsAt(JsonLoop(ring, w, batch, false), docs, last)
    ensures var end := RowsAt(JsonLoop(ring, w, batch, false), docs, last + 1);
            end.Keys == docs.Keys && forall id :: id in docs ==> end[id] == Walk(ring, docs[id])
  {
    var l := JsonLoop(ring, w, batch, false);
    JsonSafe(ring, w, batch, false, docs, last + 1);
    forall r | r in docs ensures RowsAt(l, docs, last + 1)[r] == Walk(ring, docs[r]) {
      if OpenCount(ring, docs[r]) > 0 {
        OpenAtMostStale(ring, docs[r]);
        StaleIsMentioned(ring, docs[r]);
        forall id | id in Blockers(ring, w, docs, r) ensures id in MentioningIds(docs) - {r} {
          assert forall k :: w.DocCalm(k, id, false);
          WalkMentions(ring, docs[id]);
        }
        SubsetSize(Blockers(ring, w, docs, r), MentioningIds(docs) - {r});
        CoversTheRest(ring, w, batch, docs, last, r);
      } else {
        RotatedCounts(ring, docs[r], RowsAt(l, docs, last + 1)[r]);
        WalkCorrect(ring, docs[r]);
      }
    }
  }

  lemma CalmErrors(ring: Ring, w: Weather, batch: int, docs: Docs, last: nat)
    requires ring.Valid() && w.Calm(docs.Keys, false) && |MentioningIds(docs)| <= batch
    ensures Errors(JsonLoop(ring, w, batch, false), docs, last + 1) == 0 <==>
            forall id :: id in docs ==> StuckCount(ring, docs[id]) == 0
  {
    var l := JsonLoop(ring, w, batch, false);
    var pick := PickAt(l, docs, 0);
    assert Tagged(l, docs) == MentioningIds(docs) && !w.queryFails(0) && docs.Keys <= Ids(w.order(0));
    AnswerComplete(MentioningIds(docs), w.order(0), batch);
    if Errors(l, docs, last + 1) == 0 {
      NoErrors(l, docs, last + 1, 0);
      forall id | id in docs ensures StuckCount(ring, docs[id]) == 0 {
        if StuckCount(ring, docs[id]) > 0 {
          StaleIsMentioned(ring, docs[id]);
          assert id in Ids(pick) && l.errs(0, id, docs[id]) == 0;
          QuietDoc(ring, w, 0, id, docs[id]);
        }
      }
    }
    if forall id :: id in docs ==> StuckCount(ring, docs[id]) == 0 { CalmNoErrors(ring, w, batch, docs, last + 1); }
  }

  lemma {:induction false} CalmNoErrors(ring: Ring, w: Weather, batch: int, docs: Docs, k: nat)
    requires ring.Valid() && w.Calm(docs.Keys, false) && batch >= 0
    requires forall id :: id in docs ==> StuckCount(ring, docs[id]) == 0
    ensures Errors(JsonLoop(ring, w, batch, false), docs, k) == 0
  {
    var l := JsonLoop(ring, w, batch, false);
    if k > 0 {
      var n := k - 1;
      var now, pick := RowsAt(l, docs, n), PickAt(l, docs, n);
      CalmNoErrors(ring, w, batch, docs, n);
      JsonSafe(ring, w, batch, false, docs, n);
      forall id | id in pick && id in now ensures l.errs(n, id, now[id]) == 0 {
        assert w.DocCalm(n, id, false);
        RotatedCounts(ring, docs[id], now[id]);
        NoMisses(0, OpenCount(ring, now[id]));
      }
      SumOfZeros(l.errs, n, now, pick);
      assert !w.queryFails(n);
      CountsNext(l, docs, n);
      assert k == n + 1;
    }
  }

  /** In calm weather the loop is a run of the column's job ... */
  lemma CalmJsonIsRun(ring: Ring, w: Weather, batch: nat, docs: Docs, last: nat)
    requires ring.Valid() && w.Calm(docs.Keys, false) && EndsAt(JsonLoop(ring, w, batch, false), docs, last)
    ensures var l := JsonLoop(ring, w, batch, false);
            && BL.Run(JsonJob(ring), docs, batch, Picks(l, docs, last + 1))
            && BL.Final(JsonJob(ring), docs, Picks(l, docs, last + 1)) == RowsAt(l, docs, last + 1)
  {
    JsonJobLawful(ring);
    CalmFollows(ring, w, batch, docs);
    CalmIsRun(JsonLoop(ring, w, batch, false), JsonJob(ring), docs, last);
  }

  /** ... and every run of it arises. */
  lemma RunArises(ring: Ring, docs: Docs, batch: nat, picks: seq<seq<string>>) returns (w: Weather)
    requires ring.Valid() && BL.Run(JsonJob(ring), docs, batch, picks)
    ensures w.Calm(docs.Keys, false) && picks != []
    ensures var l := JsonLoop(ring, w, batch, false);
            EndsAt(l, docs, |picks| - 1) && RowsAt(l, docs, |picks|) == BL.Final(JsonJob(ring), docs, picks)
  {
    JsonJobLawful(ring);
    w := WeatherFor(ring, docs, batch, picks);
    RunIsLoop(JsonLoop(ring, w, batch, false), JsonJob(ring), docs, picks);
  }

  /** Every LIMIT choice re-seals every readable stale string exactly when, for each document
      holding one, fewer than a batch of the other documents still carry a tag afterwards. */
  lemma JsonCoverage(ring: Ring, docs: Docs, batch: nat)
    requires ring.Valid()
    ensures (forall picks :: BL.Run(JsonJob(ring), docs, batch, picks) ==>
               BL.Final(JsonJob(ring), docs, picks) == BL.Walked(JsonJob(ring), docs, docs.Keys))
            <==> (forall r :: r in BL.OpenIds(JsonJob(ring), docs) ==> |BL.Lingering(JsonJob(ring), docs, r)| < batch)
  {
    JsonJobLawful(ring);
    BL.CoverageExact(JsonJob(ring), docs, batch);
  }

  /** In particular it is enough that the tagged documents fit in one batch. */
  lemma OneBatchCovers(ring: Ring, docs: Docs, batch: nat, picks: seq<seq<string>>)
    requires ring.Valid() && |BL.Pool(JsonJob(ring), docs)| <= batch
    requires BL.Run(JsonJob(ring), docs, batch, picks)
    ensures BL.Final(JsonJob(ring), docs, picks) == BL.Walked(JsonJob(ring), docs, docs.Keys)
  {
    var job := JsonJob(ring);
    JsonJobLawful(ring);
    forall r | r in BL.OpenIds(job, docs) ensures |BL.Lingering(job, docs, r)| < batch {
      assert BL.LawfulAt(job, docs[r]);
      forall id | id in BL.Lingering(job, docs, r) ensures id in BL.Pool(job, docs) - {r} {
        assert BL.LawfulAt(job, docs[id]);
      }
      SubsetSize(BL.Lingering(job, docs, r), BL.Pool(job, docs) - {r});
    }
    JsonCoverage(ring, docs, batch);
  }
}
