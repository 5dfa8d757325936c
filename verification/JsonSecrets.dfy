/** Secrets embedded in JSON documents, and the walk that re-seals them. */
module JsonSecrets {
  import opened Cipher

  /** A decoded JSON value. Numbers keep their literal text; an object keeps its member order. */
  datatype Json<+S> =
    | Null
    | Bool(b: bool)
    | Num(literal: string)
    | Str(s: S)
    | Arr(items: seq<Json<S>>)
    | Obj(keys: seq<string>, values: seq<Json<S>>)

  type Doc = Json<Stored>

  /** The walk with a sealer that never fails. */
  function Walk(ring: Ring, v: Doc): Doc
    requires ring.Valid()
  {
    match v
    case Str(s) => Str(Reseal(ring, s))
    case Arr(items) => Arr(seq(|items|, i requires 0 <= i < |items| => Walk(ring, items[i])))
    case Obj(keys, values) => Obj(keys, seq(|values|, i requires 0 <= i < |values| => Walk(ring, values[i])))
    case _ => v
  }

  /** Every string replaced by what it decrypts to: the document's meaning. */
  function Reveal(ring: Ring, v: Doc): Json<Opened> {
    match v
    case Null => Null
    case Bool(b) => Bool(b)
    case Num(literal) => Num(literal)
    case Str(s) => Str(Decrypt(ring, s))
    case Arr(items) => Arr(seq(|items|, i requires 0 <= i < |items| => Reveal(ring, items[i])))
    case Obj(keys, values) => Obj(keys, seq(|values|, i requires 0 <= i < |values| => Reveal(ring, values[i])))
  }

  function StaleCount(ring: Ring, v: Doc): nat
    decreases v, 1
  {
    match v
    case Str(s) => if Stale(ring, s) then 1 else 0
    case Arr(items) => StaleSum(ring, items)
    case Obj(_, values) => StaleSum(ring, values)
    case _ => 0
  }

  function StaleSum(ring: Ring, kids: seq<Doc>): nat
    decreases kids, 0
  {
    if kids == [] then 0 else StaleSum(ring, kids[..|kids| - 1]) + StaleCount(ring, kids[|kids| - 1])
  }

  function OpenCount(ring: Ring, v: Doc): nat
    decreases v, 1
  {
    match v
    case Str(s) => if Openable(ring, s) then 1 else 0
    case Arr(items) => OpenSum(ring, items)
    case Obj(_, values) => OpenSum(ring, values)
    case _ => 0
  }

  function OpenSum(ring: Ring, kids: seq<Doc>): nat
    decreases kids, 0
  {
    if kids == [] then 0 else OpenSum(ring, kids[..|kids| - 1]) + OpenCount(ring, kids[|kids| - 1])
  }

  lemma {:induction false} OpenAtMostStale(ring: Ring, v: Doc)
    ensures OpenCount(ring, v) <= StaleCount(ring, v)
    decreases v, 1
  {
    match v
    case Arr(items) => OpenSumAtMost(ring, items);
    case Obj(_, values) => OpenSumAtMost(ring, values);
    case _ =>
  }

  lemma {:induction false} OpenSumAtMost(ring: Ring, kids: seq<Doc>)
    ensures OpenSum(ring, kids) <= StaleSum(ring, kids)
    decreases kids, 0
  {
    if kids != [] {
      OpenSumAtMost(ring, kids[..|kids| - 1]);
      OpenAtMostStale(ring, kids[|kids| - 1]);
    }
  }

  /** The stale strings that no held key opens. */
  function StuckCount(ring: Ring, v: Doc): nat {
    OpenAtMostStale(ring, v);
    StaleCount(ring, v) - OpenCount(ring, v)
  }

  /** Same shape, keys and non-string leaves; each string is kept, or was a readable stale
      secret and is now its own re-seal. */
  ghost predicate Rotated(ring: Ring, v: Doc, w: Doc)
    requires ring.Valid()
    decreases v, 1
  {
    match v
    case Str(s) => w.Str? && (w.s == s || (Openable(ring, s) && w.s == Reseal(ring, s)))
    case Arr(items) => w.Arr? && RotatedAll(ring, items, w.items)
    case Obj(keys, values) => w.Obj? && w.keys == keys && RotatedAll(ring, values, w.values)
    case _ => w == v
  }

  ghost predicate RotatedAll(ring: Ring, kids: seq<Doc>, outs: seq<Doc>)
    requires ring.Valid()
    decreases kids, 0
  {
    |outs| == |kids| && forall i :: 0 <= i < |kids| ==> Rotated(ring, kids[i], outs[i])
  }

  /** Rotation never changes what a document means. */
  lemma {:induction false} RotatedMeaning(ring: Ring, v: Doc, w: Doc)
    requires ring.Valid() && Rotated(ring, v, w)
    ensures Reveal(ring, w) == Reveal(ring, v)
    decreases v
  {
    match v
    case Str(s) => ResealMeaning(ring, s);
    case Arr(items) =>
      forall i | 0 <= i < |items| ensures Reveal(ring, items[i]) == Reveal(ring, w.items[i]) {
        RotatedMeaning(ring, items[i], w.items[i]);
      }
    case Obj(_, values) =>
      forall i | 0 <= i < |values| ensures Reveal(ring, values[i]) == Reveal(ring, w.values[i]) {
        RotatedMeaning(ring, values[i], w.values[i]);
      }
    case _ =>
  }

  /** Every changed string leaves both counts by one, and no change means no difference. */
  lemma {:induction false} RotatedCounts(ring: Ring, v: Doc, w: Doc)
    requires ring.Valid() && Rotated(ring, v, w)
    ensures StaleCount(ring, v) - StaleCount(ring, w) == OpenCount(ring, v) - OpenCount(ring, w) >= 0
    ensures StaleCount(ring, v) == StaleCount(ring, w) ==> v == w
    decreases v, 1
  {
    match v
    case Str(s) => ResealMeaning(ring, s);
    case Arr(items) => RotatedSums(ring, items, w.items);
    case Obj(_, values) => RotatedSums(ring, values, w.values);
    case _ =>
  }

  lemma {:induction false} RotatedSums(ring: Ring, kids: seq<Doc>, outs: seq<Doc>)
    requires ring.Valid() && RotatedAll(ring, kids, outs)
    ensures StaleSum(ring, kids) - StaleSum(ring, outs) == OpenSum(ring, kids) - OpenSum(ring, outs) >= 0
    ensures StaleSum(ring, kids) == StaleSum(ring, outs) ==> kids == outs
    decreases kids, 0
  {
    if kids != [] {
      var n := |kids| - 1;
      RotatedSums(ring, kids[..n], outs[..n]);
      RotatedCounts(ring, kids[n], outs[n]);
      assert kids == kids[..n] + [kids[n]] && outs == outs[..n] + [outs[n]];
    }
  }

  lemma {:induction false} WalkRotates(ring: Ring, v: Doc)
    requires ring.Valid()
    ensures Rotated(ring, v, Walk(ring, v)) && OpenCount(ring, Walk(ring, v)) == 0
    decreases v
  {
    match v
    case Str(s) => ResealMeaning(ring, s);
    case Arr(items) =>
      forall i | 0 <= i < |items| ensures Rotated(ring, items[i], Walk(ring, items[i]))
                                       && OpenCount(ring, Walk(ring, items[i])) == 0 {
        WalkRotates(ring, items[i]);
      }
      NoneOpen(ring, Walk(ring, v).items);
    case Obj(_, values) =>
      forall i | 0 <= i < |values| ensures Rotated(ring, values[i], Walk(ring, values[i]))
                                        && OpenCount(ring, Walk(ring, values[i])) == 0 {
        WalkRotates(ring, values[i]);
      }
      NoneOpen(ring, Walk(ring, v).values);
    case _ =>
  }

  lemma {:induction false} NoneOpen(ring: Ring, kids: seq<Doc>)
    requires forall i :: 0 <= i < |kids| ==> OpenCount(ring, kids[i]) == 0
    ensures OpenSum(ring, kids) == 0
  {
    if kids != [] { NoneOpen(ring, kids[..|kids| - 1]); }
  }

  /** The walk keeps the meaning, re-seals each readable stale string, and a second walk
      re-seals nothing. */
  lemma WalkCorrect(ring: Ring, v: Doc)
    requires ring.Valid()
    ensures Reveal(ring, Walk(ring, v)) == Reveal(ring, v)
    ensures StaleCount(ring, Walk(ring, v)) == StaleCount(ring, v) - OpenCount(ring, v)
    ensures Walk(ring, Walk(ring, v)) == Walk(ring, v)
    ensures OpenCount(ring, v) == 0 <==> Walk(ring, v) == v
    ensures OpenCount(ring, Walk(ring, v)) == 0
  {
    WalkRotates(ring, v);
    RotatedMeaning(ring, v, Walk(ring, v));
    RotatedCounts(ring, v, Walk(ring, v));
    WalkRotates(ring, Walk(ring, v));
    RotatedCounts(ring, Walk(ring, v), Walk(ring, Walk(ring, v)));
  }

  /** How many of the draws numbered from a up to b fail. */
  function Misses(fails: set<nat>, a: nat, b: nat): nat
    requires a <= b
  {
    if a == b then 0 else Misses(fails, a, b - 1) + (if b - 1 in fails then 1 else 0)
  }

  lemma {:induction false} MissesAdd(fails: set<nat>, a: nat, b: nat, c: nat)
    requires a <= b <= c
    ensures Misses(fails, a, c) == Misses(fails, a, b) + Misses(fails, b, c)
  {
    if b < c { MissesAdd(fails, a, b, c - 1); }
  }

  lemma {:induction false} NoMisses(a: nat, b: nat)
    requires a <= b
    ensures Misses({}, a, b) == 0
  {
    if a < b { NoMisses(a, b - 1); }
  }

  /** A rotation that leaves nothing readable stale is the full walk. */
  lemma {:induction false} RotatedFully(ring: Ring, v: Doc, w: Doc)
    requires ring.Valid() && Rotated(ring, v, w) && OpenCount(ring, w) == 0
    ensures w == Walk(ring, v)
    decreases v
  {
    match v
    case Str(s) => ResealMeaning(ring, s);
    case Arr(items) =>
      forall i | 0 <= i < |items| ensures w.items[i] == Walk(ring, items[i]) {
        OpenOfKid(ring, w.items, i);
        RotatedFully(ring, items[i], w.items[i]);
      }
    case Obj(_, values) =>
      forall i | 0 <= i < |values| ensures w.values[i] == Walk(ring, values[i]) {
        OpenOfKid(ring, w.values, i);
        RotatedFully(ring, values[i], w.values[i]);
      }
    case _ =>
  }

  lemma {:induction false} OpenOfKid(ring: Ring, kids: seq<Doc>, i: nat)
    requires i < |kids|
    ensures OpenCount(ring, kids[i]) <= OpenSum(ring, kids)
  {
    if i < |kids| - 1 { OpenOfKid(ring, kids[..|kids| - 1], i); }
  }

  /** The walk with the draws that fail: each readable stale string draws randomness once, in
      order, starting with draw `at`, and is kept if its draw fails. */
  function Rewalk(ring: Ring, v: Doc, fails: set<nat>, at: nat): Doc
    requires ring.Valid()
    decreases v, 1
  {
    match v
    case Str(s) => if Openable(ring, s) && at !in fails then Str(Reseal(ring, s)) else v
    case Arr(items) => Arr(RewalkKids(ring, items, fails, at))
    case Obj(keys, values) => Obj(keys, RewalkKids(ring, values, fails, at))
    case _ => v
  }

  function RewalkKids(ring: Ring, kids: seq<Doc>, fails: set<nat>, at: nat): (slots: seq<Doc>)
    requires ring.Valid()
    ensures |slots| == |kids|
    decreases kids, 0
  {
    if kids == [] then [] else
    var n := |kids| - 1;
    RewalkKids(ring, kids[..n], fails, at) + [Rewalk(ring, kids[n], fails, at + OpenSum(ring, kids[..n]))]
  }

  /** The walk only rotates, and leaves readable exactly the strings whose draw failed. */
  lemma {:induction false} RewalkExact(ring: Ring, v: Doc, fails: set<nat>, at: nat)
    requires ring.Valid()
    ensures Rotated(ring, v, Rewalk(ring, v, fails, at))
    ensures OpenCount(ring, Rewalk(ring, v, fails, at)) == Misses(fails, at, at + OpenCount(ring, v))
    decreases v, 1
  {
    match v
    case Str(s) =>
      ResealMeaning(ring, s);
      if Openable(ring, s) {
        assert Misses(fails, at, at + 1) == Misses(fails, at, at) + (if at in fails then 1 else 0);
      }
    case Arr(items) => RewalkKidsExact(ring, items, fails, at);
    case Obj(_, values) => RewalkKidsExact(ring, values, fails, at);
    case _ =>
  }

  lemma {:induction false} RewalkKidsExact(ring: Ring, kids: seq<Doc>, fails: set<nat>, at: nat)
    requires ring.Valid()
    ensures RotatedAll(ring, kids, RewalkKids(ring, kids, fails, at))
    ensures OpenSum(ring, RewalkKids(ring, kids, fails, at)) == Misses(fails, at, at + OpenSum(ring, kids))
    decreases kids, 0
  {
    if kids != [] {
      var n := |kids| - 1;
      var earlier, drawn := RewalkKids(ring, kids[..n], fails, at), at + OpenSum(ring, kids[..n]);
      var last := Rewalk(ring, kids[n], fails, drawn);
      RewalkKidsExact(ring, kids[..n], fails, at);
      RewalkExact(ring, kids[n], fails, drawn);
      assert kids == kids[..n] + [kids[n]] && RewalkKids(ring, kids, fails, at) == earlier + [last];
      RotatedMore(ring, kids[..n], kids[n], earlier, last);
      OpenSumMore(ring, earlier, last);
      OpenSumMore(ring, kids[..n], kids[n]);
      MissesAdd(fails, at, drawn, drawn + OpenCount(ring, kids[n]));
    }
  }

  lemma RotatedMore(ring: Ring, kids: seq<Doc>, kid: Doc, outs: seq<Doc>, out: Doc)
    requires ring.Valid() && RotatedAll(ring, kids, outs) && Rotated(ring, kid, out)
    ensures RotatedAll(ring, kids + [kid], outs + [out])
  {
  }

  lemma OpenSumMore(ring: Ring, kids: seq<Doc>, kid: Doc)
    ensures OpenSum(ring, kids + [kid]) == OpenSum(ring, kids) + OpenCount(ring, kid)
    ensures StaleSum(ring, kids + [kid]) == StaleSum(ring, kids) + StaleCount(ring, kid)
  {
    assert (kids + [kid])[..|kids|] == kids;
  }

  /** Without failed draws it is the full walk. */
  lemma RewalkCalm(ring: Ring, v: Doc, at: nat)
    requires ring.Valid()
    ensures Rewalk(ring, v, {}, at) == Walk(ring, v)
  {
    RewalkExact(ring, v, {}, at);
    NoMisses(at, at + OpenCount(ring, v));
    RotatedFully(ring, v, Rewalk(ring, v, {}, at));
  }

  /** How many strings the walk re-seals. */
  function Hits(ring: Ring, v: Doc, fails: set<nat>, at: nat): nat {
    MissesBound(fails, at, at + OpenCount(ring, v));
    OpenCount(ring, v) - Misses(fails, at, at + OpenCount(ring, v))
  }

  lemma {:induction false} MissesBound(fails: set<nat>, a: nat, b: nat)
    requires a <= b
    ensures Misses(fails, a, b) <= b - a
  {
    if a < b { MissesBound(fails, a, b - 1); }
  }

  /** The stale strings are those re-sealed, those whose draw failed, and the unreadable. */
  lemma HitsExact(ring: Ring, v: Doc, fails: set<nat>, at: nat)
    requires ring.Valid()
    ensures var out := Rewalk(ring, v, fails, at);
            && Hits(ring, v, fails, at) == StaleCount(ring, v) - StaleCount(ring, out)
            && Hits(ring, v, fails, at) == OpenCount(ring, v) - OpenCount(ring, out)
            && (Hits(ring, v, fails, at) == 0 <==> out == v)
  {
    RewalkExact(ring, v, fails, at);
    RotatedCounts(ring, v, Rewalk(ring, v, fails, at));
  }

  /** The walk as written: every string is re-sealed or kept as its draw decides; one re-sealed
      counts once, an unreadable one or a failed draw is an error. */
  method ResealJson(ring: Ring, v: Doc, fails: set<nat>, at: nat)
    returns (out: Doc, resealed: nat, errs: nat, next: nat)
    requires ring.Valid()
    ensures out == Rewalk(ring, v, fails, at) && next == at + OpenCount(ring, v)
    ensures resealed == Hits(ring, v, fails, at) && errs == StuckCount(ring, v) + Misses(fails, at, next)
    ensures resealed + errs == StaleCount(ring, v)
    decreases v, 1
  {
    match v
    case Obj(keys, values) =>
      var kids;
      kids, resealed, errs, next := ResealKids(ring, values, fails, at);
      out := Obj(keys, kids);
    case Arr(items) =>
      var kids;
      kids, resealed, errs, next := ResealKids(ring, items, fails, at);
      out := Arr(kids);
    case Str(s) =>
      if !IsEncrypted(s) || HasActivePrefix(ring, s) { return v, 0, 0, at; }
      var plain := Decrypt(ring, s);
      if plain.Err? { return v, 0, 1, at; }
      assert Misses(fails, at, at + 1) == Misses(fails, at, at) + (if at in fails then 1 else 0);
      if at in fails { return v, 0, 1, at + 1; }
      var sealed := Encrypt(ring, plain.text);
      ResealMeaning(ring, s);
      out, resealed, errs, next := v, 0, 0, at + 1;
      if sealed != s { out, resealed := Str(sealed), 1; }
    case _ =>
      return v, 0, 0, at;
  }

  /** Where the loop over a container's children stands after the first i. */
  ghost predicate KidsAt(ring: Ring, kids: seq<Doc>, fails: set<nat>, at: nat, i: nat, slots: seq<Doc>,
                         resealed: nat, errs: nat, next: nat)
    requires ring.Valid() && i <= |kids|
  {
    && slots == RewalkKids(ring, kids[..i], fails, at) + kids[i..] && next == at + OpenSum(ring, kids[..i])
    && resealed == OpenSum(ring, kids[..i]) - Misses(fails, at, next)
    && errs == StaleSum(ring, kids[..i]) - OpenSum(ring, kids[..i]) + Misses(fails, at, next)
  }

  lemma KidsMore(ring: Ring, kids: seq<Doc>, fails: set<nat>, at: nat, i: nat, slots: seq<Doc>, resealed: nat,
                 errs: nat, next: nat, kid: Doc, n: nat, e: nat, drawn: nat)
    requires ring.Valid() && i < |kids| && KidsAt(ring, kids, fails, at, i, slots, resealed, errs, next)
    requires kid == Rewalk(ring, kids[i], fails, next) && drawn == next + OpenCount(ring, kids[i])
    requires n == Hits(ring, kids[i], fails, next) && e == StuckCount(ring, kids[i]) + Misses(fails, next, drawn)
    ensures KidsAt(ring, kids, fails, at, i + 1, slots[i := kid], resealed + n, errs + e, drawn)
  {
    var earlier := RewalkKids(ring, kids[..i], fails, at);
    assert kids[..i + 1] == kids[..i] + [kids[i]] && kids[..i + 1][..i] == kids[..i];
    assert kids[i..] == [kids[i]] + kids[i + 1..];
    OpenSumMore(ring, kids[..i], kids[i]);
    MissesAdd(fails, at, next, drawn);
    assert RewalkKids(ring, kids[..i + 1], fails, at) == earlier + [kid];
    assert slots[i := kid] == earlier + [kid] + kids[i + 1..];
  }

  /** The loop over a container's children, rewriting each slot in place. */
  method ResealKids(ring: Ring, kids: seq<Doc>, fails: set<nat>, at: nat)
    returns (slots: seq<Doc>, resealed: nat, errs: nat, next: nat)
    requires ring.Valid()
    ensures slots == RewalkKids(ring, kids, fails, at) && next == at + OpenSum(ring, kids)
    ensures resealed == OpenSum(ring, kids) - Misses(fails, at, next)
    ensures errs == StaleSum(ring, kids) - OpenSum(ring, kids) + Misses(fails, at, next)
    decreases kids, 0
  {
    slots, resealed, errs, next := kids, 0, 0, at;
    assert kids[..0] == [] && kids[0..] == kids;
    for i := 0 to |kids|
      invariant KidsAt(ring, kids, fails, at, i, slots, resealed, errs, next)
    {
      assert slots[i] == kids[i];
      var kid, n, e, drawn := ResealJson(ring, slots[i], fails, next);
      KidsMore(ring, kids, fails, at, i, slots, resealed, errs, next, kid, n, e, drawn);
      slots := slots[i := kid];
      resealed, errs, next := resealed + n, errs + e, drawn;
    }
    assert kids[..|kids|] == kids && kids[|kids|..] == [];
  }
}
