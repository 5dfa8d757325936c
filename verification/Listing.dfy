/**
 What a `SELECT id ... LIMIT n` may return.

 The database's choice is an input: `order` is the order in which it happens to visit rows. A
 row that `order` does not mention was lost on the way, because the connection broke or the
 row failed to scan; the callers here do not notice that.
 */
module Listing {
  import opened Common

  predicate Distinct(s: seq<string>) { forall i, j :: 0 <= i < j < |s| ==> s[i] != s[j] }

  function Ids(pick: seq<string>): set<string> { set id | id in pick }

  /** A complete answer: distinct rows of the pool, as many as the limit allows. */
  predicate IsSelection(pick: seq<string>, pool: set<string>, limit: nat) {
    Distinct(pick) && Ids(pick) <= pool && |pick| == (if |pool| < limit then |pool| else limit)
  }

  /** The first rows of the pool in the order visited. */
  function Answer(pool: set<string>, order: seq<string>, limit: nat): seq<string> {
    if order == [] then [] else
    var earlier, id := Answer(pool, order[..|order| - 1], limit), order[|order| - 1];
    if |earlier| < limit && id in pool && id !in earlier then earlier + [id] else earlier
  }

  lemma {:induction false} AnswerSound(pool: set<string>, order: seq<string>, limit: nat)
    ensures Distinct(Answer(pool, order, limit)) && |Answer(pool, order, limit)| <= limit
    ensures Ids(Answer(pool, order, limit)) <= pool * Ids(order)
    ensures |Answer(pool, order, limit)| < limit ==> Ids(Answer(pool, order, limit)) == pool * Ids(order)
  {
    if order != [] {
      var n := |order| - 1;
      AnswerSound(pool, order[..n], limit);
      assert Ids(order) == Ids(order[..n]) + {order[n]};
      var earlier, now := Answer(pool, order[..n], limit), Answer(pool, order, limit);
      assert now == earlier || Ids(now) == Ids(earlier) + {order[n]};
    }
  }

  lemma {:induction false} IdsSize(pick: seq<string>)
    requires Distinct(pick)
    ensures |Ids(pick)| == |pick|
  {
    if pick != [] {
      var n := |pick| - 1;
      IdsSize(pick[..n]);
      assert Ids(pick) == Ids(pick[..n]) + {pick[n]};
    }
  }

  /** If no row of the pool is lost, the answer is complete; with room for the whole pool, only
      then. */
  lemma AnswerComplete(pool: set<string>, order: seq<string>, limit: nat)
    ensures pool <= Ids(order) ==> IsSelection(Answer(pool, order, limit), pool, limit)
    ensures |pool| <= limit ==> (Ids(Answer(pool, order, limit)) == pool <==> pool <= Ids(order))
  {
    var pick := Answer(pool, order, limit);
    AnswerSound(pool, order, limit);
    IdsSize(pick);
    SubsetSize(Ids(pick), pool);
  }

  /** Every complete answer arises, from an order that may go on to visit any other rows. */
  lemma {:induction false} EveryAnswerArises(pick: seq<string>, rest: seq<string>, pool: set<string>, limit: nat)
    requires IsSelection(pick, pool, limit)
    ensures Answer(pool, pick + rest, limit) == pick
  {
    var order := pick + rest;
    if rest != [] {
      var n := |rest| - 1;
      EveryAnswerArises(pick, rest[..n], pool, limit);
      assert order[..|order| - 1] == pick + rest[..n];
      IdsSize(pick);
      SubsetSize(Ids(pick), pool);
      assert |pick| < limit ==> rest[n] in pool ==> rest[n] in Ids(pick);
    } else {
      assert order == pick;
      AnswerOfItself(pick, pool, limit);
    }
  }

  lemma {:induction false} AnswerOfItself(pick: seq<string>, pool: set<string>, limit: nat)
    requires Distinct(pick) && Ids(pick) <= pool && |pick| <= limit
    ensures Answer(pool, pick, limit) == pick
  {
    if pick != [] {
      var n := |pick| - 1;
      assert Ids(pick[..n]) <= Ids(pick) && pick[n] in Ids(pick);
      AnswerOfItself(pick[..n], pool, limit);
      assert pick == pick[..n] + [pick[n]];
    }
  }

  /** The loop that collects the rows. */
  method Select(pool: set<string>, order: seq<string>, limit: nat) returns (pick: seq<string>)
    ensures pick == Answer(pool, order, limit)
    ensures Distinct(pick) && |pick| <= limit && Ids(pick) <= pool
    ensures pool <= Ids(order) ==> IsSelection(pick, pool, limit)
  {
    pick := [];
    for i := 0 to |order|
      invariant pick == Answer(pool, order[..i], limit)
    {
      assert order[..i + 1][..i] == order[..i];
      if |pick| < limit && order[i] in pool && order[i] !in pick { pick := pick + [order[i]]; }
    }
    assert order[..|order|] == order;
    AnswerSound(pool, order, limit);
    AnswerComplete(pool, order, limit);
  }

  lemma IdsTake(pick: seq<string>, i: nat)
    requires i < |pick| && Distinct(pick)
    ensures Ids(pick[..i + 1]) == Ids(pick[..i]) + {pick[i]}
    ensures pick[i] in Ids(pick) && pick[i] !in Ids(pick[..i])
  {
  }

  /** Some order that visits exactly the given rows, each once. */
  lemma {:induction false} OrderOf(ids: set<string>) returns (order: seq<string>)
    ensures Ids(order) == ids && Distinct(order)
  {
    if ids == {} {
      order := [];
    } else {
      var id :| id in ids;
      var rest := OrderOf(ids - {id});
      order := rest + [id];
      assert Ids(order) == Ids(rest) + {id};
      assert forall i :: 0 <= i < |rest| ==> rest[i] in Ids(rest);
    }
  }

  /** Rows visited first fill the limit if there are enough of them. */
  lemma AnswerPrefix(pool: set<string>, first: seq<string>, rest: seq<string>, limit: nat)
    requires Distinct(first) && Ids(first) <= pool && |first| >= limit
    ensures Answer(pool, first + rest, limit) == first[..limit]
    ensures Ids(Answer(pool, first + rest, limit)) <= Ids(first)
  {
    var pick := first[..limit];
    assert Ids(pick) <= Ids(first);
    IdsSize(first);
    SubsetSize(Ids(first), pool);
    EveryAnswerArises(pick, first[limit..] + rest, pool, limit);
    assert pick + (first[limit..] + rest) == first + rest;
  }

  /** A complete answer with room for more than the bad rows holds a good one, if there is one. */
  lemma AnswerHits(pick: seq<string>, pool: set<string>, good: set<string>, limit: nat)
    requires IsSelection(pick, pool, limit) && good <= pool && good != {} && |pool - good| < limit
    ensures Ids(pick) * good != {}
  {
    IdsSize(pick);
    if |pool| < limit {
      SubsetSize(Ids(pick), pool);
      var id :| id in good;
      assert id in Ids(pick) * good;
    } else {
      if Ids(pick) <= pool - good {
        SubsetSize(Ids(pick), pool - good);
        assert false;
      }
      var id :| id in Ids(pick) && id !in pool - good;
      assert id in Ids(pick) * good;
    }
  }

  /** What a complete answer leaves over. */
  lemma AnswerLeaves(pick: seq<string>, pool: set<string>, limit: nat)
    requires IsSelection(pick, pool, limit)
    ensures |pool - Ids(pick)| == if limit < |pool| then |pool| - limit else 0
  {
    IdsSize(pick);
    assert pool == (pool - Ids(pick)) + Ids(pick);
  }
}
