/** Deterministic hop-port allocation: base plus the position in name order. */
module HopPorts {
  import opened Permutation

  /** Byte order on strings, as Go's sort.Strings uses it. */
  predicate StrLe(a: string, b: string) {
    a == "" || (b != "" && (a[0] < b[0] || (a[0] == b[0] && StrLe(a[1..], b[1..]))))
  }

  predicate StrLt(a: string, b: string) { StrLe(a, b) && a != b }

  lemma {:induction false} StrLeTotal(a: string, b: string)
    ensures StrLe(a, a)
    ensures StrLe(a, b) || StrLe(b, a)
    ensures StrLe(a, b) && StrLe(b, a) ==> a == b
  {
    if a != "" && b != "" {
      StrLeTotal(a[1..], b[1..]);
      assert a == [a[0]] + a[1..] && b == [b[0]] + b[1..];
    } else if a != "" {
      StrLeTotal(a[1..], b);
    }
  }

  lemma {:induction false} StrLeTrans(a: string, b: string, c: string)
    requires StrLe(a, b) && StrLe(b, c)
    ensures StrLe(a, c)
  {
    if a != "" && a[0] == b[0] == c[0] { StrLeTrans(a[1..], b[1..], c[1..]); }
  }

  /** How many listed names come no later than n. */
  function CountLe(names: seq<string>, n: string): nat {
    if names == [] then 0
    else CountLe(names[..|names| - 1], n) + (if StrLe(names[|names| - 1], n) then 1 else 0)
  }

  /** The port of a listed name, from the list alone: no order of listing, no sorting. */
  function PortOf(names: seq<string>, base: int, n: string): int { base + CountLe(names, n) - 1 }

  lemma {:induction false} CountLeRemove(s: seq<string>, j: nat, n: string)
    requires j < |s|
    ensures CountLe(s, n) == CountLe(Without(s, j), n) + (if StrLe(s[j], n) then 1 else 0)
  {
    var k := |s| - 1;
    if j == k {
      assert Without(s, j) == s[..k];
    } else {
      CountLeRemove(s[..k], j, n);
      WithoutInner(s, j);
    }
  }

  /** The count, and so the port, does not depend on the order of the list. */
  lemma {:induction false} CountLeOrderFree(s: seq<string>, t: seq<string>, n: string)
    requires multiset(s) == multiset(t)
    ensures CountLe(s, n) == CountLe(t, n)
  {
    if s == [] {
      assert |multiset(t)| == 0;
    } else {
      var j := Match(s, t);
      CountLeRemove(t, j, n);
      CountLeOrderFree(s[..|s| - 1], Without(t, j), n);
    }
  }

  lemma {:induction false} CountLeBound(s: seq<string>, n: string)
    ensures CountLe(s, n) <= |s|
    ensures n in s ==> CountLe(s, n) >= 1
  {
    if s != [] {
      var k := |s| - 1;
      CountLeBound(s[..k], n);
      StrLeTotal(n, n);
      assert s == s[..k] + [s[k]];
    }
  }

  lemma {:induction false} CountLeMono(s: seq<string>, a: string, b: string)
    requires StrLe(a, b)
    ensures CountLe(s, a) <= CountLe(s, b)
    ensures a != b && b in s ==> CountLe(s, a) < CountLe(s, b)
  {
    if s != [] {
      var k := |s| - 1;
      CountLeMono(s[..k], a, b);
      if StrLe(s[k], a) { StrLeTrans(s[k], a, b); }
      StrLeTotal(b, a);
      assert s == s[..k] + [s[k]];
    }
  }

  /** Ports follow name order strictly, so two listed names never share one, and they fill at
      most as many ports as there are names. */
  lemma PortsOrdered(names: seq<string>, base: int, a: string, b: string)
    requires a in names && b in names
    ensures base <= PortOf(names, base, a) < base + |names|
    ensures PortOf(names, base, a) < PortOf(names, base, b) <==> StrLt(a, b)
    ensures PortOf(names, base, a) == PortOf(names, base, b) <==> a == b
  {
    CountLeBound(names, a);
    StrLeTotal(a, b);
    if StrLe(a, b) { CountLeMono(names, a, b); }
    if StrLe(b, a) { CountLeMono(names, b, a); }
  }

  predicate Sorted(s: seq<string>) { forall i, j :: 0 <= i < j < |s| ==> StrLe(s[i], s[j]) }

  /** The library sort. */
  method SortStrings(names: seq<string>) returns (sorted: seq<string>)
    ensures Sorted(sorted) && multiset(sorted) == multiset(names)
  {
    sorted := [];
    for i := 0 to |names|
      invariant Sorted(sorted) && multiset(sorted) == multiset(names[..i])
    {
      assert names[..i + 1] == names[..i] + [names[i]];
      sorted := InsertName(sorted, names[i]);
    }
    assert names[..|names|] == names;
  }

  method InsertName(s: seq<string>, n: string) returns (t: seq<string>)
    requires Sorted(s)
    ensures Sorted(t) && multiset(t) == multiset(s) + multiset{n}
  {
    var k := |s|;
    while k > 0 && !StrLe(s[k - 1], n)
      invariant 0 <= k <= |s|
      invariant forall i :: k <= i < |s| ==> StrLe(n, s[i])
    {
      k := k - 1;
      StrLeTotal(s[k], n);
    }
    t := s[..k] + [n] + s[k..];
    InsertedMultiset(s, k, n);
    forall i | 0 <= i < k ensures StrLe(s[i], n) {
      if i < k - 1 { StrLeTrans(s[i], s[k - 1], n); }
    }
  }

  lemma InsertedMultiset<T>(s: seq<T>, k: nat, n: T)
    requires k <= |s|
    ensures multiset(s[..k] + [n] + s[k..]) == multiset(s) + multiset{n}
  {
    assert s == s[..k] + s[k..];
  }

  /** The allocation as written: sort, then base plus index, later duplicates overwriting. */
  method AssignHopPorts(names: seq<string>, base: int) returns (ports: map<string, int>)
    ensures ports.Keys == set n | n in names
    ensures forall n :: n in ports ==> ports[n] == PortOf(names, base, n)
  {
    var sorted := SortStrings(names);
    ports := map[];
    for i := 0 to |sorted|
      invariant forall n :: n in ports <==> n in sorted[..i]
      invariant forall n :: n in ports ==> ports[n] == PortOf(sorted[..i], base, n)
    {
      NextPort(sorted, i);
      assert sorted[..i + 1] == sorted[..i] + [sorted[i]];
      ports := ports[sorted[i] := base + i];
    }
    assert sorted[..|sorted|] == sorted;
    forall n ensures n in names <==> n in sorted { assert n in multiset(names) <==> n in multiset(sorted); }
    forall n ensures CountLe(sorted, n) == CountLe(names, n) { CountLeOrderFree(sorted, names, n); }
  }

  /** Taking the next name in order gives it the count i + 1 and leaves earlier counts alone. */
  lemma NextPort(sorted: seq<string>, i: nat)
    requires Sorted(sorted) && i < |sorted|
    ensures CountLe(sorted[..i + 1], sorted[i]) == i + 1
    ensures forall n :: n in sorted[..i] && n != sorted[i] ==> CountLe(sorted[..i + 1], n) == CountLe(sorted[..i], n)
  {
    assert sorted[..i + 1][..i] == sorted[..i];
    AllCounted(sorted[..i + 1], sorted[i]);
    forall n | n in sorted[..i] && n != sorted[i] ensures !StrLe(sorted[i], n) {
      StrLeTotal(sorted[i], n);
    }
  }

  lemma {:induction false} AllCounted(s: seq<string>, n: string)
    requires forall i :: 0 <= i < |s| ==> StrLe(s[i], n) || s[i] == n
    ensures CountLe(s, n) == |s|
  {
    if s != [] {
      StrLeTotal(n, n);
      AllCounted(s[..|s| - 1], n);
    }
  }
}
