/** Lists read off a session's candidate map, whatever order the map is walked in. */
module PeerLists {
  import opened Envelope
  import opened Lexicographic

  /** `order` lists every key once. */
  ghost predicate Enumerates(order: seq<string>, keys: set<string>) {
    && (forall i, j | 0 <= i < j < |order| :: order[i] != order[j])
    && (forall k :: k in order <==> k in keys)
  }

  lemma EnumeratesOneMore(order: seq<string>, keys: set<string>, k: string)
    requires Enumerates(order, keys) && k !in keys
    ensures Enumerates(order + [k], keys + {k})
  {
    assert k !in order;
    assert forall x :: x in order + [k] <==> x in order || x == k;
  }

  function Flatten(order: seq<string>, lists: map<string, seq<Candidate>>): seq<Candidate>
    requires forall k | k in order :: k in lists
  {
    if order == [] then []
    else Flatten(order[..|order| - 1], lists) + lists[order[|order| - 1]]
  }

  lemma {:induction false} FlattenWithout(order: seq<string>, lists: map<string, seq<Candidate>>, i: nat)
    requires (forall k | k in order :: k in lists) && i < |order|
    ensures var rest := order[..i] + order[i + 1..];
      && (forall k | k in rest :: k in lists)
      && multiset(Flatten(order, lists)) == multiset(Flatten(rest, lists)) + multiset(lists[order[i]])
  {
    var n := |order| - 1;
    var rest := order[..i] + order[i + 1..];
    WithoutLast(order, i);
    if i < n {
      var rest' := order[..n][..i] + order[..n][i + 1..];
      FlattenWithout(order[..n], lists, i);
      assert Flatten(rest, lists) == Flatten(rest', lists) + lists[order[n]];
    }
  }

  lemma WithoutLast<T>(s: seq<T>, i: nat)
    requires i < |s|
    ensures var n, rest := |s| - 1, s[..i] + s[i + 1..];
      if i == n then rest == s[..n]
      else rest != [] && rest[|rest| - 1] == s[n] && rest[..|rest| - 1] == s[..n][..i] + s[..n][i + 1..]
    ensures forall x | x in s[..i] + s[i + 1..] :: x in s
  {
  }

  /** The result does not depend on the order of the walk, as far as which candidates it holds. */
  lemma {:induction false} FlattenIsTheUnion(a: seq<string>, b: seq<string>, keys: set<string>,
                                             lists: map<string, seq<Candidate>>)
    requires keys <= lists.Keys && Enumerates(a, keys) && Enumerates(b, keys)
    ensures multiset(Flatten(a, lists)) == multiset(Flatten(b, lists))
    decreases |a|
  {
    if a == [] {
      EnumerationSize(a, keys);
      EnumerationSize(b, keys);
    } else {
      var n := |a| - 1;
      assert a[n] in keys && a[n] in b;
      var i :| 0 <= i < |b| && b[i] == a[n];
      EnumeratesWithout(a, keys, n);
      EnumeratesWithout(b, keys, i);
      FlattenWithout(b, lists, i);
      assert a[..n] + a[n + 1..] == a[..n];
      FlattenIsTheUnion(a[..n], b[..i] + b[i + 1..], keys - {a[n]}, lists);
    }
  }

  lemma EnumerationSize(order: seq<string>, keys: set<string>)
    requires Enumerates(order, keys)
    ensures |order| == 0 <==> keys == {}
  {
    assert |order| > 0 ==> order[0] in order && order[0] in keys;
    if k :| k in keys {
      assert k in order;
    }
  }

  lemma EnumeratesWithout(order: seq<string>, keys: set<string>, i: nat)
    requires Enumerates(order, keys) && i < |order|
    ensures Enumerates(order[..i] + order[i + 1..], keys - {order[i]})
  {
    var rest := order[..i] + order[i + 1..];
    assert order == order[..i] + [order[i]] + order[i + 1..];
    assert forall x :: x in order <==> x in rest || x == order[i];
    assert forall p | 0 <= p < |rest| :: rest[p] == order[if p < i then p else p + 1];
    assert order[i] !in rest;
  }

  /** Where a peer's own list starts in the flattened one. */
  function Offset(order: seq<string>, lists: map<string, seq<Candidate>>, i: nat): nat
    requires (forall k | k in order :: k in lists) && i <= |order|
  {
    |Flatten(order[..i], lists)|
  }

  /** Each peer's candidates stand together, in their own order. */
  lemma {:induction false} FlattenKeepsEachList(order: seq<string>, lists: map<string, seq<Candidate>>, i: nat)
    requires (forall k | k in order :: k in lists) && i < |order|
    ensures var at, own := Offset(order, lists, i), lists[order[i]];
      at + |own| <= |Flatten(order, lists)| && Flatten(order, lists)[at..at + |own|] == own
    decreases |order|
  {
    var n := |order| - 1;
    if i < n {
      FlattenKeepsEachList(order[..n], lists, i);
      assert order[..n][..i] == order[..i];
    }
  }

  predicate StrictlySorted(s: seq<string>) {
    forall i, j | 0 <= i < j < |s| :: Less(s[i], s[j])
  }

  predicate Sorted(s: seq<string>) {
    forall i, j | 0 <= i < j < |s| :: AtMost(s[i], s[j])
  }

  /** A strictly sorted list is determined by its elements. */
  lemma {:induction false} StrictlySortedIsUnique(a: seq<string>, b: seq<string>)
    requires StrictlySorted(a) && StrictlySorted(b)
    requires forall s :: s in a <==> s in b
    ensures a == b
    decreases |a|
  {
    if a != [] {
      assert a[0] in b;
    }
    if b != [] {
      assert b[0] in a;
    }
    if a != [] {
      HeadsAgree(a, b);
      forall s ensures s in a[1..] <==> s in b[1..] {
        assert s in a <==> s in a[1..] || s == a[0];
        assert s in b <==> s in b[1..] || s == b[0];
        LessIsIrreflexive(a[0]);
      }
      StrictlySortedIsUnique(a[1..], b[1..]);
      assert a == [a[0]] + a[1..] && b == [b[0]] + b[1..];
    }
  }

  lemma HeadsAgree(a: seq<string>, b: seq<string>)
    requires StrictlySorted(a) && StrictlySorted(b) && a != [] && b != []
    requires a[0] in b && b[0] in a
    ensures a[0] == b[0]
  {
    var i :| 0 <= i < |b| && b[i] == a[0];
    var j :| 0 <= j < |a| && a[j] == b[0];
    if i > 0 && j > 0 {
      LessIsAsymmetric(a[0], b[0]);
    }
  }

  lemma LessIsIrreflexive(a: string)
    ensures !Less(a, a)
  {
    if Less(a, a) {
      LessIsAsymmetric(a, a);
    }
  }

  predicate SortedBut(s: seq<string>, last: nat, hole: nat) {
    forall p, q | 0 <= p < q <= last && q < |s| && q != hole :: AtMost(s[p], s[q])
  }

  /** Insertion sort by adjacent swaps. */
  method SortStrings(s: array<string>)
    modifies s
    ensures Sorted(s[..]) && multiset(s[..]) == multiset(old(s[..]))
  {
    var i := 1;
    while i < s.Length
      invariant 1 <= i
      invariant i - 1 < s.Length ==> SortedBut(s[..], i - 1, i)
      invariant i > s.Length ==> s.Length == 0
      invariant multiset(s[..]) == multiset(old(s[..]))
    {
      var j := i;
      while j > 0 && Less(s[j], s[j - 1])
        invariant 0 <= j <= i < s.Length
        invariant SortedBut(s[..], i, j)
        invariant multiset(s[..]) == multiset(old(s[..]))
      {
        SwapDown(s[..], i, j);
        s[j - 1], s[j] := s[j], s[j - 1];
        j := j - 1;
      }
      HoleFits(s[..], i, j);
      i := i + 1;
    }
  }

  lemma SwapDown(s: seq<string>, last: nat, j: nat)
    requires 0 < j <= last < |s| && SortedBut(s, last, j) && Less(s[j], s[j - 1])
    ensures SortedBut(s[j - 1 := s[j]][j := s[j - 1]], last, j - 1)
  {
    var t := s[j - 1 := s[j]][j := s[j - 1]];
    LessIsAsymmetric(s[j], s[j - 1]);
    forall p, q | 0 <= p < q <= last && q != j - 1 ensures AtMost(t[p], t[q]) {
      assert q != j ==> AtMost(s[p], s[q]);
      assert q > j ==> AtMost(s[j], s[q]) && AtMost(s[j - 1], s[q]);
      assert p < j - 1 ==> AtMost(s[p], s[j - 1]);
    }
  }

  lemma HoleFits(s: seq<string>, last: nat, j: nat)
    requires j <= last < |s| && SortedBut(s, last, j) && (j == 0 || AtMost(s[j - 1], s[j]))
    ensures SortedBut(s, last, last + 1)
  {
    forall p, q | 0 <= p < q <= last ensures AtMost(s[p], s[q]) {
      if q == j && p < j - 1 {
        AtMostIsTransitive(s[p], s[j - 1], s[j]);
      }
    }
  }

  lemma SortedAndDistinct(s: seq<string>)
    requires Sorted(s) && forall i, j | 0 <= i < j < |s| :: s[i] != s[j]
    ensures StrictlySorted(s)
  {
    forall i, j | 0 <= i < j < |s| ensures Less(s[i], s[j]) {
      LessIsTotal(s[i], s[j]);
    }
  }

  lemma SortedPermutation(s: seq<string>, t: seq<string>)
    requires multiset(s) == multiset(t) && Sorted(t)
    requires forall i, j | 0 <= i < j < |s| :: s[i] != s[j]
    ensures StrictlySorted(t) && forall x :: x in t <==> x in s
  {
    forall x ensures x in t <==> x in s {
      assert x in t <==> x in multiset(t);
      assert x in s <==> x in multiset(s);
    }
    forall i, j | 0 <= i < j < |t| ensures t[i] != t[j] {
      if t[i] == t[j] {
        TwiceInMultiset(t, i, j);
        OnceInMultiset(s, t[i]);
        assert false;
      }
    }
    SortedAndDistinct(t);
  }

  lemma TwiceInMultiset(t: seq<string>, i: nat, j: nat)
    requires i < j < |t| && t[i] == t[j]
    ensures multiset(t)[t[i]] >= 2
  {
    assert t == t[..j] + [t[j]] + t[j + 1..];
    assert t[i] in t[..j];
  }

  lemma {:induction false} OnceInMultiset(s: seq<string>, x: string)
    requires forall i, j | 0 <= i < j < |s| :: s[i] != s[j]
    ensures multiset(s)[x] <= 1
  {
    if s != [] {
      OnceInMultiset(s[1..], x);
      assert s == [s[0]] + s[1..];
      assert s[0] !in s[1..];
    }
  }
}
