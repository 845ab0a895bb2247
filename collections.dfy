/** The two Doctrine `ArrayCollection` edits used by the entities'
    association methods, as functions on sequences of references:
    `contains` + `add` (append when absent) and `removeElement` (delete the
    first occurrence, reporting whether there was one). */
module Collections {

  /** No element occurs twice. */
  predicate NoDuplicates<T(==)>(s: seq<T>) {
    forall i, j :: 0 <= i < j < |s| ==> s[i] != s[j]
  }

  /** `if (!$c->contains($x)) { $c->add($x); }` */
  function Added<T(==)>(s: seq<T>, x: T): (r: seq<T>)
    ensures x in r
    ensures x in s ==> r == s
    ensures x !in s ==> |r| == |s| + 1 && r[..|s|] == s && r[|s|] == x
  {
    if x in s then s else s + [x]
  }

  /** The index of the first occurrence of `x` in `s` (`array_search`). */
  function IndexOf<T(==)>(s: seq<T>, x: T): (i: nat)
    requires x in s
    ensures i < |s| && s[i] == x
    ensures forall k :: 0 <= k < i ==> s[k] != x
  {
    if s[0] == x then 0 else 1 + IndexOf(s[1..], x)
  }

  /** `$c->removeElement($x)`: the first occurrence of `x` is deleted. */
  function Removed<T(==)>(s: seq<T>, x: T): (r: seq<T>)
    ensures x in s ==> |r| == |s| - 1
    ensures x !in s ==> r == s
  {
    if x in s then s[..IndexOf(s, x)] + s[IndexOf(s, x) + 1..] else s
  }

  /** Adding keeps a duplicate-free collection duplicate-free. */
  lemma AddedKeepsNoDuplicates<T>(s: seq<T>, x: T)
    requires NoDuplicates(s)
    ensures NoDuplicates(Added(s, x))
  {
  }

  /** Adding twice is adding once. */
  lemma AddedIdempotent<T>(s: seq<T>, x: T)
    ensures Added(Added(s, x), x) == Added(s, x)
  {
  }

  /** Adding puts exactly `x` in and keeps everything that was there. */
  lemma AddedElements<T>(s: seq<T>, x: T)
    ensures forall y :: y in Added(s, x) <==> y in s || y == x
  {
  }

  /** Removing deletes one occurrence and keeps the rest in order:
      as multisets, the result is the input minus one `x` (when present). */
  lemma RemovedMultiset<T>(s: seq<T>, x: T)
    ensures multiset(Removed(s, x)) == multiset(s) - multiset{x}
    ensures |Removed(s, x)| == if x in s then |s| - 1 else |s|
  {
    if x in s {
      var i := IndexOf(s, x);
      assert s == s[..i] + [x] + s[i + 1..];
      calc {
        multiset(s);
        multiset(s[..i] + [x] + s[i + 1..]);
        multiset(s[..i]) + multiset{x} + multiset(s[i + 1..]);
      }
    } else {
      assert multiset(s)[x] == 0;
    }
  }

  /** In a duplicate-free collection, removing takes `x` out entirely,
      keeps every other element and keeps the collection duplicate-free. */
  lemma RemovedFromNoDuplicates<T>(s: seq<T>, x: T)
    requires NoDuplicates(s)
    ensures x !in Removed(s, x)
    ensures forall y :: y != x ==> (y in Removed(s, x) <==> y in s)
    ensures NoDuplicates(Removed(s, x))
  {
    if x in s {
      var i := IndexOf(s, x);
      var r := s[..i] + s[i + 1..];
      assert Removed(s, x) == r;
      forall a | 0 <= a < |r| ensures r[a] == s[Skip(a, i)] && Skip(a, i) != i {
        RemovedAt(s, i, a);
      }
      forall y | y != x && y in s ensures y in r {
        var j :| 0 <= j < |s| && s[j] == y;
        var a := if j < i then j else j - 1;
        RemovedAt(s, i, a);
      }
    }
  }

  /** The index in the original of position `a` once index `i` is deleted. */
  function Skip(a: nat, i: nat): nat {
    if a < i then a else a + 1
  }

  lemma RemovedAt<T>(s: seq<T>, i: nat, a: nat)
    requires i < |s| && a < |s| - 1
    ensures (s[..i] + s[i + 1..])[a] == s[Skip(a, i)]
  {
  }

  /** Removing what was just added to a collection that lacked it gives the
      collection back. */
  lemma RemovedUndoesAdded<T>(s: seq<T>, x: T)
    requires x !in s
    ensures Removed(Added(s, x), x) == s
  {
    var t := s + [x];
    assert IndexOf(t, x) == |s| by {
      assert t[|s|] == x;
      assert forall k :: 0 <= k < |s| ==> t[k] != x;
      IndexOfIsFirst(t, x, |s|);
    }
    assert t[..|s|] == s;
  }

  /** The first occurrence is the unique index holding `x` with no `x` before it. */
  lemma {:induction false} IndexOfIsFirst<T>(s: seq<T>, x: T, i: nat)
    requires i < |s| && s[i] == x
    requires forall k :: 0 <= k < i ==> s[k] != x
    ensures IndexOf(s, x) == i
  {
    if i > 0 {
      assert s[1..][i - 1] == x;
      IndexOfIsFirst(s[1..], x, i - 1);
    }
  }

  /** Removing an absent element changes nothing. */
  lemma RemovedAbsent<T>(s: seq<T>, x: T)
    requires x !in s
    ensures Removed(s, x) == s
  {
  }

  /** `array_unique`: keep the first occurrence of every value, in order. */
  function Dedupe<T(==)>(s: seq<T>): (r: seq<T>)
    ensures |r| <= |s|
    ensures forall y :: y in r ==> y in s
  {
    if s == [] then []
    else
      var d := Dedupe(s[..|s| - 1]);
      if s[|s| - 1] in d then d else d + [s[|s| - 1]]
  }

  /** `Dedupe` keeps exactly the values of its input and none twice. */
  lemma {:induction false} DedupeSpec<T>(s: seq<T>)
    ensures forall y :: y in Dedupe(s) <==> y in s
    ensures NoDuplicates(Dedupe(s))
  {
    if s != [] {
      var init := s[..|s| - 1];
      DedupeSpec(init);
      assert s == init + [s[|s| - 1]];
      assert forall y :: y in s <==> y in init || y == s[|s| - 1];
    }
  }

  /** A collection without duplicates is its own `Dedupe`. */
  lemma {:induction false} DedupeOfNoDuplicates<T>(s: seq<T>)
    requires NoDuplicates(s)
    ensures Dedupe(s) == s
  {
    if s != [] {
      var init := s[..|s| - 1];
      assert NoDuplicates(init);
      DedupeOfNoDuplicates(init);
      assert s[|s| - 1] !in init;
      assert s == init + [s[|s| - 1]];
    }
  }
}
