/** Sequences kept strictly increasing by identifier, and the two searches the
    library runs on them. */
module SortedSearch {
  import opened Prelude

  ghost predicate Increasing<T>(s: seq<T>, key: T -> Uuid) {
    forall i, j :: 0 <= i < j < |s| ==> key(s[i]) < key(s[j])
  }

  /** The check made on every read: no two neighbours out of order. */
  predicate NeighboursIncrease<T>(s: seq<T>, key: T -> Uuid) {
    forall i :: 0 <= i < |s| - 1 ==> key(s[i]) < key(s[i + 1])
  }

  lemma {:induction false} NeighboursSuffice<T>(s: seq<T>, key: T -> Uuid)
    ensures NeighboursIncrease(s, key) <==> Increasing(s, key)
  {
    if NeighboursIncrease(s, key) {
      forall i, j | 0 <= i < j < |s| ensures key(s[i]) < key(s[j]) {
        ChainUp(s, key, i, j);
      }
    }
  }

  lemma {:induction false} ChainUp<T>(s: seq<T>, key: T -> Uuid, i: nat, j: nat)
    requires NeighboursIncrease(s, key) && i < j < |s|
    ensures key(s[i]) < key(s[j])
  {
    assert key(s[j - 1]) < key(s[j - 1 + 1]);
    if i < j - 1 { ChainUp(s, key, i, j - 1); }
  }

  lemma {:induction false} SameIdSamePlace<T>(s: seq<T>, key: T -> Uuid, i: nat, j: nat)
    requires Increasing(s, key) && i < |s| && j < |s|
    ensures key(s[i]) == key(s[j]) <==> i == j
    ensures key(s[i]) < key(s[j]) <==> i < j
  {
    if i < j {
      assert key(s[i]) < key(s[j]);
    } else if j < i {
      assert key(s[j]) < key(s[i]);
    }
  }

  /** How many leading elements lie below `id`: the result of a scan from the left. */
  function Rank<T>(s: seq<T>, key: T -> Uuid, id: Uuid): (n: nat)
    ensures n <= |s|
    ensures forall i :: 0 <= i < n ==> key(s[i]) < id
    ensures n < |s| ==> id <= key(s[n])
  {
    if s == [] || id <= key(s[0]) then 0 else 1 + Rank(s[1..], key, id)
  }

  lemma {:induction false} RankIs<T>(s: seq<T>, key: T -> Uuid, id: Uuid, n: nat)
    requires n <= |s| && forall i :: 0 <= i < n ==> key(s[i]) < id
    requires n < |s| ==> id <= key(s[n])
    ensures Rank(s, key, id) == n
  {
    if n > 0 { RankIs(s[1..], key, id, n - 1); }
  }

  /** The place of the element named `id`, found by a scan from the left. */
  function IndexOf<T>(s: seq<T>, key: T -> Uuid, id: Uuid): (r: Option<nat>)
    ensures r.Some? ==> r.value < |s| && key(s[r.value]) == id
    ensures r.None? ==> forall i :: 0 <= i < |s| ==> key(s[i]) != id
  {
    if s == [] then None
    else if key(s[0]) == id then Some(0)
    else
      match IndexOf(s[1..], key, id)
      case Some(i) => Some(i + 1)
      case None => None
  }

  function Insert<T>(s: seq<T>, key: T -> Uuid, x: T): seq<T> {
    var n := Rank(s, key, key(x));
    s[..n] + [x] + s[n..]
  }

  /** Inserting an element with a new identifier keeps the order, keeps every element, and
      keeps them in the same order among themselves. */
  lemma {:induction false} InsertKeepsOrder<T>(s: seq<T>, key: T -> Uuid, x: T)
    requires Increasing(s, key) && forall y <- s :: key(y) != key(x)
    ensures Increasing(Insert(s, key, x), key)
    ensures forall y :: y in Insert(s, key, x) <==> y in s || y == x
  {
    var n := Rank(s, key, key(x));
    InsertedAt(s, n, x);
    forall i | 0 <= i < |s| ensures key(s[i]) != key(x) && (n <= i ==> key(x) < key(s[i])) {
      assert s[i] in s;
    }
  }

  /** Inserting keeps the order exactly if the identifier is new. */
  lemma {:induction false} OrderIffNew<T>(s: seq<T>, key: T -> Uuid, x: T)
    requires Increasing(s, key)
    ensures Increasing(Insert(s, key, x), key) <==> forall y <- s :: key(y) != key(x)
  {
    if forall y <- s :: key(y) != key(x) {
      InsertKeepsOrder(s, key, x);
    } else {
      var k :| 0 <= k < |s| && key(s[k]) == key(x);
      var n, t := Rank(s, key, key(x)), Insert(s, key, x);
      InsertedAt(s, n, x);
      assert n <= k && !(key(t[n]) < key(t[k + 1]));
    }
  }

  /** What stands where after inserting `x` at place `n`, and that nothing else is there. */
  lemma {:induction false} InsertedAt<T>(s: seq<T>, n: nat, x: T)
    requires n <= |s|
    ensures var t := s[..n] + [x] + s[n..];
            && |t| == |s| + 1
            && (forall i :: 0 <= i < |t| ==> t[i] == if i < n then s[i] else if i == n then x else s[i - 1])
            && forall y :: y in t <==> y in s || y == x
  {
    assert s == s[..n] + s[n..];
  }

  lemma {:induction false} RemoveKeepsOrder<T>(s: seq<T>, key: T -> Uuid, n: nat)
    requires Increasing(s, key) && n < |s|
    ensures Increasing(s[..n] + s[n + 1..], key)
    ensures forall y :: y in s[..n] + s[n + 1..] <==> y in s && y != s[n]
  {
    var t := s[..n] + s[n + 1..];
    assert forall i :: 0 <= i < |t| ==> t[i] == if i < n then s[i] else s[i + 1];
    forall y | y in s && y != s[n] ensures y in t {
      var i :| 0 <= i < |s| && s[i] == y;
      assert t[if i < n then i else i - 1] == y;
    }
  }

  lemma {:induction false} UpdateKeepsOrder<T>(s: seq<T>, key: T -> Uuid, n: nat, x: T)
    requires Increasing(s, key) && n < |s| && key(x) == key(s[n])
    ensures Increasing(s[n := x], key)
    ensures forall y :: y in s[n := x] <==> (y in s && y != s[n]) || y == x
  {
    var t := s[n := x];
    forall y | (y in s && y != s[n]) || y == x ensures y in t {
      if y == x { assert t[n] == y; } else {
        var i :| 0 <= i < |s| && s[i] == y;
        assert t[i] == y;
      }
    }
  }

  /** Rust's `partition_point`: the length of the prefix satisfying `below`. */
  method PartitionPoint<T>(s: seq<T>, below: T -> bool) returns (n: nat)
    requires forall i, j :: 0 <= i < j < |s| && below(s[j]) ==> below(s[i])
    ensures n <= |s|
    ensures forall i :: 0 <= i < |s| ==> (below(s[i]) <==> i < n)
  {
    n := 0;
    var hi := |s|;
    while n < hi
      invariant 0 <= n <= hi <= |s|
      invariant forall i :: 0 <= i < n ==> below(s[i])
      invariant forall i :: hi <= i < |s| ==> !below(s[i])
    {
      var mid := n + (hi - n) / 2;
      if below(s[mid]) { n := mid + 1; } else { hi := mid; }
    }
  }

  /** An element with the identifier is where both scans stop. */
  lemma {:induction false} FoundAt<T>(s: seq<T>, key: T -> Uuid, id: Uuid, n: nat)
    requires Increasing(s, key) && n < |s| && key(s[n]) == id
    ensures IndexOf(s, key, id) == Some(n) && Rank(s, key, id) == n
  {
    RankIs(s, key, id, n);
    SameIdSamePlace(s, key, IndexOf(s, key, id).value, n);
  }

  /** Rust's `binary_search_by_key`: on an increasing sequence it agrees with both scans. */
  method BinarySearch<T>(s: seq<T>, key: T -> Uuid, id: Uuid) returns (r: Result<nat, nat>)
    requires Increasing(s, key)
    ensures r.Ok? ==> IndexOf(s, key, id) == Some(r.value)
    ensures r.Err? ==> IndexOf(s, key, id) == None
    ensures Rank(s, key, id) == if r.Ok? then r.value else r.error
  {
    var lo, hi := 0, |s|;
    while lo < hi
      invariant 0 <= lo <= hi <= |s|
      invariant forall i :: 0 <= i < lo ==> key(s[i]) < id
      invariant forall i :: hi <= i < |s| ==> id < key(s[i])
    {
      var mid := lo + (hi - lo) / 2;
      if key(s[mid]) == id {
        FoundAt(s, key, id, mid);
        return Ok(mid);
      } else if key(s[mid]) < id {
        lo := mid + 1;
      } else {
        hi := mid;
      }
    }
    RankIs(s, key, id, lo);
    return Err(lo);
  }
}
