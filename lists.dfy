/** The array operations the catalog code is built from, on sequences of records that
    carry an id: `findIndex`/`find` (the first record with an id), `filter` with an id
    test (delete), and `map` replacing the records with an id (the client's update).
    `key` projects the id out of a record. */
module Lists {

  /** Some record of `s` has id `id`. */
  ghost predicate HasKey<T, K>(s: seq<T>, key: T -> K, id: K)
  {
    exists x :: x in s && key(x) == id
  }

  /** No two records of `s` share an id. */
  ghost predicate Unique<T, K>(s: seq<T>, key: T -> K)
  {
    forall i, j :: 0 <= i < j < |s| ==> key(s[i]) != key(s[j])
  }

  /** `findIndex(r => key(r) === id)`: the index of the first record with id `id`,
      or -1 when there is none. */
  function FindIndex<T, K(==)>(s: seq<T>, key: T -> K, id: K): (r: int)
    ensures -1 <= r < |s|
    ensures r == -1 <==> !HasKey(s, key, id)
    ensures 0 <= r ==> key(s[r]) == id
    ensures 0 <= r ==> forall j :: 0 <= j < r ==> key(s[j]) != id
  {
    if s == [] then -1
    else if key(s[0]) == id then 0
    else
      var r' := FindIndex(s[1..], key, id);
      assert forall x :: x in s ==> x == s[0] || x in s[1..];
      if r' == -1 then -1 else r' + 1
  }

  /** `filter(r => key(r) !== id)`: every record whose id is not `id`, in their order. */
  function FilterOut<T, K(==)>(s: seq<T>, key: T -> K, id: K): (r: seq<T>)
    ensures |r| <= |s|
    ensures forall x :: x in r ==> x in s && key(x) != id
    ensures forall x :: x in s && key(x) != id ==> x in r
    ensures r == s <==> !HasKey(s, key, id)
    ensures |r| == |s| ==> r == s
  {
    if s == [] then []
    else
      var rest := FilterOut(s[1..], key, id);
      assert forall x :: x in s ==> x == s[0] || x in s[1..];
      if key(s[0]) == id then rest else [s[0]] + rest
  }

  /** `map(r => key(r) === id ? y : r)`: every record with id `id` replaced by `y`. */
  function ReplaceWhere<T, K(==)>(s: seq<T>, key: T -> K, id: K, y: T): (r: seq<T>)
    ensures |r| == |s|
    ensures forall i :: 0 <= i < |s| ==> r[i] == (if key(s[i]) == id then y else s[i])
    ensures !HasKey(s, key, id) ==> r == s
  {
    if s == [] then []
    else [if key(s[0]) == id then y else s[0]] + ReplaceWhere(s[1..], key, id, y)
  }

  /** Removal distributes over concatenation: the records that survive keep their
      relative order. */
  lemma {:induction false} FilterOutConcat<T, K>(a: seq<T>, b: seq<T>, key: T -> K, id: K)
    ensures FilterOut(a + b, key, id) == FilterOut(a, key, id) + FilterOut(b, key, id)
  {
    if a == [] {
      assert a + b == b;
    } else {
      assert (a + b)[0] == a[0];
      assert (a + b)[1..] == a[1..] + b;
      FilterOutConcat(a[1..], b, key, id);
    }
  }

  /** Removing an id twice leaves what removing it once left. */
  lemma FilterOutIdempotent<T, K>(s: seq<T>, key: T -> K, id: K)
    ensures FilterOut(FilterOut(s, key, id), key, id) == FilterOut(s, key, id)
  {
  }

  /** After the records with an id are removed, looking the id up finds nothing. */
  lemma FindIndexAfterFilterOut<T, K>(s: seq<T>, key: T -> K, id: K)
    ensures FindIndex(FilterOut(s, key, id), key, id) == -1
  {
  }

  /** Looking up an id after a record was appended: an earlier record with the id
      still wins; otherwise the appended record is found if it has the id. */
  lemma FindIndexAfterAppend<T, K>(s: seq<T>, x: T, key: T -> K, id: K)
    ensures FindIndex(s + [x], key, id)
            == if HasKey(s, key, id) then FindIndex(s, key, id)
               else if key(x) == id then |s| else -1
  {
    var t := s + [x];
    assert forall y :: y in t ==> y in s || y == x;
    var i := FindIndex(t, key, id);
    if HasKey(s, key, id) {
      var k := FindIndex(s, key, id);
      assert t[k] == s[k];
      assert i <= k;
      assert forall j :: 0 <= j < |s| ==> t[j] == s[j];
    } else if key(x) == id {
      assert t[|s|] == x;
      assert forall j :: 0 <= j < |s| ==> t[j] == s[j] && t[j] in s;
    }
  }

  /** With unique ids, removing an id that is present removes exactly one record. */
  lemma {:induction false} FilterOutRemovesOne<T, K>(s: seq<T>, key: T -> K, id: K)
    requires Unique(s, key) && HasKey(s, key, id)
    ensures |FilterOut(s, key, id)| == |s| - 1
  {
    var t := s[1..];
    assert forall x :: x in s ==> x == s[0] || x in t;
    assert Unique(t, key) by {
      forall i, j | 0 <= i < j < |t| ensures key(t[i]) != key(t[j]) {
        assert t[i] == s[i + 1] && t[j] == s[j + 1];
      }
    }
    if key(s[0]) == id {
      assert !HasKey(t, key, id) by {
        forall x | x in t ensures key(x) != id {
          var j :| 0 <= j < |t| && t[j] == x;
          assert s[j + 1] == x;
        }
      }
    } else {
      FilterOutRemovesOne(t, key, id);
    }
  }

  /** Removal keeps ids unique. */
  lemma {:induction false} FilterOutKeepsUnique<T, K>(s: seq<T>, key: T -> K, id: K)
    requires Unique(s, key)
    ensures Unique(FilterOut(s, key, id), key)
  {
    if s != [] {
      var t := s[1..];
      assert Unique(t, key) by {
        forall i, j | 0 <= i < j < |t| ensures key(t[i]) != key(t[j]) {
          assert t[i] == s[i + 1] && t[j] == s[j + 1];
        }
      }
      FilterOutKeepsUnique(t, key, id);
      var rest := FilterOut(t, key, id);
      if key(s[0]) != id {
        forall x | x in rest ensures key(x) != key(s[0]) {
          var j :| 0 <= j < |t| && t[j] == x;
          assert s[j + 1] == x;
        }
        var r := [s[0]] + rest;
        forall i, j | 0 <= i < j < |r| ensures key(r[i]) != key(r[j]) {
          assert r[j] == rest[j - 1] && r[j] in rest;
          if 0 < i {
            assert r[i] == rest[i - 1];
          }
        }
      }
    }
  }

  /** Replacing the records with an id by a record with the same id keeps ids unique. */
  lemma ReplaceWhereKeepsUnique<T, K>(s: seq<T>, key: T -> K, id: K, y: T)
    requires Unique(s, key) && key(y) == id
    ensures Unique(ReplaceWhere(s, key, id, y), key)
  {
  }

  /** Appending a record whose id is not yet used keeps ids unique. */
  lemma AppendKeepsUnique<T, K>(s: seq<T>, key: T -> K, x: T)
    requires Unique(s, key) && !HasKey(s, key, key(x))
    ensures Unique(s + [x], key)
  {
  }

  /** With unique ids, replacing every record with an id (the client's `map`) is the
      same as overwriting the first record with that id in place (the server's update
      through `find`/`findIndex`). */
  lemma ReplaceWhereIsUpdateAtFirst<T, K>(s: seq<T>, key: T -> K, id: K, y: T)
    requires Unique(s, key) && HasKey(s, key, id)
    ensures ReplaceWhere(s, key, id, y) == s[FindIndex(s, key, id) := y]
  {
  }

  /** Deleting an id after replacing its records by a record with that id gives the
      same list as deleting it straight away. */
  lemma {:induction false} FilterOutAfterReplace<T, K>(s: seq<T>, key: T -> K, id: K, y: T)
    requires key(y) == id
    ensures FilterOut(ReplaceWhere(s, key, id, y), key, id) == FilterOut(s, key, id)
  {
    if s != [] {
      var r := ReplaceWhere(s, key, id, y);
      assert r[0] == (if key(s[0]) == id then y else s[0]);
      assert r[1..] == ReplaceWhere(s[1..], key, id, y);
      FilterOutAfterReplace(s[1..], key, id, y);
    }
  }
}
