/**
  The record-store abstraction shared by the task manager and both user
  managers: an ordered list of records, each carrying a string identifier
  that a key function extracts. Identifiers are NOT assumed unique; every
  definition below states what happens when several records share one.
 */
module RecordStore {

  datatype Option<T> = None | Some(value: T)

  /** Some record of `s` carries identifier `id`. */
  ghost predicate HasId<R>(s: seq<R>, key: R -> string, id: string)
  {
    exists i :: 0 <= i < |s| && key(s[i]) == id
  }

  /** Position `i` holds the first record of `s` whose identifier is `id`. */
  ghost predicate FirstMatch<R>(s: seq<R>, key: R -> string, id: string, i: int)
  {
    0 <= i < |s| && key(s[i]) == id && forall j :: 0 <= j < i ==> key(s[j]) != id
  }

  /** No two records of `s` share an identifier. */
  ghost predicate UniqueIds<R>(s: seq<R>, key: R -> string)
  {
    forall i, j :: 0 <= i < j < |s| ==> key(s[i]) != key(s[j])
  }

  /** The index of the first record with identifier `id`, or `|s|` when there is none. */
  function FirstIndex<R>(s: seq<R>, key: R -> string, id: string): (i: nat)
    ensures i <= |s|
    ensures i < |s| ==> key(s[i]) == id
    ensures forall j :: 0 <= j < i ==> key(s[j]) != id
  {
    if s == [] then 0
    else if key(s[0]) == id then 0
    else 1 + FirstIndex(s[1..], key, id)
  }

  /** Lookup: the first record with identifier `id`, or `None`. */
  function Find<R>(s: seq<R>, key: R -> string, id: string): (r: Option<R>)
    ensures r.None? <==> !HasId(s, key, id)
    ensures r.Some? ==> exists i :: FirstMatch(s, key, id, i) && s[i] == r.value
  {
    var i := FirstIndex(s, key, id);
    if i < |s| then
      assert FirstMatch(s, key, id, i);
      Some(s[i])
    else
      None
  }

  /** The list with EVERY record whose identifier is `id` filtered out, in the original order. */
  function Without<R>(s: seq<R>, key: R -> string, id: string): (r: seq<R>)
    ensures |r| <= |s|
    ensures forall i :: 0 <= i < |r| ==> r[i] in s && key(r[i]) != id
    ensures forall i :: 0 <= i < |s| && key(s[i]) != id ==> s[i] in r
    ensures |r| < |s| <==> HasId(s, key, id)
    ensures !HasId(s, key, id) ==> r == s
    ensures !HasId(r, key, id)
  {
    if s == [] then []
    else
      var rest := Without(s[1..], key, id);
      assert HasId(s, key, id) <==> key(s[0]) == id || HasId(s[1..], key, id) by {
        if HasId(s[1..], key, id) {
          var i :| 0 <= i < |s[1..]| && key(s[1..][i]) == id;
          assert key(s[i + 1]) == id;
        }
        if HasId(s, key, id) && key(s[0]) != id {
          var i :| 0 <= i < |s| && key(s[i]) == id;
          assert key(s[1..][i - 1]) == id;
        }
      }
      assert s == [s[0]] + s[1..];
      if key(s[0]) == id then rest else [s[0]] + rest
  }

  /** Every record whose identifier is `id` replaced by `rec`; length and order kept. */
  function ReplaceAll<R>(s: seq<R>, key: R -> string, id: string, rec: R): (r: seq<R>)
    ensures |r| == |s|
    ensures forall i :: 0 <= i < |s| ==> r[i] == if key(s[i]) == id then rec else s[i]
  {
    if s == [] then []
    else [if key(s[0]) == id then rec else s[0]] + ReplaceAll(s[1..], key, id, rec)
  }

  /** Filtering distributes over concatenation: the kept records stay in their relative order. */
  lemma {:induction false} WithoutAppend<R>(a: seq<R>, b: seq<R>, key: R -> string, id: string)
    ensures Without(a + b, key, id) == Without(a, key, id) + Without(b, key, id)
  {
    if a == [] {
      assert a + b == b;
    } else {
      assert (a + b)[1..] == a[1..] + b;
      WithoutAppend(a[1..], b, key, id);
    }
  }

  /** Filtering keeps every copy of a record whose identifier differs: duplicates are not collapsed. */
  lemma {:induction false} WithoutKeepsCopies<R>(s: seq<R>, key: R -> string, id: string)
    ensures forall i :: 0 <= i < |s| && key(s[i]) != id ==> multiset(Without(s, key, id))[s[i]] == multiset(s)[s[i]]
  {
    if s != [] {
      var tail := s[1..];
      var rest := Without(tail, key, id);
      WithoutKeepsCopies(tail, key, id);
      assert s == [s[0]] + tail;
      forall i | 0 <= i < |s| && key(s[i]) != id
        ensures multiset(Without(s, key, id))[s[i]] == multiset(s)[s[i]]
      {
        var x := s[i];
        assert multiset(rest)[x] == multiset(tail)[x] by {
          if j :| 0 <= j < |tail| && tail[j] == x {
            assert key(tail[j]) != id;
          } else {
            assert x !in tail;
            assert x !in rest;
          }
        }
      }
    }
  }

  /** Filtering twice by the same identifier is filtering once. */
  lemma WithoutIdempotent<R>(s: seq<R>, key: R -> string, id: string)
    ensures Without(Without(s, key, id), key, id) == Without(s, key, id)
  {
  }

  /** Looking up the identifier of a record appended under a fresh identifier finds that record. */
  lemma {:induction false} FindAppendFresh<R>(s: seq<R>, key: R -> string, rec: R)
    requires !HasId(s, key, key(rec))
    ensures Find(s + [rec], key, key(rec)) == Some(rec)
  {
    var t := s + [rec];
    assert FirstMatch(t, key, key(rec), |s|) by {
      forall j | 0 <= j < |s| ensures key(t[j]) != key(rec) {
        assert t[j] == s[j];
      }
    }
  }

  /** Replacing by a record that carries the same identifier keeps the first match where it was. */
  lemma ReplaceAllKeepsFirstIndex<R>(s: seq<R>, key: R -> string, id: string, rec: R)
    requires key(rec) == id
    ensures FirstIndex(ReplaceAll(s, key, id, rec), key, id) == FirstIndex(s, key, id)
  {
  }

  /** A second replacement at the same identifier overrides the first one completely. */
  lemma ReplaceAllTwice<R>(s: seq<R>, key: R -> string, id: string, rec1: R, rec2: R)
    requires key(rec1) == id
    ensures ReplaceAll(ReplaceAll(s, key, id, rec1), key, id, rec2) == ReplaceAll(s, key, id, rec2)
  {
  }

  /** With a unique identifier, replacement is the update of one position. */
  lemma ReplaceAllUnique<R>(s: seq<R>, key: R -> string, id: string, rec: R, k: nat)
    requires FirstMatch(s, key, id, k)
    requires UniqueIds(s, key)
    ensures ReplaceAll(s, key, id, rec) == s[k := rec]
  {
    var r := ReplaceAll(s, key, id, rec);
    forall i | 0 <= i < |s| ensures r[i] == s[k := rec][i] {
      if i < k {
        assert key(s[i]) != key(s[k]);
      } else if k < i {
        assert key(s[k]) != key(s[i]);
      }
    }
  }

  /** Appending a record whose identifier is absent keeps identifiers unique. */
  lemma AppendKeepsUnique<R>(s: seq<R>, key: R -> string, rec: R)
    requires UniqueIds(s, key)
    requires !HasId(s, key, key(rec))
    ensures UniqueIds(s + [rec], key)
  {
    var t := s + [rec];
    forall i, j | 0 <= i < j < |t| ensures key(t[i]) != key(t[j]) {
      if j == |s| {
        assert t[i] == s[i];
      }
    }
  }

  /** Deleting keeps identifiers unique. */
  lemma {:induction false} WithoutKeepsUnique<R>(s: seq<R>, key: R -> string, id: string)
    requires UniqueIds(s, key)
    ensures UniqueIds(Without(s, key, id), key)
  {
    if s != [] {
      var t := s[1..];
      assert UniqueIds(t, key) by {
        forall i, j | 0 <= i < j < |t| ensures key(t[i]) != key(t[j]) {
          assert t[i] == s[i + 1] && t[j] == s[j + 1];
        }
      }
      WithoutKeepsUnique(t, key, id);
      if key(s[0]) != id {
        FirstKeyFresh(s, key, id);
      }
    }
  }

  /** Step of WithoutKeepsUnique: the head's identifier does not reappear after filtering the tail. */
  lemma FirstKeyFresh<R>(s: seq<R>, key: R -> string, id: string)
    requires s != [] && UniqueIds(s, key) && UniqueIds(Without(s[1..], key, id), key)
    requires key(s[0]) != id
    ensures UniqueIds(Without(s, key, id), key)
  {
  }

  /** Replacing by a record with the same identifier keeps identifiers unique. */
  lemma ReplaceAllKeepsUnique<R>(s: seq<R>, key: R -> string, id: string, rec: R)
    requires UniqueIds(s, key)
    requires key(rec) == id
    ensures UniqueIds(ReplaceAll(s, key, id, rec), key)
  {
    var r := ReplaceAll(s, key, id, rec);
    forall i, j | 0 <= i < j < |r| ensures key(r[i]) != key(r[j]) {
      assert key(s[i]) != key(s[j]);
    }
  }
}
