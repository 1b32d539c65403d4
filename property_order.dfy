/** The order in which `Object.entries` lists the own string-keyed properties
    of an ordinary object (OrdinaryOwnPropertyKeys, section 10.1.11.1 of
    ECMAScript 2023): first every key that is an array index, in ascending
    numeric order; then every other string key, in the order it was created. */
module PropertyOrder {
  import opened Sequences

  predicate IsDigit(c: char) {
    '0' <= c <= '9'
  }

  /** The decimal value of a string of digits. */
  function DigitsValue(s: string): nat
    requires forall i :: 0 <= i < |s| ==> IsDigit(s[i])
  {
    if s == [] then 0
    else
      assert IsDigit(s[|s| - 1]);
      DigitsValue(s[..|s| - 1]) * 10 + (s[|s| - 1] as int - '0' as int)
  }

  /** The largest array index, 2^32 - 2. */
  const MaxArrayIndex: nat := 0xFFFF_FFFE

  /** A key is an array index when it is the canonical decimal form of an
      integer from 0 to 2^32 - 2: digits only, no leading zero. */
  predicate IsArrayIndex(k: string) {
    && |k| > 0
    && (forall i :: 0 <= i < |k| ==> IsDigit(k[i]))
    && (k[0] == '0' ==> |k| == 1)
    && DigitsValue(k) <= MaxArrayIndex
  }

  predicate IsNamedKey(k: string) {
    !IsArrayIndex(k)
  }

  /** The numeric position of an array-index key; -1 for any other key. */
  function IndexValue(k: string): int {
    if IsArrayIndex(k) then DigitsValue(k) else -1
  }

  predicate AscendingIndices(s: seq<string>) {
    forall i, j :: 0 <= i < j < |s| ==> IndexValue(s[i]) <= IndexValue(s[j])
  }

  /** Places `k` before the first key of `s` whose index is not smaller. */
  function InsertByIndex(k: string, s: seq<string>): (r: seq<string>)
    ensures multiset(r) == multiset(s) + multiset{k}
  {
    if s == [] || IndexValue(k) <= IndexValue(s[0]) then
      [k] + s
    else
      assert s == [s[0]] + s[1..];
      [s[0]] + InsertByIndex(k, s[1..])
  }

  /** What `InsertByIndex` returns, taken apart: the first key of `s`
      followed by the insertion into the rest. */
  lemma InsertByIndexMembers(k: string, s: seq<string>)
    requires s != [] && IndexValue(k) > IndexValue(s[0])
    ensures InsertByIndex(k, s) == [s[0]] + InsertByIndex(k, s[1..])
    ensures forall x :: x in InsertByIndex(k, s[1..]) ==> x == k || x in s[1..]
  {
    forall x | x in InsertByIndex(k, s[1..]) ensures x == k || x in s[1..] {
      assert x in multiset(InsertByIndex(k, s[1..]));
    }
  }

  /** Inserting into an ascending sequence keeps it ascending. */
  lemma {:induction false} InsertByIndexAscending(k: string, s: seq<string>)
    requires AscendingIndices(s)
    ensures AscendingIndices(InsertByIndex(k, s))
  {
    if s != [] && IndexValue(k) > IndexValue(s[0]) {
      var rest := InsertByIndex(k, s[1..]);
      InsertByIndexAscending(k, s[1..]);
      InsertByIndexMembers(k, s);
      var r := [s[0]] + rest;
      forall i, j | 0 <= i < j < |r| ensures IndexValue(r[i]) <= IndexValue(r[j]) {
        if i == 0 {
          assert r[j] in rest;
          if r[j] != k {
            var m :| 0 <= m < |s[1..]| && s[1..][m] == r[j];
            assert s[m + 1] == r[j];
          }
        } else {
          assert r[i] == rest[i - 1] && r[j] == rest[j - 1];
        }
      }
    }
  }

  /** Inserting a key that is not yet present into a sequence without
      repetitions adds none. */
  lemma {:induction false} InsertByIndexDistinct(k: string, s: seq<string>)
    requires Distinct(s) && k !in s
    ensures Distinct(InsertByIndex(k, s))
  {
    if s != [] && IndexValue(k) > IndexValue(s[0]) {
      var rest := InsertByIndex(k, s[1..]);
      InsertByIndexDistinct(k, s[1..]);
      InsertByIndexMembers(k, s);
      var r := [s[0]] + rest;
      forall i, j | 0 <= i < j < |r| ensures r[i] != r[j] {
        if i == 0 {
          assert r[j] in rest;
        } else {
          assert r[i] == rest[i - 1] && r[j] == rest[j - 1];
        }
      }
    }
  }

  /** Insertion sort of keys by numeric index. */
  function SortByIndex(s: seq<string>): (r: seq<string>)
    ensures multiset(r) == multiset(s)
  {
    if s == [] then []
    else
      assert s == [s[0]] + s[1..];
      InsertByIndex(s[0], SortByIndex(s[1..]))
  }

  /** The sort leaves the keys in ascending index order. */
  lemma {:induction false} SortByIndexAscending(s: seq<string>)
    ensures AscendingIndices(SortByIndex(s))
  {
    if s != [] {
      SortByIndexAscending(s[1..]);
      InsertByIndexAscending(s[0], SortByIndex(s[1..]));
    }
  }

  /** The sort repeats no key of a sequence without repetitions. */
  lemma {:induction false} SortByIndexDistinct(s: seq<string>)
    requires Distinct(s)
    ensures Distinct(SortByIndex(s))
  {
    if s != [] {
      var sorted := SortByIndex(s[1..]);
      SortByIndexDistinct(s[1..]);
      assert s[0] !in multiset(s[1..]);
      assert s[0] !in sorted;
      InsertByIndexDistinct(s[0], sorted);
    }
  }

  /** The order `Object.entries` reports `keys`, listed in creation order.
      Array-index keys come first, in ascending numeric order; the other keys
      follow, in creation order. Nothing is lost, added or repeated. */
  function OwnKeyOrder(keys: seq<string>): (r: seq<string>)
    ensures multiset(r) == multiset(keys)
    ensures Distinct(keys) ==> Distinct(r)
    ensures var n := |Filter(keys, IsArrayIndex)|;
      && n <= |r|
      && (forall i :: 0 <= i < n ==> IsArrayIndex(r[i]))
      && AscendingIndices(r[..n])
      && r[n..] == Filter(keys, IsNamedKey)
  {
    var indices := Filter(keys, IsArrayIndex);
    var named := Filter(keys, IsNamedKey);
    var sorted := SortByIndex(indices);
    FilterPartition(keys, IsArrayIndex, IsNamedKey);
    SortByIndexAscending(indices);
    assert Distinct(keys) ==> Distinct(sorted) && Distinct(named) by {
      if Distinct(keys) {
        FilterDistinct(keys, IsArrayIndex);
        FilterDistinct(keys, IsNamedKey);
        SortByIndexDistinct(indices);
      }
    }
    assert |sorted| == |indices| by {
      assert |multiset(sorted)| == |multiset(indices)|;
    }
    assert forall x :: x in sorted ==> IsArrayIndex(x) by {
      forall x | x in sorted ensures IsArrayIndex(x) {
        assert x in multiset(sorted);
      }
    }
    var r := sorted + named;
    assert Distinct(keys) ==> Distinct(r) by {
      if Distinct(keys) {
        forall i, j | 0 <= i < j < |r| ensures r[i] != r[j] {
          if j >= |sorted| && i < |sorted| {
            assert r[i] in sorted && r[j] in named;
          }
        }
      }
    }
    assert r[..|sorted|] == sorted;
    r
  }

  /** `OwnKeyOrder` element by element: the first keys are the array indices
      in ascending order, every key after them is not an array index. */
  lemma OwnKeyOrderSplit(keys: seq<string>)
    ensures forall i, j :: 0 <= i < j < |Filter(keys, IsArrayIndex)| ==>
      IndexValue(OwnKeyOrder(keys)[i]) <= IndexValue(OwnKeyOrder(keys)[j])
    ensures forall i :: |Filter(keys, IsArrayIndex)| <= i < |OwnKeyOrder(keys)| ==>
      !IsArrayIndex(OwnKeyOrder(keys)[i])
  {
    var r := OwnKeyOrder(keys);
    var n := |Filter(keys, IsArrayIndex)|;
    var named := Filter(keys, IsNamedKey);
    forall i, j | 0 <= i < j < n ensures IndexValue(r[i]) <= IndexValue(r[j]) {
      assert r[..n][i] == r[i] && r[..n][j] == r[j];
    }
    forall i | n <= i < |r| ensures !IsArrayIndex(r[i]) {
      assert r[i] == named[i - n];
      assert named[i - n] in named;
    }
  }

  /** The keys that are not array indices keep their relative order: any
      relation between earlier and later keys still holds among them. */
  lemma OwnKeyOrderKeepsNamedOrder(keys: seq<string>, before: (string, string) -> bool)
    requires forall i, j :: 0 <= i < j < |keys| ==> before(keys[i], keys[j])
    ensures forall i, j :: |Filter(keys, IsArrayIndex)| <= i < j < |OwnKeyOrder(keys)| ==>
      before(OwnKeyOrder(keys)[i], OwnKeyOrder(keys)[j])
  {
    var r := OwnKeyOrder(keys);
    var n := |Filter(keys, IsArrayIndex)|;
    var named := Filter(keys, IsNamedKey);
    FilterKeepsOrder(keys, IsNamedKey, before);
    forall i, j | n <= i < j < |r| ensures before(r[i], r[j]) {
      assert r[i] == named[i - n] && r[j] == named[j - n];
    }
  }

  /** When no key is an array index, `Object.entries` keeps creation order. */
  lemma NoIndexKeysKeepCreationOrder(keys: seq<string>)
    requires forall k :: k in keys ==> !IsArrayIndex(k)
    ensures OwnKeyOrder(keys) == keys
  {
    FilterKeepsAll(keys, IsNamedKey);
  }
}
