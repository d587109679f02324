/**
 * The order in which `Object.entries` lists the own string keys of an
 * ordinary object, following OrdinaryOwnPropertyKeys (section 10.1.11.1 of
 * ECMA-262): first every array-index key in ascending numeric order, then
 * every other string key in the order the properties were created.
 */
module PropertyKeys {

  /** The largest array index, 2^32 - 2. */
  const MaxArrayIndex: nat := 4294967294

  predicate IsDigit(c: char)
  {
    '0' <= c <= '9'
  }

  predicate AllDigits(s: string)
  {
    forall i | 0 <= i < |s| :: IsDigit(s[i])
  }

  /** The value of a string of decimal digits. */
  function DigitsValue(s: string): (v: nat)
    requires AllDigits(s)
  {
    if |s| == 0 then 0
    else 10 * DigitsValue(s[..|s| - 1]) + ((s[|s| - 1] as int) - ('0' as int))
  }

  function Pow10(n: nat): (p: nat)
  {
    if n == 0 then 1 else 10 * Pow10(n - 1)
  }

  /**
   * An array index: a canonical decimal numeral (no sign, no leading zero
   * other than "0" itself) whose value is below 2^32 - 1.
   */
  predicate IsArrayIndex(k: string)
  {
    && |k| > 0
    && AllDigits(k)
    && (k[0] == '0' ==> |k| == 1)
    && DigitsValue(k) <= MaxArrayIndex
  }

  /** The numeric value of a key that is an array index (0 for any other key). */
  function IndexValue(k: string): (v: nat)
  {
    if AllDigits(k) then DigitsValue(k) else 0
  }

  /** No key occurs twice. */
  predicate Distinct(s: seq<string>)
  {
    forall i, j | 0 <= i < j < |s| :: s[i] != s[j]
  }

  /** Keys in strictly ascending numeric order. */
  predicate Ascending(s: seq<string>)
  {
    forall i, j | 0 <= i < j < |s| :: IndexValue(s[i]) < IndexValue(s[j])
  }

  lemma {:induction false} Pow10Grows(m: nat, n: nat)
    requires m <= n
    ensures Pow10(m) <= Pow10(n)
  {
    if m < n {
      Pow10Grows(m, n - 1);
    }
  }

  /** `|s|` digits stay below 10^|s|. */
  lemma {:induction false} DigitsValueBelow(s: string)
    requires AllDigits(s)
    ensures DigitsValue(s) < Pow10(|s|)
  {
    if |s| > 0 {
      DigitsValueBelow(s[..|s| - 1]);
    }
  }

  /** Without a leading zero, `|s|` digits reach at least 10^(|s| - 1). */
  lemma {:induction false} DigitsValueAtLeast(s: string)
    requires AllDigits(s) && |s| > 0 && s[0] != '0'
    ensures Pow10(|s| - 1) <= DigitsValue(s)
  {
    if |s| > 1 {
      var p := s[..|s| - 1];
      assert p[0] == s[0];
      DigitsValueAtLeast(p);
    }
  }

  /** Digit strings of the same length with the same value are the same string. */
  lemma {:induction false} SameLengthDigitsInjective(s: string, t: string)
    requires AllDigits(s) && AllDigits(t) && |s| == |t|
    requires DigitsValue(s) == DigitsValue(t)
    ensures s == t
  {
    if |s| > 0 {
      var p, q := s[..|s| - 1], t[..|t| - 1];
      assert DigitsValue(p) == DigitsValue(q);
      SameLengthDigitsInjective(p, q);
      assert s == p + [s[|s| - 1]] && t == q + [t[|t| - 1]];
    }
  }

  /** Distinct array-index keys have distinct values. */
  lemma {:induction false} IndexValueInjective(s: string, t: string)
    requires IsArrayIndex(s) && IsArrayIndex(t)
    requires IndexValue(s) == IndexValue(t)
    ensures s == t
  {
    if |s| < |t| {
      DigitsValueBelow(s);
      DigitsValueAtLeast(t);
      Pow10Grows(|s|, |t| - 1);
    } else if |t| < |s| {
      DigitsValueBelow(t);
      DigitsValueAtLeast(s);
      Pow10Grows(|t|, |s| - 1);
    } else {
      SameLengthDigitsInjective(s, t);
    }
  }

  /** The keys of `s` that are array indices (`indices`) or that are not (`!indices`), in their order in `s`. */
  function Filter(s: seq<string>, indices: bool): (kept: seq<string>)
  {
    if s == [] then []
    else Filter(s[..|s| - 1], indices) + (if IsArrayIndex(s[|s| - 1]) == indices then [s[|s| - 1]] else [])
  }

  /** Filter keeps exactly the keys of the requested kind, each once when `s` has no repeats. */
  lemma {:induction false} FilterContents(s: seq<string>, indices: bool)
    ensures forall k :: k in Filter(s, indices) <==> k in s && IsArrayIndex(k) == indices
    ensures Distinct(s) ==> Distinct(Filter(s, indices))
  {
    if s != [] {
      var p := s[..|s| - 1];
      FilterContents(p, indices);
      assert forall k :: k in s <==> k in p || k == s[|s| - 1];
    }
  }

  /** `x` occurs in `s` before `y`. */
  predicate Before(s: seq<string>, x: string, y: string)
  {
    exists p, q | 0 <= p < q < |s| :: s[p] == x && s[q] == y
  }

  /** Filter keeps the relative order of the keys it keeps. */
  lemma {:induction false} FilterKeepsOrder(s: seq<string>, indices: bool)
    ensures forall i, j | 0 <= i < j < |Filter(s, indices)| :: Before(s, Filter(s, indices)[i], Filter(s, indices)[j])
  {
    if s != [] {
      var p := s[..|s| - 1];
      var f, g := Filter(s, indices), Filter(p, indices);
      FilterKeepsOrder(p, indices);
      FilterContents(p, indices);
      forall i, j | 0 <= i < j < |f|
        ensures Before(s, f[i], f[j])
      {
        assert f[i] == g[i];
        if j < |g| {
          assert f[j] == g[j];
          assert Before(p, g[i], g[j]);
          var a, b :| 0 <= a < b < |p| && p[a] == g[i] && p[b] == g[j];
          assert s[a] == f[i] && s[b] == f[j];
        } else {
          assert g[i] in p;
          var a :| 0 <= a < |p| && p[a] == g[i];
          assert s[a] == f[i] && s[|s| - 1] == f[j];
        }
      }
    }
  }

  /** Inserts array-index key `k` into an ascending list of array-index keys. */
  function Insert(k: string, sorted: seq<string>): (inserted: seq<string>)
  {
    if sorted == [] then [k]
    else if IndexValue(k) <= IndexValue(sorted[0]) then [k] + sorted
    else [sorted[0]] + Insert(k, sorted[1..])
  }

  /** The array-index keys of `keys` in ascending numeric order. */
  function SortIndices(keys: seq<string>): (sorted: seq<string>)
  {
    if keys == [] then []
    else Insert(keys[0], SortIndices(keys[1..]))
  }

  lemma {:induction false} InsertContents(k: string, sorted: seq<string>)
    ensures |Insert(k, sorted)| == |sorted| + 1
    ensures forall x :: x in Insert(k, sorted) <==> x == k || x in sorted
  {
    if sorted != [] && IndexValue(k) > IndexValue(sorted[0]) {
      InsertContents(k, sorted[1..]);
      assert forall x :: x in sorted <==> x == sorted[0] || x in sorted[1..];
    }
  }

  /** A key below every key of an ascending list can be put in front of it. */
  lemma {:induction false} ConsAscending(x: string, s: seq<string>)
    requires Ascending(s)
    requires forall y | y in s :: IndexValue(x) < IndexValue(y)
    ensures Ascending([x] + s)
  {
    var r := [x] + s;
    forall i, j | 0 <= i < j < |r|
      ensures IndexValue(r[i]) < IndexValue(r[j])
    {
      assert r[j] == s[j - 1];
      if i > 0 {
        assert r[i] == s[i - 1];
      }
    }
  }

  /** Inserting a new array-index key into an ascending list of distinct array-index keys keeps all three properties. */
  lemma {:induction false} InsertKeepsAscending(k: string, sorted: seq<string>)
    requires IsArrayIndex(k) && forall x | x in sorted :: IsArrayIndex(x)
    requires Ascending(sorted) && k !in sorted
    ensures Ascending(Insert(k, sorted))
  {
    if sorted != [] {
      var rest := sorted[1..];
      assert Ascending(rest) by {
        forall i, j | 0 <= i < j < |rest| ensures IndexValue(rest[i]) < IndexValue(rest[j]) {
          assert rest[i] == sorted[i + 1] && rest[j] == sorted[j + 1];
        }
      }
      assert forall y | y in rest :: IndexValue(sorted[0]) < IndexValue(y);
      if IndexValue(k) <= IndexValue(sorted[0]) {
        if IndexValue(k) == IndexValue(sorted[0]) {
          IndexValueInjective(k, sorted[0]);
        }
        ConsAscending(k, sorted);
      } else {
        InsertKeepsAscending(k, rest);
        InsertContents(k, rest);
        ConsAscending(sorted[0], Insert(k, rest));
      }
    }
  }

  /** SortIndices of distinct array-index keys: the same keys, each once, strictly ascending. */
  lemma {:induction false} SortIndicesSorts(keys: seq<string>)
    requires forall x | x in keys :: IsArrayIndex(x)
    requires Distinct(keys)
    ensures var r := SortIndices(keys);
      |r| == |keys| && (forall x :: x in r <==> x in keys) && Distinct(r) && Ascending(r)
  {
    if keys != [] {
      var rest := keys[1..];
      assert forall x :: x in keys <==> x == keys[0] || x in rest;
      assert keys[0] !in rest;
      SortIndicesSorts(rest);
      InsertContents(keys[0], SortIndices(rest));
      InsertKeepsAscending(keys[0], SortIndices(rest));
      AscendingIsDistinct(SortIndices(keys));
    }
  }

  /** Strictly ascending keys are distinct. */
  lemma {:induction false} AscendingIsDistinct(s: seq<string>)
    requires Ascending(s)
    ensures Distinct(s)
  {
  }

  /**
   * The order of OrdinaryOwnPropertyKeys for string keys, given the keys
   * in the order their properties were created.
   */
  function OwnPropertyKeys(created: seq<string>): (keys: seq<string>)
  {
    SortIndices(Filter(created, true)) + Filter(created, false)
  }

  /** OwnPropertyKeys lists every created key exactly once and nothing else. */
  lemma {:induction false} OwnPropertyKeysContents(created: seq<string>)
    requires Distinct(created)
    ensures var keys := OwnPropertyKeys(created);
      |keys| == |created| && Distinct(keys) && forall k :: k in keys <==> k in created
  {
    var indices, others := Filter(created, true), Filter(created, false);
    FilterContents(created, true);
    FilterContents(created, false);
    SortIndicesSorts(indices);
    FilterSplitsLength(created);
    var keys := OwnPropertyKeys(created);
    forall i, j | 0 <= i < j < |keys|
      ensures keys[i] != keys[j]
    {
      var sorted := SortIndices(indices);
      if i < |sorted| <= j {
        assert keys[i] in sorted && keys[j] in others;
      } else if j < |sorted| {
        assert keys[i] == sorted[i] && keys[j] == sorted[j];
      } else {
        assert keys[i] == others[i - |sorted|] && keys[j] == others[j - |sorted|];
      }
    }
  }

  /** Every key lands in exactly one of the two filters. */
  lemma {:induction false} FilterSplitsLength(s: seq<string>)
    ensures |Filter(s, true)| + |Filter(s, false)| == |s|
  {
    if s != [] {
      FilterSplitsLength(s[..|s| - 1]);
    }
  }

  /** OwnPropertyKeys starts with the array-index keys, in strictly ascending numeric order. */
  lemma {:induction false} OwnPropertyKeysIndicesFirst(created: seq<string>)
    requires Distinct(created)
    ensures var keys, m := OwnPropertyKeys(created), |Filter(created, true)|;
      && m <= |keys|
      && (forall i | 0 <= i < m :: IsArrayIndex(keys[i]))
      && (forall i, j | 0 <= i < j < m :: IndexValue(keys[i]) < IndexValue(keys[j]))
  {
    var indices := Filter(created, true);
    FilterContents(created, true);
    SortIndicesSorts(indices);
    var keys, sorted := OwnPropertyKeys(created), SortIndices(indices);
    forall i | 0 <= i < |sorted|
      ensures IsArrayIndex(keys[i])
    {
      assert keys[i] == sorted[i] && sorted[i] in sorted;
    }
    forall i, j | 0 <= i < j < |sorted|
      ensures IndexValue(keys[i]) < IndexValue(keys[j])
    {
      assert keys[i] == sorted[i] && keys[j] == sorted[j];
    }
  }

  /** After the array-index keys, OwnPropertyKeys lists the other keys in the order they were created. */
  lemma {:induction false} OwnPropertyKeysOthersInOrder(created: seq<string>)
    ensures var keys, m := OwnPropertyKeys(created), |Filter(created, true)|;
      && m <= |keys|
      && (forall i | m <= i < |keys| :: !IsArrayIndex(keys[i]))
      && (forall i, j | m <= i < j < |keys| :: Before(created, keys[i], keys[j]))
  {
    var indices, others := Filter(created, true), Filter(created, false);
    FilterContents(created, false);
    FilterKeepsOrder(created, false);
    SortIndicesLength(indices);
    var keys, m := OwnPropertyKeys(created), |indices|;
    forall i | m <= i < |keys|
      ensures !IsArrayIndex(keys[i])
    {
      assert keys[i] == others[i - m] && others[i - m] in others;
    }
    forall i, j | m <= i < j < |keys|
      ensures Before(created, keys[i], keys[j])
    {
      assert keys[i] == others[i - m] && keys[j] == others[j - m];
    }
  }

  /** Sorting keeps the number of keys. */
  lemma {:induction false} SortIndicesLength(keys: seq<string>)
    ensures |SortIndices(keys)| == |keys|
  {
    if keys != [] {
      SortIndicesLength(keys[1..]);
      InsertContents(keys[0], SortIndices(keys[1..]));
    }
  }

  /** When every created key is an array index, OwnPropertyKeys is strictly ascending by value. */
  lemma {:induction false} OnlyIndexKeysAscend(created: seq<string>)
    requires Distinct(created)
    requires forall k | k in created :: IsArrayIndex(k)
    ensures Ascending(OwnPropertyKeys(created))
  {
    FilterContents(created, true);
    FilterContents(created, false);
    SortIndicesSorts(Filter(created, true));
    if Filter(created, false) != [] {
      assert Filter(created, false)[0] in Filter(created, false);
      assert false;
    }
    assert OwnPropertyKeys(created) == SortIndices(Filter(created, true));
  }
}
