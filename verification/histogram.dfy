/**
 * deathsByField from the histogram exercise: it tallies the deaths of the
 * witch-trial records into a `freqs` object keyed by a field's value, then
 * drains `Object.entries(freqs)` from the end into a list of
 * `{year, deaths}` objects.
 */
module Histogram {
  import opened Js
  import opened PropertyKeys

  /**
   * The `freqs` object: the value of each own property, and the keys in
   * the order their properties were created.
   */
  datatype Freqs = Freqs(values: map<string, JsNumber>, created: seq<string>)

  /** Every property was created once, and the creation list names exactly the properties. */
  ghost predicate Valid(f: Freqs)
  {
    Distinct(f.created) && forall k :: k in f.values <==> k in f.created
  }

  /** `freqs[key]`; None stands for `undefined`. */
  function Lookup(f: Freqs, key: string): (v: Option<JsNumber>)
    ensures v.Some? <==> key in f.values
  {
    if key in f.values then Some(f.values[key]) else None
  }

  /** `freqs[key] = v`: a new key is created at the end of the creation order, an existing one keeps its place. */
  function Assign(f: Freqs, key: string, v: JsNumber): (g: Freqs)
  {
    Freqs(f.values[key := v], if key in f.values then f.created else f.created + [key])
  }

  /** An assignment keeps every property created once and listed in the creation order. */
  lemma {:induction false} AssignValid(f: Freqs, key: string, v: JsNumber)
    requires Valid(f)
    ensures Valid(Assign(f, key, v))
  {
  }

  /** `Number(record?.deaths) || 0`: NaN, a missing column and 0 all give 0. */
  function Deaths(num: NumberParse, record: Row): (d: int)
    ensures NumberAt(num, record, "deaths").Some? ==> d == NumberAt(num, record, "deaths").value
    ensures NumberAt(num, record, "deaths").None? ==> d == 0
  {
    match NumberAt(num, record, "deaths")
    case Some(n) => n
    case None => 0
  }

  /** `freqs[field] += deaths`: `undefined + deaths` is NaN, and NaN stays NaN. */
  function AddDeaths(current: Option<JsNumber>, deaths: int): (r: JsNumber)
    ensures r.Finite? <==> current.Some? && current.value.Finite?
    ensures r.Finite? ==> r.n == current.value.n + deaths
    ensures current.None? || current == Some(NaN) ==> r == NaN
    ensures current == Some(Infinity) ==> r == Infinity
  {
    match current
    case Some(v) => Add(v, Finite(deaths))
    case None => NaN
  }

  /** The key a record's field value turns into: `record[field]`, or "undefined" when the field is missing. */
  function FieldKey(record: Row, field: string): (k: string)
  {
    ToKey(Get(record, field))
  }

  /**
   * One call of the forEach callback. The test looks up `record[record[field]]`
   * and asks whether THAT value names a property of `freqs`; if it does,
   * the deaths are added to `freqs[field]`, the field name itself, and
   * otherwise they overwrite `freqs[record[field]]`.
   */
  function TallyRecord(num: NumberParse, f: Freqs, record: Row, field: string): (g: Freqs)
  {
    var key := ToKey(Get(record, field));
    if ToKey(Get(record, key)) in f.values then
      Assign(f, field, AddDeaths(Lookup(f, field), Deaths(num, record)))
    else
      Assign(f, key, Finite(Deaths(num, record)))
  }

  /** `freqs` after the callback has run on the first `n` records. */
  function Tally(num: NumberParse, data: seq<Row>, n: nat, field: string): (f: Freqs)
    requires n <= |data|
  {
    if n == 0 then Freqs(map[], [])
    else TallyRecord(num, Tally(num, data, n - 1, field), data[n - 1], field)
  }

  /** Every prefix of the tally keeps each property created once and listed in the creation order. */
  lemma {:induction false} TallyValid(num: NumberParse, data: seq<Row>, n: nat, field: string)
    requires n <= |data|
    ensures Valid(Tally(num, data, n, field))
  {
    if n > 0 {
      TallyValid(num, data, n - 1, field);
      var f, record := Tally(num, data, n - 1, field), data[n - 1];
      var key := ToKey(Get(record, field));
      if ToKey(Get(record, key)) in f.values {
        AssignValid(f, field, AddDeaths(Lookup(f, field), Deaths(num, record)));
      } else {
        AssignValid(f, key, Finite(Deaths(num, record)));
      }
    }
  }

  /** `Object.entries(freqs)`: [key, value] pairs in OrdinaryOwnPropertyKeys order. */
  function Entries(f: Freqs): (entries: seq<(string, JsNumber)>)
    requires Valid(f)
    ensures |entries| == |f.created|
  {
    OwnPropertyKeysContents(f.created);
    var keys := OwnPropertyKeys(f.created);
    seq(|keys|, i requires 0 <= i < |keys| => (keys[i], f.values[keys[i]]))
  }

  /** One element of the output. */
  datatype DeathCount = DeathCount(year: string, deaths: JsNumber)

  /** The output built by popping every entry from the end of `entries`. */
  function Drained(entries: seq<(string, JsNumber)>): (out: seq<DeathCount>)
    ensures |out| == |entries|
  {
    if entries == [] then []
    else
      var last := entries[|entries| - 1];
      [DeathCount(last.0, last.1)] + Drained(entries[..|entries| - 1])
  }

  /** What deathsByField returns for `data` and `field`. */
  function DeathCounts(num: NumberParse, data: seq<Row>, field: string): (out: seq<DeathCount>)
  {
    TallyValid(num, data, |data|, field);
    Drained(Entries(Tally(num, data, |data|, field)))
  }

  /** Draining reverses: the i-th output element is the i-th entry from the end. */
  lemma {:induction false} DrainedReverses(entries: seq<(string, JsNumber)>)
    ensures forall i | 0 <= i < |entries| ::
      Drained(entries)[i] == DeathCount(entries[|entries| - 1 - i].0, entries[|entries| - 1 - i].1)
  {
    if entries != [] {
      var prev := entries[..|entries| - 1];
      DrainedReverses(prev);
      var out := Drained(entries);
      forall i | 0 < i < |out|
        ensures out[i] == DeathCount(entries[|entries| - 1 - i].0, entries[|entries| - 1 - i].1)
      {
        assert out[i] == Drained(prev)[i - 1];
        assert prev[|prev| - 1 - (i - 1)] == entries[|entries| - 1 - i];
      }
    }
  }

  /** The output years are the keys of `freqs` in reverse OwnPropertyKeys order, each with its value. */
  lemma {:induction false} DrainedEntries(f: Freqs)
    requires Valid(f)
    ensures var out, keys := Drained(Entries(f)), OwnPropertyKeys(f.created);
      && |out| == |keys|
      && forall i | 0 <= i < |out| :: out[i].year == keys[|keys| - 1 - i] && out[i].year in f.values && out[i].deaths == f.values[out[i].year]
  {
    OwnPropertyKeysContents(f.created);
    DrainedReverses(Entries(f));
  }

  /** Draining the entries of `f` gives one element per property of `f`, each year once, with its value. */
  lemma {:induction false} DrainedPerKey(f: Freqs)
    requires Valid(f)
    ensures var out := Drained(Entries(f));
      && |out| == |f.values|
      && (forall i, j | 0 <= i < j < |out| :: out[i].year != out[j].year)
      && (forall i | 0 <= i < |out| :: out[i].year in f.values && out[i].deaths == f.values[out[i].year])
  {
    OwnPropertyKeysContents(f.created);
    DrainedEntries(f);
    DistinctKeysCount(f);
  }

  /** Every property of `f` appears in the drained output. */
  lemma {:induction false} DrainedCoversKeys(f: Freqs)
    requires Valid(f)
    ensures var out := Drained(Entries(f));
      forall k | k in f.values :: exists i | 0 <= i < |out| :: out[i].year == k
  {
    var entries, keys := Entries(f), OwnPropertyKeys(f.created);
    var out := Drained(entries);
    OwnPropertyKeysContents(f.created);
    DrainedKeepsKeys(entries);
    forall k | k in f.values
      ensures exists i | 0 <= i < |out| :: out[i].year == k
    {
      assert k in keys;
      var p :| 0 <= p < |keys| && keys[p] == k;
      assert entries[p].0 == k;
    }
  }

  /** Every entry's key comes out of the drain, at the mirrored position. */
  lemma {:induction false} DrainedKeepsKeys(entries: seq<(string, JsNumber)>)
    ensures var out := Drained(entries);
      forall p | 0 <= p < |entries| :: out[|entries| - 1 - p].year == entries[p].0
  {
    DrainedReverses(entries);
    forall p | 0 <= p < |entries| ensures Drained(entries)[|entries| - 1 - p].year == entries[p].0 {
      var i := |entries| - 1 - p;
      assert Drained(entries)[i] == DeathCount(entries[|entries| - 1 - i].0, entries[|entries| - 1 - i].1);
    }
  }

  /** The output holds each key of `freqs` exactly once, with the value `freqs` holds for it. */
  lemma {:induction false} DeathCountsPerKey(num: NumberParse, data: seq<Row>, field: string)
    ensures var out, f := DeathCounts(num, data, field), Tally(num, data, |data|, field);
      && |out| == |f.values|
      && (forall i, j | 0 <= i < j < |out| :: out[i].year != out[j].year)
      && (forall i | 0 <= i < |out| :: out[i].year in f.values && out[i].deaths == f.values[out[i].year])
      && (forall k | k in f.values :: exists i | 0 <= i < |out| :: out[i].year == k)
  {
    TallyValid(num, data, |data|, field);
    DrainedPerKey(Tally(num, data, |data|, field));
    DrainedCoversKeys(Tally(num, data, |data|, field));
  }

  /** A valid `freqs` has as many properties as created keys. */
  lemma {:induction false} DistinctKeysCount(f: Freqs)
    requires Valid(f)
    ensures |f.values| == |f.created|
  {
    DistinctSeqCardinality(f.created);
    assert f.values.Keys == set k | k in f.created;
  }

  /** A sequence without repeats has as many distinct elements as it is long. */
  lemma {:induction false} DistinctSeqCardinality(s: seq<string>)
    requires Distinct(s)
    ensures |set k | k in s| == |s|
  {
    if s != [] {
      var p := s[..|s| - 1];
      DistinctSeqCardinality(p);
      assert (set k | k in s) == (set k | k in p) + {s[|s| - 1]};
      assert s[|s| - 1] !in p;
    }
  }

  /** The output lists the keys in the reverse of OrdinaryOwnPropertyKeys order. */
  lemma {:induction false} DeathCountsReverseOrder(num: NumberParse, data: seq<Row>, field: string)
    ensures var out, keys := DeathCounts(num, data, field), OwnPropertyKeys(Tally(num, data, |data|, field).created);
      |out| == |keys| && forall i | 0 <= i < |out| :: out[i].year == keys[|keys| - 1 - i]
  {
    var f := Tally(num, data, |data|, field);
    TallyValid(num, data, |data|, field);
    assert DeathCounts(num, data, field) == Drained(Entries(f));
    DrainedEntries(f);
  }

  /** When every key of `freqs` is an array index (decades such as "1520"), the years come out in strictly descending numeric order. */
  lemma {:induction false} IndexKeysDescend(num: NumberParse, data: seq<Row>, field: string)
    requires forall k | k in Tally(num, data, |data|, field).values :: IsArrayIndex(k)
    ensures var out := DeathCounts(num, data, field);
      forall i, j | 0 <= i < j < |out| :: IndexValue(out[j].year) < IndexValue(out[i].year)
  {
    var f := Tally(num, data, |data|, field);
    TallyValid(num, data, |data|, field);
    OnlyIndexKeysAscend(f.created);
    DrainedEntries(f);
  }

  /** Empty input gives empty output. */
  lemma {:induction false} EmptyInputEmptyOutput(num: NumberParse, field: string)
    ensures DeathCounts(num, [], field) == []
  {
    TallyValid(num, [], 0, field);
    assert Tally(num, [], 0, field).created == [];
    assert Entries(Tally(num, [], 0, field)) == [];
  }

  /** One callback removes no property and only appends to the creation order. */
  lemma {:induction false} TallyRecordGrows(num: NumberParse, f: Freqs, record: Row, field: string)
    ensures var g := TallyRecord(num, f, record, field);
      f.values.Keys <= g.values.Keys && f.created <= g.created
  {
  }

  /** Properties of `freqs` are never removed, and keys keep their creation order. */
  lemma {:induction false} KeysOnlyGrow(num: NumberParse, data: seq<Row>, n: nat, m: nat, field: string)
    requires n <= m <= |data|
    ensures Tally(num, data, n, field).values.Keys <= Tally(num, data, m, field).values.Keys
    ensures Tally(num, data, n, field).created <= Tally(num, data, m, field).created
  {
    if n < m {
      KeysOnlyGrow(num, data, n, m - 1, field);
      var f := Tally(num, data, m - 1, field);
      TallyRecordGrows(num, f, data[m - 1], field);
      assert Tally(num, data, m, field) == TallyRecord(num, f, data[m - 1], field);
    }
  }

  /**
   * An ordinary record: the field's value is not itself a column of the
   * record (so `record[record[field]]` is undefined), and it is not the
   * key "undefined".
   */
  predicate Ordinary(record: Row, field: string)
  {
    FieldKey(record, field) !in record && FieldKey(record, field) != "undefined"
  }

  /** While "undefined" is not a key, an ordinary record overwrites the property named by its field value. */
  lemma {:induction false} OrdinaryRecordOverwrites(num: NumberParse, f: Freqs, record: Row, field: string)
    requires Ordinary(record, field) && "undefined" !in f.values
    ensures TallyRecord(num, f, record, field) == Assign(f, FieldKey(record, field), Finite(Deaths(num, record)))
  {
  }

  /** The keys the field values of the first `n` records turn into. */
  function FieldKeys(data: seq<Row>, n: nat, field: string): (keys: set<string>)
    requires n <= |data|
  {
    if n == 0 then {} else FieldKeys(data, n - 1, field) + {FieldKey(data[n - 1], field)}
  }

  /** FieldKeys holds exactly the keys of records that occur. */
  lemma {:induction false} FieldKeysOccur(data: seq<Row>, n: nat, field: string)
    requires n <= |data|
    ensures forall k :: k in FieldKeys(data, n, field) <==> exists i | 0 <= i < n :: FieldKey(data[i], field) == k
  {
    if n > 0 {
      FieldKeysOccur(data, n - 1, field);
      forall k | k in FieldKeys(data, n, field)
        ensures exists i | 0 <= i < n :: FieldKey(data[i], field) == k
      {
        if k != FieldKey(data[n - 1], field) {
          assert k in FieldKeys(data, n - 1, field);
          var i :| 0 <= i < n - 1 && FieldKey(data[i], field) == k;
        }
      }
    }
  }

  /** Over ordinary records, the keys of `freqs` are exactly the field values that occur; "undefined" never appears. */
  lemma {:induction false} OrdinaryRecordsKeys(num: NumberParse, data: seq<Row>, n: nat, field: string)
    requires n <= |data|
    requires forall i | 0 <= i < n :: Ordinary(data[i], field)
    ensures Tally(num, data, n, field).values.Keys == FieldKeys(data, n, field)
    ensures "undefined" !in Tally(num, data, n, field).values
  {
    if n > 0 {
      OrdinaryRecordsKeys(num, data, n - 1, field);
      OrdinaryRecordOverwrites(num, Tally(num, data, n - 1, field), data[n - 1], field);
    }
  }

  /**
   * Over ordinary records the tally is last-write-wins: when no later
   * record among the first `n` shares record `i`'s field value, record `i`
   * decides the value of that key, whatever the earlier records with the
   * same value held.
   */
  lemma {:induction false} OrdinaryRecordsLastWriteWins(num: NumberParse, data: seq<Row>, n: nat, i: nat, field: string)
    requires i < n <= |data|
    requires forall k | 0 <= k < n :: Ordinary(data[k], field)
    requires forall j | i < j < n :: FieldKey(data[j], field) != FieldKey(data[i], field)
    ensures var f := Tally(num, data, n, field);
      FieldKey(data[i], field) in f.values && f.values[FieldKey(data[i], field)] == Finite(Deaths(num, data[i]))
  {
    OrdinaryRecordsKeys(num, data, n - 1, field);
    OrdinaryRecordOverwrites(num, Tally(num, data, n - 1, field), data[n - 1], field);
    if i < n - 1 {
      OrdinaryRecordsLastWriteWins(num, data, n - 1, i, field);
    }
  }

  /** The position of the first of the first `n` records whose field value turns into `k`, or `n` when there is none. */
  function FirstOccurrence(data: seq<Row>, n: nat, field: string, k: string): (i: nat)
    requires n <= |data|
    ensures i <= n
    ensures i < n ==> FieldKey(data[i], field) == k
  {
    if n == 0 then 0
    else if FirstOccurrence(data, n - 1, field, k) < n - 1 then FirstOccurrence(data, n - 1, field, k)
    else if FieldKey(data[n - 1], field) == k then n - 1
    else n
  }

  /** No record before FirstOccurrence has a field value turning into `k`. */
  lemma {:induction false} FirstOccurrenceIsFirst(data: seq<Row>, n: nat, field: string, k: string)
    requires n <= |data|
    ensures forall j | 0 <= j < FirstOccurrence(data, n, field, k) :: FieldKey(data[j], field) != k
  {
    if n > 0 {
      FirstOccurrenceIsFirst(data, n - 1, field, k);
    }
  }

  /**
   * `c` lists keys of the first `n` records in the order their field
   * values first occur: every key occurs, and a key listed earlier first
   * occurs earlier.
   */
  predicate InFirstOccurrenceOrder(data: seq<Row>, n: nat, field: string, c: seq<string>)
    requires n <= |data|
  {
    && (forall p | 0 <= p < |c| :: FirstOccurrence(data, n, field, c[p]) < n)
    && (forall p, q | 0 <= p < q < |c| :: FirstOccurrence(data, n, field, c[p]) < FirstOccurrence(data, n, field, c[q]))
  }

  /** One more record keeps the order, and a key it sees for the first time goes at the end. */
  lemma {:induction false} FirstOccurrenceOrderStep(data: seq<Row>, n: nat, field: string, c: seq<string>)
    requires 0 < n <= |data| && InFirstOccurrenceOrder(data, n - 1, field, c)
    requires FieldKey(data[n - 1], field) !in c ==> FirstOccurrence(data, n - 1, field, FieldKey(data[n - 1], field)) == n - 1
    ensures var key := FieldKey(data[n - 1], field);
      InFirstOccurrenceOrder(data, n, field, if key in c then c else c + [key])
  {
    forall p | 0 <= p < |c|
      ensures FirstOccurrence(data, n, field, c[p]) == FirstOccurrence(data, n - 1, field, c[p])
    {
    }
  }

  /** While "undefined" is not a key, an ordinary record appends its key to the creation order when the key is new. */
  lemma {:induction false} OrdinaryRecordAppendsKey(num: NumberParse, f: Freqs, record: Row, field: string)
    requires Valid(f) && Ordinary(record, field) && "undefined" !in f.values
    ensures var key := FieldKey(record, field);
      TallyRecord(num, f, record, field).created == if key in f.created then f.created else f.created + [key]
  {
    OrdinaryRecordOverwrites(num, f, record, field);
  }

  /** Over ordinary records, "undefined" never becomes a key. */
  lemma {:induction false} OrdinaryRecordsNoUndefined(num: NumberParse, data: seq<Row>, n: nat, field: string)
    requires n <= |data|
    requires forall i | 0 <= i < n :: Ordinary(data[i], field)
    ensures "undefined" !in Tally(num, data, n, field).values
  {
    OrdinaryRecordsKeys(num, data, n, field);
  }

  /** Over ordinary records, a key that is not yet in `freqs` occurs for the first time in the next record. */
  lemma {:induction false} NewKeyFirstSeen(num: NumberParse, data: seq<Row>, n: nat, field: string)
    requires 0 < n <= |data|
    requires forall i | 0 <= i < n - 1 :: Ordinary(data[i], field)
    requires FieldKey(data[n - 1], field) !in Tally(num, data, n - 1, field).values
    ensures FirstOccurrence(data, n - 1, field, FieldKey(data[n - 1], field)) == n - 1
  {
    OrdinaryRecordsKeys(num, data, n - 1, field);
    FieldKeysOccur(data, n - 1, field);
  }

  /**
   * Over ordinary records, the next record appends its key to the creation
   * order exactly when the key is new, and then it is that key's first
   * occurrence.
   */
  lemma {:induction false} OrdinaryRecordCreates(num: NumberParse, data: seq<Row>, n: nat, field: string)
    requires 0 < n <= |data|
    requires forall i | 0 <= i < n :: Ordinary(data[i], field)
    ensures var c, key := Tally(num, data, n - 1, field).created, FieldKey(data[n - 1], field);
      && Tally(num, data, n, field).created == (if key in c then c else c + [key])
      && (key !in c ==> FirstOccurrence(data, n - 1, field, key) == n - 1)
  {
    var f := Tally(num, data, n - 1, field);
    OrdinaryRecordsNoUndefined(num, data, n - 1, field);
    TallyValid(num, data, n - 1, field);
    OrdinaryRecordAppendsKey(num, f, data[n - 1], field);
    assert Tally(num, data, n, field) == TallyRecord(num, f, data[n - 1], field);
    if FieldKey(data[n - 1], field) !in f.values {
      NewKeyFirstSeen(num, data, n, field);
    }
  }

  /** Over ordinary records, `freqs` creates its keys in the order their field values first occur. */
  lemma {:induction false} CreationOrderIsFirstOccurrence(num: NumberParse, data: seq<Row>, n: nat, field: string)
    requires n <= |data|
    requires forall i | 0 <= i < n :: Ordinary(data[i], field)
    ensures InFirstOccurrenceOrder(data, n, field, Tally(num, data, n, field).created)
  {
    if n > 0 {
      CreationOrderIsFirstOccurrence(num, data, n - 1, field);
      OrdinaryRecordCreates(num, data, n, field);
      FirstOccurrenceOrderStep(data, n, field, Tally(num, data, n - 1, field).created);
    }
  }

  /**
   * The drained entries of `f` list every key that is not an array index
   * before every array-index key, and the array-index keys in strictly
   * descending numeric order.
   */
  lemma {:induction false} DrainedIndicesLast(f: Freqs)
    requires Valid(f)
    ensures var out := Drained(Entries(f));
      && (forall i, j | 0 <= i < j < |out| && IsArrayIndex(out[i].year) :: IsArrayIndex(out[j].year))
      && (forall i, j | 0 <= i < j < |out| && IsArrayIndex(out[i].year) ::
            IndexValue(out[j].year) < IndexValue(out[i].year))
  {
    DrainedEntries(f);
    OwnPropertyKeysIndicesFirst(f.created);
    OwnPropertyKeysOthersInOrder(f.created);
  }

  /** The drained entries of `f` list the keys that are not array indices latest created first. */
  lemma {:induction false} DrainedOthersLatestFirst(f: Freqs)
    requires Valid(f)
    ensures var out := Drained(Entries(f));
      forall i, j | 0 <= i < j < |out| && !IsArrayIndex(out[i].year) && !IsArrayIndex(out[j].year) ::
        Before(f.created, out[j].year, out[i].year)
  {
    DrainedEntries(f);
    OwnPropertyKeysIndicesFirst(f.created);
    OwnPropertyKeysOthersInOrder(f.created);
  }

  /**
   * deathsByField lists every key that is not an array index before every
   * array-index key, and the array-index keys in strictly descending
   * numeric order.
   */
  lemma {:induction false} DeathCountsIndicesLast(num: NumberParse, data: seq<Row>, field: string)
    ensures var out := DeathCounts(num, data, field);
      && (forall i, j | 0 <= i < j < |out| && IsArrayIndex(out[i].year) :: IsArrayIndex(out[j].year))
      && (forall i, j | 0 <= i < j < |out| && IsArrayIndex(out[i].year) ::
            IndexValue(out[j].year) < IndexValue(out[i].year))
  {
    var f := Tally(num, data, |data|, field);
    TallyValid(num, data, |data|, field);
    assert DeathCounts(num, data, field) == Drained(Entries(f));
    DrainedIndicesLast(f);
  }

  /** Keys in first-occurrence order: of two keys, the one listed later first occurs later. */
  lemma {:induction false} BeforeMeansFirstSeenEarlier(data: seq<Row>, n: nat, field: string, c: seq<string>, x: string, y: string)
    requires n <= |data| && InFirstOccurrenceOrder(data, n, field, c) && Before(c, x, y)
    ensures FirstOccurrence(data, n, field, x) < FirstOccurrence(data, n, field, y)
  {
    var p, q :| 0 <= p < q < |c| && c[p] == x && c[q] == y;
  }

  /**
   * Over ordinary records, deathsByField lists the keys that are not array
   * indices (cities, countries, ...) in reverse order of first occurrence:
   * of two such keys, the one first seen later comes out earlier.
   */
  lemma {:induction false} OtherKeysLatestFirst(num: NumberParse, data: seq<Row>, field: string)
    requires forall i | 0 <= i < |data| :: Ordinary(data[i], field)
    ensures var out := DeathCounts(num, data, field);
      forall i, j | 0 <= i < j < |out| && !IsArrayIndex(out[i].year) && !IsArrayIndex(out[j].year) ::
        FirstOccurrence(data, |data|, field, out[j].year) < FirstOccurrence(data, |data|, field, out[i].year)
  {
    var f := Tally(num, data, |data|, field);
    TallyValid(num, data, |data|, field);
    assert DeathCounts(num, data, field) == Drained(Entries(f));
    DrainedOthersLatestFirst(f);
    CreationOrderIsFirstOccurrence(num, data, |data|, field);
    var out := Drained(Entries(f));
    forall i, j | 0 <= i < j < |out| && !IsArrayIndex(out[i].year) && !IsArrayIndex(out[j].year)
      ensures FirstOccurrence(data, |data|, field, out[j].year) < FirstOccurrence(data, |data|, field, out[i].year)
    {
      BeforeMeansFirstSeenEarlier(data, |data|, field, f.created, out[j].year, out[i].year);
    }
  }

  /**
   * A record without the field creates the key "undefined" (when the
   * record has no "undefined" column and `freqs` has no such key yet).
   */
  lemma {:induction false} MissingFieldCreatesUndefined(num: NumberParse, data: seq<Row>, n: nat, field: string)
    requires n < |data|
    requires field !in data[n] && "undefined" !in data[n]
    requires "undefined" !in Tally(num, data, n, field).values
    ensures var f := Tally(num, data, n + 1, field);
      "undefined" in f.values && f.values["undefined"] == Finite(Deaths(num, data[n]))
  {
  }

  /**
   * Once "undefined" is a key, a later record whose field value is not a
   * column of its own takes the first branch: its deaths go to the
   * property named after the field itself, and no other property changes.
   */
  lemma {:induction false} UndefinedKeyRedirects(num: NumberParse, data: seq<Row>, i: nat, j: nat, field: string)
    requires i <= j < |data|
    requires "undefined" in Tally(num, data, i, field).values
    requires FieldKey(data[j], field) !in data[j]
    ensures var before, after := Tally(num, data, j, field), Tally(num, data, j + 1, field);
      after.values == before.values[field := AddDeaths(Lookup(before, field), Deaths(num, data[j]))]
  {
    KeysOnlyGrow(num, data, i, j, field);
  }

  /** `deathFreqs.pop()`: the last entry, or None (`undefined`) when none is left. */
  method Pop(entries: seq<(string, JsNumber)>) returns (rest: seq<(string, JsNumber)>, last: Option<(string, JsNumber)>)
    ensures entries == [] ==> rest == [] && last.None?
    ensures entries != [] ==> last.Some? && entries == rest + [last.value]
  {
    if entries == [] {
      rest, last := [], None;
    } else {
      rest, last := entries[..|entries| - 1], Some(entries[|entries| - 1]);
    }
  }

  /** `output.findIndex(item => item.year === year)`: the first matching index, or -1. */
  function FirstYearIndex(output: seq<DeathCount>, year: string): (idx: int)
    ensures -1 <= idx < |output|
    ensures idx == -1 <==> forall i | 0 <= i < |output| :: output[i].year != year
    ensures idx >= 0 ==> output[idx].year == year && forall i | 0 <= i < idx :: output[i].year != year
  {
    if output == [] then -1
    else if output[0].year == year then 0
    else
      var idx := FirstYearIndex(output[1..], year);
      if idx == -1 then -1 else idx + 1
  }

  /** The findIndex scan, front to back. */
  method FindYearIndex(output: seq<DeathCount>, year: string) returns (idx: int)
    ensures idx == FirstYearIndex(output, year)
  {
    idx := 0;
    while idx < |output|
      invariant 0 <= idx <= |output|
      invariant forall i | 0 <= i < idx :: output[i].year != year
    {
      if output[idx].year == year {
        return;
      }
      idx := idx + 1;
    }
    idx := -1;
  }

  /**
   * One turn of the pop loop on `output`: a year not yet there is pushed,
   * and a year already there has the deaths added to its first occurrence.
   */
  function Merge(output: seq<DeathCount>, entry: (string, JsNumber)): (merged: seq<DeathCount>)
  {
    var idx := FirstYearIndex(output, entry.0);
    if idx == -1 then output + [DeathCount(entry.0, entry.1)]
    else output[idx := output[idx].(deaths := Add(output[idx].deaths, entry.1))]
  }

  /** The pop loop run on `output` until `pending` is empty, taking entries from the end. */
  function Collect(output: seq<DeathCount>, pending: seq<(string, JsNumber)>): (collected: seq<DeathCount>)
    decreases |pending|
  {
    if pending == [] then output
    else Collect(Merge(output, pending[|pending| - 1]), pending[..|pending| - 1])
  }

  /** The forEach pass of deathsByField: fills `freqs` record by record. */
  method FillFreqs(num: NumberParse, data: seq<Row>, field: string) returns (freqs: Freqs)
    ensures freqs == Tally(num, data, |data|, field)
  {
    var values: map<string, JsNumber> := map[];
    var created: seq<string> := [];
    for k := 0 to |data|
      invariant Freqs(values, created) == Tally(num, data, k, field)
    {
      var record := data[k];
      var key := FieldKey(record, field);
      var deaths := Deaths(num, record);
      if ToKey(Get(record, key)) in values {
        var current := if field in values then Some(values[field]) else None;
        if field !in values {
          created := created + [field];
        }
        values := values[field := AddDeaths(current, deaths)];
      } else {
        if key !in values {
          created := created + [key];
        }
        values := values[key := Finite(deaths)];
      }
    }
    freqs := Freqs(values, created);
  }

  /** The entries have pairwise different keys. */
  predicate KeysDistinct(entries: seq<(string, JsNumber)>)
  {
    forall i, j | 0 <= i < j < |entries| :: entries[i].0 != entries[j].0
  }

  /** No year of `output` is the key of a pending entry. */
  predicate YearsApart(output: seq<DeathCount>, pending: seq<(string, JsNumber)>)
  {
    forall i, j | 0 <= i < |output| && 0 <= j < |pending| :: output[i].year != pending[j].0
  }

  /** Pushing `d` and then appending `rest` is appending `[d] + rest`. */
  lemma {:induction false} PushThenRest(output: seq<DeathCount>, d: DeathCount, rest: seq<DeathCount>)
    ensures output + [d] + rest == output + ([d] + rest)
  {
  }

  /** A year not yet in `output` is pushed at its end. */
  lemma {:induction false} MergeNewYear(output: seq<DeathCount>, x: (string, JsNumber))
    requires forall i | 0 <= i < |output| :: output[i].year != x.0
    ensures Merge(output, x) == output + [DeathCount(x.0, x.1)]
  {
  }

  /** Pushing the last pending entry keeps the output's years apart from the keys still pending. */
  lemma {:induction false} PushKeepsYearsApart(output: seq<DeathCount>, pending: seq<(string, JsNumber)>)
    requires pending != [] && KeysDistinct(pending) && YearsApart(output, pending)
    ensures var x := pending[|pending| - 1];
      && (forall i | 0 <= i < |output| :: output[i].year != x.0)
      && KeysDistinct(pending[..|pending| - 1])
      && YearsApart(output + [DeathCount(x.0, x.1)], pending[..|pending| - 1])
  {
    var x, rest := pending[|pending| - 1], pending[..|pending| - 1];
    var next := output + [DeathCount(x.0, x.1)];
    forall i, j | 0 <= i < |next| && 0 <= j < |rest|
      ensures next[i].year != rest[j].0
    {
      assert rest[j] == pending[j];
      if i < |output| {
        assert next[i] == output[i];
      }
    }
    forall i, j | 0 <= i < j < |rest|
      ensures rest[i].0 != rest[j].0
    {
      assert rest[i] == pending[i] && rest[j] == pending[j];
    }
  }

  /**
   * When the pending entries have distinct keys and none of them is a year
   * already in `output`, the merge branch never runs: the loop only
   * appends, last entry first.
   */
  lemma {:induction false} CollectOnlyAppends(output: seq<DeathCount>, pending: seq<(string, JsNumber)>)
    requires KeysDistinct(pending) && YearsApart(output, pending)
    ensures Collect(output, pending) == output + Drained(pending)
    decreases |pending|
  {
    if pending != [] {
      var rest, x := pending[..|pending| - 1], pending[|pending| - 1];
      var next := output + [DeathCount(x.0, x.1)];
      PushKeepsYearsApart(output, pending);
      MergeNewYear(output, x);
      CollectOnlyAppends(next, rest);
      assert Drained(pending) == [DeathCount(x.0, x.1)] + Drained(rest);
      PushThenRest(output, DeathCount(x.0, x.1), Drained(rest));
    }
  }

  /** Entries with distinct keys are drained without merging. */
  lemma {:induction false} DistinctEntriesDrain(entries: seq<(string, JsNumber)>)
    requires KeysDistinct(entries)
    ensures Collect([], entries) == Drained(entries)
  {
    CollectOnlyAppends([], entries);
  }

  /** The rest of entries still to pop, with the one just popped put back. */
  function Pending(rest: seq<(string, JsNumber)>, current: Option<(string, JsNumber)>): (pending: seq<(string, JsNumber)>)
  {
    if current.Some? then rest + [current.value] else rest
  }

  /**
   * The pop loop of deathsByField: entries are popped from the end; a
   * year not yet in `output` is pushed, and a year already there has the
   * deaths added to it.
   */
  method DrainEntries(deathFreqs: seq<(string, JsNumber)>) returns (output: seq<DeathCount>)
    ensures output == Collect([], deathFreqs)
  {
    var rest := deathFreqs;
    output := [];
    var current;
    rest, current := Pop(rest);
    while current.Some?
      invariant current.None? ==> rest == []
      invariant Collect(output, Pending(rest, current)) == Collect([], deathFreqs)
      decreases |rest|, current.Some?
    {
      var (year, deaths) := current.value;
      assert (rest + [current.value])[..|rest|] == rest;
      var yearIdx := FindYearIndex(output, year);
      if yearIdx == -1 {
        output := output + [DeathCount(year, deaths)];
      } else {
        output := output[yearIdx := output[yearIdx].(deaths := Add(output[yearIdx].deaths, deaths))];
      }
      rest, current := Pop(rest);
    }
  }

  /** deathsByField: the forEach tally into `freqs`, then the pop loop over `Object.entries(freqs)`. */
  method DeathsByField(num: NumberParse, data: seq<Row>, field: string) returns (output: seq<DeathCount>)
    ensures output == DeathCounts(num, data, field)
  {
    var freqs := FillFreqs(num, data, field);
    TallyValid(num, data, |data|, field);
    OwnPropertyKeysContents(freqs.created);
    var deathFreqs := Entries(freqs);
    output := DrainEntries(deathFreqs);
    DistinctEntriesDrain(deathFreqs);
  }


  /** Three witch-trial records: two for the decade "1600" (5 and 3 deaths), one for "1700" (2 deaths). */
  function TwoDecades(): (data: seq<Row>)
  {
    [map["decade" := "1600", "deaths" := "5"],
     map["decade" := "1600", "deaths" := "3"],
     map["decade" := "1700", "deaths" := "2"]]
  }

  /** On TwoDecades the second "1600" record overwrites the first: `freqs` ends with 3 for "1600", not 8. */
  lemma {:induction false} TwoDecadesTally(num: NumberParse)
    requires num("5") == Some(5) && num("3") == Some(3) && num("2") == Some(2)
    ensures Tally(num, TwoDecades(), 3, "decade") == Freqs(map["1600" := Finite(3), "1700" := Finite(2)], ["1600", "1700"])
  {
    var data := TwoDecades();
    assert Tally(num, data, 1, "decade") == Freqs(map["1600" := Finite(5)], ["1600"]);
    assert Tally(num, data, 2, "decade") == Freqs(map["1600" := Finite(3)], ["1600"]);
  }

  /** The decade keys "1600" and "1700" read as the array indices 1600 and 1700. */
  lemma {:induction false} DecadeValues()
    ensures DigitsValue("1600") == 1600 && DigitsValue("1700") == 1700
  {
    assert "1600"[..3] == "160" && "160"[..2] == "16" && "16"[..1] == "1" && "1"[..0] == "";
    assert "1700"[..3] == "170" && "170"[..2] == "17" && "17"[..1] == "1" && "1"[..0] == "";
  }

  /** "1600" and "1700" are array indices, so Object.entries lists them in numeric order. */
  lemma {:induction false} DecadeKeysOrder()
    ensures OwnPropertyKeys(["1600", "1700"]) == ["1600", "1700"]
  {
    DecadeValues();
    assert IsArrayIndex("1600") && IsArrayIndex("1700");
    assert ["1600", "1700"][..1] == ["1600"] && ["1600"][..0] == [];
    assert Filter(["1600", "1700"], true) == ["1600", "1700"];
    assert Filter(["1600", "1700"], false) == [];
    assert ["1600", "1700"][1..] == ["1700"] && ["1700"][1..] == [];
    assert SortIndices(["1600", "1700"]) == ["1600", "1700"];
  }

  /**
   * On TwoDecades, deathsByField reports "1700" first and then "1600"
   * with 3 deaths: a repeated decade overwrites instead of adding.
   */
  lemma {:induction false} RepeatedDecadeOverwrites(num: NumberParse)
    requires num("5") == Some(5) && num("3") == Some(3) && num("2") == Some(2)
    ensures DeathCounts(num, TwoDecades(), "decade") == [DeathCount("1700", Finite(2)), DeathCount("1600", Finite(3))]
  {
    var f := Freqs(map["1600" := Finite(3), "1700" := Finite(2)], ["1600", "1700"]);
    assert |TwoDecades()| == 3;
    TwoDecadesTally(num);
    TallyValid(num, TwoDecades(), 3, "decade");
    assert DeathCounts(num, TwoDecades(), "decade") == Drained(Entries(f));
    DecadeEntries();
  }

  /** The entries of the final `freqs` of TwoDecades, drained from the end. */
  lemma {:induction false} DecadeEntries()
    ensures var f := Freqs(map["1600" := Finite(3), "1700" := Finite(2)], ["1600", "1700"]);
      Valid(f) && Drained(Entries(f)) == [DeathCount("1700", Finite(2)), DeathCount("1600", Finite(3))]
  {
    var f := Freqs(map["1600" := Finite(3), "1700" := Finite(2)], ["1600", "1700"]);
    DecadeKeysOrder();
    var entries := [("1600", Finite(3)), ("1700", Finite(2))];
    assert Entries(f) == entries;
    assert entries[..1] == [("1600", Finite(3))] && entries[..1][..0] == [];
  }
}
