/** The grouping engine: partitions a table's rows by the values of their
    last `n` columns (the group-by columns), strips those columns, and keeps
    the rows of each group in source order. */
module Grouping {
  import opened Sequences
  import opened Tables

  /** The group key of a row: its last `n` values. */
  function KeyOf(r: Row, n: nat): Row
    requires n <= |r|
  {
    r[|r| - n..]
  }

  /** A row without its last `n` values. */
  function Strip(r: Row, n: nat): Row
    requires n <= |r|
  {
    r[..|r| - n]
  }

  predicate Fits(rows: seq<Row>, n: nat) {
    forall r | r in rows :: n <= |r|
  }

  function Keys(rows: seq<Row>, n: nat): (ks: seq<Row>)
    requires Fits(rows, n)
    ensures |ks| == |rows|
  {
    seq(|rows|, i requires 0 <= i < |rows| => KeyOf(rows[i], n))
  }

  function StripAll(rows: seq<Row>, n: nat): (ss: seq<Row>)
    requires Fits(rows, n)
    ensures |ss| == |rows|
  {
    seq(|rows|, i requires 0 <= i < |rows| => Strip(rows[i], n))
  }

  /** Which rows carry key `k`. */
  function Matches(rows: seq<Row>, n: nat, k: Row): (m: seq<bool>)
    requires Fits(rows, n)
    ensures |m| == |rows|
  {
    seq(|rows|, i requires 0 <= i < |rows| => KeyOf(rows[i], n) == k)
  }

  /** The distinct keys of the rows, in order of first occurrence. This is
      the explicit insertion order of the buckets. */
  function DistinctKeys(rows: seq<Row>, n: nat): seq<Row>
    requires Fits(rows, n)
  {
    Dedupe(Keys(rows, n))
  }

  lemma DistinctKeysSpec(rows: seq<Row>, n: nat)
    requires Fits(rows, n)
    ensures NoDuplicates(DistinctKeys(rows, n))
    ensures forall i :: 0 <= i < |rows| ==> KeyOf(rows[i], n) in DistinctKeys(rows, n)
    ensures forall k | k in DistinctKeys(rows, n) :: exists i :: 0 <= i < |rows| && KeyOf(rows[i], n) == k
  {
    var ks := Keys(rows, n);
    DedupeSpec(ks);
    forall i | 0 <= i < |rows|
      ensures KeyOf(rows[i], n) in DistinctKeys(rows, n)
    {
      assert ks[i] == KeyOf(rows[i], n);
    }
    forall k | k in DistinctKeys(rows, n)
      ensures exists i :: 0 <= i < |rows| && KeyOf(rows[i], n) == k
    {
      var p :| 0 <= p < |DistinctKeys(rows, n)| && DistinctKeys(rows, n)[p] == k;
      assert k in ks;
      var i :| 0 <= i < |ks| && ks[i] == k;
      assert KeyOf(rows[i], n) == k;
    }
  }

  /** The stripped rows whose key is `k`, in source order. */
  function BucketRows(rows: seq<Row>, n: nat, k: Row): seq<Row>
    requires Fits(rows, n)
  {
    Keep(StripAll(rows, n), Matches(rows, n, k))
  }

  function Bucket(fields: seq<Field>, rows: seq<Row>, n: nat, k: Row): Table
    requires n <= |fields| && Fits(rows, n)
  {
    Table(fields[..|fields| - n], BucketRows(rows, n, k))
  }

  function Buckets(fields: seq<Field>, rows: seq<Row>, n: nat, ks: seq<Row>): (gs: seq<Table>)
    requires n <= |fields| && Fits(rows, n)
    ensures |gs| == |ks|
  {
    seq(|ks|, j requires 0 <= j < |ks| => Bucket(fields, rows, n, ks[j]))
  }

  /** The group tables of `t` for `n` group-by columns, one per distinct key. */
  function Groups(t: Table, n: nat): (gs: seq<Table>)
    requires WellFormed(t) && n <= |t.fields|
    ensures |gs| == |DistinctKeys(t.rows, n)|
  {
    Buckets(t.fields, t.rows, n, DistinctKeys(t.rows, n))
  }

  /** Every group is a well-formed, non-empty table over the fields left once
      the grouping columns are removed. */
  lemma GroupsShape(t: Table, n: nat)
    requires WellFormed(t) && n <= |t.fields|
    ensures forall g | g in Groups(t, n) :: WellFormed(g) && g.fields == t.fields[..|t.fields| - n] && |g.rows| > 0
  {
    var ks := DistinctKeys(t.rows, n);
    forall g | g in Groups(t, n)
      ensures WellFormed(g) && g.fields == t.fields[..|t.fields| - n] && |g.rows| > 0
    {
      var j :| 0 <= j < |ks| && Groups(t, n)[j] == g;
      assert g == Bucket(t.fields, t.rows, n, ks[j]);
      assert ks[j] in ks;
      BucketShape(t, n, ks[j]);
    }
  }

  /** The position a source row takes inside its group: the number of earlier
      rows with the same key. */
  function Rank(rows: seq<Row>, n: nat, i: nat): nat
    requires Fits(rows, n) && i < |rows|
  {
    CountTrue(Matches(rows, n, KeyOf(rows[i], n))[..i])
  }

  /** The group a source row is put in. */
  function GroupOf(rows: seq<Row>, n: nat, i: nat): nat
    requires Fits(rows, n) && i < |rows|
  {
    DistinctKeysSpec(rows, n);
    IndexOf(DistinctKeys(rows, n), KeyOf(rows[i], n))
  }

  lemma FitsOf(t: Table, n: nat)
    requires WellFormed(t) && n <= |t.fields|
    ensures Fits(t.rows, n)
  {
  }

  lemma BucketShape(t: Table, n: nat, k: Row)
    requires WellFormed(t) && n <= |t.fields|
    ensures var b := Bucket(t.fields, t.rows, n, k);
            WellFormed(b) && (k in DistinctKeys(t.rows, n) ==> |b.rows| > 0)
  {
    BucketWellFormed(t, n, k);
    if k in DistinctKeys(t.rows, n) {
      var mask := Matches(t.rows, n, k);
      DistinctKeysSpec(t.rows, n);
      var i :| 0 <= i < |t.rows| && KeyOf(t.rows[i], n) == k;
      assert mask[i];
      CountTrueBound(mask);
    }
  }

  lemma BucketWellFormed(t: Table, n: nat, k: Row)
    requires WellFormed(t) && n <= |t.fields|
    ensures WellFormed(Bucket(t.fields, t.rows, n, k))
  {
    var b := Bucket(t.fields, t.rows, n, k);
    var xs, mask := StripAll(t.rows, n), Matches(t.rows, n, k);
    forall r | r in b.rows
      ensures |r| == |b.fields|
    {
      var p :| 0 <= p < |b.rows| && b.rows[p] == r;
      KeepOrigin(xs, mask, p);
      var i :| 0 <= i < |xs| && mask[i] && CountTrue(mask[..i]) == p && xs[i] == Keep(xs, mask)[p];
      assert t.rows[i] in t.rows;
    }
  }

  /** Extending the rows by one adds that row to its own bucket only. */
  lemma BucketRowsStep(rows: seq<Row>, n: nat, i: nat, k: Row)
    requires Fits(rows, n) && i < |rows|
    ensures BucketRows(rows[..i + 1], n, k)
            == BucketRows(rows[..i], n, k)
               + (if KeyOf(rows[i], n) == k then [Strip(rows[i], n)] else [])
  {
    var pre, ext := rows[..i], rows[..i + 1];
    var xs, mask := StripAll(rows, n), Matches(rows, n, k);
    assert StripAll(ext, n) == xs[..i + 1];
    assert Matches(ext, n, k) == mask[..i + 1];
    assert StripAll(pre, n) == xs[..i];
    assert Matches(pre, n, k) == mask[..i];
    KeepSnoc(xs, mask, i);
  }

  lemma DistinctKeysStep(rows: seq<Row>, n: nat, i: nat)
    requires Fits(rows, n) && i < |rows|
    ensures var d := DistinctKeys(rows[..i], n);
            var k := KeyOf(rows[i], n);
            DistinctKeys(rows[..i + 1], n) == if k in d then d else d + [k]
  {
    var ext := rows[..i + 1];
    assert Keys(ext, n)[..i] == Keys(rows[..i], n);
  }

  /** A key no row carries has an empty bucket. */
  lemma UnseenKeyEmpty(rows: seq<Row>, n: nat, k: Row)
    requires Fits(rows, n) && k !in DistinctKeys(rows, n)
    ensures BucketRows(rows, n, k) == []
  {
    var m := Matches(rows, n, k);
    DistinctKeysSpec(rows, n);
    KeepAllFalse(StripAll(rows, n), m);
  }

  /** The buckets of the keys `ks`, as a dictionary keyed by group key. */
  function BucketMap(fields: seq<Field>, rows: seq<Row>, n: nat, ks: seq<Row>): map<Row, Table>
    requires n <= |fields| && Fits(rows, n)
  {
    if |ks| == 0 then map[]
    else BucketMap(fields, rows, n, ks[..|ks| - 1])[ks[|ks| - 1] := Bucket(fields, rows, n, ks[|ks| - 1])]
  }

  lemma {:induction false} BucketMapLookup(fields: seq<Field>, rows: seq<Row>, n: nat, ks: seq<Row>)
    requires n <= |fields| && Fits(rows, n)
    ensures BucketMap(fields, rows, n, ks).Keys == Elements(ks)
    ensures forall k | k in BucketMap(fields, rows, n, ks) :: BucketMap(fields, rows, n, ks)[k] == Bucket(fields, rows, n, k)
  {
    if |ks| > 0 {
      BucketMapLookup(fields, rows, n, ks[..|ks| - 1]);
      assert ks == ks[..|ks| - 1] + [ks[|ks| - 1]];
      assert Elements(ks) == Elements(ks[..|ks| - 1]) + {ks[|ks| - 1]};
    }
  }

  /** A bucket created for a key not seen so far is that key's (empty)
      bucket. */
  lemma BucketMapNewKey(fields: seq<Field>, rows: seq<Row>, n: nat, ks: seq<Row>, m: map<Row, Table>, key: Row)
    requires n <= |fields| && Fits(rows, n) && key !in DistinctKeys(rows, n)
    requires m == BucketMap(fields, rows, n, ks)
    ensures m[key := Table(fields[..|fields| - n], [])] == BucketMap(fields, rows, n, ks + [key])
  {
    UnseenKeyEmpty(rows, n, key);
    assert (ks + [key])[..|ks|] == ks;
  }

  /** Appending row `i` to the bucket of its key gives the buckets of the
      first `i + 1` rows. */
  lemma BucketMapAppend(t: Table, n: nat, i: nat, ks: seq<Row>, m: map<Row, Table>, key: Row)
    requires WellFormed(t) && n <= |t.fields| && i < |t.rows|
    requires Fits(t.rows[..i], n) && Fits(t.rows[..i + 1], n)
    requires key == KeyOf(t.rows[i], n) && key in ks
    requires m == BucketMap(t.fields, t.rows[..i], n, ks)
    ensures key in m && |Strip(t.rows[i], n)| == |m[key].fields|
    ensures m[key := Append(m[key], Strip(t.rows[i], n))] == BucketMap(t.fields, t.rows[..i + 1], n, ks)
  {
    var pre, ext := t.rows[..i], t.rows[..i + 1];
    var target := BucketMap(t.fields, ext, n, ks);
    assert m.Keys == target.Keys && key in m by {
      BucketMapLookup(t.fields, pre, n, ks);
      BucketMapLookup(t.fields, ext, n, ks);
    }
    BucketStep(t, n, i, key);
    assert m[key] == Bucket(t.fields, pre, n, key) && target[key] == Bucket(t.fields, ext, n, key) by {
      BucketMapLookup(t.fields, pre, n, ks);
      BucketMapLookup(t.fields, ext, n, ks);
    }
    forall k | k in m && k != key
      ensures m[k] == target[k]
    {
      BucketMapLookup(t.fields, pre, n, ks);
      BucketMapLookup(t.fields, ext, n, ks);
      BucketStep(t, n, i, k);
    }
    MapUpdateEq(m, target, key, Append(m[key], Strip(t.rows[i], n)));
  }

  lemma MapUpdateEq<K, V>(m: map<K, V>, target: map<K, V>, key: K, v: V)
    requires key in m && m.Keys == target.Keys && target[key] == v
    requires forall k | k in m && k != key :: m[k] == target[k]
    ensures m[key := v] == target
  {
  }

  /** The bucket of `k` over one more row: the stripped row appended when
      its key is `k`, unchanged otherwise. */
  lemma BucketStep(t: Table, n: nat, i: nat, k: Row)
    requires WellFormed(t) && n <= |t.fields| && i < |t.rows|
    requires Fits(t.rows[..i], n) && Fits(t.rows[..i + 1], n)
    ensures |Strip(t.rows[i], n)| == |Bucket(t.fields, t.rows[..i], n, k).fields|
    ensures Bucket(t.fields, t.rows[..i + 1], n, k)
            == if KeyOf(t.rows[i], n) == k
               then Append(Bucket(t.fields, t.rows[..i], n, k), Strip(t.rows[i], n))
               else Bucket(t.fields, t.rows[..i], n, k)
  {
    assert t.rows[i] in t.rows;
    FitsOf(t, n);
    BucketRowsStep(t.rows, n, i, k);
    assert t.rows[..i + 1][..i] == t.rows[..i];
  }

  /** One pass of the grouping loop: after creating the bucket of an unseen
      key and appending the stripped row to its key's bucket, the buckets and
      the key order are those of one more row. */
  lemma AddRowStep(t: Table, n: nat, i: nat, dict: map<Row, Table>, order: seq<Row>)
    requires WellFormed(t) && n <= |t.fields| && i < |t.rows|
    requires Fits(t.rows[..i], n) && Fits(t.rows[..i + 1], n)
    requires order == DistinctKeys(t.rows[..i], n)
    requires dict == BucketMap(t.fields, t.rows[..i], n, order)
    ensures var key := KeyOf(t.rows[i], n);
            var created := if key in dict then dict else dict[key := Table(t.fields[..|t.fields| - n], [])];
            var order' := if key in dict then order else order + [key];
            && key in created
            && |Strip(t.rows[i], n)| == |created[key].fields|
            && order' == DistinctKeys(t.rows[..i + 1], n)
            && created[key := Append(created[key], Strip(t.rows[i], n))] == BucketMap(t.fields, t.rows[..i + 1], n, order')
  {
    var key := KeyOf(t.rows[i], n);
    assert key in dict <==> key in order by {
      BucketMapLookup(t.fields, t.rows[..i], n, order);
    }
    if key in dict {
      AddRowSeen(t, n, i, dict, order);
    } else {
      AddRowUnseen(t, n, i, dict, order);
    }
  }

  lemma AddRowSeen(t: Table, n: nat, i: nat, dict: map<Row, Table>, order: seq<Row>)
    requires WellFormed(t) && n <= |t.fields| && i < |t.rows|
    requires Fits(t.rows[..i], n) && Fits(t.rows[..i + 1], n)
    requires order == DistinctKeys(t.rows[..i], n) && KeyOf(t.rows[i], n) in order
    requires dict == BucketMap(t.fields, t.rows[..i], n, order)
    ensures var key := KeyOf(t.rows[i], n);
            && key in dict
            && |Strip(t.rows[i], n)| == |dict[key].fields|
            && order == DistinctKeys(t.rows[..i + 1], n)
            && dict[key := Append(dict[key], Strip(t.rows[i], n))] == BucketMap(t.fields, t.rows[..i + 1], n, order)
  {
    DistinctKeysStep(t.rows, n, i);
    BucketMapAppend(t, n, i, order, dict, KeyOf(t.rows[i], n));
  }

  lemma AddRowUnseen(t: Table, n: nat, i: nat, dict: map<Row, Table>, order: seq<Row>)
    requires WellFormed(t) && n <= |t.fields| && i < |t.rows|
    requires Fits(t.rows[..i], n) && Fits(t.rows[..i + 1], n)
    requires order == DistinctKeys(t.rows[..i], n) && KeyOf(t.rows[i], n) !in order
    requires dict == BucketMap(t.fields, t.rows[..i], n, order)
    ensures var key := KeyOf(t.rows[i], n);
            var created := dict[key := Table(t.fields[..|t.fields| - n], [])];
            && |Strip(t.rows[i], n)| == |created[key].fields|
            && order + [key] == DistinctKeys(t.rows[..i + 1], n)
            && created[key := Append(created[key], Strip(t.rows[i], n))] == BucketMap(t.fields, t.rows[..i + 1], n, order + [key])
  {
    var key := KeyOf(t.rows[i], n);
    DistinctKeysStep(t.rows, n, i);
    BucketMapNewKey(t.fields, t.rows[..i], n, order, dict, key);
    BucketMapAppend(t, n, i, order + [key], dict[key := Table(t.fields[..|t.fields| - n], [])], key);
  }

  /** One step of the grouping loop: the row's key is its last `n` values;
      a bucket with the stripped field list is created when the key is new,
      and the stripped row is appended to the key's bucket. */
  method AddRow(t: Table, n: nat, groupFields: seq<Field>, i: nat, dict: map<Row, Table>, order: seq<Row>)
    returns (dict': map<Row, Table>, order': seq<Row>)
    requires WellFormed(t) && n <= |t.fields| && i < |t.rows| && groupFields == t.fields[..|t.fields| - n]
    requires Fits(t.rows[..i], n) && Fits(t.rows[..i + 1], n)
    requires order == DistinctKeys(t.rows[..i], n)
    requires dict == BucketMap(t.fields, t.rows[..i], n, order)
    ensures order' == DistinctKeys(t.rows[..i + 1], n)
    ensures dict' == BucketMap(t.fields, t.rows[..i + 1], n, order')
  {
    var row := t.rows[i];
    AddRowStep(t, n, i, dict, order);
    var key := KeyOf(row, n);
    dict', order' := dict, order;
    if key !in dict' {
      dict' := dict'[key := Table(groupFields, [])];
      order' := order' + [key];
    }
    dict' := dict'[key := Append(dict'[key], Strip(row, n))];
  }

  /** The grouping loop: each row goes to the bucket of its key, a bucket being
      created with the stripped field list when its key is first seen; the
      buckets are returned in creation order. */
  method GenerateGroups(t: Table, groups: seq<string>) returns (gs: seq<Table>)
    requires WellFormed(t) && 1 <= |groups| <= |t.fields|
    ensures gs == Groups(t, |groups|)
  {
    var n := |groups|;
    FitsOf(t, n);
    var groupFields := t.fields[..|t.fields| - n];
    var dict: map<Row, Table> := map[];
    var order: seq<Row> := [];
    assert t.rows[..0] == [];
    for i := 0 to |t.rows|
      invariant Fits(t.rows[..i], n)
      invariant order == DistinctKeys(t.rows[..i], n)
      invariant dict == BucketMap(t.fields, t.rows[..i], n, order)
    {
      assert Fits(t.rows[..i + 1], n) by {
        assert forall r | r in t.rows[..i + 1] :: r in t.rows;
      }
      dict, order := AddRow(t, n, groupFields, i, dict, order);
    }
    assert t.rows[..|t.rows|] == t.rows;
    BucketMapListing(t.fields, t.rows, n, order, dict);
    gs := seq(|order|, j requires 0 <= j < |order| => dict[order[j]]);
  }

  /** Listing the buckets of a bucket map in key order gives the buckets. */
  lemma BucketMapListing(fields: seq<Field>, rows: seq<Row>, n: nat, ks: seq<Row>, dict: map<Row, Table>)
    requires n <= |fields| && Fits(rows, n) && dict == BucketMap(fields, rows, n, ks)
    ensures forall j :: 0 <= j < |ks| ==> ks[j] in dict
    ensures seq(|ks|, j requires 0 <= j < |ks| => dict[ks[j]]) == Buckets(fields, rows, n, ks)
  {
    BucketMapLookup(fields, rows, n, ks);
    assert forall j :: 0 <= j < |ks| ==> ks[j] in dict;
  }

  /** Every source row belongs to exactly one group, the one whose key is its
      last `n` values, and appears there, stripped, at its rank. */
  lemma RowInExactlyOneGroup(t: Table, n: nat, i: nat)
    requires WellFormed(t) && n <= |t.fields| && i < |t.rows|
    ensures var ks := DistinctKeys(t.rows, n);
            var gs := Groups(t, n);
            var j := GroupOf(t.rows, n, i);
            && j < |gs|
            && (forall j' :: 0 <= j' < |ks| ==> (ks[j'] == KeyOf(t.rows[i], n) <==> j' == j))
            && Rank(t.rows, n, i) < |gs[j].rows|
            && gs[j].rows[Rank(t.rows, n, i)] == Strip(t.rows[i], n)
  {
    var ks := DistinctKeys(t.rows, n);
    var k := KeyOf(t.rows[i], n);
    var j := GroupOf(t.rows, n, i);
    var xs, mask := StripAll(t.rows, n), Matches(t.rows, n, k);
    DistinctKeysSpec(t.rows, n);
    KeepPlacement(xs, mask, i);
  }

  /** Every row of a group is a source row with that group's key, stripped,
      found at the position its rank gives. */
  lemma GroupRowFromSource(t: Table, n: nat, j: nat, p: nat)
    requires WellFormed(t) && n <= |t.fields|
    requires j < |Groups(t, n)| && p < |Groups(t, n)[j].rows|
    ensures exists i :: 0 <= i < |t.rows| && KeyOf(t.rows[i], n) == DistinctKeys(t.rows, n)[j]
                        && GroupOf(t.rows, n, i) == j && Rank(t.rows, n, i) == p
                        && Groups(t, n)[j].rows[p] == Strip(t.rows[i], n)
  {
    var ks := DistinctKeys(t.rows, n);
    var k := ks[j];
    var xs, mask := StripAll(t.rows, n), Matches(t.rows, n, k);
    KeepOrigin(xs, mask, p);
    var i :| 0 <= i < |xs| && mask[i] && CountTrue(mask[..i]) == p && xs[i] == Keep(xs, mask)[p];
    RowInExactlyOneGroup(t, n, i);
  }

  /** Rows of one group keep their relative source order. */
  lemma GroupKeepsSourceOrder(t: Table, n: nat, i1: nat, i2: nat)
    requires WellFormed(t) && n <= |t.fields| && i1 < i2 < |t.rows|
    requires KeyOf(t.rows[i1], n) == KeyOf(t.rows[i2], n)
    ensures GroupOf(t.rows, n, i1) == GroupOf(t.rows, n, i2)
    ensures Rank(t.rows, n, i1) < Rank(t.rows, n, i2)
  {
    var mask := Matches(t.rows, n, KeyOf(t.rows[i1], n));
    CountTrueStrict(mask, i1, i2);
  }

  /** Distinct groups have distinct keys, and there is one group per distinct
      key of the source rows; so an empty table has no groups. */
  lemma GroupPerDistinctKey(t: Table, n: nat)
    requires WellFormed(t) && n <= |t.fields|
    ensures NoDuplicates(DistinctKeys(t.rows, n))
    ensures |Groups(t, n)| == |set i | 0 <= i < |t.rows| :: KeyOf(t.rows[i], n)|
    ensures |t.rows| == 0 <==> |Groups(t, n)| == 0
  {
    FitsOf(t, n);
    var ks := DistinctKeys(t.rows, n);
    DistinctKeysSpec(t.rows, n);
    NoDuplicatesCardinality(ks);
    var keySet := set i | 0 <= i < |t.rows| :: KeyOf(t.rows[i], n);
    assert keySet == Elements(ks);
    if |t.rows| > 0 {
      assert KeyOf(t.rows[0], n) in keySet;
    }
  }

  /** The number of rows with key `k`. */
  function KeyCount(rows: seq<Row>, n: nat, k: Row): nat
    requires Fits(rows, n)
  {
    CountTrue(Matches(rows, n, k))
  }

  function SumKeyCounts(rows: seq<Row>, n: nat, ks: seq<Row>): nat
    requires Fits(rows, n)
  {
    if |ks| == 0 then 0
    else SumKeyCounts(rows, n, ks[..|ks| - 1]) + KeyCount(rows, n, ks[|ks| - 1])
  }

  lemma KeyCountStep(rows: seq<Row>, n: nat, i: nat, k: Row)
    requires Fits(rows, n) && i < |rows|
    ensures KeyCount(rows[..i + 1], n, k)
            == KeyCount(rows[..i], n, k) + (if KeyOf(rows[i], n) == k then 1 else 0)
  {
    var ext := rows[..i + 1];
    assert Matches(ext, n, k)[..i] == Matches(rows[..i], n, k);
  }

  lemma {:induction false} SumKeyCountsStep(rows: seq<Row>, n: nat, i: nat, ks: seq<Row>)
    requires Fits(rows, n) && i < |rows| && NoDuplicates(ks)
    ensures SumKeyCounts(rows[..i + 1], n, ks)
            == SumKeyCounts(rows[..i], n, ks) + (if KeyOf(rows[i], n) in ks then 1 else 0)
  {
    if |ks| > 0 {
      var init, last := ks[..|ks| - 1], ks[|ks| - 1];
      var key := KeyOf(rows[i], n);
      assert NoDuplicates(init);
      SumKeyCountsStep(rows, n, i, init);
      KeyCountStep(rows, n, i, last);
      assert ks == init + [last];
      assert key in ks <==> key in init || key == last;
      assert key == last ==> key !in init;
    }
  }

  lemma {:induction false} KeyCountsCoverRows(rows: seq<Row>, n: nat)
    requires Fits(rows, n)
    ensures SumKeyCounts(rows, n, DistinctKeys(rows, n)) == |rows|
    decreases |rows|
  {
    if |rows| > 0 {
      var i := |rows| - 1;
      var pre := rows[..i];
      assert rows[..i + 1] == rows;
      KeyCountsCoverRows(pre, n);
      DistinctKeysStep(rows, n, i);
      var d := DistinctKeys(pre, n);
      var k := KeyOf(rows[i], n);
      DistinctKeysSpec(pre, n);
      SumKeyCountsStep(rows, n, i, d);
      if k !in d {
        UnseenKeyEmpty(pre, n, k);
        KeyCountStep(rows, n, i, k);
        assert (d + [k])[..|d|] == d;
      }
    }
  }

  lemma {:induction false} TotalRowsOfBuckets(fields: seq<Field>, rows: seq<Row>, n: nat, ks: seq<Row>)
    requires n <= |fields| && Fits(rows, n)
    ensures TotalRows(Buckets(fields, rows, n, ks)) == SumKeyCounts(rows, n, ks)
  {
    if |ks| > 0 {
      var init := ks[..|ks| - 1];
      TotalRowsOfBuckets(fields, rows, n, init);
      var bs := Buckets(fields, rows, n, ks);
      assert bs[..|bs| - 1] == Buckets(fields, rows, n, init);
    }
  }

  /** The groups hold exactly as many rows as the source table. */
  lemma GroupsCoverAllRows(t: Table, n: nat)
    requires WellFormed(t) && n <= |t.fields|
    ensures TotalRows(Groups(t, n)) == |t.rows|
  {
    FitsOf(t, n);
    TotalRowsOfBuckets(t.fields, t.rows, n, DistinctKeys(t.rows, n));
    KeyCountsCoverRows(t.rows, n);
  }
}
