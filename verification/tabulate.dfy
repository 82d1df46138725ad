/**
 The tabulation step of the export script: flatten every record in order,
 collect the union of their keys, sort it into the header, and complete each
 row so that it has exactly the header's keys.
 */
module Tabulator {
  import opened Strings
  import opened JsonValue
  import opened Flattener

  /** The union of the keys of all rows. */
  function KeysOf(rows: seq<FlatRow>): (keys: set<string>)
    ensures forall k :: k in keys <==> exists i :: 0 <= i < |rows| && k in rows[i]
  {
    if rows == [] then {}
    else
      var last := rows[|rows| - 1];
      var keys := KeysOf(rows[..|rows| - 1]) + last.Keys;
      assert forall k :: k in keys ==> exists i :: 0 <= i < |rows| && k in rows[i] by {
        forall k | k in keys ensures exists i :: 0 <= i < |rows| && k in rows[i] {
          if k !in last {
            var i :| 0 <= i < |rows| - 1 && k in rows[..|rows| - 1][i];
            assert k in rows[i];
          }
        }
      }
      assert forall i, k :: 0 <= i < |rows| && k in rows[i] ==> k in keys by {
        forall i, k | 0 <= i < |rows| && k in rows[i] ensures k in keys {
          if i < |rows| - 1 { assert rows[..|rows| - 1][i] == rows[i]; }
        }
      }
      keys
  }

  lemma KeysOfSnoc(rows: seq<FlatRow>, r: FlatRow)
    ensures KeysOf(rows + [r]) == KeysOf(rows) + r.Keys
  {
    assert (rows + [r])[..|rows|] == rows;
  }

  /** The least key of a non-empty set, in Python's string order. */
  method MinKey(keys: set<string>) returns (m: string)
    requires keys != {}
    ensures m in keys
    ensures forall k :: k in keys && k != m ==> Less(m, k)
  {
    m :| m in keys;
    var rest := keys - {m};
    while rest != {}
      invariant rest <= keys && m in keys && m !in rest
      invariant forall k :: k in keys && k !in rest && k != m ==> Less(m, k)
      decreases |rest|
    {
      var k :| k in rest;
      if Less(k, m) {
        forall y | y in keys && y !in rest && y != k && y != m ensures Less(k, y) {
          LessTransitive(k, m, y);
        }
        m := k;
      } else {
        LessTotal(k, m);
      }
      rest := rest - {k};
    }
  }

  /** `sorted(headers)`: the keys in increasing order, each exactly once. */
  method SortKeys(keys: set<string>) returns (sorted: seq<string>)
    ensures StrictlySorted(sorted)
    ensures forall k :: k in sorted <==> k in keys
  {
    sorted := [];
    var rest := keys;
    while rest != {}
      invariant rest <= keys
      invariant StrictlySorted(sorted)
      invariant forall k :: k in sorted <==> k in keys && k !in rest
      invariant forall i, k :: 0 <= i < |sorted| && k in rest ==> Less(sorted[i], k)
      decreases |rest|
    {
      var m := MinKey(rest);
      sorted := sorted + [m];
      rest := rest - {m};
    }
  }

  /** Every record flattened with an empty parent key and separator `.`,
      in input order. */
  function FlattenAll(results: seq<Json>): (rows: seq<FlatRow>)
    ensures |rows| == |results|
    ensures forall i :: 0 <= i < |results| ==> rows[i] == Flatten(results[i], "", ".")
  {
    if results == [] then []
    else FlattenAll(results[..|results| - 1]) + [Flatten(results[|results| - 1], "", ".")]
  }

  /** The `for item in results` loop and the sort that follows it: one
      flattened row per record, in input order, and the sorted union of their
      keys as header. */
  method Tabulate(results: seq<Json>) returns (rows: seq<FlatRow>, headers: seq<string>)
    ensures |rows| == |results|
    ensures forall i :: 0 <= i < |results| ==> rows[i] == Flatten(results[i], "", ".")
    ensures StrictlySorted(headers)
    ensures forall k :: k in headers <==> exists i :: 0 <= i < |rows| && k in rows[i]
  {
    rows := [];
    var seen: set<string> := {};
    for n := 0 to |results|
      invariant rows == FlattenAll(results[..n])
      invariant seen == KeysOf(rows)
    {
      var flat := Flatten(results[n], "", ".");
      KeysOfSnoc(rows, flat);
      assert results[..n + 1][..n] == results[..n];
      rows := rows + [flat];
      seen := seen + flat.Keys;
    }
    assert results[..|results|] == results;
    headers := SortKeys(seen);
  }

  /** `{h: r.get(h, '') for h in headers}`: exactly the header keys, each
      holding the row's value when the row has that key and '' otherwise. */
  function RowOut(r: FlatRow, headers: seq<string>): (out: map<string, Json>)
    ensures forall h :: h in out <==> h in headers
    ensures forall k :: k in r && k in headers ==> out[k] == r[k]
    ensures forall h :: h in headers && h !in r ==> out[h] == Str("")
  {
    map h | h in headers :: if h in r then r[h] else Str("")
  }

  /** The `for r in rows` loop: one completed row per flattened row, in the
      same order. */
  method WriteRows(rows: seq<FlatRow>, headers: seq<string>) returns (written: seq<map<string, Json>>)
    ensures |written| == |rows|
    ensures forall i :: 0 <= i < |rows| ==> written[i] == RowOut(rows[i], headers)
  {
    written := [];
    for n := 0 to |rows|
      invariant |written| == n
      invariant forall i :: 0 <= i < n ==> written[i] == RowOut(rows[i], headers)
    {
      written := written + [RowOut(rows[n], headers)];
    }
  }

  /** The whole export: the header is the sorted, duplicate-free union of the
      flattened records' keys, and output row `i` has exactly the header keys,
      holding record `i`'s flattened values and '' where it has none. */
  method Export(results: seq<Json>) returns (headers: seq<string>, written: seq<map<string, Json>>)
    ensures StrictlySorted(headers)
    ensures forall k :: k in headers <==> exists i :: 0 <= i < |results| && k in Flatten(results[i], "", ".")
    ensures |written| == |results|
    ensures forall i :: 0 <= i < |results| ==>
              (forall h :: h in written[i] <==> h in headers) &&
              (forall k :: k in Flatten(results[i], "", ".") ==> written[i][k] == Flatten(results[i], "", ".")[k]) &&
              (forall h :: h in headers && h !in Flatten(results[i], "", ".") ==> written[i][h] == Str(""))
  {
    var rows;
    rows, headers := Tabulate(results);
    written := WriteRows(rows, headers);
    forall i | 0 <= i < |results|
      ensures (forall h :: h in written[i] <==> h in headers) &&
              (forall k :: k in Flatten(results[i], "", ".") ==> written[i][k] == Flatten(results[i], "", ".")[k]) &&
              (forall h :: h in headers && h !in Flatten(results[i], "", ".") ==> written[i][h] == Str(""))
    {
      CompletedRow(rows, i, headers);
    }
  }

  /** A row that is one of those the header was built from keeps all its
      values once completed. */
  lemma CompletedRow(rows: seq<FlatRow>, i: nat, headers: seq<string>)
    requires i < |rows|
    requires forall k :: k in headers <==> exists j :: 0 <= j < |rows| && k in rows[j]
    ensures forall h :: h in RowOut(rows[i], headers) <==> h in headers
    ensures forall k :: k in rows[i] ==> RowOut(rows[i], headers)[k] == rows[i][k]
    ensures forall h :: h in headers && h !in rows[i] ==> RowOut(rows[i], headers)[h] == Str("")
  {
    forall k | k in rows[i] ensures k in headers {
      assert exists j :: 0 <= j < |rows| && k in rows[j];
    }
  }

  /** Two records with different fields: the header is both keys, and each
      row is padded with '' for the key it lacks. */
  lemma SparseRows()
    ensures var rows := [Flatten(Obj([("a", Int(1))]), "", "."), Flatten(Obj([("b", Int(2))]), "", ".")];
            KeysOf(rows) == {"a", "b"} && StrictlySorted(["a", "b"]) &&
            RowOut(rows[0], ["a", "b"]) == map["a" := Int(1), "b" := Str("")] &&
            RowOut(rows[1], ["a", "b"]) == map["a" := Str(""), "b" := Int(2)]
  {
    ObjectSnoc([], "a", Int(1), "", ".");
    ObjectSnoc([], "b", Int(2), "", ".");
    assert [] + [("a", Int(1))] == [("a", Int(1))];
    assert [] + [("b", Int(2))] == [("b", Int(2))];
    assert Flatten(Obj([]), "", ".") == map[];
    var rows := [Flatten(Obj([("a", Int(1))]), "", "."), Flatten(Obj([("b", Int(2))]), "", ".")];
    assert rows[0] == map["a" := Int(1)] && rows[1] == map["b" := Int(2)];
    assert Less("a", "b");
  }
}
