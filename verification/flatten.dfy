/**
 `flatten(obj, parent_key='', sep='.')`: one decoded record becomes a single
 level mapping from dotted path to a scalar value.
 */
module Flattener {
  import opened Strings
  import opened JsonValue

  /** A flattened record; every value is a scalar. */
  type FlatRow = map<string, Json>

  /** The key a field `k` is flattened under: `parent + sep + k`, or just `k`
      when the parent key is empty (Python's `if parent_key`). */
  function ChildKey(parent: string, k: string, sep: string): string
  {
    if parent != "" then parent + sep + k else k
  }

  /** `k` lies at or below `parent`: it is `parent` or starts with
      `parent + sep`. Every key lies below the empty parent. */
  predicate Below(k: string, parent: string, sep: string)
  {
    parent == "" || k == parent || parent + sep <= k
  }

  /** The value a list of all-scalar elements collapses to:
      `'|'.join('' if x is None else str(x) for x in xs)`. */
  function JoinedScalars(xs: seq<Json>): string
    requires AllScalar(xs)
  {
    Join(ScalarTexts(xs), "|")
  }

  /** `flatten(x, parent, sep)`. Objects merge the flattening of their fields
      left to right (a later field overwrites an equal key); a list becomes one
      entry under `parent`; any other value is kept unchanged under `parent`. */
  function Flatten(x: Json, parent: string, sep: string): (r: FlatRow)
    decreases x, 1, 0
    ensures forall k :: k in r ==> IsScalar(r[k]) && Below(k, parent, sep)
    ensures !x.Obj? ==> r.Keys == {parent}
  {
    match x
    case Obj(fields) => FlattenFields(fields, |fields|, parent, sep)
    case Arr(xs) =>
      if AllScalar(xs) then map[parent := Str(JoinedScalars(xs))]
      else map[parent := Str(JsonText(x))]
    case _ => map[parent := x]
  }

  /** The `items` dict after the `for k, v in obj.items()` loop has handled
      the first `n` fields. */
  function FlattenFields(fields: seq<(string, Json)>, n: nat, parent: string, sep: string): (r: FlatRow)
    requires n <= |fields|
    decreases Obj(fields), 0, n
    ensures forall k :: k in r ==> IsScalar(r[k]) && Below(k, parent, sep)
  {
    if n == 0 then map[]
    else
      var child := ChildKey(parent, fields[n - 1].0, sep);
      var r := FlattenFields(fields, n - 1, parent, sep) + Flatten(fields[n - 1].1, child, sep);
      assert forall k :: k in r ==> Below(k, parent, sep) by {
        forall k | k in r ensures Below(k, parent, sep) {
          if parent != "" && k !in FlattenFields(fields, n - 1, parent, sep) {
            assert Below(k, child, sep);
            assert parent + sep <= child;
            if child + sep <= k {
              assert (parent + sep) == child[..|parent + sep|] == k[..|parent + sep|];
            }
          }
        }
      }
      r
  }

  /** What field `i` of an object contributes: the flattening of its value
      under its child key. */
  function FieldEntries(fields: seq<(string, Json)>, i: nat, parent: string, sep: string): FlatRow
    requires i < |fields|
  {
    Flatten(fields[i].1, ChildKey(parent, fields[i].0, sep), sep)
  }

  lemma FieldsStep(fields: seq<(string, Json)>, n: nat, parent: string, sep: string)
    requires 0 < n <= |fields|
    ensures FlattenFields(fields, n, parent, sep) ==
            FlattenFields(fields, n - 1, parent, sep) + FieldEntries(fields, n - 1, parent, sep)
  {
  }

  lemma {:induction false} FieldsKeys(fields: seq<(string, Json)>, n: nat, parent: string, sep: string, k: string)
    requires n <= |fields|
    ensures k in FlattenFields(fields, n, parent, sep) <==>
            exists i :: 0 <= i < n && k in FieldEntries(fields, i, parent, sep)
  {
    if n > 0 {
      var before := FlattenFields(fields, n - 1, parent, sep);
      var last := FieldEntries(fields, n - 1, parent, sep);
      FieldsStep(fields, n, parent, sep);
      FieldsKeys(fields, n - 1, parent, sep, k);
      assert k in FlattenFields(fields, n, parent, sep) <==> k in before || k in last;
      if k in before {
        var i :| 0 <= i < n - 1 && k in FieldEntries(fields, i, parent, sep);
        assert 0 <= i < n && k in FieldEntries(fields, i, parent, sep);
      }
      if k in last {
        assert 0 <= n - 1 < n && k in FieldEntries(fields, n - 1, parent, sep);
      }
      if i :| 0 <= i < n && k in FieldEntries(fields, i, parent, sep) {
        if i < n - 1 {
          assert k in before;
        }
      }
    }
  }

  lemma {:induction false} FieldsLastWins(fields: seq<(string, Json)>, n: nat, parent: string, sep: string, k: string, i: nat)
    requires i < n <= |fields|
    requires k in FieldEntries(fields, i, parent, sep)
    requires forall j :: i < j < n ==> k !in FieldEntries(fields, j, parent, sep)
    ensures k in FlattenFields(fields, n, parent, sep)
    ensures FlattenFields(fields, n, parent, sep)[k] == FieldEntries(fields, i, parent, sep)[k]
  {
    FieldsStep(fields, n, parent, sep);
    if i < n - 1 {
      FieldsLastWins(fields, n - 1, parent, sep, k, i);
    }
  }

  lemma {:induction false} FieldsPrefix(a: seq<(string, Json)>, b: seq<(string, Json)>, n: nat, parent: string, sep: string)
    requires n <= |a| && n <= |b| && a[..n] == b[..n]
    ensures FlattenFields(a, n, parent, sep) == FlattenFields(b, n, parent, sep)
  {
    if n > 0 {
      assert a[n - 1] == a[..n][n - 1] == b[..n][n - 1] == b[n - 1];
      assert a[..n - 1] == a[..n][..n - 1] == b[..n][..n - 1] == b[..n - 1];
      FieldsPrefix(a, b, n - 1, parent, sep);
      FieldsStep(a, n, parent, sep);
      FieldsStep(b, n, parent, sep);
    }
  }

  /** A field's key ends with the field's name; under a non-empty parent it
      starts with the parent and the separator, under an empty one it is the
      name alone. */
  lemma ChildKeyShape(parent: string, k: string, sep: string)
    ensures var c := ChildKey(parent, k, sep);
            |k| <= |c| && c[|c| - |k|..] == k && Below(c, parent, sep) &&
            (parent != "" ==> parent + sep <= c) && (parent == "" ==> c == k)
  {
  }

  /** Flattening an object whose last field is `(k, v)` is flattening the
      object without it and then overwriting with `v` flattened under its
      child key: the fields are merged left to right. */
  lemma ObjectSnoc(fields: seq<(string, Json)>, k: string, v: Json, parent: string, sep: string)
    ensures Flatten(Obj(fields + [(k, v)]), parent, sep) ==
            Flatten(Obj(fields), parent, sep) + Flatten(v, ChildKey(parent, k, sep), sep)
  {
    var all := fields + [(k, v)];
    assert all[..|fields|] == fields[..|fields|];
    FieldsPrefix(all, fields, |fields|, parent, sep);
    FieldsStep(all, |all|, parent, sep);
  }

  /** An object's keys are exactly the keys its fields contribute, each field
      flattened under its child key. */
  lemma ObjectKeys(fields: seq<(string, Json)>, parent: string, sep: string, k: string)
    ensures k in Flatten(Obj(fields), parent, sep) <==>
            exists i :: 0 <= i < |fields| && k in FieldEntries(fields, i, parent, sep)
  {
    FieldsKeys(fields, |fields|, parent, sep, k);
  }

  /** When several fields produce the same key, the value of the last of
      them in iteration order is the one kept. */
  lemma ObjectLastWins(fields: seq<(string, Json)>, parent: string, sep: string, k: string, i: nat)
    requires i < |fields|
    requires k in FieldEntries(fields, i, parent, sep)
    requires forall j :: i < j < |fields| ==> k !in FieldEntries(fields, j, parent, sep)
    ensures k in Flatten(Obj(fields), parent, sep)
    ensures Flatten(Obj(fields), parent, sep)[k] == FieldEntries(fields, i, parent, sep)[k]
  {
    FieldsLastWins(fields, |fields|, parent, sep, k, i);
  }

  /** Each key a field contributes lies below that field's child key, and so
      below `parent`. */
  lemma FieldBelow(fields: seq<(string, Json)>, i: nat, parent: string, sep: string, k: string)
    requires i < |fields|
    requires k in FieldEntries(fields, i, parent, sep)
    ensures Below(k, ChildKey(parent, fields[i].0, sep), sep)
    ensures k in Flatten(Obj(fields), parent, sep)
    ensures Below(k, parent, sep)
  {
    ObjectKeys(fields, parent, sep, k);
  }

  /** An empty object contributes no key at all. */
  lemma EmptyObject(parent: string, sep: string)
    ensures Flatten(Obj([]), parent, sep) == map[]
  {
  }

  /** An empty list is not omitted: `all()` of nothing holds, so it yields
      its parent key with the empty join. */
  lemma EmptyList(parent: string, sep: string)
    ensures Flatten(Arr([]), parent, sep) == map[parent := Str("")]
  {
    assert AllScalar([]);
  }

  /** A scalar, `None` included, is kept unchanged under the parent key. */
  lemma ScalarLeaf(x: Json, parent: string, sep: string)
    requires IsScalar(x)
    ensures Flatten(x, parent, sep) == map[parent := x]
  {
  }

  /** A list of scalars yields one entry, under `parent`, whose `|`-separated
      pieces are the element texts (`None` as ''): there are `|xs| - 1`
      separators, and splitting gives the texts back, whenever no element
      string itself holds a `|`. */
  lemma ScalarList(xs: seq<Json>, parent: string, sep: string)
    requires |xs| >= 1 && AllScalar(xs)
    requires forall i :: 0 <= i < |xs| && xs[i].Str? ==> '|' !in xs[i].s
    ensures Flatten(Arr(xs), parent, sep).Keys == {parent}
    ensures var v := Flatten(Arr(xs), parent, sep)[parent];
            v.Str? && Split(v.s, '|') == ScalarTexts(xs) && CountChar(v.s, '|') == |xs| - 1
  {
    var texts := ScalarTexts(xs);
    forall i | 0 <= i < |texts| ensures '|' !in texts[i] {
      ScalarTextWithout(xs[i], '|');
    }
    SplitJoin(texts, '|');
    JoinCount(texts, '|');
  }

  /** A list with at least one object or list among its elements yields one
      entry, under `parent`, holding the JSON text of the whole list, which
      is bracketed. */
  lemma NestedList(xs: seq<Json>, parent: string, sep: string)
    requires !AllScalar(xs)
    ensures Flatten(Arr(xs), parent, sep) == map[parent := Str(JsonText(Arr(xs)))]
    ensures var t := JsonText(Arr(xs)); |t| >= 2 && t[0] == '[' && t[|t| - 1] == ']'
  {
  }
}
