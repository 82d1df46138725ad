# Ticker export: flattening and tabulation

A model, in Dafny, of the record-flattening and tabulation core of a small
export script. The script fetches ticker records from a REST API and writes
them to a CSV file. Each record is a nested JSON value. It becomes one flat row
whose keys are dot-separated paths. The header is the sorted union of the keys
of all rows. Each output row holds exactly the header keys, with `''` where a
record has no value.

Modules, one per component:

- `Strings` (`strings.dfy`): Python's `'|'.join`, `str.split` as its
  reference partner, and the code-point order that `sorted` uses on `str`.
  Its lemmas prove that this order is a strict total order.
- `JsonValue` (`json.dfy`): the decoded value `Json = Obj | Arr | Str | Int |
  Bool | Null`. An object keeps its fields as a sequence in dict iteration
  order. It also holds `str(x)` of a scalar (`IntText`, `ScalarText`) and
  `json.dumps(x, ensure_ascii=False)` (`JsonText`). The integer text has a
  reader, `ParseInt`, with the round trip `IntTextRoundTrip`. The string
  escaping inside `JsonText` has a reader, `Unescape`, with the round trip
  `UnescapeEscape`. `ScalarText` cannot be read back: it gives `Str("True")`
  and `Bool(true)`, `Str("")` and `Null`, `Str("7")` and `Int(7)` the same
  text. `JsonText` has no whole-value reader; what is proved about it is that
  its text holds no C0 control character, below U+0020 (`JsonTextNoC0`), so no
  `\n` or `\r` (`JsonTextNoNewline`). DEL and the C1 controls, NEL (U+0085)
  among them, are written as themselves (`KeptAsIs`).
- `Flattener` (`flatten.dfy`): `flatten(obj, parent_key, sep)` as a pure
  recursive function. The object loop `for k, v in obj.items():
  items.update(...)` is a left fold (`FlattenFields`) over the first `n`
  fields.
- `FlattenCases` (`flatten_cases.dfy`): concrete records. They cover the
  record shapes the script's docstring describes (nested objects, scalar lists,
  lists of objects), empty containers, and key collisions.
- `Tabulator` (`tabulate.dfy`): the accumulation loop as a method with loop
  invariants (`Tabulate`), and `sorted(headers)` as a selection of minima
  (`SortKeys`, `MinKey`). Also `row_out` (`RowOut`), the write loop
  (`WriteRows`), and the whole pipeline (`Export`).
- `ApiKey` (`apikey.dfy`): stripping one pair of surrounding quotes from the
  API key, and the refusal of an empty key.

The model follows the code as written, also where it differs from what the
script's purpose would suggest:

- An empty list is not omitted. `all()` over no elements is true, so `[]`
  yields `{parent_key: ''}` (`Flattener.EmptyList`,
  `FlattenCases.EmptyContainers`). Only an empty object yields no key.
- Keys can collide. This happens with a field named `""` under an empty
  parent, or with a field name that contains the separator. The later field
  in iteration order wins (`Flattener.ObjectLastWins`,
  `FlattenCases.DottedNameCollides`, `FlattenCases.EmptyNameCollides`). So
  the result does depend on field order.
- Scalar leaves keep their native type in the flat row (`Int(1)`, not
  `"1"`). Only lists become strings.
- `json.dumps` uses its default separators `", "` and `": "`, so the text is
  not the most compact JSON.

## Model

| member | source | states |
|---|---|---|
| `Flattener.Flatten` | script.py:57-75 | every value of the flat row is a scalar; every key equals the parent key or starts with parent key + separator (any key when the parent is empty); a non-object yields exactly one key, the parent key |
| `Flattener.FlattenFields` | script.py:63-66 | after any number of loop iterations over an object's fields, `items` holds only scalar values under keys below the parent key |
| `Flattener.ChildKey` | script.py:65 | definition only: `parent + sep + k` when the parent is non-empty, `k` otherwise; its properties are `ChildKeyShape` |
| `Flattener.ChildKeyShape` | script.py:65 | the child key ends with the field name; under a non-empty parent it starts with parent + sep, under an empty parent it is the field name alone; it lies below the parent |
| `Flattener.JoinedScalars` | script.py:69-70 | definition only: the `|`-join of the element texts; its properties are `ScalarList` |
| `Flattener.FieldEntries` | script.py:65-66 | definition only: `flatten(v, new_key, sep=sep)` for field `i`; its properties are `ObjectKeys`, `ObjectLastWins` and `FieldBelow` |
| `Flattener.ObjectSnoc` | script.py:64-66 | fields are merged left to right: adding a last field `(k, v)` overwrites the object's flattening with `v` flattened under `k`, or under parent + sep + `k` when the parent is non-empty |
| `Flattener.ObjectKeys` | script.py:63-66 | a key is in an object's flattening if and only if some field's flattening under its child key contains it |
| `Flattener.ObjectLastWins` | script.py:64-66 | when several fields produce the same key, the value kept is the one of the last such field |
| `Flattener.FieldBelow` | script.py:65-66 | every key a field contributes lies below that field's child key and below the parent key, and it appears in the object's flattening |
| `Flattener.EmptyObject` | script.py:62-66 | an empty object contributes no key |
| `Flattener.EmptyList` | script.py:67-70 | an empty list yields exactly the parent key, with value '' |
| `Flattener.ScalarLeaf` | script.py:73-74 | a scalar, `None` included, yields exactly `{parent_key: obj}` with the value unchanged |
| `Flattener.ScalarList` | script.py:68-70 | a non-empty list of scalars yields exactly the parent key; its value holds `len - 1` separators `|`, and splitting it on `|` gives back the element texts (`None` as ''), provided no string element contains `|` |
| `Flattener.NestedList` | script.py:71-72 | a list with an object or list among its elements yields exactly the parent key, mapped to the bracketed JSON text of the whole list |
| `FlattenCases.NestedPath` | script.py:63-66 | `{"address": {"city": "NYC", "zip": "10001"}}` flattens to `address.city` and `address.zip` |
| `FlattenCases.TagsJoined` | script.py:68-70 | `{"tags": ["x", "y", None]}` flattens to `{"tags": "x|y|"}` |
| `FlattenCases.NumbersJoined` | script.py:68-70 | integers and booleans in a scalar list are rendered by `str`, giving `-12|True|0` |
| `FlattenCases.ItemsAsJson` | script.py:71-72 | a list of objects becomes `[{"id": 1}, {"id": 2}]` |
| `FlattenCases.EmptyContainers` | script.py:62-70 | `{"a": {}, "b": []}` flattens to `{"b": ''}` |
| `FlattenCases.EmptyJoinsCoincide` | script.py:68-70 | `[]`, `[""]` and `[None]` flatten to the same entry |
| `FlattenCases.DottedNameCollides` | script.py:65-66 | a field `"a.b"` and a nested path `a` then `b` share one key, and the later field's value is kept, in either order |
| `FlattenCases.EmptyNameCollides` | script.py:65 | a field named `""` adds no segment under an empty parent (so its children collide with siblings) and leaves a trailing separator under a non-empty parent |
| `JsonValue.IsScalar` | script.py:68 | definition only: `isinstance(x, (str, int, float, bool, type(None)))`; its properties are `Flattener.ScalarLeaf` and `Flattener.Flatten`'s scalar-value clause |
| `JsonValue.AllScalar` | script.py:68 | definition only: `all(...)` of the scalar test over the list, true for `[]`; its properties are `Flattener.EmptyList`, `ScalarList` and `NestedList` |
| `JsonValue.ScalarTexts` | script.py:69-70 | definition only: the generator `'' if x is None else str(x) for x in obj`; its properties are `ScalarTextWithout` and `Flattener.ScalarList` |
| `JsonValue.IntText` | script.py:70 | `str` of an integer is non-empty and is all decimal digits, except for a leading `-` |
| `JsonValue.ScalarText` | script.py:70 | definition only: `''` for `None`, the string itself, `str` of an integer, `True`/`False`; its properties are `ScalarTextWithout` and, for integers, `IntTextRoundTrip` |
| `JsonValue.EscapeChar` | script.py:72 | the escape of one string character is non-empty and holds no C0 control character (below U+0020) |
| `JsonValue.Escape` | script.py:72 | the escaped string body is at least as long as the string |
| `JsonValue.QuoteString` | script.py:72 | a string literal starts and ends with `"` |
| `JsonValue.EscapeNoC0` | script.py:72 | neither the escaped body nor the string literal holds a C0 control character (below U+0020) |
| `JsonValue.JsonText` | script.py:72 | `json.dumps` text is never empty |
| `JsonValue.ElementsText` | script.py:72 | the element list of an array is empty exactly when no element has been written |
| `JsonValue.MembersText` | script.py:72 | the member list of an object is empty exactly when no field has been written, and otherwise starts with the quote of a key |
| `JsonValue.JsonTextNoC0` | script.py:72 | the text `json.dumps` writes for any value holds no C0 control character (below U+0020) |
| `JsonValue.ElementsNoC0` | script.py:72 | the comma-separated elements of an array hold no C0 control character (below U+0020) |
| `JsonValue.MembersNoC0` | script.py:72 | the comma-separated `"key": value` members of an object hold no C0 control character (below U+0020) |
| `JsonValue.JsonTextNoNewline` | script.py:72 | the cell a nested list becomes holds no `\n` and no `\r` |
| `JsonValue.KeptAsIs` | script.py:72 | with `ensure_ascii=False`, every character from U+0020 up other than `"` and `\` is written unescaped, DEL and the C1 controls included |
| `JsonValue.IntTextRoundTrip` | script.py:69-70 | the decimal text that `str` gives an integer reads back as that integer |
| `JsonValue.ScalarTextWithout` | script.py:69-70 | only a string element can put a `|` into a scalar's rendering |
| `JsonValue.UnescapeEscape` | script.py:72 | the string escaping of `json.dumps` loses nothing: decoding it returns the original string |
| `Strings.Join` | script.py:69-70 | definition only: `sep.join(parts)`; its partner is `Strings.Split`, tied to it by `SplitJoin` and `JoinSplit` |
| `Strings.Less` | script.py:86 | definition only: code-point lexicographic order; its properties are `LessIrreflexive`, `LessTransitive` and `LessTotal` |
| `Strings.SplitJoin` | script.py:69-70 | splitting a `|`-join of at least one separator-free piece returns the pieces |
| `Strings.JoinSplit` | script.py:69-70 | joining the pieces of a split returns the original text |
| `Strings.JoinCount` | script.py:69-70 | a join of `n >= 1` separator-free pieces holds exactly `n - 1` separators |
| `Strings.LessTransitive` | script.py:86 | the string order used by `sorted` is transitive |
| `Strings.LessTotal` | script.py:86 | any two distinct strings are ordered one way or the other |
| `Strings.LessIrreflexive` | script.py:86 | no string is less than itself |
| `Strings.StrictlySortedDistinct` | script.py:86 | a strictly increasing header holds no key twice |
| `Tabulator.FlattenAll` | script.py:81-83 | one flattened row per record, in input order, each the record flattened with an empty parent key and separator `.` |
| `Tabulator.KeysOfSnoc` | script.py:83-84 | appending a row to the list adds exactly that row's keys to the header set |
| `Tabulator.KeysOf` | script.py:80-84 | the accumulated header set contains a key if and only if some row has it |
| `Tabulator.MinKey` | script.py:86 | the key chosen is in the set and is less than every other key in it |
| `Tabulator.SortKeys` | script.py:86 | the sorted header is strictly increasing and holds exactly the keys of the set |
| `Tabulator.Tabulate` | script.py:79-86 | one row per record, in input order, each the record flattened with an empty parent key and separator `.`; the header is strictly increasing and is exactly the union of the rows' keys |
| `Tabulator.RowOut` | script.py:93 | the completed row has exactly the header keys; a header key the row has keeps its value, one it lacks holds '' |
| `Tabulator.WriteRows` | script.py:91-94 | one completed row per flattened row, in the same order |
| `Tabulator.CompletedRow` | script.py:93 | for a row that contributed to the header, completion keeps every one of its values |
| `Tabulator.Export` | script.py:78-94 | the header is the sorted union of the flattened records' keys; output row `i` has exactly the header keys, holds record `i`'s flattened value for each of its keys and '' for every other header key |
| `Tabulator.SparseRows` | script.py:79-93 | for records `{"a": 1}` and `{"b": 2}`, the header is `a, b` and each row is padded with '' for the key it lacks |
| `ApiKey.QuotedBy` | script.py:15-17 | definition only: `startswith(q) and endswith(q)`, which a lone `q` satisfies; its properties are `StripQuotes` and `RefusedKeys` |
| `ApiKey.Inner` | script.py:16-18 | definition only: `[1:-1]`, empty for keys shorter than three; its properties are `StripQuotes` and `StripQuotesRoundTrip` |
| `ApiKey.StripQuotes` | script.py:15-18 | a key that starts and ends with `"`, or starts and ends with `'`, loses its first and last characters (all of it, if it is one character long); any other key is unchanged |
| `ApiKey.StripQuotesRoundTrip` | script.py:15-18 | wrapping a key in one pair of either quote and stripping gives the key back |
| `ApiKey.CheckKey` | script.py:15-25 | the key is accepted exactly when it is non-empty after stripping, and the accepted key is the stripped one |
| `ApiKey.RefusedKeys` | script.py:15-20 | exactly five raw values are refused: empty, `"`, `'`, `""` and `''` |

## Left out

- `fetch_tickers.py` is not part of this model. It only builds request parameters and performs the HTTP request, which is network I/O.
- Loading the environment (`load_dotenv`, `os.getenv`), the request, the status-code check, the "no results" exit, file opening and path building (script.py:9-12, 39-54, 87-88) are environment and process plumbing. `Tabulator.Export` therefore also covers an empty input, which gives an empty header and no rows, whereas the script exits before tabulating.
- Printing the error messages is left out. `ApiKey.CheckKey` returns an error value instead of exiting.
- CSV writing by `csv.DictWriter` (quoting, escaping, and the conversion of values to text at write time) is library behaviour. The output is modelled as the sequence of completed row maps.
- Floating-point numbers are not modelled: `Json` has integers only. `str(x)` and `json.dumps` are written out for integers, booleans, `None` and strings only.
- An `Obj` whose field list repeats a name is outside the script's inputs. A decoded dict has unique keys, so no such record reaches `flatten`. The model does not exclude these values: it treats a repeated name like two colliding fields, and the later one wins. Decoding keeps a repeated key once, at its first position, with its last value, so the two can differ. For `[("a", 1), ("a.c", 2), ("a", {"c": 3})]` the model gives `{"a": 1, "a.c": 3}`, whereas the decoded dict `{"a": {"c": 3}, "a.c": 2}` flattens to `{"a.c": 2}`.
- `JsonValue.Unescape` is a reference decoder used only for the round-trip lemma. It keeps a `\u` escape that names a surrogate code point (U+D800 to U+DFFF) as text; every other `\u` escape is decoded. `json.dumps` with `ensure_ascii=False` never produces one.
- A Dafny `char` cannot hold a lone surrogate, which `json.loads` produces from `"\ud800"`. Strings holding one are outside `Json`.
- The separator `sep` is kept as a parameter, as in the source. Only `.` is used by the tabulation.
