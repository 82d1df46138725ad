/**
 Concrete records and what `flatten` makes of them: the record shapes the
 script's docstring describes, and the cases where the code does not do what
 one might expect (empty lists are kept, keys collide).
 */
module FlattenCases {
  import opened Strings
  import opened JsonValue
  import opened Flattener

  lemma OneField(k: string, v: Json, parent: string, sep: string)
    ensures Flatten(Obj([(k, v)]), parent, sep) == Flatten(v, ChildKey(parent, k, sep), sep)
  {
    ObjectSnoc([], k, v, parent, sep);
    assert [] + [(k, v)] == [(k, v)];
    assert Flatten(Obj([]), parent, sep) == map[];
  }

  lemma TwoFields(k1: string, v1: Json, k2: string, v2: Json, parent: string, sep: string)
    ensures Flatten(Obj([(k1, v1), (k2, v2)]), parent, sep)
            == Flatten(v1, ChildKey(parent, k1, sep), sep) + Flatten(v2, ChildKey(parent, k2, sep), sep)
  {
    OneField(k1, v1, parent, sep);
    ObjectSnoc([(k1, v1)], k2, v2, parent, sep);
    assert [(k1, v1)] + [(k2, v2)] == [(k1, v1), (k2, v2)];
  }

  /** Nested objects give dotted paths. */
  lemma NestedPath()
    ensures Flatten(Obj([("address", Obj([("city", Str("NYC")), ("zip", Str("10001"))]))]), "", ".")
            == map["address.city" := Str("NYC"), "address.zip" := Str("10001")]
  {
    TwoFields("city", Str("NYC"), "zip", Str("10001"), "address", ".");
    assert ChildKey("address", "city", ".") == "address.city";
    assert ChildKey("address", "zip", ".") == "address.zip";
    OneField("address", Obj([("city", Str("NYC")), ("zip", Str("10001"))]), "", ".");
  }

  /** A scalar list is `|`-joined with `None` rendered as ''. */
  lemma TagsJoined()
    ensures Flatten(Obj([("tags", Arr([Str("x"), Str("y"), Null]))]), "", ".")
            == map["tags" := Str("x|y|")]
  {
    var xs := [Str("x"), Str("y"), Null];
    assert AllScalar(xs);
    assert ScalarTexts(xs) == ["x", "y", ""];
    assert Join(["y", ""], "|") == "y|";
    assert JoinedScalars(xs) == "x|y|";
    OneField("tags", Arr(xs), "", ".");
  }

  /** Integers and booleans use `str`, so `True` rather than JSON's `true`. */
  lemma NumbersJoined()
    ensures Flatten(Arr([Int(-12), Bool(true), Int(0)]), "codes", ".")
            == map["codes" := Str("-12|True|0")]
  {
    var xs := [Int(-12), Bool(true), Int(0)];
    assert AllScalar(xs);
    assert NatText(12) == "12";
    assert IntText(-12) == "-12";
    assert IntText(0) == "0";
    assert ScalarTexts(xs) == ["-12", "True", "0"];
    assert Join(["True", "0"], "|") == "True|0";
    assert JoinedScalars(xs) == "-12|True|0";
  }

  lemma IdObjectText(i: int, digit: string)
    requires 0 <= i < 10 && digit == [DigitChar(i)]
    ensures JsonText(Obj([("id", Int(i))])) == "{\"id\": " + digit + "}"
  {
    var fields := [("id", Int(i))];
    assert Escape("id") == "id";
    assert IntText(i) == digit;
    assert MembersText(fields, 1) == "\"id\"" + ": " + digit;
  }

  lemma PairText(a: Json, b: Json)
    ensures JsonText(Arr([a, b])) == "[" + JsonText(a) + ", " + JsonText(b) + "]"
  {
    var xs := [a, b];
    assert xs[0] == a && xs[1] == b;
    assert ElementsText(xs, 1) == JsonText(a);
  }

  lemma ItemsText()
    ensures JsonText(Arr([Obj([("id", Int(1))]), Obj([("id", Int(2))])])) == "[{\"id\": 1}, {\"id\": 2}]"
  {
    var a := Obj([("id", Int(1))]);
    var b := Obj([("id", Int(2))]);
    IdObjectText(1, "1");
    IdObjectText(2, "2");
    PairText(a, b);
    ItemsLiteral("{\"id\": 1}", "{\"id\": 2}");
  }

  /** Kept apart from `ItemsText` so that matching the concatenation
      against one long literal is a proof of its own; inside `ItemsText` it
      brings that lemma close to the solver's resource budget. */
  lemma ItemsLiteral(ta: string, tb: string)
    requires ta == "{\"id\": 1}" && tb == "{\"id\": 2}"
    ensures "[" + ta + ", " + tb + "]" == "[{\"id\": 1}, {\"id\": 2}]"
  {
  }

  /** A list of objects becomes the JSON text of the whole list. */
  lemma ItemsAsJson()
    ensures Flatten(Obj([("items", Arr([Obj([("id", Int(1))]), Obj([("id", Int(2))])]))]), "", ".")
            == map["items" := Str("[{\"id\": 1}, {\"id\": 2}]")]
  {
    var xs := [Obj([("id", Int(1))]), Obj([("id", Int(2))])];
    assert xs[0].Obj? && !AllScalar(xs);
    NestedList(xs, "items", ".");
    ItemsText();
    OneField("items", Arr(xs), "", ".");
  }

  /** An empty object disappears, but an empty list keeps its key with ''. */
  lemma EmptyContainers()
    ensures Flatten(Obj([("a", Obj([])), ("b", Arr([]))]), "", ".") == map["b" := Str("")]
  {
    assert AllScalar([]);
    TwoFields("a", Obj([]), "b", Arr([]), "", ".");
  }

  /** An empty list, a list holding only `''` and a list holding only `None`
      all flatten to the same entry. */
  lemma EmptyJoinsCoincide(parent: string, sep: string)
    ensures Flatten(Arr([]), parent, sep) == Flatten(Arr([Str("")]), parent, sep)
    ensures Flatten(Arr([Null]), parent, sep) == Flatten(Arr([Str("")]), parent, sep)
  {
    assert AllScalar([]) && AllScalar([Str("")]) && AllScalar([Null]);
    assert ScalarTexts([Str("")]) == [""];
    assert ScalarTexts([Null]) == [""];
  }

  /** A field name holding the separator collides with a nested path; the
      later field wins. */
  lemma DottedNameCollides()
    ensures Flatten(Obj([("a", Obj([("b", Int(1))])), ("a.b", Int(2))]), "", ".") == map["a.b" := Int(2)]
    ensures Flatten(Obj([("a.b", Int(2)), ("a", Obj([("b", Int(1))]))]), "", ".") == map["a.b" := Int(1)]
  {
    var inner := Obj([("b", Int(1))]);
    OneField("b", Int(1), "a", ".");
    assert ChildKey("a", "b", ".") == "a.b";
    TwoFields("a", inner, "a.b", Int(2), "", ".");
    TwoFields("a.b", Int(2), "a", inner, "", ".");
  }

  /** A field named "" under an empty parent key adds no path segment, so its
      children collide with their siblings' names; under a non-empty parent
      it leaves a trailing separator. */
  lemma EmptyNameCollides()
    ensures Flatten(Obj([("", Obj([("a", Int(1))])), ("a", Int(2))]), "", ".") == map["a" := Int(2)]
    ensures Flatten(Obj([("x", Obj([("", Int(1))]))]), "", ".") == map["x." := Int(1)]
  {
    OneField("a", Int(1), "", ".");
    TwoFields("", Obj([("a", Int(1))]), "a", Int(2), "", ".");
    OneField("", Int(1), "x", ".");
    assert ChildKey("x", "", ".") == "x.";
    OneField("x", Obj([("", Int(1))]), "", ".");
  }
}
