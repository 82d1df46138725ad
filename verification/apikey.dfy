/**
 Reading the API key: one pair of surrounding quotes that some `.env`
 formats leave in the value is dropped, and an empty key is refused.
 */
module ApiKey {

  datatype KeyError = EmptyKey

  datatype Result<T> = Ok(value: T) | Err(error: KeyError)

  /** `s.startswith(q) and s.endswith(q)`; a lone `q` both starts and ends
      with it. */
  predicate QuotedBy(s: string, q: char)
  {
    |s| >= 1 && s[0] == q && s[|s| - 1] == q
  }

  /** Python's `s[1:-1]`, which is empty for strings shorter than three. */
  function Inner(s: string): string
  {
    if |s| <= 2 then "" else s[1..|s| - 1]
  }

  /** Drop one pair of surrounding `"` or `'`; any other key is unchanged. */
  function StripQuotes(raw: string): (key: string)
    ensures QuotedBy(raw, '"') || QuotedBy(raw, '\'') ==>
              |key| == (if |raw| >= 2 then |raw| - 2 else 0) &&
              forall i :: 0 <= i < |key| ==> key[i] == raw[i + 1]
    ensures !QuotedBy(raw, '"') && !QuotedBy(raw, '\'') ==> key == raw
  {
    if QuotedBy(raw, '"') then Inner(raw)
    else if QuotedBy(raw, '\'') then Inner(raw)
    else raw
  }

  /** Quoting a key and stripping it again gives the key back. */
  lemma StripQuotesRoundTrip(s: string, q: char)
    requires q == '"' || q == '\''
    ensures StripQuotes([q] + s + [q]) == s
  {
    var raw := [q] + s + [q];
    assert QuotedBy(raw, q);
    if |s| > 0 {
      assert raw[1..|raw| - 1] == s;
    }
  }

  /** The key after stripping, or the error when nothing is left. */
  function CheckKey(raw: string): (r: Result<string>)
    ensures r.Ok? <==> StripQuotes(raw) != ""
    ensures r.Ok? ==> r.value == StripQuotes(raw)
  {
    var key := StripQuotes(raw);
    if key == "" then Err(EmptyKey) else Ok(key)
  }

  /** Exactly five raw values are refused: the empty one, a lone quote of
      either kind, and an empty pair of quotes of either kind. */
  lemma RefusedKeys(raw: string)
    ensures CheckKey(raw).Err? <==>
            raw == "" || raw == "\"" || raw == "'" || raw == "\"\"" || raw == "''"
  {
    if |raw| >= 3 && (QuotedBy(raw, '"') || QuotedBy(raw, '\'')) {
      assert |StripQuotes(raw)| > 0;
    } else if |raw| == 2 && QuotedBy(raw, '"') {
      assert raw == "\"\"";
    } else if |raw| == 2 && QuotedBy(raw, '\'') {
      assert raw == "''";
    } else if |raw| == 1 && QuotedBy(raw, '"') {
      assert raw == "\"";
    } else if |raw| == 1 && QuotedBy(raw, '\'') {
      assert raw == "'";
    }
  }
}
