/**
 * The two request inputs the handlers read, each with a silent fallback:
 * the `rows` query parameter of /init and the `{id}` path variable of
 * /find/{id}.  A value that Atoi refuses is ignored, never reported.
 */
module RequestParams {
  import opened Wrappers
  import opened KeyCodec
  import opened Strconv

  /** A parsed query string: each key maps to the values given for it, in order. */
  type Query = map<string, seq<string>>

  /** Path variables captured by the router. */
  type Vars = map<string, string>

  const DefaultRows: int := 10_000

  /** The key looked up when no usable id is given: Pad13(0). */
  const DefaultKey: string := "0000000000000"

  /** Go's url.Values never holds a key with no value. */
  predicate RowsWellFormed(q: Query) {
    "rows" in q ==> |q["rows"]| > 0
  }

  /** The seed's row count: the first `rows` value if Atoi accepts it, 10 000 otherwise. */
  function RowsParam(q: Query): (n: int)
    requires RowsWellFormed(q)
    ensures MinInt <= n <= MaxInt
    ensures "rows" in q && Atoi(q["rows"][0]).Some? ==> n == Atoi(q["rows"][0]).value
    ensures "rows" !in q || Atoi(q["rows"][0]).None? ==> n == DefaultRows
  {
    if "rows" in q then
      match Atoi(q["rows"][0])
      case Some(count) => count
      case None => DefaultRows
    else DefaultRows
  }

  /** The id the lookup key is rendered from: the parsed `id`, or 0 when there is none. */
  function LookupId(vars: Vars): (id: int)
    ensures MinInt <= id <= MaxInt
    ensures "id" in vars && Atoi(vars["id"]).Some? ==> id == Atoi(vars["id"]).value
    ensures "id" !in vars || Atoi(vars["id"]).None? ==> id == 0
  {
    if "id" in vars && Atoi(vars["id"]).Some? then Atoi(vars["id"]).value else 0
  }

  /** The secondary key /find/{id} looks up. */
  function LookupKey(vars: Vars): (key: string)
    ensures "id" !in vars || Atoi(vars["id"]).None? ==> key == DefaultKey
    ensures "id" in vars && Atoi(vars["id"]).Some? ==> key == Pad13(Atoi(vars["id"]).value)
  {
    if "id" in vars then
      match Atoi(vars["id"])
      case Some(s) => Pad13(s)
      case None => DefaultKey
    else DefaultKey
  }

  lemma DefaultKeyIsPad13Zero()
    ensures DefaultKey == Pad13(0)
  {
    assert Digits(0) == "0";
    assert Zeros(12) + "0" == DefaultKey;
  }

  /**
   * Every lookup key is the rendering of the id it came from, so ids in
   * 0 <= id < 10^13 give 13-digit keys that read back as the id, and two
   * requests share a key exactly when they share that id.
   */
  lemma LookupKeyRendersId(vars: Vars, other: Vars)
    ensures LookupKey(vars) == Pad13(LookupId(vars))
    ensures 0 <= LookupId(vars) < Pow10(KeyWidth) ==>
      |LookupKey(vars)| == KeyWidth && AllDigits(LookupKey(vars)) && ReadDecimal(LookupKey(vars)) == LookupId(vars)
    ensures LookupKey(vars) == LookupKey(other) <==> LookupId(vars) == LookupId(other)
  {
    DefaultKeyIsPad13Zero();
    Pad13Injective(LookupId(vars), LookupId(other));
    if 0 <= LookupId(vars) < Pow10(KeyWidth) {
      Pad13Digits(LookupId(vars));
    }
  }

  /** Seeding with rows=5 uses 5; an unparsable or missing `rows` falls back to 10 000; only the first value counts. */
  lemma RowsScenario()
    ensures RowsParam(map["rows" := ["5"]]) == 5
    ensures RowsParam(map["rows" := ["5", "7"]]) == 5
    ensures RowsParam(map["rows" := ["five"]]) == DefaultRows
    ensures RowsParam(map[]) == DefaultRows
  {
    assert "5"[1..] == "";
    assert !IntegerSyntax("five") by { assert !IsDigit("five"[0]); }
  }

  /** find/3 looks up Pad13(3); find/abc falls back to the default key. */
  lemma FindScenario()
    ensures LookupKey(map["id" := "3"]) == Pad13(3)
    ensures LookupKey(map["id" := "abc"]) == DefaultKey
  {
    assert "3"[1..] == "";
    assert !IntegerSyntax("abc") by { assert !IsDigit("abc"[0]); }
  }
}
