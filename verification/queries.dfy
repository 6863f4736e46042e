/**
 * The two lookup handlers: the statement each one sends and the envelope it
 * answers with.  The store is a parameter, `execute`, from the statement
 * sent to the cursor the store hands back.
 */
module Queries {
  import opened Wrappers
  import opened KeyCodec
  import opened Records
  import opened RequestParams

  /** A CQL statement: its text, with `?` bind markers, and the bound values in order. */
  datatype Statement = Statement(text: string, params: seq<string>)

  /** Search asks for this many secondary keys, each drawn by rand.Intn(SearchIdBound). */
  const SearchKeyCount: nat := 10
  const SearchIdBound: nat := 1000

  // The text both SELECTs share, line by line as the source writes it.
  const SelectClause: string := "SELECT secondaryId, clusterCol1, " + "clusterCol2, dataCol1, dataCol2, dataCol3\n"
  const FromClause: string := "                FROM demo.demo\n"
  const WhereHead: string := "               WHERE primaryId = "
  const WhereTail: string := " AND secondaryId "
  const WhereClause: string := WhereHead + "?" + WhereTail
  const SelectHead: string := SelectClause + FromClause + WhereClause

  /** The search statement before its `:ids` slot is filled. */
  const SearchTemplate: string := SelectHead + "IN(" + ":ids" + ")"

  /** The find statement: equality on both partition-key columns. */
  const FindText: string := SelectHead + "= ?"

  /** Go's strings.Repeat(s, n): n copies of s, back to back. */
  function Repeat(s: string, n: nat): (r: string)
    ensures |r| == n * |s|
  {
    if n == 0 then "" else s + Repeat(s, n - 1)
  }

  function CountChar(c: char, s: string): nat {
    if |s| == 0 then 0 else (if s[0] == c then 1 else 0) + CountChar(c, s[1..])
  }

  /** Go's strings.Replace(s, pat, rep, -1): every non-overlapping occurrence, left to right. */
  function ReplaceAll(s: string, pat: string, rep: string): (r: string)
    requires |pat| > 0
    ensures pat[0] !in s ==> r == s
    decreases |s|
  {
    if |s| < |pat| then s
    else if s[..|pat|] == pat then
      assert s[0] == pat[0];
      rep + ReplaceAll(s[|pat|..], pat, rep)
    else
      assert forall x :: x in s[1..] ==> x in s;
      [s[0]] + ReplaceAll(s[1..], pat, rep)
  }

  /** strings.Repeat("?,", 9) + "?": ten bind markers separated by commas. */
  function InList(): (ids: string)
    ensures CountChar('?', ids) == SearchKeyCount
    ensures |ids| == 2 * SearchKeyCount - 1
  {
    MarkerListCount(SearchKeyCount - 1);
    Repeat("?,", SearchKeyCount - 1) + "?"
  }

  /** The search statement: the template with its `:ids` slot replaced by the marker list. */
  function SearchText(): (text: string)
    ensures text == SelectHead + "IN(" + InList() + ")"
  {
    SelectHeadFree();
    assert SearchTemplate == (SelectHead + "IN(") + ":ids" + ")";
    ReplaceAllOnce(SelectHead + "IN(", ")", ":ids", InList());
    ReplaceAll(SearchTemplate, ":ids", InList())
  }

  lemma {:induction false} CountCharConcat(c: char, a: string, b: string)
    ensures CountChar(c, a + b) == CountChar(c, a) + CountChar(c, b)
    decreases |a|
  {
    if |a| == 0 {
      assert a + b == b;
    } else {
      assert (a + b)[1..] == a[1..] + b;
      CountCharConcat(c, a[1..], b);
    }
  }

  lemma {:induction false} CountCharAbsent(c: char, s: string)
    requires c !in s
    ensures CountChar(c, s) == 0
    decreases |s|
  {
    if |s| > 0 {
      assert s[0] in s;
      assert forall x :: x in s[1..] ==> x in s;
      CountCharAbsent(c, s[1..]);
    }
  }

  lemma {:induction false} CountRepeat(c: char, s: string, n: nat)
    ensures CountChar(c, Repeat(s, n)) == n * CountChar(c, s)
  {
    if n > 0 {
      CountRepeat(c, s, n - 1);
      CountCharConcat(c, s, Repeat(s, n - 1));
      assert n * CountChar(c, s) == CountChar(c, s) + (n - 1) * CountChar(c, s);
    }
  }

  /** A prefix that cannot start the pattern is copied unchanged. */
  lemma {:induction false} ReplaceAllSkips(s: string, t: string, pat: string, rep: string)
    requires |pat| > 0 && pat[0] !in s
    ensures ReplaceAll(s + t, pat, rep) == s + ReplaceAll(t, pat, rep)
    decreases |s|
  {
    if |s| == 0 {
      assert s + t == t;
    } else {
      var u := s + t;
      assert u[0] == s[0];
      assert forall x :: x in s[1..] ==> x in s;
      ReplaceAllSkips(s[1..], t, pat, rep);
      assert u[1..] == s[1..] + t;
      if |u| < |pat| {
        assert ReplaceAll(t, pat, rep) == t by {
          ReplaceAllShort(t, pat, rep);
        }
      } else {
        assert u[..|pat|][0] == s[0];
        assert [s[0]] + (s[1..] + ReplaceAll(t, pat, rep)) == s + ReplaceAll(t, pat, rep);
      }
    }
  }

  lemma ReplaceAllShort(t: string, pat: string, rep: string)
    requires |pat| > 0 && |t| < |pat|
    ensures ReplaceAll(t, pat, rep) == t
  {
  }

  /** Replacing in a text that holds the pattern once, between two pattern-free parts. */
  lemma ReplaceAllOnce(s: string, t: string, pat: string, rep: string)
    requires |pat| > 0 && pat[0] !in s && pat[0] !in t
    ensures ReplaceAll(s + pat + t, pat, rep) == s + rep + t
  {
    ReplaceAllSkips(s, pat + t, pat, rep);
    assert (pat + t)[..|pat|] == pat && (pat + t)[|pat|..] == t;
    ReplaceAllSkips(t, [], pat, rep);
    assert t + [] == t;
    assert s + (pat + t) == s + pat + t;
  }

  // The literal pieces hold no ':' and, but for the one in WHERE, no '?'.
  lemma SelectClauseFree()
    ensures ':' !in SelectClause && '?' !in SelectClause
  {
    assert ':' !in "SELECT secondaryId, clusterCol1, " && '?' !in "SELECT secondaryId, clusterCol1, ";
    assert ':' !in "clusterCol2, dataCol1, dataCol2, dataCol3\n" && '?' !in "clusterCol2, dataCol1, dataCol2, dataCol3\n";
  }

  lemma FromClauseFree()
    ensures ':' !in FromClause && '?' !in FromClause
  {
  }

  lemma WherePartsFree()
    ensures ':' !in WhereHead && '?' !in WhereHead && ':' !in WhereTail && '?' !in WhereTail
  {
  }

  lemma SelectHeadFree()
    ensures ':' !in SelectHead
  {
    SelectClauseFree();
    FromClauseFree();
    WherePartsFree();
  }

  lemma SelectHeadMarkers()
    ensures CountChar('?', SelectHead) == 1
  {
    SelectClauseFree();
    FromClauseFree();
    WherePartsFree();
    CountCharAbsent('?', SelectClause);
    CountCharAbsent('?', FromClause);
    CountCharAbsent('?', WhereHead);
    CountCharAbsent('?', WhereTail);
    CountCharConcat('?', WhereHead, "?");
    CountCharConcat('?', WhereHead + "?", WhereTail);
    CountCharConcat('?', SelectClause, FromClause);
    CountCharConcat('?', SelectClause + FromClause, WhereClause);
  }

  /** strings.Repeat("?,", n) + "?" holds n + 1 bind markers. */
  lemma MarkerListCount(n: nat)
    ensures CountChar('?', Repeat("?,", n) + "?") == n + 1
  {
    CountRepeat('?', "?,", n);
    assert CountChar('?', "?,") == 1;
    CountCharConcat('?', Repeat("?,", n), "?");
  }

  /**
   * The search statement is the select head followed by IN( and ten
   * comma-separated markers, so it holds exactly eleven `?` bind markers.
   */
  lemma SearchTextMarkers()
    ensures CountChar('?', SearchText()) == SearchKeyCount + 1
  {
    SelectHeadMarkers();
    var head := SelectHead + "IN(";
    CountCharConcat('?', SelectHead, "IN(");
    CountCharConcat('?', head, InList());
    CountCharConcat('?', head + InList(), ")");
  }

  /** The find statement holds exactly two `?` bind markers. */
  lemma FindTextMarkers()
    ensures CountChar('?', FindText) == 2
  {
    SelectHeadMarkers();
    CountCharConcat('?', SelectHead, "= ?");
  }

  /** The search parameters: the partition key, then each drawn id rendered as a key, in draw order. */
  predicate SearchParamsFor(ids: seq<int>, params: seq<string>) {
    && |params| == |ids| + 1
    && params[0] == PartitionKey
    && forall i :: 1 <= i < |params| ==> params[i] == Pad13(ids[i - 1])
  }

  predicate ValidSearchDraws(ids: seq<int>) {
    |ids| == SearchKeyCount && forall i :: 0 <= i < |ids| ==> 0 <= ids[i] < SearchIdBound
  }

  /** The parameter list of Search, grown by one rendered id per draw. */
  method SearchParams(ids: seq<int>) returns (params: seq<string>)
    requires ValidSearchDraws(ids)
    ensures SearchParamsFor(ids, params) && |params| == SearchKeyCount + 1
    ensures forall i :: 1 <= i < |params| ==>
      |params[i]| == KeyWidth && AllDigits(params[i]) && ReadDecimal(params[i]) == ids[i - 1] < SearchIdBound
  {
    params := [PartitionKey];
    var i := 0;
    while i < SearchKeyCount
      invariant 0 <= i <= SearchKeyCount
      invariant SearchParamsFor(ids[..i], params)
    {
      params := params + [Pad13(ids[i])];
      i := i + 1;
    }
    assert ids[..i] == ids;
    forall k | 1 <= k < |params|
      ensures |params[k]| == KeyWidth && AllDigits(params[k]) && ReadDecimal(params[k]) == ids[k - 1]
    {
      Pad13Digits(ids[k - 1]);
    }
  }

  /**
   * GET /search: send the ten-key IN statement, drain the cursor into
   * four-column records, then let the close error choose the envelope.
   */
  method Search(ids: seq<int>, execute: Statement -> Cursor) returns (stmt: Statement, resp: JsonResponse)
    requires ValidSearchDraws(ids)
    ensures stmt.text == SearchText() && SearchParamsFor(ids, stmt.params)
    ensures CountChar('?', stmt.text) == |stmt.params| == SearchKeyCount + 1
    ensures WellFormedEnvelope(resp)
    ensures execute(stmt).closeError.Some? ==> resp == JsonResponse("error", [], execute(stmt).closeError.value)
    ensures execute(stmt).closeError.None? ==>
      resp.kind == "success" && resp.message == "" && SearchMapped(execute(stmt).rows, resp.data)
  {
    var params := SearchParams(ids);
    SearchTextMarkers();
    stmt := Statement(SearchText(), params);
    var cursor := execute(stmt);
    var data := DrainSearch(cursor.rows);
    resp := Respond(cursor.closeError, data);
  }

  /**
   * GET /find/{id}: send the equality statement for ("P1", key), drain the
   * cursor into full records, then let the close error choose the envelope.
   */
  method FindById(vars: Vars, execute: Statement -> Cursor) returns (stmt: Statement, resp: JsonResponse)
    ensures stmt.text == FindText && stmt.params == [PartitionKey, LookupKey(vars)]
    ensures CountChar('?', stmt.text) == |stmt.params|
    ensures WellFormedEnvelope(resp)
    ensures execute(stmt).closeError.Some? ==> resp == JsonResponse("error", [], execute(stmt).closeError.value)
    ensures execute(stmt).closeError.None? ==>
      resp.kind == "success" && resp.message == "" && FindMapped(execute(stmt).rows, resp.data)
  {
    var primaryKeyLookup := PartitionKey;
    var secondaryKeyLookup := LookupKey(vars);
    FindTextMarkers();
    stmt := Statement(FindText, [primaryKeyLookup, secondaryKeyLookup]);
    var cursor := execute(stmt);
    var data := DrainFind(cursor.rows);
    resp := Respond(cursor.closeError, data);
  }
}
