/**
  The hybrid document retrieval of `app/services/tools.py` (`hybrid_vector_search`): a dense
  (vector) search and an optional keyword search, merged by content with the dense hits taking
  precedence, reranked, sorted by score (stable, highest first) and cut to three formatted blocks.
  The embedding model, the two searches and the reranker are oracles; reranker scores are reals.
*/
module DocSearch {
  import opened Outcomes
  import opened Text
  import opened PyDict

  /** A row of `tbl_deep_nexus_docs` as the two searches return it (`sim_score` is 0.0 for keyword hits). */
  datatype Doc = Doc(content: string, metadata: string, docUrl: string, docTitle: string, simScore: real)

  // ---------------------------------------------------------------------------
  // keyword literals

  /** `kw.replace("'", "''")`. */
  function DoubleQuotes(s: string): (r: string)
    ensures |r| >= |s|
  {
    if |s| == 0 then ""
    else if s[0] == '\'' then "''" + DoubleQuotes(s[1..])
    else [s[0]] + DoubleQuotes(s[1..])
  }

  /** `f"'%{kw.replace("'", "''")}%'"`: one element of the `ILIKE ANY(ARRAY[...])` list. */
  function KeywordLiteral(kw: string): string {
    "'%" + DoubleQuotes(kw) + "%'"
  }

  /** `", ".join(safe_keywords)`. */
  function ArrayLiteral(keywords: seq<string>): string {
    Join(seq(|keywords|, i requires 0 <= i < |keywords| => KeywordLiteral(keywords[i])), ", ")
  }

  /** Reads the body of an SQL string literal after its opening quote: `''` stands for one quote, a lone quote ends it. */
  function ReadSqlBody(t: string): Option<(string, string)>
    decreases |t|
  {
    if |t| == 0 then None
    else if t[0] == '\'' then
      if |t| >= 2 && t[1] == '\'' then
        match ReadSqlBody(t[2..])
        case None => None
        case Some((v, rest)) => Some(("'" + v, rest))
      else Some(("", t[1..]))
    else
      match ReadSqlBody(t[1..])
      case None => None
      case Some((v, rest)) => Some(([t[0]] + v, rest))
  }

  /** How PostgreSQL reads one string literal at the start of `t`: its value and the rest. */
  function ReadSqlLiteral(t: string): Option<(string, string)> {
    if |t| > 0 && t[0] == '\'' then ReadSqlBody(t[1..]) else None
  }

  lemma {:induction false} DoubledBodyRead(s: string, rest: string)
    requires |rest| == 0 || rest[0] != '\''
    ensures ReadSqlBody(DoubleQuotes(s) + "'" + rest) == Some((s, rest))
  {
    var t := DoubleQuotes(s) + "'" + rest;
    if |s| == 0 {
      assert t == "'" + rest;
      assert t[1..] == rest;
    } else if s[0] == '\'' {
      DoubledBodyRead(s[1..], rest);
      assert t[2..] == DoubleQuotes(s[1..]) + "'" + rest;
      assert "'" + s[1..] == s;
    } else {
      DoubledBodyRead(s[1..], rest);
      assert t[1..] == DoubleQuotes(s[1..]) + "'" + rest;
      assert [s[0]] + s[1..] == s;
    }
  }

  /**
    Doubling the quotes makes the keyword one literal: reading the literal back gives the
    pattern `%kw%` exactly, and reading stops right after it, whatever quotes `kw` holds.
  */
  lemma KeywordLiteralRoundTrip(kw: string, rest: string)
    requires |rest| == 0 || rest[0] != '\''
    ensures ReadSqlLiteral(KeywordLiteral(kw) + rest) == Some(("%" + kw + "%", rest))
  {
    var t := KeywordLiteral(kw) + rest;
    assert t[1..] == DoubleQuotes("%" + kw + "%") + "'" + rest by {
      DoubleQuotesConcat("%", kw + "%");
      DoubleQuotesConcat(kw, "%");
      assert "%" + kw + "%" == "%" + (kw + "%");
    }
    DoubledBodyRead("%" + kw + "%", rest);
  }

  lemma {:induction false} DoubleQuotesConcat(a: string, b: string)
    ensures DoubleQuotes(a + b) == DoubleQuotes(a) + DoubleQuotes(b)
  {
    if |a| > 0 {
      assert (a + b)[1..] == a[1..] + b;
      DoubleQuotesConcat(a[1..], b);
    } else {
      assert a + b == b;
    }
  }

  /** Reads a `", "`-separated list of SQL string literals that makes up the whole text. */
  function ReadSqlList(t: string): Option<seq<string>>
    decreases |t|
  {
    match ReadSqlLiteral(t)
    case None => None
    case Some((v, rest)) =>
      if rest == "" then Some([v])
      else if ", " <= rest && |rest| < |t| then
        match ReadSqlList(rest[2..])
        case None => None
        case Some(vs) => Some([v] + vs)
      else None
  }

  /** The `ARRAY[...]` list reads back as the keywords, each wrapped in `%`, in order. */
  lemma {:induction false} ArrayLiteralRoundTrip(keywords: seq<string>)
    requires |keywords| >= 1
    ensures ReadSqlList(ArrayLiteral(keywords)) ==
      Some(seq(|keywords|, i requires 0 <= i < |keywords| => "%" + keywords[i] + "%"))
  {
    var lits := seq(|keywords|, i requires 0 <= i < |keywords| => KeywordLiteral(keywords[i]));
    var pats := seq(|keywords|, i requires 0 <= i < |keywords| => "%" + keywords[i] + "%");
    if |keywords| == 1 {
      KeywordLiteralRoundTrip(keywords[0], "");
      assert KeywordLiteral(keywords[0]) + "" == KeywordLiteral(keywords[0]);
      assert lits == [KeywordLiteral(keywords[0])];
      assert pats == ["%" + keywords[0] + "%"];
    } else {
      var tail := ArrayLiteral(keywords[1..]);
      assert lits[1..] == seq(|keywords[1..]|, i requires 0 <= i < |keywords[1..]| => KeywordLiteral(keywords[1..][i]));
      assert ArrayLiteral(keywords) == KeywordLiteral(keywords[0]) + (", " + tail);
      KeywordLiteralRoundTrip(keywords[0], ", " + tail);
      assert (", " + tail)[2..] == tail;
      ArrayLiteralRoundTrip(keywords[1..]);
      assert pats == [pats[0]] + seq(|keywords[1..]|, i requires 0 <= i < |keywords[1..]| => "%" + keywords[1..][i] + "%");
    }
  }

  // ---------------------------------------------------------------------------
  // merging the two hit lists

  function Contents(rows: seq<Doc>): (cs: seq<string>)
    ensures |cs| == |rows| && forall i :: 0 <= i < |rows| ==> cs[i] == rows[i].content
  {
    seq(|rows|, i requires 0 <= i < |rows| => rows[i].content)
  }

  /** Every item of the dict is keyed by its row's content. */
  predicate KeyedByContent(d: Dict<string, Doc>) {
    forall i :: 0 <= i < |d| ==> d[i].1.content == d[i].0
  }

  /** `for row in vector_rows: unique_docs[row.content] = row`, after the given rows. */
  function DensePass(d: Dict<string, Doc>, rows: seq<Doc>): Dict<string, Doc> {
    if |rows| == 0 then d
    else
      var last := rows[|rows| - 1];
      Assign(DensePass(d, rows[..|rows| - 1]), last.content, last)
  }

  /** `for row in keyword_rows: if row.content not in unique_docs: unique_docs[row.content] = row`, after the given rows. */
  function KeywordPass(d: Dict<string, Doc>, rows: seq<Doc>): Dict<string, Doc> {
    if |rows| == 0 then d
    else
      var last := rows[|rows| - 1];
      var p := KeywordPass(d, rows[..|rows| - 1]);
      if last.content in Keys(p) then p else Assign(p, last.content, last)
  }

  /** The `unique_docs` dict after both loops. */
  function MergeDict(dense: seq<Doc>, keyword: seq<Doc>): Dict<string, Doc> {
    KeywordPass(DensePass([], dense), keyword)
  }

  /** Index of the last row with the given content. */
  function LastWith(rows: seq<Doc>, c: string): (r: Option<nat>)
    ensures r.None? <==> forall j :: 0 <= j < |rows| ==> rows[j].content != c
    ensures r.Some? ==>
      r.value < |rows| && rows[r.value].content == c && forall j :: r.value < j < |rows| ==> rows[j].content != c
  {
    if |rows| == 0 then None
    else if rows[|rows| - 1].content == c then Some(|rows| - 1)
    else LastWith(rows[..|rows| - 1], c)
  }

  /** Index of the first row with the given content. */
  function FirstWith(rows: seq<Doc>, c: string): (r: Option<nat>)
    ensures r.None? <==> forall j :: 0 <= j < |rows| ==> rows[j].content != c
    ensures r.Some? ==>
      r.value < |rows| && rows[r.value].content == c && forall j :: 0 <= j < r.value ==> rows[j].content != c
  {
    if |rows| == 0 then None
    else
      var p := FirstWith(rows[..|rows| - 1], c);
      if p.Some? then p
      else if rows[|rows| - 1].content == c then Some(|rows| - 1)
      else None
  }

  /** The dense pass keeps every item keyed by its row's content. */
  lemma {:induction false} DenseKeyed(d: Dict<string, Doc>, rows: seq<Doc>)
    requires KeyedByContent(d)
    ensures KeyedByContent(DensePass(d, rows))
  {
    if |rows| > 0 {
      DenseKeyed(d, rows[..|rows| - 1]);
      AssignKeyed(DensePass(d, rows[..|rows| - 1]), rows[|rows| - 1]);
    }
  }

  /** The dense pass adds each new content once, in order of first occurrence. */
  lemma {:induction false} DenseKeys(d: Dict<string, Doc>, rows: seq<Doc>)
    requires Distinct(Keys(d))
    ensures Keys(DensePass(d, rows)) == Dedup(Keys(d) + Contents(rows))
  {
    if |rows| > 0 {
      var init := rows[..|rows| - 1];
      var last := rows[|rows| - 1];
      DenseKeys(d, init);
      AssignKeys(DensePass(d, init), last.content, last);
      assert Keys(d) + Contents(rows) == (Keys(d) + Contents(init)) + [last.content];
      DedupSnoc(Keys(d) + Contents(init), last.content);
      DedupDistinct(Keys(d) + Contents(init));
    } else {
      assert Keys(d) + Contents(rows) == Keys(d);
      DedupOfDistinct(Keys(d));
    }
  }

  /** After the dense pass a content maps to the last row carrying it, or to what it mapped to before. */
  lemma {:induction false} DenseLookup(d: Dict<string, Doc>, rows: seq<Doc>, c: string)
    ensures Lookup(DensePass(d, rows), c) ==
      if LastWith(rows, c).Some? then Some(rows[LastWith(rows, c).value]) else Lookup(d, c)
  {
    if |rows| > 0 {
      var init := rows[..|rows| - 1];
      DenseLookup(d, init, c);
      AssignLookup(DensePass(d, init), rows[|rows| - 1].content, rows[|rows| - 1], c);
    }
  }

  lemma AssignKeyed(d: Dict<string, Doc>, row: Doc)
    requires KeyedByContent(d)
    ensures KeyedByContent(Assign(d, row.content, row))
  {
    AssignKeyedAt(d, row);
  }

  lemma {:induction false} AssignKeyedAt(d: Dict<string, Doc>, row: Doc)
    requires KeyedByContent(d)
    ensures KeyedByContent(Assign(d, row.content, row))
  {
    if |d| > 0 && d[0].0 != row.content {
      AssignKeyedAt(d[1..], row);
    }
  }

  /** The keyword pass keeps every item keyed by its row's content. */
  lemma {:induction false} KeywordKeyed(d: Dict<string, Doc>, rows: seq<Doc>)
    requires KeyedByContent(d)
    ensures KeyedByContent(KeywordPass(d, rows))
  {
    if |rows| > 0 {
      KeywordKeyed(d, rows[..|rows| - 1]);
      AssignKeyed(KeywordPass(d, rows[..|rows| - 1]), rows[|rows| - 1]);
    }
  }

  /** The keyword pass adds each content not yet present once, in order of first occurrence. */
  lemma {:induction false} KeywordKeys(d: Dict<string, Doc>, rows: seq<Doc>)
    requires Distinct(Keys(d))
    ensures Keys(KeywordPass(d, rows)) == Dedup(Keys(d) + Contents(rows))
  {
    if |rows| > 0 {
      var init := rows[..|rows| - 1];
      var last := rows[|rows| - 1];
      KeywordKeys(d, init);
      DedupDistinct(Keys(d) + Contents(init));
      assert Keys(d) + Contents(rows) == (Keys(d) + Contents(init)) + [last.content];
      DedupSnoc(Keys(d) + Contents(init), last.content);
      AssignKeys(KeywordPass(d, init), last.content, last);
    } else {
      assert Keys(d) + Contents(rows) == Keys(d);
      DedupOfDistinct(Keys(d));
    }
  }

  /** After the keyword pass a content keeps what it mapped to, or else maps to the first row carrying it. */
  lemma {:induction false} KeywordLookup(d: Dict<string, Doc>, rows: seq<Doc>, c: string)
    ensures Lookup(KeywordPass(d, rows), c) ==
      if Lookup(d, c).Some? then Lookup(d, c)
      else if FirstWith(rows, c).Some? then Some(rows[FirstWith(rows, c).value])
      else None
  {
    if |rows| > 0 {
      var init := rows[..|rows| - 1];
      var last := rows[|rows| - 1];
      var p := KeywordPass(d, init);
      KeywordLookup(d, init, c);
      LookupKeys(p, c);
      LookupKeys(p, last.content);
      if last.content !in Keys(p) {
        AssignLookup(p, last.content, last, c);
      }
    }
  }

  /**
    The merge: each content once, in order of first occurrence over the dense hits followed by the
    keyword hits; a content the dense search found keeps the last dense row carrying it (and so its
    `sim_score`), and a content only the keyword search found keeps the first keyword row carrying it.
  */
  lemma MergeDictFacts(dense: seq<Doc>, keyword: seq<Doc>)
    ensures var m := MergeDict(dense, keyword);
      Keys(m) == Dedup(Contents(dense) + Contents(keyword)) && Distinct(Keys(m)) && KeyedByContent(m)
    ensures forall c :: (Lookup(MergeDict(dense, keyword), c) ==
      if LastWith(dense, c).Some? then Some(dense[LastWith(dense, c).value])
      else if FirstWith(keyword, c).Some? then Some(keyword[FirstWith(keyword, c).value])
      else None)
  {
    var empty: Dict<string, Doc> := [];
    var d := DensePass(empty, dense);
    assert Keys(empty) == [];
    DenseKeyed(empty, dense);
    DenseKeys(empty, dense);
    assert Keys(empty) + Contents(dense) == Contents(dense);
    DedupDistinct(Contents(dense));
    KeywordKeyed(d, keyword);
    KeywordKeys(d, keyword);
    DedupAppend(Contents(dense), Contents(keyword));
    DedupDistinct(Contents(dense) + Contents(keyword));
    forall c
      ensures Lookup(MergeDict(dense, keyword), c) ==
        if LastWith(dense, c).Some? then Some(dense[LastWith(dense, c).value])
        else if FirstWith(keyword, c).Some? then Some(keyword[FirstWith(keyword, c).value])
        else None
    {
      DenseLookup(empty, dense, c);
      KeywordLookup(d, keyword, c);
    }
  }

  /** The merge is empty exactly when both searches found nothing. */
  lemma MergeEmptyIff(dense: seq<Doc>, keyword: seq<Doc>)
    ensures |MergeDict(dense, keyword)| == 0 <==> |dense| == 0 && |keyword| == 0
  {
    MergeDictFacts(dense, keyword);
    var all := Contents(dense) + Contents(keyword);
    DedupDistinct(all);
    if |all| > 0 {
      assert all[0] in all;
    }
  }

  /** The two merge loops of `hybrid_vector_search`, then `list(unique_docs.values())`. */
  method MergeHits(dense: seq<Doc>, keyword: seq<Doc>) returns (combined: seq<Doc>)
    ensures combined == Values(MergeDict(dense, keyword))
    ensures |combined| == 0 <==> |dense| == 0 && |keyword| == 0
    ensures Contents(combined) == Dedup(Contents(dense) + Contents(keyword))
  {
    var unique: Dict<string, Doc> := [];
    for i := 0 to |dense|
      invariant unique == DensePass([], dense[..i])
    {
      assert dense[..i + 1][..i] == dense[..i];
      unique := Assign(unique, dense[i].content, dense[i]);
    }
    assert dense[..|dense|] == dense;
    var base := unique;
    for i := 0 to |keyword|
      invariant unique == KeywordPass(base, keyword[..i])
    {
      assert keyword[..i + 1][..i] == keyword[..i];
      if keyword[i].content !in Keys(unique) {
        unique := Assign(unique, keyword[i].content, keyword[i]);
      }
    }
    assert keyword[..|keyword|] == keyword;
    combined := Values(unique);
    MergeEmptyIff(dense, keyword);
    MergeDictFacts(dense, keyword);
    ValuesContents(unique);
  }

  lemma {:induction false} ValuesContents(d: Dict<string, Doc>)
    requires KeyedByContent(d)
    ensures Contents(Values(d)) == Keys(d)
  {
    if |d| > 0 {
      ValuesContents(d[1..]);
      assert Contents(Values(d)) == [d[0].1.content] + Contents(Values(d[1..]));
    }
  }

  // ---------------------------------------------------------------------------
  // stable descending sort by reranker score

  type Scored = (real, Doc)

  /** `list(zip(scores, combined_rows))`: stops at the shorter list. */
  function Zip(scores: seq<real>, rows: seq<Doc>): (r: seq<Scored>)
    ensures |r| == if |scores| < |rows| then |scores| else |rows|
  {
    var n := if |scores| < |rows| then |scores| else |rows|;
    seq(n, i requires 0 <= i < n => (scores[i], rows[i]))
  }

  predicate SortedDesc(s: seq<Scored>) {
    forall i, j :: 0 <= i < j < |s| ==> s[i].0 >= s[j].0
  }

  /** The items with score `v`, in order. */
  function WithScore(s: seq<Scored>, v: real): seq<Scored> {
    if |s| == 0 then [] else (if s[0].0 == v then [s[0]] else []) + WithScore(s[1..], v)
  }

  /** Places `x` after every item scoring at least as much, before the first one scoring less. */
  function Insert(s: seq<Scored>, x: Scored): seq<Scored> {
    if |s| == 0 then [x]
    else if s[0].0 < x.0 then [x] + s
    else [s[0]] + Insert(s[1..], x)
  }

  /** Reference order: each item in turn inserted after its equals. */
  function SortDesc(items: seq<Scored>): seq<Scored> {
    if |items| == 0 then [] else Insert(SortDesc(items[..|items| - 1]), items[|items| - 1])
  }

  lemma {:induction false} InsertAt(s: seq<Scored>, x: Scored, k: nat)
    requires k <= |s| && forall j :: 0 <= j < k ==> s[j].0 >= x.0
    requires k == |s| || s[k].0 < x.0
    ensures Insert(s, x) == s[..k] + [x] + s[k..]
  {
    if k > 0 {
      InsertAt(s[1..], x, k - 1);
      assert [s[0]] + (s[1..][..k - 1] + [x] + s[1..][k - 1..]) == s[..k] + [x] + s[k..];
    }
  }

  lemma {:induction false} InsertElems(s: seq<Scored>, x: Scored)
    ensures multiset(Insert(s, x)) == multiset(s) + multiset{x}
    ensures |Insert(s, x)| == |s| + 1
  {
    if |s| > 0 && s[0].0 >= x.0 {
      InsertElems(s[1..], x);
      assert s == [s[0]] + s[1..];
    }
  }

  lemma {:induction false} InsertSorted(s: seq<Scored>, x: Scored)
    requires SortedDesc(s)
    ensures SortedDesc(Insert(s, x))
  {
    if |s| > 0 && s[0].0 >= x.0 {
      InsertSorted(s[1..], x);
      var t := Insert(s[1..], x);
      InsertElems(s[1..], x);
      forall j | 0 <= j < |t| ensures t[j].0 <= s[0].0 {
        assert t[j] in multiset(t);
        if t[j] != x {
          assert t[j] in multiset(s[1..]);
          var k :| 0 <= k < |s[1..]| && s[1..][k] == t[j];
          assert s[k + 1] == t[j];
        }
      }
      assert Insert(s, x) == [s[0]] + t;
    }
  }

  lemma {:induction false} WithScoreBelow(s: seq<Scored>, v: real)
    requires forall i :: 0 <= i < |s| ==> s[i].0 < v
    ensures WithScore(s, v) == []
  {
    if |s| > 0 {
      WithScoreBelow(s[1..], v);
    }
  }

  lemma {:induction false} InsertStable(s: seq<Scored>, x: Scored, v: real)
    requires SortedDesc(s)
    ensures WithScore(Insert(s, x), v) == WithScore(s, v) + (if x.0 == v then [x] else [])
  {
    if |s| == 0 {
    } else if s[0].0 < x.0 {
      if x.0 == v {
        WithScoreBelow(s, v);
      } else {
        assert WithScore([x] + s, v) == WithScore(s, v) by {
          assert ([x] + s)[1..] == s;
        }
      }
      assert ([x] + s)[1..] == s;
    } else {
      InsertStable(s[1..], x, v);
      assert (([s[0]] + Insert(s[1..], x)))[1..] == Insert(s[1..], x);
    }
  }

  lemma {:induction false} WithScoreSnoc(s: seq<Scored>, x: Scored, v: real)
    ensures WithScore(s + [x], v) == WithScore(s, v) + (if x.0 == v then [x] else [])
  {
    if |s| > 0 {
      assert (s + [x])[1..] == s[1..] + [x];
      WithScoreSnoc(s[1..], x, v);
    } else {
      assert s + [x] == [x];
    }
  }

  /**
    The reference order is sorted by score, highest first, is a permutation of its input, and is
    stable: the items of any one score keep their original relative order (`sorted(..., reverse=True)`).
  */
  lemma {:induction false} SortDescFacts(items: seq<Scored>)
    ensures SortedDesc(SortDesc(items))
    ensures multiset(SortDesc(items)) == multiset(items)
    ensures forall v :: WithScore(SortDesc(items), v) == WithScore(items, v)
  {
    if |items| > 0 {
      var init := items[..|items| - 1];
      var x := items[|items| - 1];
      SortDescFacts(init);
      InsertSorted(SortDesc(init), x);
      InsertElems(SortDesc(init), x);
      assert items == init + [x];
      forall v ensures WithScore(SortDesc(items), v) == WithScore(items, v) {
        InsertStable(SortDesc(init), x, v);
        WithScoreSnoc(init, x, v);
      }
    }
  }

  /** `sorted(zip(scores, combined_rows), key=lambda x: x[0], reverse=True)`, as an insertion sort. */
  method SortByScore(items: seq<Scored>) returns (sorted: seq<Scored>)
    ensures sorted == SortDesc(items)
    ensures SortedDesc(sorted) && multiset(sorted) == multiset(items)
    ensures forall v :: WithScore(sorted, v) == WithScore(items, v)
  {
    sorted := [];
    for i := 0 to |items|
      invariant sorted == SortDesc(items[..i])
      invariant SortedDesc(sorted)
    {
      var x := items[i];
      var k := 0;
      while k < |sorted| && sorted[k].0 >= x.0
        invariant 0 <= k <= |sorted|
        invariant forall j :: 0 <= j < k ==> sorted[j].0 >= x.0
      {
        k := k + 1;
      }
      InsertAt(sorted, x, k);
      InsertSorted(sorted, x);
      InsertElems(sorted, x);
      sorted := sorted[..k] + [x] + sorted[k..];
      assert items[..i + 1][..i] == items[..i];
    }
    assert items[..|items|] == items;
    SortDescFacts(items);
  }

  // ---------------------------------------------------------------------------
  // formatting and the whole search

  const NoResults := "검색 결과가 없습니다."

  /** One formatted result block. */
  function Block(d: Doc): string {
    "- 내용 : " + d.content + "\n- 파일명 : " + d.docTitle + "\n- 출처 : " + d.docUrl + "\n"
  }

  function Top3(s: seq<Scored>): (r: seq<Scored>)
    ensures |r| == if |s| < 3 then |s| else 3
  {
    if |s| <= 3 then s else s[..3]
  }

  function Blocks(s: seq<Scored>): (r: seq<string>)
    ensures |r| == |s|
  {
    seq(|s|, i requires 0 <= i < |s| => Block(s[i].1))
  }

  /** The loop over `scored_docs[:3]` filling `formatted_docs`, then `"\n\n".join(formatted_docs)`. */
  method FormatTop(sorted: seq<Scored>) returns (text: string)
    ensures text == Join(Blocks(Top3(sorted)), "\n\n")
  {
    var top := Top3(sorted);
    var formatted: seq<string> := [];
    for i := 0 to |top|
      invariant formatted == Blocks(top[..i])
    {
      assert Blocks(top[..i + 1]) == Blocks(top[..i]) + [Block(top[i].1)];
      formatted := formatted + [Block(top[i].1)];
    }
    assert top[..|top|] == top;
    text := Join(formatted, "\n\n");
  }

  /** The three chosen documents score at least as high as every document left out. */
  lemma Top3Best(items: seq<Scored>)
    ensures forall i, j :: 0 <= i < |Top3(SortDesc(items))| <= j < |SortDesc(items)| ==>
      Top3(SortDesc(items))[i].0 >= SortDesc(items)[j].0
  {
    SortDescFacts(items);
  }

  /** The database session used by the search: each call answers or raises with a message. */
  datatype DocStore = DocStore(
    jitOff: Option<string>,                         // failure of `SET LOCAL jit = off`, if any
    dense: Embedding -> Result<seq<Doc>, string>,   // the 15 nearest documents
    keyword: string -> Result<seq<Doc>, string>,    // the query built around the ARRAY literal
    rerank: (string, seq<string>) -> seq<real>)     // reranker scores for (query, document) pairs

  /** What the search answers once the hits are known. */
  function Answer(query: string, dense: seq<Doc>, keyword: seq<Doc>, scores: seq<real>): string {
    var combined := Values(MergeDict(dense, keyword));
    if |combined| == 0 then NoResults
    else Join(Blocks(Top3(SortDesc(Zip(scores, combined)))), "\n\n")
  }

  /** The answer of the whole search for a query and keyword list, given the oracles. */
  function Search(embed: string -> Result<Embedding, string>, db: DocStore, query: string, keywords: seq<string>): Result<string, string> {
    match embed(query)
    case Err(e) => Err(e)
    case Ok(vector) =>
      if db.jitOff.Some? then Ok("Error: " + db.jitOff.value)
      else
        match db.dense(vector)
        case Err(e) => Ok("Error: " + e)
        case Ok(dense) =>
          if |keywords| == 0 then Ok(Answer(query, dense, [], db.rerank(query, Contents(Values(MergeDict(dense, []))))))
          else
            match db.keyword(ArrayLiteral(keywords))
            case Err(e) => Ok("Error: " + e)
            case Ok(kw) => Ok(Answer(query, dense, kw, db.rerank(query, Contents(Values(MergeDict(dense, kw))))))
  }

  /**
    `hybrid_vector_search(query_text, department_code, filter_keywords)`. The embedding is computed
    outside the `try` and its failure propagates (`Err`); every failure inside the session becomes
    the answer `"Error: " + message`. `department_code` is accepted but not used.
  */
  method HybridVectorSearch(embed: string -> Result<Embedding, string>, db: DocStore,
                            query: string, departmentCode: string, keywords: seq<string>)
    returns (r: Result<string, string>)
    ensures embed(query).Err? <==> r.Err?
    ensures r.Err? ==> r.error == embed(query).error
    ensures r.Ok? && db.jitOff.Some? ==> r.value == "Error: " + db.jitOff.value
    // the keyword search runs only for a non-empty keyword list
    ensures r.Ok? && db.jitOff.None? && db.dense(embed(query).value).Ok? && |keywords| == 0 ==>
      var dense := db.dense(embed(query).value).value;
      r.value == Answer(query, dense, [], db.rerank(query, Contents(Values(MergeDict(dense, [])))))
    ensures r.Ok? && db.jitOff.None? && db.dense(embed(query).value).Ok? && |keywords| > 0 ==>
      match db.keyword(ArrayLiteral(keywords))
      case Err(e) => r.value == "Error: " + e
      case Ok(kw) =>
        var dense := db.dense(embed(query).value).value;
        r.value == Answer(query, dense, kw, db.rerank(query, Contents(Values(MergeDict(dense, kw)))))
    ensures r.Ok? && db.jitOff.None? && db.dense(embed(query).value).Err? ==>
      r.value == "Error: " + db.dense(embed(query).value).error
    ensures r == Search(embed, db, query, keywords)
  {
    match embed(query)
    case Err(e) => return Err(e);
    case Ok(vector) =>
      if db.jitOff.Some? {
        return Ok("Error: " + db.jitOff.value);
      }
      var dense;
      match db.dense(vector)
      case Err(e) => return Ok("Error: " + e);
      case Ok(rows) => dense := rows;
      var keywordRows := [];
      if |keywords| > 0 {
        match db.keyword(ArrayLiteral(keywords))
        case Err(e) => return Ok("Error: " + e);
        case Ok(rows) => keywordRows := rows;
      }
      var combined := MergeHits(dense, keywordRows);
      if |combined| == 0 {
        return Ok(NoResults);
      }
      var scores := db.rerank(query, Contents(combined));
      var sorted := SortByScore(Zip(scores, combined));
      var text := FormatTop(sorted);
      return Ok(text);
  }

  /** With no hit from either search the answer is exactly the no-results sentence. */
  lemma NoHitsSentinel(query: string, scores: seq<real>)
    ensures Answer(query, [], [], scores) == NoResults
  {
    MergeEmptyIff([], []);
  }

  /** With at least one hit the answer is between one and three blocks, best score first. */
  lemma AnswerBlocks(query: string, dense: seq<Doc>, keyword: seq<Doc>, scores: seq<real>)
    requires |dense| > 0 || |keyword| > 0
    ensures var combined := Values(MergeDict(dense, keyword));
      var chosen := Top3(SortDesc(Zip(scores, combined)));
      |chosen| <= 3 && SortedDesc(chosen)
      && Answer(query, dense, keyword, scores) == Join(Blocks(chosen), "\n\n")
  {
    MergeEmptyIff(dense, keyword);
    var combined := Values(MergeDict(dense, keyword));
    SortDescFacts(Zip(scores, combined));
  }
}
