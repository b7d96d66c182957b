/**
 * The search page (`/search`): a broad query over the `assets` table, then a
 * local ranking of the candidates by how many fields each token hits, and
 * the first nine of that ranking.
 */
module SearchPage {
  import opened Maybe
  import opened Text
  import opened Tokenizer
  import opened Filters
  import opened Records

  /** The columns one token is matched against; the title is not among them. */
  const SearchFields: seq<string> := ["domain", "direction", "color_notes", "print_pattern_notes"]
  /** How many candidates are fetched, and how many of the ranked ones are shown. */
  const CandidateLimit: nat := 80
  const ShownLimit: nat := 9

  function SearchTerms(q: Option<string>): seq<string> {
    Tokenize(Curly, QueryText(q))
  }

  /** The candidate query: ready assets, the free-text filter when there are tokens, no domain restriction. */
  function SearchQuery(q: Option<string>): (r: Query)
    ensures r.table == "assets" && r.columns == "*" && r.limit == CandidateLimit
    ensures |r.conditions| >= 1 && r.conditions[0] == Ready
  {
    Query("assets", "*", [Ready] + OrConditions(SearchFields, SearchTerms(q)), CandidateLimit)
  }

  lemma SearchFieldsPlain()
    ensures AllPlain(SearchFields)
  {
    forall k | 0 <= k < |SearchFields| ensures Plain(SearchFields[k]) {
      assert forall i :: 0 <= i < |SearchFields[k]| ==> 'a' <= SearchFields[k][i] <= 'z' || SearchFields[k][i] == '_';
    }
  }

  /**
   * The candidate query holds `Ready` and, exactly when there are tokens, a
   * filter reading back as one `ilike` per field and token; nothing on the domain alone.
   */
  lemma SearchQueryMeaning(q: Option<string>)
    ensures forall c :: c in SearchQuery(q).conditions ==> c == Ready || c.Or?
    ensures (exists c :: c in SearchQuery(q).conditions && c.Or?) <==> SearchTerms(q) != []
    ensures forall c :: c in SearchQuery(q).conditions && c.Or? ==> ReadsAsExpected(c, SearchFields, SearchTerms(q))
    ensures |Expected(SearchFields, SearchTerms(q))| == 4 * |SearchTerms(q)|
  {
    SearchFilterPart(q);
    SearchFilterSize(q);
  }

  lemma SearchFilterPart(q: Option<string>)
    ensures forall c :: c in SearchQuery(q).conditions ==> c == Ready || c.Or?
    ensures (exists c :: c in SearchQuery(q).conditions && c.Or?) <==> SearchTerms(q) != []
    ensures forall c :: c in SearchQuery(q).conditions && c.Or? ==> ReadsAsExpected(c, SearchFields, SearchTerms(q))
  {
    var terms := SearchTerms(q);
    TokensPlain(Curly, QueryText(q));
    SearchFieldsPlain();
    OrFilterPart([Ready], SearchFields, terms);
    assert SearchQuery(q).conditions == [Ready] + OrConditions(SearchFields, terms);
  }

  lemma SearchFilterSize(q: Option<string>)
    ensures |Expected(SearchFields, SearchTerms(q))| == 4 * |SearchTerms(q)|
  {
    ExpectedLength(SearchFields, SearchTerms(q));
  }

  // ------------------------------------------------------------------ scoring

  /** `contains`: a missing or empty field contains nothing; otherwise a case-insensitive substring test. */
  predicate Contains(hay: Option<string>, needle: string) {
    match hay
    case None => false
    case Some(h) => h != [] && Includes(Lower(h), needle)
  }

  /** A field contains a token exactly when it is present, non-empty, and its lowercase form holds the token somewhere. */
  lemma ContainsIff(hay: Option<string>, needle: string)
    ensures Contains(hay, needle) <==>
      hay.Some? && hay.value != [] && exists i :: OccursAt(Lower(hay.value), needle, i)
  {
    match hay
    case None =>
    case Some(h) =>
      IncludesAtOffset(Lower(h), needle);
      assert Contains(hay, needle) <==> h != [] && Includes(Lower(h), needle);
  }

  /** An empty field contains nothing, not even the empty string, since the emptiness test comes first. */
  lemma EmptyFieldContainsNothing(needle: string)
    ensures !Contains(Some(""), needle) && !Contains(None, needle)
  {
  }

  function Weight(b: bool, w: nat): nat {
    if b then w else 0
  }

  /** What one token adds: 40 for the domain, 30 for the direction, 20 for the colour notes, 10 for the print notes. */
  function TokenScore(a: AssetRow, t: string): (r: nat)
    ensures r <= 100
    ensures r == 0 <==> !Contains(a.domain, t) && !Contains(a.direction, t) && !Contains(a.colorNotes, t) && !Contains(a.printPatternNotes, t)
  {
    Weight(Contains(a.domain, t), 40) + Weight(Contains(a.direction, t), 30)
      + Weight(Contains(a.colorNotes, t), 20) + Weight(Contains(a.printPatternNotes, t), 10)
  }

  /** The loop over the tokens: every token's contribution, repeated tokens counted each time. */
  function Score(a: AssetRow, terms: seq<string>): nat {
    if terms == [] then 0 else TokenScore(a, terms[0]) + Score(a, terms[1..])
  }

  /** How many of the tokens a field contains, counting repeats. */
  function Hits(hay: Option<string>, terms: seq<string>): (r: nat)
    ensures r <= |terms|
  {
    if terms == [] then 0 else Weight(Contains(hay, terms[0]), 1) + Hits(hay, terms[1..])
  }

  /** The score read field by field: each field's weight times the number of tokens it contains. */
  lemma {:induction false} ScoreByField(a: AssetRow, terms: seq<string>)
    ensures Score(a, terms) == 40 * Hits(a.domain, terms) + 30 * Hits(a.direction, terms)
                             + 20 * Hits(a.colorNotes, terms) + 10 * Hits(a.printPatternNotes, terms)
  {
    if terms != [] {
      ScoreByField(a, terms[1..]);
    }
  }

  /** Every score is a multiple of ten, at most 100 per token. */
  lemma ScoreBounds(a: AssetRow, terms: seq<string>)
    ensures Score(a, terms) <= 100 * |terms|
    ensures Score(a, terms) % 10 == 0
  {
    ScoreByField(a, terms);
    var d, e, f, g := Hits(a.domain, terms), Hits(a.direction, terms), Hits(a.colorNotes, terms), Hits(a.printPatternNotes, terms);
    TensBound(d, e, f, g, |terms|);
  }

  lemma TensBound(d: nat, e: nat, f: nat, g: nat, n: nat)
    requires d <= n && e <= n && f <= n && g <= n
    ensures 40 * d + 30 * e + 20 * f + 10 * g <= 100 * n
    ensures (40 * d + 30 * e + 20 * f + 10 * g) % 10 == 0
  {
    assert 40 * d + 30 * e + 20 * f + 10 * g == 10 * (4 * d + 3 * e + 2 * f + g);
  }

  /** The score is additive over the tokens, so a token repeated in the query counts twice. */
  lemma {:induction false} ScoreAppend(a: AssetRow, xs: seq<string>, ys: seq<string>)
    ensures Score(a, xs + ys) == Score(a, xs) + Score(a, ys)
  {
    if xs != [] {
      assert (xs + ys)[1..] == xs[1..] + ys;
      ScoreAppend(a, xs[1..], ys);
    } else {
      assert xs + ys == ys;
    }
  }

  /** A lowercase field contains itself. */
  lemma ContainsItself(h: string)
    requires h != [] && Lower(h) == h
    ensures Contains(Some(h), h)
  {
    assert StartsWith(Lower(h), h);
  }

  /** The weights add up rather than rank lexicographically: direction and colour together outrank the domain alone. */
  lemma WeightsAreAdditive()
    ensures var dom := AssetRow("a", None, None, None, None, Some("navy"), None, None, None);
            var dirCol := AssetRow("b", None, None, None, None, None, Some("navy"), Some("navy"), None);
            Score(dom, ["navy"]) == 40 && Score(dirCol, ["navy"]) == 50
  {
    var dom := AssetRow("a", None, None, None, None, Some("navy"), None, None, None);
    var dirCol := AssetRow("b", None, None, None, None, None, Some("navy"), Some("navy"), None);
    ContainsItself("navy");
    assert Score(dom, ["navy"]) == TokenScore(dom, "navy") + Score(dom, []);
    assert Score(dirCol, ["navy"]) == TokenScore(dirCol, "navy") + Score(dirCol, []);
  }

  // ------------------------------------------------------------------ ranking

  /** A candidate with its position in the fetched rows and its score. */
  datatype Entry = Entry(index: nat, row: AssetRow, score: nat)

  /** The order `sort` leaves two entries in: higher score first, and on a tie the earlier row first. */
  predicate Before(a: Entry, b: Entry) {
    a.score > b.score || (a.score == b.score && a.index <= b.index)
  }

  predicate Ordered(s: seq<Entry>) {
    forall i :: 0 <= i < |s| - 1 ==> Before(s[i], s[i + 1])
  }

  /** The positions increase along the sequence: the order the rows came in. */
  predicate Increasing(s: seq<Entry>) {
    forall i, j :: 0 <= i < j < |s| ==> s[i].index < s[j].index
  }

  /** Places `e`, earlier than every entry of `s`, in front of the first entry it does not lose to. */
  function Insert(e: Entry, s: seq<Entry>): (r: seq<Entry>)
    requires Ordered(s) && forall k :: 0 <= k < |s| ==> e.index < s[k].index
    ensures multiset(r) == multiset(s) + multiset{e}
    ensures Ordered(r)
    ensures r[0] == e || (s != [] && r[0] == s[0])
  {
    if s == [] || e.score >= s[0].score then [e] + s
    else
      var rest := Insert(e, s[1..]);
      assert s == [s[0]] + s[1..];
      InsertBehind(e, s, rest);
      [s[0]] + rest
  }

  /** The step of `Insert` that keeps the head: it still comes before whatever heads the rest. */
  lemma InsertBehind(e: Entry, s: seq<Entry>, rest: seq<Entry>)
    requires s != [] && e.score < s[0].score && Ordered(s) && Ordered(rest) && rest != []
    requires rest[0] == e || (s[1..] != [] && rest[0] == s[1..][0])
    ensures Ordered([s[0]] + rest)
  {
    var r := [s[0]] + rest;
    forall i | 0 <= i < |r| - 1 ensures Before(r[i], r[i + 1]) {
      if i > 0 {
        assert r[i] == rest[i - 1] && r[i + 1] == rest[i];
      }
    }
  }

  /** ES2019's stable `sort` by descending score. */
  function Sort(s: seq<Entry>): (r: seq<Entry>)
    requires Increasing(s)
    ensures multiset(r) == multiset(s)
    ensures Ordered(r)
  {
    if s == [] then []
    else
      var rest := Sort(s[1..]);
      assert s == [s[0]] + s[1..];
      LaterIndices(s, rest);
      Insert(s[0], rest)
  }

  /** A reordering of the entries after the first holds only positions after the first's. */
  lemma LaterIndices(s: seq<Entry>, rest: seq<Entry>)
    requires s != [] && Increasing(s) && multiset(rest) == multiset(s[1..])
    ensures forall k :: 0 <= k < |rest| ==> s[0].index < rest[k].index
  {
    forall k | 0 <= k < |rest| ensures s[0].index < rest[k].index {
      assert rest[k] in multiset(s[1..]);
      var j :| 0 <= j < |s[1..]| && s[1..][j] == rest[k];
      assert s[j + 1] == rest[k];
    }
  }

  /** In an ordered sequence every earlier entry comes before every later one, not only its neighbour. */
  lemma {:induction false} OrderedPairwise(s: seq<Entry>)
    requires Ordered(s)
    ensures forall i, j :: 0 <= i < j < |s| ==> Before(s[i], s[j])
  {
    if |s| > 1 {
      assert Ordered(s[1..]) by {
        forall i | 0 <= i < |s[1..]| - 1 ensures Before(s[1..][i], s[1..][i + 1]) {
          assert s[1..][i] == s[i + 1] && s[1..][i + 1] == s[i + 2];
        }
      }
      OrderedPairwise(s[1..]);
      forall i, j | 0 <= i < j < |s| ensures Before(s[i], s[j]) {
        if i > 0 {
          assert s[i] == s[1..][i - 1] && s[j] == s[1..][j - 1];
        } else if j > 1 {
          assert s[j] == s[1..][j - 1] && s[1] == s[1..][0];
        }
      }
    }
  }

  /** The fetched rows, numbered in order and scored. */
  function Indexed(rows: seq<AssetRow>, terms: seq<string>): (r: seq<Entry>)
    ensures |r| == |rows| && Increasing(r)
    ensures forall k :: 0 <= k < |rows| ==> r[k] == Entry(k, rows[k], Score(rows[k], terms))
  {
    seq(|rows|, k requires 0 <= k < |rows| => Entry(k, rows[k], Score(rows[k], terms)))
  }

  function Ranked(rows: seq<AssetRow>, terms: seq<string>): seq<Entry> {
    Sort(Indexed(rows, terms))
  }

  /** The rows shown: the first nine of the ranking. */
  function SearchResults(rows: seq<AssetRow>, terms: seq<string>): (r: seq<AssetRow>)
    ensures |r| == Min(ShownLimit, |rows|)
  {
    var ranked := Ranked(rows, terms);
    assert |ranked| == |rows| by {
      assert |multiset(ranked)| == |multiset(Indexed(rows, terms))|;
    }
    seq(Min(ShownLimit, |rows|), k requires 0 <= k < Min(ShownLimit, |rows|) => ranked[k].row)
  }

  /**
   * The ranking is the fetched rows reordered, scores descending, ties in
   * fetch order: a stable sort.
   */
  lemma RankedIsStableSort(rows: seq<AssetRow>, terms: seq<string>)
    ensures var r := Ranked(rows, terms);
      && multiset(r) == multiset(Indexed(rows, terms))
      && forall i, j :: 0 <= i < j < |r| ==>
           r[i].score >= r[j].score && (r[i].score == r[j].score ==> r[i].index < r[j].index)
  {
    var r := Ranked(rows, terms);
    var s := Indexed(rows, terms);
    OrderedPairwise(r);
    forall i, j | 0 <= i < j < |r| ensures r[i].index != r[j].index {
      if r[i] == r[j] {
        TwiceCounted(r, i, j);
        AtMostOnce(s, r[i]);
      } else {
        AtItsIndex(s, r[i]);
        AtItsIndex(s, r[j]);
      }
    }
  }

  /** An entry of the numbered rows sits at its own position. */
  lemma AtItsIndex(s: seq<Entry>, x: Entry)
    requires (forall k :: 0 <= k < |s| ==> s[k].index == k) && x in multiset(s)
    ensures x.index < |s| && s[x.index] == x
  {
    var k :| 0 <= k < |s| && s[k] == x;
  }

  /** An entry at two positions is counted twice. */
  lemma TwiceCounted(r: seq<Entry>, i: nat, j: nat)
    requires i < j < |r| && r[i] == r[j]
    ensures multiset(r)[r[i]] >= 2
  {
    assert r == r[..j] + r[j..];
    assert r[i] == r[..j][i] && r[j] == r[j..][0];
    assert multiset(r) == multiset(r[..j]) + multiset(r[j..]);
  }

  /** Entries with increasing positions are all different. */
  lemma {:induction false} AtMostOnce(s: seq<Entry>, x: Entry)
    requires Increasing(s)
    ensures multiset(s)[x] <= 1
  {
    if s != [] {
      assert s == [s[0]] + s[1..];
      assert Increasing(s[1..]) by {
        forall i, j | 0 <= i < j < |s[1..]| ensures s[1..][i].index < s[1..][j].index {
          assert s[1..][i] == s[i + 1] && s[1..][j] == s[j + 1];
        }
      }
      AtMostOnce(s[1..], x);
      if x == s[0] {
        assert x !in s[1..] by {
          forall k | 0 <= k < |s[1..]| ensures s[1..][k] != x {
            assert s[1..][k] == s[k + 1];
          }
        }
      }
    }
  }

  /**
   * The page shows the first nine of the ranking: each shown row is a fetched
   * row, and no row left out scores higher than one shown.
   */
  lemma SearchResultsTop(rows: seq<AssetRow>, terms: seq<string>)
    ensures var shown := SearchResults(rows, terms); var r := Ranked(rows, terms);
      && |r| == |rows|
      && (forall k :: 0 <= k < |shown| ==> shown[k] == r[k].row && r[k].index < |rows| && r[k].row == rows[r[k].index] && r[k].score == Score(shown[k], terms))
      && (forall i, j :: 0 <= i < |shown| <= j < |r| ==> r[i].score >= r[j].score)
  {
    var r := Ranked(rows, terms);
    var s := Indexed(rows, terms);
    assert |multiset(r)| == |multiset(s)|;
    RankedIsStableSort(rows, terms);
    forall k | 0 <= k < |r| ensures r[k].index < |rows| && r[k] == s[r[k].index] {
      assert r[k] in multiset(s);
      AtItsIndex(s, r[k]);
    }
  }

  /** An ordered run of rows in fetch order is left as it is. */
  lemma {:induction false} SortOfOrdered(s: seq<Entry>)
    requires Increasing(s) && Ordered(s)
    ensures Sort(s) == s
  {
    if s != [] {
      var t := s[1..];
      OrderedTail(s);
      SortOfOrdered(t);
      assert Sort(s) == Insert(s[0], t);
      if t != [] {
        assert Before(s[0], s[1]) && t[0] == s[1];
      }
      assert Insert(s[0], t) == [s[0]] + t;
      assert s == [s[0]] + t;
    }
  }

  lemma OrderedTail(s: seq<Entry>)
    requires s != [] && Increasing(s) && Ordered(s)
    ensures Increasing(s[1..]) && Ordered(s[1..])
  {
    var t := s[1..];
    forall i, j | 0 <= i < j < |t| ensures t[i].index < t[j].index {
      assert t[i] == s[i + 1] && t[j] == s[j + 1];
    }
    forall i | 0 <= i < |t| - 1 ensures Before(t[i], t[i + 1]) {
      assert t[i] == s[i + 1] && t[i + 1] == s[i + 2];
    }
  }

  /** Without tokens every score is 0 and the page shows the first nine fetched rows, in fetch order. */
  lemma NoTermsKeepsFetchOrder(rows: seq<AssetRow>)
    ensures SearchResults(rows, []) == Take(rows, ShownLimit)
  {
    var s := Indexed(rows, []);
    assert Ordered(s) by {
      forall i | 0 <= i < |s| - 1 ensures Before(s[i], s[i + 1]) {
        assert s[i].score == 0 && s[i + 1].score == 0;
      }
    }
    SortOfOrdered(s);
  }
}
