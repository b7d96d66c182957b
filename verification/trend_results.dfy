/**
 * The trend grid: a card per board with its cover, its title as stored
 * (`"Untitled"` only when there is none) and, when it has one, its report
 * type in capitals.
 */
module TrendResults {
  import opened Maybe
  import opened Text
  import opened Records
  import opened PublicUrls
  import opened Cards

  /** `publicCoverUrl`: the object in the `boards_covers` bucket; the path is trimmed after the emptiness test. */
  function PublicCoverUrl(base: Option<string>, path: Option<string>): (r: Option<string>)
    ensures r.None? <==> !Present(path) || !Present(base)
    ensures r.Some? ==>
      && StartsWith(r.value, BucketPrefix(base.value, "boards_covers"))
      && DecodePath(r.value[|BucketPrefix(base.value, "boards_covers")|..]) == Some(StripLeadingSlashes(Trim(path.value)))
  {
    ObjectUrl(base, "boards_covers", path, true)
  }

  /** A blank cover path passes the emptiness test and yields the bucket's own URL. */
  lemma BlankCoverPath(base: string)
    requires base != []
    ensures PublicCoverUrl(Some(base), Some(" ")) == Some(BucketPrefix(base, "boards_covers"))
  {
    assert Trim(" ") == [];
    assert CleanPath(" ", true) == [];
    EmptyCleanPath(base, "boards_covers", " ", true);
  }

  /**
   * `formatType`: empty for a missing or empty type; otherwise the type in
   * capitals with its first `+` widened to ` + `.
   */
  function FormatType(t: Option<string>): (r: string)
    ensures !Present(t) ==> r == []
    ensures Present(t) && '+' !in Upper(t.value) ==> r == Upper(t.value)
    ensures Present(t) && '+' in Upper(t.value) ==>
      var u := Upper(t.value); var k := FirstIndex(u, '+');
      r == u[..k] + " + " + u[k + 1..]
  {
    if !Present(t) then [] else ReplaceFirst(Upper(t.value), '+', " + ")
  }

  /** On an ASCII type the capitals keep every character's place, so a `+` stays a `+` and the first one is the one widened. */
  lemma FormatTypeAscii(t: string)
    requires t != [] && IsAscii(t)
    ensures '+' in t <==> '+' in Upper(t)
    ensures '+' in t ==> |FormatType(Some(t))| == |t| + 2
    ensures '+' !in t ==> |FormatType(Some(t))| == |t|
  {
    var u := Upper(t);
    if '+' in t {
      var i :| 0 <= i < |t| && t[i] == '+';
      assert u[i] == '+';
    }
    if '+' in u {
      var i :| 0 <= i < |u| && u[i] == '+';
      assert AsciiUpper(t[i]) == '+';
      assert t[i] == '+';
    }
  }

  /** Only the first `+` is widened: on an ASCII type, any later `+` keeps its place unspaced. */
  lemma OnlyFirstPlusWidened(a: string, b: string)
    requires IsAscii(a) && '+' !in a
    ensures FormatType(Some(a + "+" + b)) == Upper(a) + " + " + Upper(b)
  {
    UpperAroundPlus(a, b);
    NoPlusInUpper(a);
    FormatWidened(a + "+" + b, Upper(a), Upper(b));
  }

  lemma UpperAroundPlus(a: string, b: string)
    ensures Upper(a + "+" + b) == Upper(a) + "+" + Upper(b)
  {
    UpperConcat(a + "+", b);
    UpperConcat(a, "+");
    assert Upper("+") == "+";
  }

  lemma FormatWidened(t: string, x: string, y: string)
    requires t != [] && Upper(t) == x + "+" + y && '+' !in x
    ensures FormatType(Some(t)) == x + " + " + y
  {
    ReplaceFirstAfter(x, '+', " + ", y);
  }

  /** The capitals of an ASCII text hold a `+` only where the text does. */
  lemma NoPlusInUpper(a: string)
    requires IsAscii(a) && '+' !in a
    ensures '+' !in Upper(a)
  {
    forall i | 0 <= i < |a| ensures Upper(a)[i] != '+' {
      assert a[i] != '+';
    }
  }

  /** One trend card: the React key, the link, the cover (if any), its alt text, the title and the report-type line. */
  datatype TrendCard = TrendCard(
    key: string,
    href: string,
    cover: Option<string>,
    alt: string,
    title: string,
    typeLine: Option<string>)

  /** The title as stored, `"Untitled"` only when the column is null; an empty title stays empty. */
  function TrendTitle(title: Option<string>): (r: string)
    ensures title.Some? ==> r == title.value
    ensures title.None? ==> r == "Untitled"
  {
    title.GetOr("Untitled")
  }

  function TrendCardOf(b: TrendBoard, base: Option<string>): (c: TrendCard)
    ensures c.key == b.id && c.href == "/board/" + b.slug
    ensures c.cover == PublicCoverUrl(base, b.coverImagePath)
    ensures c.title == TrendTitle(b.title) && c.alt == b.title.GetOr("Cover")
    ensures c.typeLine.Some? <==> Present(b.reportType)
    ensures c.typeLine.Some? ==> c.typeLine.value == FormatType(b.reportType)
  {
    TrendCard(b.id, "/board/" + b.slug, PublicCoverUrl(base, b.coverImagePath), b.title.GetOr("Cover"), TrendTitle(b.title),
      if Present(b.reportType) then Some(FormatType(b.reportType)) else None)
  }

  /** `TrendResults`: nothing for a missing or empty list; otherwise one card per board, in order, uncapped. */
  function TrendResultsView(boards: Option<seq<TrendBoard>>, base: Option<string>): (r: Option<seq<TrendCard>>)
    ensures r.None? <==> boards.None? || boards.value == []
    ensures r.Some? ==> |r.value| == |boards.value|
    ensures r.Some? ==> forall k :: 0 <= k < |r.value| ==> r.value[k] == TrendCardOf(boards.value[k], base)
  {
    match boards
    case None => None
    case Some(xs) =>
      if xs == [] then None
      else Some(seq(|xs|, k requires 0 <= k < |xs| => TrendCardOf(xs[k], base)))
  }

  /**
   * A card reads "Untitled" exactly when the board has no title or is titled
   * "Untitled"; the asset grid's blank-title fallback does not apply here.
   */
  lemma UntitledOnlyWhenNull(b: TrendBoard, base: Option<string>)
    ensures TrendCardOf(b, base).title == "Untitled" <==> b.title.None? || b.title == Some("Untitled")
    ensures b.title == Some("") ==> TrendCardOf(b, base).title == [] && TwoWordTitle(b.title) == "Untitled"
  {
  }
}
