/**
 * The trend page (`/trend`): filter pills on four board columns, the
 * free-text filter over five, and at most 24 ready boards for the trend grid.
 */
module TrendPage {
  import opened Maybe
  import opened Text
  import opened Tokenizer
  import opened Filters
  import opened Records
  import opened Cards
  import opened TrendResults

  /** The page's parameters; each is trimmed, absent meaning empty. */
  datatype TrendParams = TrendParams(
    q: Option<string>,
    season: Option<string>,
    domain: Option<string>,
    color: Option<string>,
    printPattern: Option<string>)

  /** The columns one token is matched against, in the order the filter lists them. */
  const TrendFields: seq<string> := ["domain", "season", "direction", "color_notes", "print_pattern_notes"]
  const TrendLimit: nat := 24

  /**
   * The board columns the page can select: `id`, `title`, `slug`,
   * `cover_image_path`, `source_site`, `season`, `domain`, `color_notes`,
   * `print_pattern_notes`, `direction` and `report_type`.
   */
  datatype BoardColumn =
    | IdColumn | TitleColumn | SlugColumn | CoverColumn | SiteColumn | SeasonColumn
    | DomainColumn | ColorColumn | PrintColumn | DirectionColumn | ReportTypeColumn


  /** The columns the page's `select` lists, as columns and, in the same order, as the comma-separated text sent. */
  const SelectedColumnNames: seq<BoardColumn> :=
    [IdColumn, TitleColumn, SlugColumn, CoverColumn, SiteColumn, SeasonColumn,
     DomainColumn, ColorColumn, PrintColumn, DirectionColumn]
  const SelectedColumns: string :=
    "id,title,slug,cover_image_path,source_site,season,domain,color_notes,print_pattern_notes,direction"

  /** The same list with `report_type`, which the trend grid reads: what the page evidently means to select. */
  const TrendColumnNames: seq<BoardColumn> := SelectedColumnNames + [ReportTypeColumn]
  const TrendColumns: string := SelectedColumns + ",report_type"

  // -------------------------------------------------------------- the query

  /** The four filter pills, each on its own board column. */
  datatype PillColumn = Season | DomainPill | Color | PrintPattern

  function ColumnOf(pc: PillColumn): string {
    match pc
    case Season => "season"
    case DomainPill => "domain"
    case Color => "color_notes"
    case PrintPattern => "print_pattern_notes"
  }

  function ValueOf(p: TrendParams, pc: PillColumn): Option<string> {
    match pc
    case Season => p.season
    case DomainPill => p.domain
    case Color => p.color
    case PrintPattern => p.printPattern
  }

  lemma ColumnOfInjective(a: PillColumn, b: PillColumn)
    ensures ColumnOf(a) == ColumnOf(b) ==> a == b
  {
    if a != b {
      assert ColumnOf(a) != ColumnOf(b) by {
        var x, y := ColumnOf(a), ColumnOf(b);
        if |x| == |y| {
          assert x[0] != y[0];
        }
      }
    }
  }

  /** A filter pill: `%value%` on its column when the trimmed value is non-empty, nothing otherwise. */
  function Pill(p: TrendParams, pc: PillColumn): (r: seq<Condition>)
    ensures r == [] <==> QueryText(ValueOf(p, pc)) == []
    ensures forall c :: c in r ==> c == ILike(ColumnOf(pc), Wrap(QueryText(ValueOf(p, pc))))
  {
    var t := QueryText(ValueOf(p, pc));
    if t == [] then [] else [ILike(ColumnOf(pc), Wrap(t))]
  }

  /** `c` is one of the four pills' conditions. */
  predicate IsPill(p: TrendParams, c: Condition) {
    c in Pill(p, Season) || c in Pill(p, DomainPill) || c in Pill(p, Color) || c in Pill(p, PrintPattern)
  }

  /** The pills in the page's order: season, domain, colour, print. */
  function PillConditions(p: TrendParams): (r: seq<Condition>)
    ensures forall c :: c in r <==> IsPill(p, c)
    ensures forall c :: c in r ==> c.ILike?
  {
    Pill(p, Season) + Pill(p, DomainPill) + Pill(p, Color) + Pill(p, PrintPattern)
  }

  function TrendTerms(p: TrendParams): seq<string> {
    Tokenize(Mojibake, QueryText(p.q))
  }

  /** The board query as the page sends it, selecting its ten columns. */
  function TrendQuery(p: TrendParams): (r: Query)
    ensures r.table == "boards" && r.columns == SelectedColumns && r.limit == TrendLimit
    ensures |r.conditions| >= 1 && r.conditions[0] == Ready
  {
    Query("boards", SelectedColumns, [Ready] + PillConditions(p) + OrConditions(TrendFields, TrendTerms(p)), TrendLimit)
  }

  /** The corrected query: the same table, filters and limit, with `report_type` added to the selected columns. */
  function TrendQueryCorrected(p: TrendParams): (r: Query)
    ensures r.table == "boards" && r.columns == TrendColumns && r.limit == TrendLimit
    ensures r.conditions == TrendQuery(p).conditions
  {
    TrendQuery(p).(columns := TrendColumns)
  }

  lemma TrendConditions(p: TrendParams)
    ensures forall c :: c in TrendQuery(p).conditions <==>
      c == Ready || c in PillConditions(p) || c in OrConditions(TrendFields, TrendTerms(p))
  {
    assert TrendQuery(p).conditions == [Ready] + PillConditions(p) + OrConditions(TrendFields, TrendTerms(p));
  }

  /**
   * Each pill's condition is there exactly when its trimmed value is
   * non-empty, and matches that value as a substring; every other condition
   * is `Ready` or the free-text filter.
   */
  lemma TrendPills(p: TrendParams, pc: PillColumn)
    ensures (exists c :: c in TrendQuery(p).conditions && c.ILike? && c.column == ColumnOf(pc))
            <==> QueryText(ValueOf(p, pc)) != []
    ensures forall c :: c in TrendQuery(p).conditions && c.ILike? && c.column == ColumnOf(pc) ==>
              c.pattern == Wrap(QueryText(ValueOf(p, pc)))
    ensures forall c :: c in TrendQuery(p).conditions ==> c == Ready || c.Or? || IsPill(p, c)
  {
    PillThere(p, pc);
    PillPattern(p, pc);
    TrendKinds(p);
  }

  lemma PillThere(p: TrendParams, pc: PillColumn)
    ensures (exists c :: c in TrendQuery(p).conditions && c.ILike? && c.column == ColumnOf(pc))
            <==> QueryText(ValueOf(p, pc)) != []
  {
    PillPresent(p, pc);
    PillsApart(p, pc);
  }

  lemma PillPattern(p: TrendParams, pc: PillColumn)
    ensures forall c :: c in TrendQuery(p).conditions && c.ILike? && c.column == ColumnOf(pc) ==>
              c.pattern == Wrap(QueryText(ValueOf(p, pc)))
  {
    PillsApart(p, pc);
  }

  lemma TrendKinds(p: TrendParams)
    ensures forall c :: c in TrendQuery(p).conditions ==> c == Ready || c.Or? || IsPill(p, c)
  {
    TrendConditions(p);
  }

  lemma PillPresent(p: TrendParams, pc: PillColumn)
    ensures QueryText(ValueOf(p, pc)) != [] ==> ILike(ColumnOf(pc), Wrap(QueryText(ValueOf(p, pc)))) in TrendQuery(p).conditions
  {
    var t := QueryText(ValueOf(p, pc));
    if t != [] {
      TrendConditions(p);
      assert ILike(ColumnOf(pc), Wrap(t)) in Pill(p, pc);
      assert IsPill(p, ILike(ColumnOf(pc), Wrap(t)));
    }
  }

  /** An `ilike` on a pill's column comes from that pill, not another. */
  lemma PillsApart(p: TrendParams, pc: PillColumn)
    ensures forall c :: c in TrendQuery(p).conditions && c.ILike? && c.column == ColumnOf(pc) ==> c in Pill(p, pc)
  {
    IlikeIsPill(p);
    forall c | IsPill(p, c) && c.column == ColumnOf(pc) ensures c in Pill(p, pc) {
      PillFromColumn(p, pc, c);
    }
  }

  lemma IlikeIsPill(p: TrendParams)
    ensures forall c :: c in TrendQuery(p).conditions && c.ILike? ==> IsPill(p, c)
  {
    TrendConditions(p);
  }

  lemma PillFromColumn(p: TrendParams, pc: PillColumn, c: Condition)
    requires IsPill(p, c) && c.ILike? && c.column == ColumnOf(pc)
    ensures c in Pill(p, pc)
  {
    var owner := if c in Pill(p, Season) then Season else if c in Pill(p, DomainPill) then DomainPill
      else if c in Pill(p, Color) then Color else PrintPattern;
    assert c in Pill(p, owner);
    assert c.column == ColumnOf(owner);
    ColumnOfInjective(pc, owner);
  }

  lemma TrendFieldsPlain()
    ensures AllPlain(TrendFields)
  {
    forall k | 0 <= k < |TrendFields| ensures Plain(TrendFields[k]) {
      assert forall i :: 0 <= i < |TrendFields[k]| ==> 'a' <= TrendFields[k][i] <= 'z' || TrendFields[k][i] == '_';
    }
  }

  lemma TrendOrRead(p: TrendParams)
    ensures forall c :: c in OrConditions(TrendFields, TrendTerms(p)) ==> ReadsAsExpected(c, TrendFields, TrendTerms(p))
  {
    TokensPlain(Mojibake, QueryText(p.q));
    TrendFieldsPlain();
    OrConditionsRead(TrendFields, TrendTerms(p));
  }

  /**
   * The free-text filter is there exactly when the query has tokens, and
   * reads back as one `ilike` per field and token, `5 * |terms|` clauses.
   */
  lemma TrendTextFilter(p: TrendParams)
    ensures (exists c :: c in TrendQuery(p).conditions && c.Or?) <==> TrendTerms(p) != []
    ensures forall c :: c in TrendQuery(p).conditions && c.Or? ==> ReadsAsExpected(c, TrendFields, TrendTerms(p))
    ensures |Expected(TrendFields, TrendTerms(p))| == 5 * |TrendTerms(p)|
  {
    var terms := TrendTerms(p);
    TrendOrRead(p);
    OrFromText(p);
    if terms != [] {
      assert Or(OrText(TrendFields, terms)) in OrConditions(TrendFields, terms);
    }
    ExpectedLength(TrendFields, terms);
  }

  /** The query's `or` conditions are exactly the free-text filter's. */
  lemma OrFromText(p: TrendParams)
    ensures forall c :: c in TrendQuery(p).conditions && c.Or? <==> c in OrConditions(TrendFields, TrendTerms(p))
  {
    TrendConditions(p);
  }

  /** With every parameter blank the page asks for any 24 ready boards. */
  lemma BlankParamsUnfiltered(p: TrendParams)
    requires QueryText(p.q) == [] && QueryText(p.season) == [] && QueryText(p.domain) == []
    requires QueryText(p.color) == [] && QueryText(p.printPattern) == []
    ensures TrendQuery(p).conditions == [Ready]
  {
    NoPills(p);
    NoTerms(p);
    OnlyReady(p);
  }

  lemma NoPills(p: TrendParams)
    requires QueryText(p.season) == [] && QueryText(p.domain) == [] && QueryText(p.color) == [] && QueryText(p.printPattern) == []
    ensures PillConditions(p) == []
  {
  }

  lemma NoTerms(p: TrendParams)
    requires QueryText(p.q) == []
    ensures TrendTerms(p) == []
  {
    PunctuationOnlyHasNoTokens(Mojibake, QueryText(p.q));
  }

  lemma OnlyReady(p: TrendParams)
    requires TrendTerms(p) == [] && PillConditions(p) == []
    ensures TrendQuery(p).conditions == [Ready]
  {
  }

  // ------------------------------------------------------- fetching and rendering

  /** A board as the query returns it when `names` are the selected columns: a column not selected comes back missing. */
  function Fetched(b: TrendBoard, names: seq<BoardColumn>): (r: TrendBoard)
    ensures r.id == b.id && r.slug == b.slug
    ensures r.reportType == (if ReportTypeColumn in names then b.reportType else None)
    ensures r.title == (if TitleColumn in names then b.title else None)
    ensures r.coverImagePath == (if CoverColumn in names then b.coverImagePath else None)
    ensures r.sourceSite == (if SiteColumn in names then b.sourceSite else None)
  {
    TrendBoard(
      b.id,
      if TitleColumn in names then b.title else None,
      b.slug,
      if CoverColumn in names then b.coverImagePath else None,
      if SiteColumn in names then b.sourceSite else None,
      if ReportTypeColumn in names then b.reportType else None)
  }

  /** The trend grid over the boards a query selecting `names` returns. */
  function GridOf(rows: seq<TrendBoard>, base: Option<string>, names: seq<BoardColumn>): (r: Option<seq<TrendCard>>)
    ensures r.None? <==> rows == []
    ensures r.Some? ==> |r.value| == |rows|
    ensures r.Some? ==> forall k :: 0 <= k < |rows| ==> r.value[k] == TrendCardOf(Fetched(rows[k], names), base)
  {
    TrendResultsView(Some(seq(|rows|, k requires 0 <= k < |rows| => Fetched(rows[k], names))), base)
  }

  /** The page as written: the grid over the boards its ten-column query returns. */
  function TrendPageView(rows: seq<TrendBoard>, base: Option<string>): (r: Option<seq<TrendCard>>)
    ensures r.None? <==> rows == []
    ensures r.Some? ==> |r.value| == |rows|
    ensures r.Some? ==> forall k :: 0 <= k < |rows| ==> r.value[k] == TrendCardOf(Fetched(rows[k], SelectedColumnNames), base)
  {
    GridOf(rows, base, SelectedColumnNames)
  }

  /** The corrected page: the grid over the boards the query with `report_type` returns. */
  function TrendPageViewCorrected(rows: seq<TrendBoard>, base: Option<string>): (r: Option<seq<TrendCard>>)
    ensures r.None? <==> rows == []
    ensures r.Some? ==> |r.value| == |rows|
    ensures r.Some? ==> forall k :: 0 <= k < |rows| ==> r.value[k] == TrendCardOf(Fetched(rows[k], TrendColumnNames), base)
  {
    GridOf(rows, base, TrendColumnNames)
  }

  /** As written, the query leaves out `report_type`, so no card of the page ever shows a report-type line. */
  lemma ReportTypeNeverShown(rows: seq<TrendBoard>, base: Option<string>)
    ensures TrendPageView(rows, base).Some? ==>
      forall k :: 0 <= k < |rows| ==> TrendPageView(rows, base).value[k].typeLine.None?
  {
    assert ReportTypeColumn !in SelectedColumnNames;
  }

  /** Corrected, a card shows a report-type line exactly when its board has a non-empty report type. */
  lemma ReportTypeShownWhenSelected(rows: seq<TrendBoard>, base: Option<string>)
    ensures TrendPageViewCorrected(rows, base).Some? ==>
      forall k :: 0 <= k < |rows| ==> (TrendPageViewCorrected(rows, base).value[k].typeLine.Some? <==> Present(rows[k].reportType))
  {
    assert TrendColumnNames[10] == ReportTypeColumn;
  }
}
