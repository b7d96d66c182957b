/**
 * The curate panel above the asset grid: the request it posts for the query
 * and the first nine assets, when it posts it, and the title it shows.
 */
module CurateInterpretation {
  import opened Maybe
  import opened Text
  import opened Json
  import opened Records
  import opened InterpretRoute

  /** A nullable column as JSON: `null` when missing. */
  function ColumnJson(v: Option<string>): (r: Json)
    ensures v.None? <==> r == JNull
    ensures v.Some? ==> r == JStr(v.value)
  {
    match v
    case None => JNull
    case Some(s) => JStr(s)
  }

  /** One asset as the panel posts it: the five summary fields, null ones kept as `null`. */
  function PayloadEntry(a: AssetRow): (r: map<string, Json>)
    ensures r.Keys == set k | k in SummaryKeys
    ensures r["title"] == ColumnJson(a.title) && r["domain"] == ColumnJson(a.domain)
    ensures r["direction"] == ColumnJson(a.direction) && r["color_notes"] == ColumnJson(a.colorNotes)
    ensures r["print_pattern_notes"] == ColumnJson(a.printPatternNotes)
  {
    map["title" := ColumnJson(a.title), "domain" := ColumnJson(a.domain), "direction" := ColumnJson(a.direction),
        "color_notes" := ColumnJson(a.colorNotes), "print_pattern_notes" := ColumnJson(a.printPatternNotes)]
  }

  /** The request body: `{ q, assets }` with the first nine assets; there is no `mode`, so the route works in board mode. */
  function CuratePayload(q: string, assets: seq<AssetRow>): (r: Json)
    ensures r.JObj? && r.fields.Keys == {"q", "assets"}
    ensures Get(r, "q") == Some(JStr(q))
    ensures Get(r, "assets").Some? && Get(r, "assets").value.JArr?
    ensures var es := Get(r, "assets").value.elems;
      |es| == Min(MaxCompactAssets, |assets|) && forall i :: 0 <= i < |es| ==> es[i] == JObj(PayloadEntry(assets[i]))
  {
    var first := Take(assets, MaxCompactAssets);
    JObj(map["q" := JStr(q), "assets" := JArr(seq(|first|, i requires 0 <= i < |first| => JObj(PayloadEntry(first[i]))))])
  }

  /** The panel posts only when the trimmed query is non-empty and there is an asset. */
  predicate ShouldRequest(q: string, assets: seq<AssetRow>) {
    Trim(q) != [] && |assets| > 0
  }

  /** The route's projection of a posted entry is the entry itself. */
  lemma RouteKeepsEntry(a: AssetRow)
    ensures CompactEntry(JObj(PayloadEntry(a))) == Some(PayloadEntry(a))
  {
    var m := PayloadEntry(a);
    var r := CompactEntry(JObj(m)).value;
    assert r.Keys == m.Keys;
    assert r == m;
  }

  /** How the route reads a posted body: board mode, the query as posted, the entries as posted. */
  lemma RouteReadsCuratePayload(q: string, assets: seq<AssetRow>)
    ensures var body := CuratePayload(q, assets);
      && ModeOf(body) == Board && QueryOf(body) == Some(q)
      && AssetsOf(body) == Get(body, "assets").value.elems
  {
    var body := CuratePayload(q, assets);
    assert Get(body, "mode").None?;
    assert GetOrDefault(body, "q", JStr("")) == JStr(q);
  }

  /** The route's projection of the posted entries is the entries themselves. */
  lemma RouteKeepsEntries(q: string, assets: seq<AssetRow>)
    ensures var es := Get(CuratePayload(q, assets), "assets").value.elems;
      && CompactAssets(es).Some?
      && |CompactAssets(es).value| == Min(MaxCompactAssets, |assets|)
      && forall i :: 0 <= i < |CompactAssets(es).value| ==> CompactAssets(es).value[i] == PayloadEntry(assets[i])
  {
    var es := Get(CuratePayload(q, assets), "assets").value.elems;
    forall i | 0 <= i < |es| ensures !es[i].JNull? && CompactEntry(es[i]) == Some(PayloadEntry(assets[i])) {
      RouteKeepsEntry(assets[i]);
    }
    assert Min(MaxCompactAssets, |es|) == |es|;
  }

  /**
   * A request the panel sends passes the route's validation in board mode,
   * with the query as posted and the entries as posted.
   */
  lemma RouteAcceptsCuratePayload(q: string, assets: seq<AssetRow>)
    requires ShouldRequest(q, assets)
    ensures var step := Prepare(true, Some(CuratePayload(q, assets)));
      && step.Continue?
      && step.value.mode == Board && step.value.q == q
      && |step.value.compactAssets| == Min(MaxCompactAssets, |assets|)
      && forall i :: 0 <= i < |step.value.compactAssets| ==> step.value.compactAssets[i] == PayloadEntry(assets[i])
  {
    RouteReadsCuratePayload(q, assets);
    RouteKeepsEntries(q, assets);
    BoardPrepared(CuratePayload(q, assets));
  }

  /** The panel is stricter than the route: it does not post a blank query, which the route would accept. */
  lemma StricterThanRoute(assets: seq<AssetRow>)
    requires |assets| > 0
    ensures !ShouldRequest(" ", assets)
    ensures Prepare(true, Some(CuratePayload(" ", assets))).Continue?
  {
    assert Trim(" ") == [];
    RouteReadsCuratePayload(" ", assets);
    RouteKeepsEntries(" ", assets);
    BoardPrepared(CuratePayload(" ", assets));
  }

  /** `data.board_title || q`: the model's title, or the query when the title is empty. */
  function DisplayTitle(result: Interpretation, q: string): (r: string)
    ensures result.boardTitle.Some? && result.boardTitle.value != [] ==> r == result.boardTitle.value
    ensures (result.boardTitle.None? || result.boardTitle == Some("")) ==> r == q
  {
    match result.boardTitle
    case Some(t) => if t != [] then t else q
    case None => q
  }

  /** Whenever the panel has posted, the title it shows is non-empty. */
  lemma DisplayTitleNonEmpty(result: Interpretation, q: string, assets: seq<AssetRow>)
    requires ShouldRequest(q, assets)
    ensures DisplayTitle(result, q) != []
  {
  }

  /** What the panel renders: nothing for a blank query, else its loading, error and result parts. */
  datatype PanelState = PanelState(loading: bool, error: Option<string>, data: Option<Interpretation>)

  datatype PanelView = PanelView(loading: bool, error: Option<string>, title: Option<string>, summary: Option<string>,
                                 why: seq<string>, pulse: seq<string>)

  /** The error line: shown only for a non-empty message, since `""` is falsy. */
  function ErrorLine(error: Option<string>): (r: Option<string>)
    ensures r.Some? <==> error.Some? && error.value != []
    ensures r.Some? ==> r == error
  {
    match error
    case Some(e) => if e != [] then error else None
    case None => None
  }

  function Panel(q: string, s: PanelState): (r: Option<PanelView>)
    ensures r.None? <==> Trim(q) == []
    ensures r.Some? ==> r.value.loading == s.loading
    ensures r.Some? ==> (r.value.error.Some? <==> s.error.Some? && s.error.value != [])
    ensures r.Some? && r.value.error.Some? ==> r.value.error == s.error
    ensures r.Some? ==> (r.value.title.Some? <==> s.data.Some?)
    ensures r.Some? && s.data.Some? ==>
      && r.value.title == Some(DisplayTitle(s.data.value, q))
      && r.value.summary == Some(s.data.value.curatorialSummary)
      && r.value.why == s.data.value.whyItMatters && r.value.pulse == s.data.value.contextPulse
    ensures r.Some? && s.data.None? ==> r.value.summary.None? && r.value.why == [] && r.value.pulse == []
  {
    if Trim(q) == [] then None
    else
      var error := ErrorLine(s.error);
      match s.data
      case None => Some(PanelView(s.loading, error, None, None, [], []))
      case Some(d) => Some(PanelView(s.loading, error, Some(DisplayTitle(d, q)), Some(d.curatorialSummary), d.whyItMatters, d.contextPulse))
  }
}
