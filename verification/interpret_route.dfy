/**
 * The `POST /api/interpret` handler: credential check, body reading, mode
 * selection, request validation, the compact projections sent to the
 * model, fence stripping of the reply, and coercion of the parsed reply into
 * the response envelope. The model call is an input (`Completion`) and
 * `JSON.parse` an oracle (`parse`); the prompt text is not modelled.
 */
module InterpretRoute {
  import opened Maybe
  import opened Text
  import opened Json

  datatype Mode = Board | Asset

  /** The five fields an asset summary keeps, in the order the route writes them. */
  const SummaryKeys: seq<string> := ["title", "domain", "direction", "color_notes", "print_pattern_notes"]

  /** The most entries `parseDomainOptions` keeps. */
  const MaxDomainOptions: nat := 6
  /** The most assets a board request forwards to the model. */
  const MaxCompactAssets: nat := 9
  /** The most bullets kept in each list of the reply. */
  const MaxBullets: nat := 5

  /** The response envelope of a successful call; `boardTitle` is present in board mode only. */
  datatype Interpretation = Interpretation(
    boardTitle: Option<string>,
    curatorialSummary: string,
    whyItMatters: seq<string>,
    contextPulse: seq<string>)

  /** A JSON response with an HTTP status. `raw` is set only for the invalid-JSON reply. */
  datatype Reply =
    | Interpreted(result: Interpretation)
    | Failed(status: nat, error: string, raw: Option<string>)

  const MissingKey: Reply := Failed(500, "Missing OPENAI_API_KEY", None)
  const MissingQueryOrAssets: Reply := Failed(400, "Missing query or assets", None)
  const MissingAsset: Reply := Failed(400, "Missing asset", None)
  const NoContent: Reply := Failed(500, "No content returned from model", None)
  /** Any exception caught by the outer `try`; its `detail` message is not modelled. */
  const ServerError: Reply := Failed(500, "Server error", None)

  // ------------------------------------------------------- domain options

  predicate IsDomainSeparator(c: char) {
    c == ',' || c == ';' || c == '|'
  }

  lemma {:induction false} TrimKeepsNoneOf(s: string, p: char -> bool)
    requires NoneOf(s, p)
    ensures NoneOf(Trim(s), p)
  {
    var r := Trim(s);
    var i := |s| - |TrimStart(s)|;
    TrimSlice(s);
    assert r == s[i..i + |r|];
    forall k | 0 <= k < |r| ensures !p(r[k]) {
      assert r[k] == s[i + k];
    }
  }

  /** `split(/[,;|]/g).map(trim).filter(Boolean)`, shared by the route and the asset panel. */
  function DomainParts(raw: string): (parts: seq<string>)
    ensures forall k :: 0 <= k < |parts| ==>
      parts[k] != [] && Trimmed(parts[k]) && NoneOf(parts[k], IsDomainSeparator)
  {
    var fields := Split(raw, IsDomainSeparator);
    var trimmed := seq(|fields|, i requires 0 <= i < |fields| => Trim(fields[i]));
    assert forall i :: 0 <= i < |fields| ==> NoneOf(trimmed[i], IsDomainSeparator) by {
      forall i | 0 <= i < |fields| ensures NoneOf(trimmed[i], IsDomainSeparator) {
        TrimKeepsNoneOf(fields[i], IsDomainSeparator);
      }
    }
    RemoveEmpty(trimmed)
  }

  /** Parts written back with commas parse to the same parts, in the same order. */
  lemma {:induction false} DomainPartsOfJoin(parts: seq<string>)
    requires forall k :: 0 <= k < |parts| ==>
      parts[k] != [] && Trimmed(parts[k]) && NoneOf(parts[k], IsDomainSeparator)
    ensures DomainParts(Join(parts, ",")) == parts
  {
    if parts == [] {
      assert Split([], IsDomainSeparator) == [[]];
    } else {
      SplitJoin(parts, IsDomainSeparator, ',');
      var fields := Split(Join(parts, ","), IsDomainSeparator);
      assert fields == parts;
      var trimmed := seq(|fields|, i requires 0 <= i < |fields| => Trim(fields[i]));
      assert forall i :: 0 <= i < |fields| ==> trimmed[i] == parts[i];
      assert trimmed == parts;
      RemoveEmptyOfNonEmpty(parts);
    }
  }

  /** `parseDomainOptions`: nothing for a missing or empty string, else the first six parts. */
  function ParseDomainOptions(raw: Option<string>): (r: seq<string>)
    ensures raw.None? || raw == Some("") ==> r == []
    ensures raw.Some? ==> var parts := DomainParts(raw.value);
      |r| == Min(MaxDomainOptions, |parts|) && r == parts[..|r|]
    ensures |r| <= MaxDomainOptions
    ensures forall k :: 0 <= k < |r| ==> r[k] != [] && Trimmed(r[k]) && NoneOf(r[k], IsDomainSeparator)
  {
    if raw.None? || raw.value == [] then [] else Take(DomainParts(raw.value), MaxDomainOptions)
  }

  /**
   * `parseDomainOptions(compactAsset?.domain ?? null)` on whatever JSON value
   * the asset's domain holds: falsy values give no options, a string is
   * parsed, and any other value has no `split` method, so the call throws.
   */
  function DomainOptionsOf(domain: Json): (r: Option<seq<string>>)
    ensures !Truthy(domain) ==> r == Some([])
    ensures domain.JStr? ==> r == Some(ParseDomainOptions(Some(domain.s)))
    ensures Truthy(domain) && !domain.JStr? ==> r.None?
  {
    if !Truthy(domain) then Some([])
    else if domain.JStr? then Some(ParseDomainOptions(Some(domain.s)))
    else None
  }

  // -------------------------------------------------------- reading the body

  /** The mode: `"asset"` exactly when `body.mode === "asset"`, otherwise board. */
  function ModeOf(body: Json): Mode {
    if Get(body, "mode") == Some(JStr("asset")) then Asset else Board
  }

  /** `(body?.q ?? "").toString()`; `None` where `toString` throws. */
  function QueryOf(body: Json): Option<string> {
    StringOf(GetOrDefault(body, "q", JStr("")))
  }

  /** `Array.isArray(body?.assets) ? body.assets : []`. */
  function AssetsOf(body: Json): seq<Json> {
    match Get(body, "assets")
    case Some(JArr(es)) => es
    case _ => []
  }

  /** `body?.asset && typeof body.asset === "object" ? body.asset : null`; arrays are objects too. */
  function AssetOf(body: Json): Option<Json> {
    match Get(body, "asset")
    case Some(JObj(m)) => Some(JObj(m))
    case Some(JArr(es)) => Some(JArr(es))
    case _ => None
  }

  // -------------------------------------------------------------- projections

  /**
   * One element of `assets.slice(0, 9).map(a => ({ title: a.title, ... }))`.
   * Reading a property of `null` throws; for any other value a missing
   * property is `undefined`, which the serialised prompt omits, so the entry
   * keeps exactly the summary keys the element has.
   */
  function CompactEntry(a: Json): (r: Option<map<string, Json>>)
    ensures r.None? <==> a.JNull?
    ensures r.Some? ==> (forall k :: k in r.value <==> k in SummaryKeys && Get(a, k).Some?)
    ensures r.Some? ==> forall k :: k in r.value ==> r.value[k] == a.fields[k]
  {
    if a.JNull? then None
    else if a.JObj? then Some(map k | k in a.fields && k in SummaryKeys :: a.fields[k])
    else Some(map[])
  }

  /** `compactAssets`: the first nine elements, projected; `None` if a projection throws. */
  function CompactAssets(assets: seq<Json>): (r: Option<seq<map<string, Json>>>)
    ensures r.None? <==> exists i :: 0 <= i < Min(MaxCompactAssets, |assets|) && assets[i].JNull?
    ensures r.Some? ==> |r.value| == Min(MaxCompactAssets, |assets|)
    ensures r.Some? ==> forall i :: 0 <= i < |r.value| ==> Some(r.value[i]) == CompactEntry(assets[i])
  {
    var first := Take(assets, MaxCompactAssets);
    var entries := seq(|first|, i requires 0 <= i < |first| => CompactEntry(first[i]));
    assert forall i :: 0 <= i < |first| ==> first[i] == assets[i] && (entries[i].None? <==> assets[i].JNull?);
    if exists i :: 0 <= i < |first| && entries[i].None? then None
    else Some(seq(|first|, i requires 0 <= i < |first| => entries[i].value))
  }

  /** `compactAsset`: exactly the five summary fields, a missing or null one written as `null`. */
  function CompactAsset(asset: Json): (r: map<string, Json>)
    ensures r.Keys == set k | k in SummaryKeys
    ensures forall k :: k in r ==> r[k] == GetOrDefault(asset, k, JNull)
  {
    map k | k in SummaryKeys :: GetOrDefault(asset, k, JNull)
  }

  // --------------------------------------------------------------- preparation

  /** What the handler has assembled when it is ready to call the model. */
  datatype Prepared = Prepared(
    mode: Mode,
    q: string,
    compactAssets: seq<map<string, Json>>,
    compactAsset: Option<map<string, Json>>,
    domainOptions: seq<string>)

  /** Either the handler answers now, or it goes on with a value. */
  datatype Step<T> = Respond(reply: Reply) | Continue(value: T)

  /**
   * Everything before the model call. `hasKey` is whether the credential is
   * configured; `body` is `None` when `req.json()` throws.
   */
  function Prepare(hasKey: bool, body: Option<Json>): (r: Step<Prepared>)
    ensures !hasKey ==> r == Respond(MissingKey)
    ensures r.Continue? ==> hasKey && body.Some?
    ensures r.Continue? ==> r.value.mode == ModeOf(body.value)
  {
    if !hasKey then Respond(MissingKey)
    else if body.None? then Respond(ServerError)
    else
      var b := body.value;
      var mode := ModeOf(b);
      match QueryOf(b)
      case None => Respond(ServerError)
      case Some(q) =>
        var assets := AssetsOf(b);
        var asset := AssetOf(b);
        if mode == Board && (q == [] || |assets| == 0) then Respond(MissingQueryOrAssets)
        else if mode == Asset && asset.None? then Respond(MissingAsset)
        else
          match CompactAssets(assets)
          case None => Respond(ServerError)
          case Some(compact) =>
            var single := if mode == Asset then Some(CompactAsset(asset.value)) else None;
            var options := if mode == Asset then DomainOptionsOf(single.value["domain"]) else Some([]);
            match options
            case None => Respond(ServerError)
            case Some(opts) => Continue(Prepared(mode, q, compact, single, opts))
  }

  // ------------------------------------------------------------ the reply text

  function AsciiLowerChar(c: char): char {
    if 'A' <= c <= 'Z' then (c as int + 32) as char else c
  }

  /** `s` begins with three backticks followed by `json` in any ASCII letter case. */
  predicate StartsWithJsonFence(s: string) {
    && |s| >= 7 && s[..3] == "```"
    && AsciiLowerChar(s[3]) == 'j' && AsciiLowerChar(s[4]) == 's'
    && AsciiLowerChar(s[5]) == 'o' && AsciiLowerChar(s[6]) == 'n'
  }

  /** `replace(/^```json\s*\/i, "")`. */
  function DropJsonFence(s: string): string {
    if StartsWithJsonFence(s) then TrimStart(s[7..]) else s
  }

  /** `replace(/^```\s*\/i, "")`. */
  function DropOpeningFence(s: string): string {
    if StartsWith(s, "```") then TrimStart(s[3..]) else s
  }

  /** `replace(/```$/i, "")`: only a fence that ends the text. */
  function DropClosingFence(s: string): string {
    if EndsWith(s, "```") then s[..|s| - 3] else s
  }

  /** The `cleaned` text: the three replacements in order, then `trim`. */
  function CleanFences(content: string): (r: string)
    ensures Trimmed(r)
    ensures Trimmed(content) && !StartsWith(content, "```") && !EndsWith(content, "```") ==> r == content
  {
    Trim(DropClosingFence(DropOpeningFence(DropJsonFence(content))))
  }

  // ------------------------------------------------------------- the coercion

  /** `Array.isArray(v) ? v.map(String).slice(0, 5) : []`; `None` where a conversion throws. */
  function BulletsOf(v: Option<Json>): (r: Option<seq<string>>)
    ensures r.Some? ==> |r.value| <= MaxBullets
    ensures (v.None? || !v.value.JArr?) ==> r == Some([])
    ensures v.Some? && v.value.JArr? ==> var es := v.value.elems;
      (r.Some? <==> forall i :: 0 <= i < |es| ==> StringOf(es[i]).Some?)
      && (r.Some? ==> |r.value| == Min(MaxBullets, |es|)
                      && forall i :: 0 <= i < |r.value| ==> r.value[i] == StringOf(es[i]).value)
  {
    match v
    case Some(JArr(es)) =>
      (match StringsOf(es)
       case None => None
       case Some(ss) => Some(Take(ss, MaxBullets)))
    case _ => Some([])
  }

  /** `String(parsed?.key ?? "").trim()`. */
  function TextField(parsed: Json, key: string): (r: Option<string>)
    ensures r.Some? ==> Trimmed(r.value)
    ensures r.Some? <==> StringOf(GetOrDefault(parsed, key, JStr(""))).Some?
    ensures r.Some? ==> r.value == Trim(StringOf(GetOrDefault(parsed, key, JStr(""))).value)
    ensures Get(parsed, key).None? || Get(parsed, key) == Some(JNull) ==> r == Some("")
  {
    match StringOf(GetOrDefault(parsed, key, JStr("")))
    case None => None
    case Some(s) => Some(Trim(s))
  }

  /** The envelope built from the parsed reply; `None` where a `String` conversion throws. */
  function Coerce(parsed: Json, mode: Mode): (r: Option<Interpretation>)
    ensures r.Some? ==> (r.value.boardTitle.Some? <==> mode == Board)
    ensures r.Some? ==> |r.value.whyItMatters| <= MaxBullets && |r.value.contextPulse| <= MaxBullets
    ensures r.Some? ==> Trimmed(r.value.curatorialSummary)
    ensures r.Some? && mode == Board ==> Trimmed(r.value.boardTitle.value)
    ensures r.Some? ==> Some(r.value.whyItMatters) == BulletsOf(Get(parsed, "why_it_matters"))
    ensures r.Some? ==> Some(r.value.contextPulse) == BulletsOf(Get(parsed, "context_pulse"))
    ensures r.Some? ==> Some(r.value.curatorialSummary) == TextField(parsed, "curatorial_summary")
    ensures r.Some? && mode == Board ==> r.value.boardTitle == TextField(parsed, "board_title")
    ensures r.None? <==>
      || TextField(parsed, "curatorial_summary").None?
      || BulletsOf(Get(parsed, "why_it_matters")).None?
      || BulletsOf(Get(parsed, "context_pulse")).None?
      || (mode == Board && TextField(parsed, "board_title").None?)
  {
    match (TextField(parsed, "curatorial_summary"), BulletsOf(Get(parsed, "why_it_matters")), BulletsOf(Get(parsed, "context_pulse")))
    case (Some(summary), Some(why), Some(pulse)) =>
      (match mode
       case Asset => Some(Interpretation(None, summary, why, pulse))
       case Board =>
         match TextField(parsed, "board_title")
         case Some(title) => Some(Interpretation(Some(title), summary, why, pulse))
         case None => None)
    case _ => None
  }

  /** What the model call gives back: it may throw, or return a message whose content may be null. */
  datatype Completion = CallFailed | Returned(content: Option<string>)

  /** Everything after the model call. */
  function Finish(p: Prepared, completion: Completion, parse: string -> Option<Json>): (r: Reply)
    ensures completion.Returned? && (completion.content.None? || completion.content == Some("")) ==> r == NoContent
    ensures completion.Returned? && completion.content.Some? && completion.content.value != [] ==>
      var cleaned := CleanFences(completion.content.value);
      parse(cleaned).None? ==> r == Failed(500, "Invalid JSON from model", Some(cleaned))
    ensures r.Interpreted? ==> (r.result.boardTitle.Some? <==> p.mode == Board)
    ensures completion.CallFailed? ==> r == ServerError
    ensures r.Interpreted? <==>
      && completion.Returned? && completion.content.Some? && completion.content.value != []
      && parse(CleanFences(completion.content.value)).Some?
      && Coerce(parse(CleanFences(completion.content.value)).value, p.mode).Some?
    ensures r.Interpreted? ==> Some(r.result) == Coerce(parse(CleanFences(completion.content.value)).value, p.mode)
  {
    match completion
    case CallFailed => ServerError
    case Returned(content) =>
      if content.None? || content.value == [] then NoContent
      else
        var cleaned := CleanFences(content.value);
        match parse(cleaned)
        case None => Failed(500, "Invalid JSON from model", Some(cleaned))
        case Some(parsed) =>
          match Coerce(parsed, p.mode)
          case None => ServerError
          case Some(out) => Interpreted(out)
  }

  /** The whole handler. */
  function Handle(hasKey: bool, body: Option<Json>, completion: Completion,
                  parse: string -> Option<Json>): Reply
  {
    match Prepare(hasKey, body)
    case Respond(reply) => reply
    case Continue(p) => Finish(p, completion, parse)
  }

  // ---------------------------------------------------------------- properties

  /** Without the credential the handler answers 500 before reading the body. */
  lemma MissingCredentialFirst(body: Option<Json>, completion: Completion, parse: string -> Option<Json>)
    ensures Handle(false, body, completion, parse) == MissingKey
  {
  }

  /** Every answer given before the model call is independent of what the model would return. */
  lemma ValidationBeforeModel(hasKey: bool, body: Option<Json>,
                              c1: Completion, p1: string -> Option<Json>,
                              c2: Completion, p2: string -> Option<Json>)
    requires Prepare(hasKey, body).Respond?
    ensures Handle(hasKey, body, c1, p1) == Handle(hasKey, body, c2, p2) == Prepare(hasKey, body).reply
  {
  }

  /**
   * Board mode answers "Missing query or assets" exactly when the query text is
   * empty or `assets` is empty or not an array.
   */
  lemma BoardValidation(b: Json)
    requires ModeOf(b) == Board && QueryOf(b).Some?
    ensures Prepare(true, Some(b)) == Respond(MissingQueryOrAssets) <==>
              (QueryOf(b).value == [] || |AssetsOf(b)| == 0)
  {
  }

  /** A board-mode body with a query, an asset and no null among the first nine passes, with no domain options. */
  lemma BoardPrepared(b: Json)
    requires ModeOf(b) == Board && QueryOf(b).Some? && QueryOf(b).value != []
    requires |AssetsOf(b)| > 0 && CompactAssets(AssetsOf(b)).Some?
    ensures Prepare(true, Some(b)) == Continue(Prepared(Board, QueryOf(b).value, CompactAssets(AssetsOf(b)).value, None, []))
  {
  }

  /** Asset mode answers "Missing asset" exactly when `asset` is absent or not an object. */
  lemma AssetValidation(b: Json)
    requires ModeOf(b) == Asset && QueryOf(b).Some?
    ensures Prepare(true, Some(b)) == Respond(MissingAsset) <==>
              (Get(b, "asset").None? || !(b.fields["asset"].JObj? || b.fields["asset"].JArr?))
  {
  }

  /** The query is not trimmed: a single space passes board validation. */
  lemma BlankQueryPasses()
    ensures var b := JObj(map["q" := JStr(" "), "assets" := JArr([JObj(map[])])]);
      Prepare(true, Some(b)).Continue? && Prepare(true, Some(b)).value.q == " "
  {
    var b := JObj(map["q" := JStr(" "), "assets" := JArr([JObj(map[])])]);
    assert ModeOf(b) == Board;
    assert QueryOf(b) == Some(" ");
    assert AssetsOf(b) == [JObj(map[])];
    assert CompactEntry(JObj(map[])) == Some(map[]);
    assert CompactAssets(AssetsOf(b)).Some?;
  }

  /** Once prepared, asset mode carries a five-field summary and board mode carries none. */
  lemma PreparedShape(hasKey: bool, body: Option<Json>)
    requires Prepare(hasKey, body).Continue?
    ensures var p := Prepare(hasKey, body).value;
      && (p.mode == Asset <==> p.compactAsset.Some?)
      && (p.compactAsset.Some? ==> p.compactAsset.value.Keys == set k | k in SummaryKeys)
      && (p.mode == Board ==> p.q != [] && p.domainOptions == [] && 0 < |p.compactAssets| <= MaxCompactAssets)
      && |p.domainOptions| <= MaxDomainOptions
  {
  }

  /** A successful answer has at most five bullets per list and a title exactly when the body did not ask for asset mode. */
  lemma ResponseShape(hasKey: bool, body: Option<Json>, completion: Completion, parse: string -> Option<Json>)
    requires Handle(hasKey, body, completion, parse).Interpreted?
    ensures var out := Handle(hasKey, body, completion, parse).result;
      && body.Some?
      && (out.boardTitle.Some? <==> Get(body.value, "mode") != Some(JStr("asset")))
      && |out.whyItMatters| <= MaxBullets && |out.contextPulse| <= MaxBullets
      && Trimmed(out.curatorialSummary)
  {
    var p := Prepare(hasKey, body).value;
    var out := Finish(p, completion, parse).result;
    match completion
    case Returned(content) =>
      var parsed := parse(CleanFences(content.value)).value;
      assert Coerce(parsed, p.mode) == Some(out);
  }

  /** The opening fence and the whitespace after it go; the body's first character stops the trim. */
  lemma OpeningFenceDropped(t: string, tagged: bool, w1: string, w2: string)
    requires t != [] && !IsSpace(t[0]) && t[0] != '`'
    requires AllSpace(w1) && (tagged || w1 != [])
    ensures DropOpeningFence(DropJsonFence((if tagged then "```json" else "```") + w1 + t + w2 + "```"))
            == t + w2 + "```"
  {
    var rest := t + w2 + "```";
    BodyStopsTrim(t, w1, w2);
    var open := if tagged then "```json" else "```";
    Regroup(open, w1, t, w2, "```");
    if tagged {
      TaggedFenceDropped(w1 + rest);
    } else {
      PlainFenceDropped(w1 + rest);
    }
  }

  lemma BodyStopsTrim(t: string, w1: string, w2: string)
    requires t != [] && !IsSpace(t[0]) && AllSpace(w1)
    ensures TrimStart(w1 + (t + w2 + "```")) == t + w2 + "```"
  {
    var rest := t + w2 + "```";
    assert rest[0] == t[0];
    TrimStartAfterSpaces(w1, rest);
  }

  lemma Regroup(a: string, b: string, c: string, d: string, e: string)
    ensures a + b + c + d + e == a + (b + (c + d + e))
  {
  }

  /** After a tagged fence, the first pass trims the text that follows and the second finds no fence. */
  lemma TaggedFenceDropped(x: string)
    requires TrimStart(x) != [] && TrimStart(x)[0] != '`'
    ensures DropOpeningFence(DropJsonFence("```json" + x)) == TrimStart(x)
  {
    JsonFencePrefix(x);
    var r := TrimStart(x);
    assert DropJsonFence("```json" + x) == r;
    assert !StartsWith(r, "```") by {
      assert r[0] != "```"[0];
    }
  }

  lemma JsonFencePrefix(x: string)
    ensures StartsWithJsonFence("```json" + x) && ("```json" + x)[7..] == x
  {
    var s := "```json" + x;
    assert s[..3] == "```";
    assert s[3] == 'j' && s[4] == 's' && s[5] == 'o' && s[6] == 'n';
  }

  /** After a bare fence and whitespace, the tagged pattern fails and the bare one trims the rest. */
  lemma PlainFenceDropped(x: string)
    requires x != [] && IsSpace(x[0])
    requires TrimStart(x) != [] && TrimStart(x)[0] != '`'
    ensures DropOpeningFence(DropJsonFence("```" + x)) == TrimStart(x)
  {
    var s := "```" + x;
    assert s[3] == x[0];
    assert s[..3] == "```" && s[3..] == x;
    var r := TrimStart(x);
    assert r[0] != "```"[0];
  }

  lemma TrimAfterClosingFence(t: string, w2: string)
    requires t != [] && Trimmed(t) && AllSpace(w2)
    ensures Trim(DropClosingFence(t + w2 + "```")) == t
  {
    var x := t + w2 + "```";
    assert x[..|x| - 3] == t + w2;
    TrimStartAfterSpaces([], t + w2);
    assert [] + (t + w2) == t + w2;
    TrimEndBeforeSpaces(t, w2);
  }

  /** A fenced block, with or without the `json` tag, cleans to its trimmed body. */
  lemma FencedReplyCleans(t: string, tagged: bool, w1: string, w2: string)
    requires t != [] && Trimmed(t) && t[0] != '`'
    requires AllSpace(w1) && AllSpace(w2) && (tagged || w1 != [])
    ensures CleanFences((if tagged then "```json" else "```") + w1 + t + w2 + "```") == t
  {
    OpeningFenceDropped(t, tagged, w1, w2);
    TrimAfterClosingFence(t, w2);
  }

  /** A closing fence followed by whitespace is left in place; only the trim applies. */
  lemma ClosingFenceBeforeWhitespaceKept(s: string)
    requires !StartsWith(s, "```") && s != [] && IsSpace(s[|s| - 1])
    ensures CleanFences(s) == Trim(s)
  {
  }

  lemma FirstPassSteps()
    ensures DropClosingFence(DropOpeningFence(DropJsonFence(" x``````"))) == " x```"
  {
    var s := " x``````";
    assert s[0] == ' ' && !StartsWith(s, "```") && !StartsWithJsonFence(s);
    assert EndsWith(s, "```") && s[..|s| - 3] == " x```";
  }

  lemma FirstPassTrim()
    ensures Trim(" x```") == "x```"
  {
    var body := "x```";
    assert !IsSpace(body[0]) && !IsSpace(body[|body| - 1]);
    assert AllSpace(" ");
    TrimStartAfterSpaces(" ", body);
    assert " " + body == " x```";
    TrimEndBeforeSpaces(body, []);
    assert body + [] == body;
  }

  lemma SecondPassSteps()
    ensures DropClosingFence(DropOpeningFence(DropJsonFence("x```"))) == "x"
  {
    var s := "x```";
    assert s[0] == 'x' && !StartsWith(s, "```") && !StartsWithJsonFence(s);
    assert EndsWith(s, "```") && s[..|s| - 3] == "x";
  }

  lemma SecondPassTrim()
    ensures Trim("x") == "x"
  {
    assert TrimStart("x") == "x" && TrimEnd("x") == "x";
  }

  /** Cleaning is not idempotent: a second pass removes another closing fence. */
  lemma CleanFencesNotIdempotent()
    ensures CleanFences(" x``````") == "x```"
    ensures CleanFences(CleanFences(" x``````")) == "x"
  {
    CleanFirstPass();
    CleanSecondPass();
  }

  lemma CleanFirstPass()
    ensures CleanFences(" x``````") == "x```"
  {
    FirstPassSteps();
    FirstPassTrim();
  }

  lemma CleanSecondPass()
    ensures CleanFences("x```") == "x"
  {
    SecondPassSteps();
    SecondPassTrim();
  }
}
