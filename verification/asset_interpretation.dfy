/**
 * The asset page's interpretation panel: the request it posts to the
 * interpretation route, and the domain line it shows above the result.
 */
module AssetInterpretation {
  import opened Maybe
  import opened Text
  import opened Json
  import opened InterpretRoute

  /** The separator the domain line puts between parts. */
  const Bullet: string := " • "

  /** `domainLine`: the domain's parts joined with bullets, or nothing when there is no part. */
  function DomainLine(domain: Option<string>): (r: Option<string>)
    ensures r.None? <==> domain.None? || DomainParts(domain.value) == []
    ensures r.Some? ==> r.value == Join(DomainParts(domain.value), Bullet)
  {
    match domain
    case None => None
    case Some(d) =>
      if d == [] then
        assert Split([], IsDomainSeparator) == [[]];
        None
      else
        var parts := DomainParts(d);
        if parts == [] then None else Some(Join(parts, Bullet))
  }

  /**
   * The line and the route read the same domain the same way: the line is
   * missing exactly when the route gets no domain options, and the options are
   * the line's first six parts.
   */
  lemma DomainLineAgreesWithRoute(domain: Option<string>)
    ensures DomainLine(domain).None? <==> ParseDomainOptions(domain) == []
    ensures domain.Some? ==> ParseDomainOptions(domain) == Take(DomainParts(domain.value), MaxDomainOptions)
  {
    if domain == Some("") {
      assert Split([], IsDomainSeparator) == [[]];
    }
  }

  /** Parts written back with commas give the same line, whatever separators they were read with. */
  lemma DomainLineOfCommaList(parts: seq<string>)
    requires parts != []
    requires forall k :: 0 <= k < |parts| ==>
      parts[k] != [] && Trimmed(parts[k]) && NoneOf(parts[k], IsDomainSeparator)
    ensures DomainLine(Some(Join(parts, ","))) == Some(Join(parts, Bullet))
  {
    DomainPartsOfJoin(parts);
  }

  /**
   * The request body: `{ mode: "asset", asset: {...} }`, where the asset is
   * `asset.field ?? null` for the five summary fields, the projection the
   * route itself calls `compactAsset`. `None` when `asset` is `null`, whose
   * properties cannot be read.
   */
  function AssetPayload(asset: Json): (r: Option<Json>)
    ensures r.None? <==> asset.JNull?
    ensures r.Some? ==> Get(r.value, "mode") == Some(JStr("asset"))
    ensures r.Some? ==> Get(r.value, "asset") == Some(JObj(CompactAsset(asset)))
    ensures r.Some? ==> r.value.JObj? && r.value.fields.Keys == {"mode", "asset"}
  {
    if asset.JNull? then None
    else Some(JObj(map["mode" := JStr("asset"), "asset" := JObj(CompactAsset(asset))]))
  }

  /** The route's projection of the posted asset gives back the posted asset: projecting twice changes nothing. */
  lemma RouteKeepsPayloadAsset(asset: Json)
    ensures CompactAsset(JObj(CompactAsset(asset))) == CompactAsset(asset)
  {
    var m := CompactAsset(asset);
    forall k | k in m ensures GetOrDefault(JObj(m), k, JNull) == m[k] {
    }
  }

  /**
   * The route takes the panel's request in asset mode and never answers it
   * with a validation error: it goes on to the model exactly when the asset's
   * domain is falsy or a string, and otherwise fails with a server error.
   */
  lemma RouteAcceptsAssetPayload(asset: Json)
    requires !asset.JNull?
    ensures var step := Prepare(true, AssetPayload(asset));
      && step != Respond(MissingAsset) && step != Respond(MissingQueryOrAssets)
      && (step.Continue? <==> DomainOptionsOf(GetOrDefault(asset, "domain", JNull)).Some?)
      && (step.Continue? ==> step.value.mode == Asset && step.value.q == [] && step.value.compactAsset == Some(CompactAsset(asset)))
      && (step.Respond? ==> step.reply == ServerError)
  {
    var body := AssetPayload(asset).value;
    var m := CompactAsset(asset);
    assert ModeOf(body) == Asset;
    assert GetOrDefault(body, "q", JStr("")) == JStr("");
    assert QueryOf(body) == Some([]) by {
      assert StringOf(JStr("")) == Some("");
    }
    assert AssetsOf(body) == [];
    assert AssetOf(body) == Some(JObj(m));
    assert CompactAssets([]) == Some([]);
    RouteKeepsPayloadAsset(asset);
    assert CompactAsset(JObj(m))["domain"] == GetOrDefault(asset, "domain", JNull);
  }
}
