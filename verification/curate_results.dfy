/**
 * The asset grid of the library and search pages: the interpretation panel
 * when there is a query, then at most nine asset cards.
 */
module CurateResults {
  import opened Maybe
  import opened Text
  import opened Records
  import opened PublicUrls
  import opened Cards

  /** The grid shows at most this many cards, whatever it is given. */
  const CardLimit: nat := 9

  /** `publicAssetUrl`: the object in the `assets` bucket, the path used untrimmed. */
  function PublicAssetUrl(base: Option<string>, path: Option<string>): (r: Option<string>)
    ensures r.None? <==> !Present(path) || !Present(base)
    ensures r.Some? ==>
      && StartsWith(r.value, BucketPrefix(base.value, "assets"))
      && DecodePath(r.value[|BucketPrefix(base.value, "assets")|..]) == Some(StripLeadingSlashes(path.value))
  {
    ObjectUrl(base, "assets", path, false)
  }

  datatype SourceLink = SourceLink(href: string, site: string)

  /** One asset card: the React key, the link, the image (if any), its alt text, the title and the source link. */
  datatype AssetCard = AssetCard(
    key: string,
    href: string,
    image: Option<string>,
    alt: string,
    title: string,
    source: Option<SourceLink>)

  function AssetCardOf(a: AssetRow, base: Option<string>): (c: AssetCard)
    ensures c.key == a.id && c.href == "/asset/" + a.id
    ensures c.image == PublicAssetUrl(base, a.imagePath)
    ensures c.title == TwoWordTitle(a.title) && c.alt == OrEmpty(a.title)
    ensures c.source.Some? <==> Present(a.sourceSite) && Present(a.sourceUrl)
    ensures c.source.Some? ==> c.source.value == SourceLink(a.sourceUrl.value, a.sourceSite.value)
  {
    var source := if Present(a.sourceSite) && Present(a.sourceUrl) then Some(SourceLink(a.sourceUrl.value, a.sourceSite.value)) else None;
    AssetCard(a.id, "/asset/" + a.id, PublicAssetUrl(base, a.imagePath), OrEmpty(a.title), TwoWordTitle(a.title), source)
  }

  /** What the grid renders: whether the interpretation panel is mounted, and the cards. */
  datatype CurateView = CurateView(interpretation: bool, cards: seq<AssetCard>)

  /**
   * `CurateResults`: nothing for a missing or empty list; otherwise the panel
   * exactly when `q` is non-empty, and a card for each of the first nine
   * assets, in order.
   */
  function CurateResultsView(q: string, assets: Option<seq<AssetRow>>, base: Option<string>): (r: Option<CurateView>)
    ensures r.None? <==> assets.None? || assets.value == []
    ensures r.Some? ==> (r.value.interpretation <==> q != [])
    ensures r.Some? ==> |r.value.cards| == Min(CardLimit, |assets.value|)
    ensures r.Some? ==> forall k :: 0 <= k < |r.value.cards| ==> r.value.cards[k] == AssetCardOf(assets.value[k], base)
  {
    match assets
    case None => None
    case Some(xs) =>
      if xs == [] then None
      else
        var shown := Take(xs, CardLimit);
        Some(CurateView(q != [], seq(|shown|, k requires 0 <= k < |shown| => AssetCardOf(shown[k], base))))
  }

  /** An asset beyond the ninth gets no card: the cards are those of the first nine assets alone. */
  lemma CardsIgnoreTail(q: string, xs: seq<AssetRow>, ys: seq<AssetRow>, base: Option<string>)
    requires |xs| >= CardLimit
    ensures CurateResultsView(q, Some(xs + ys), base) == CurateResultsView(q, Some(xs), base)
  {
    var a := CurateResultsView(q, Some(xs + ys), base).value.cards;
    var b := CurateResultsView(q, Some(xs), base).value.cards;
    assert |a| == |b| == CardLimit;
    forall k | 0 <= k < |a| ensures a[k] == b[k] {
      assert (xs + ys)[k] == xs[k];
    }
    assert a == b;
  }
}
