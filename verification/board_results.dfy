/**
 * The board grid: a card for every board it is given, with no cap, each
 * linking to the board's page by slug.
 */
module BoardResults {
  import opened Maybe
  import opened Text
  import opened Records
  import opened PublicUrls
  import opened Cards

  /** `publicBoardUrl`: the object in the `boards` bucket, the path used untrimmed. */
  function PublicBoardUrl(base: Option<string>, path: Option<string>): (r: Option<string>)
    ensures r.None? <==> !Present(path) || !Present(base)
    ensures r.Some? ==>
      && StartsWith(r.value, BucketPrefix(base.value, "boards"))
      && DecodePath(r.value[|BucketPrefix(base.value, "boards")|..]) == Some(StripLeadingSlashes(path.value))
  {
    ObjectUrl(base, "boards", path, false)
  }

  /** One board card: the React key, the link, the image (if any), its alt text, the title and the source site line. */
  datatype BoardCard = BoardCard(
    key: string,
    href: string,
    image: Option<string>,
    alt: string,
    title: string,
    site: Option<string>)

  function BoardCardOf(b: BoardRow, base: Option<string>): (c: BoardCard)
    ensures c.key == b.id && c.href == "/board/" + b.slug
    ensures c.image == PublicBoardUrl(base, b.imagePath)
    ensures c.title == TwoWordTitle(b.title) && c.alt == OrEmpty(b.title)
    ensures c.site.Some? <==> Present(b.sourceSite)
    ensures c.site.Some? ==> c.site == b.sourceSite
  {
    BoardCard(b.id, "/board/" + b.slug, PublicBoardUrl(base, b.imagePath), OrEmpty(b.title), TwoWordTitle(b.title),
      if Present(b.sourceSite) then b.sourceSite else None)
  }

  /**
   * `BoardResults`: nothing for a missing or empty list; otherwise one card
   * per board, in order. The query it is passed plays no part.
   */
  function BoardResultsView(q: string, boards: Option<seq<BoardRow>>, base: Option<string>): (r: Option<seq<BoardCard>>)
    ensures r.None? <==> boards.None? || boards.value == []
    ensures r.Some? ==> |r.value| == |boards.value|
    ensures r.Some? ==> forall k :: 0 <= k < |r.value| ==> r.value[k] == BoardCardOf(boards.value[k], base)
  {
    match boards
    case None => None
    case Some(xs) =>
      if xs == [] then None
      else Some(seq(|xs|, k requires 0 <= k < |xs| => BoardCardOf(xs[k], base)))
  }
}
