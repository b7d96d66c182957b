/**
 * The database rows the pages fetch and the components render. A column
 * that may be `null` is an `Option`.
 */
module Records {
  import opened Maybe

  /** A row of the `assets` table, with the columns the pages and cards read. */
  datatype AssetRow = AssetRow(
    id: string,
    title: Option<string>,
    imagePath: Option<string>,
    sourceUrl: Option<string>,
    sourceSite: Option<string>,
    domain: Option<string>,
    direction: Option<string>,
    colorNotes: Option<string>,
    printPatternNotes: Option<string>)

  /** A board as the board grid renders it. */
  datatype BoardRow = BoardRow(
    id: string,
    title: Option<string>,
    slug: string,
    imagePath: Option<string>,
    sourceSite: Option<string>)

  /** A board as the trend page fetches it, with its optional report type. */
  datatype TrendBoard = TrendBoard(
    id: string,
    title: Option<string>,
    slug: string,
    coverImagePath: Option<string>,
    sourceSite: Option<string>,
    reportType: Option<string>)
}
