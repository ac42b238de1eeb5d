/**
 * The theme handler for the Alabaster theme: no extra stylesheet, and a
 * download link placed right after every `<div class="document">`.
 */
module Alabaster {
  import opened Wrappers
  import opened PyStr

  const InsertPoint: string := "<div class=\"document\">"

  /** The download link for the PDF at `href`. */
  function Anchor(href: string): string {
    "<a class=\"pdf-icon\" href=\"" + href + "\" download title=\"Download PDF\"></a>"
  }

  /** `get_stylesheet`: this theme contributes no stylesheet. */
  function GetStylesheet(): (r: Option<string>)
    ensures r.None?
  {
    None
  }

  /** `modify_html`: `html.replace(insert_point, insert_point + a_tag)`. */
  function ModifyHtml(html: string, href: string): string {
    ReplaceAll(html, InsertPoint, InsertPoint + Anchor(href))
  }

  /** The page text is cut at the markers and glued back with marker plus
      link: everything between the markers is kept, in order, and the
      original is the same pieces glued with the bare marker. */
  lemma ModifyHtmlKeepsText(html: string, href: string)
    ensures JoinWith(InsertPoint, SplitOn(html, InsertPoint)) == html
    ensures ModifyHtml(html, href) == JoinWith(InsertPoint + Anchor(href), SplitOn(html, InsertPoint))
    ensures |SplitOn(html, InsertPoint)| == Count(html, InsertPoint) + 1
  {
    SplitJoinRoundTrip(html, InsertPoint);
    ReplaceIsJoinOfSplit(html, InsertPoint, InsertPoint + Anchor(href));
    SplitLength(html, InsertPoint);
  }

  /** The result grows by one link per marker. */
  lemma ModifyHtmlLength(html: string, href: string)
    ensures |ModifyHtml(html, href)| == |html| + Count(html, InsertPoint) * |Anchor(href)|
  {
    ReplaceLength(html, InsertPoint, InsertPoint + Anchor(href));
  }

  /** Without the marker the page comes back unchanged. */
  lemma ModifyHtmlWithoutMarker(html: string, href: string)
    requires !Contains(html, InsertPoint)
    ensures ModifyHtml(html, href) == html
  {
    CountWithoutOccurrence(html, InsertPoint);
    ReplaceWithoutMatch(html, InsertPoint, InsertPoint + Anchor(href));
  }
}
