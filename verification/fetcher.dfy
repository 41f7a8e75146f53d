/**
 * The parsed page (src/core/fetcher.py, `WebContent`) and the pure rules the
 * fetcher applies while building it: stripping of tag texts, alt-text
 * presence, internal/external link classification, whitespace collapse of
 * the body text, and the word count.
 *
 * The HTTP request and the HTML parser are not modelled: their output is a
 * `RawPage`, the texts and attributes the parser hands over.
 */
module Fetcher {
  import opened Wrappers
  import opened Strings
  import Config
  import Format

  /** A heading level: the `k` of tag `hk`. */
  type Level = k: int | 1 <= k <= 6 witness 1

  /** The texts of the `h1` .. `h6` tags, one list per level (index `k - 1` for level `k`). */
  type HeadingTable = h: seq<seq<string>> | |h| == 6 witness [[], [], [], [], [], []]

  /** The tag name of a level: "h1" .. "h6". */
  function TagName(l: Level): (s: string)
    ensures |s| == 2 && s[0] == 'h' && s[1] as int - '0' as int == l
  {
    ['h', ('0' as int + l) as char]
  }

  function HeadingsAt(h: HeadingTable, l: Level): seq<string> {
    h[l - 1]
  }

  datatype Image = Image(src: string, alt: string, hasAlt: bool)

  datatype Link = Link(href: string, text: string, isInternal: bool, isExternal: bool, nofollow: bool)

  /** What the parser yields for an `img` tag: its `src` and `alt` attributes, when present. */
  datatype RawImage = RawImage(src: Option<string>, alt: Option<string>)

  /** What the parser yields for an `a` tag with an `href`: the href, the tag text and the `rel` values. */
  datatype RawAnchor = RawAnchor(href: string, text: string, rel: seq<string>)

  /**
   * What the parser yields for a page: the text of the first `title` tag,
   * the `content` of the description meta tag (with "" for a missing
   * attribute), the texts of all heading tags, the page text with scripts,
   * styles and navigation removed, and whether the canonical link and the two
   * Open Graph tags exist. The images and anchors are only those outside
   * `script`, `style`, `nav`, `header` and `footer` elements: the body-text
   * extraction removes those elements before images and links are collected.
   */
  datatype RawPage = RawPage(
    titleText: Option<string>,
    metaContent: Option<string>,
    headingTexts: HeadingTable,
    text: string,
    images: seq<RawImage>,
    anchors: seq<RawAnchor>,
    hasCanonical: bool,
    hasOgTitle: bool,
    hasOgDescription: bool)

  /** The page every analyzer reads. */
  datatype WebContent = WebContent(
    url: string,
    title: Option<string>,
    metaDescription: Option<string>,
    h1: Option<string>,
    headings: HeadingTable,
    bodyText: string,
    images: seq<Image>,
    links: seq<Link>,
    wordCount: nat,
    hasCanonical: bool,
    hasOgTitle: bool,
    hasOgDescription: bool)

  /**
   * The link rule: a relative href (not `http://` or `https://`) is internal,
   * and so is an absolute href that contains the page URL.
   */
  predicate IsInternalHref(url: string, href: string) {
    || !(StartsWith(href, "http://") || StartsWith(href, "https://"))
    || IsSubstring(url, href)
  }

  /** One entry of `_extract_links`. */
  function ExtractLink(url: string, a: RawAnchor): (l: Link)
    ensures l.href == a.href && l.text == Strip(a.text)
    ensures l.isInternal == IsInternalHref(url, a.href)
    ensures l.isExternal == !l.isInternal
    ensures l.nofollow <==> "nofollow" in a.rel
  {
    var internal := IsInternalHref(url, a.href);
    Link(a.href, Strip(a.text), internal, !internal, "nofollow" in a.rel)
  }

  /** One entry of `_extract_images`: an image has alt text when its alt is not blank. */
  function ExtractImage(img: RawImage): (r: Image)
    ensures r.src == img.src.GetOr("") && r.alt == img.alt.GetOr("")
    ensures r.hasAlt <==> !All(r.alt, IsSpace)
  {
    var alt := img.alt.GetOr("");
    StripEmptyIffBlank(alt);
    Image(img.src.GetOr(""), alt, Strip(alt) != "")
  }

  /** `s.split()`: the maximal runs of non-whitespace characters. */
  function Words(s: string): seq<string> {
    Runs(s, NotSpace)
  }

  /** No whitespace at either end, and every whitespace character is a lone `' '`. */
  predicate SingleSpaced(s: string) {
    && (|s| == 0 || (NotSpace(s[0]) && NotSpace(s[|s| - 1])))
    && forall i :: 0 <= i < |s| - 1 && IsSpace(s[i]) ==> s[i] == ' ' && NotSpace(s[i + 1])
  }

  /** `' '.join(text.split())`: the same words, separated by single spaces. */
  function CollapseWhitespace(text: string): (r: string)
    ensures Words(r) == Words(text)
    ensures SingleSpaced(r)
  {
    var ws := Words(text);
    RunsOfJoin(ws, " ", NotSpace);
    JoinSingleSpaced(ws);
    Join(ws, " ")
  }

  lemma {:induction false} JoinSingleSpaced(ws: seq<string>)
    requires forall k :: 0 <= k < |ws| ==> |ws[k]| > 0 && All(ws[k], NotSpace)
    ensures SingleSpaced(Join(ws, " "))
    decreases |ws|
  {
    if |ws| >= 2 {
      var tail := Join(ws[1..], " ");
      JoinSingleSpaced(ws[1..]);
      JoinLength(ws[1..], " ");
      var s := Join(ws, " ");
      var w := ws[0];
      assert s == w + " " + tail;
      assert forall i :: 0 <= i < |w| ==> s[i] == w[i];
      forall i | 0 <= i < |s| - 1 && IsSpace(s[i])
        ensures s[i] == ' ' && NotSpace(s[i + 1])
      {
        if i > |w| {
          assert s[i] == tail[i - |w| - 1] && s[i + 1] == tail[i - |w|];
        } else if i == |w| {
          assert s[i + 1] == tail[0];
        }
      }
      assert s[|s| - 1] == tail[|tail| - 1];
    }
  }

  /** Collapsing twice is collapsing once. */
  lemma CollapseIdempotent(text: string)
    ensures CollapseWhitespace(CollapseWhitespace(text)) == CollapseWhitespace(text)
  {
  }

  /**
   * The rules that tie a page's fields together: the first H1 is the first
   * `h1` heading, each link is classified against the page URL, each image's
   * `hasAlt` follows its alt text, the body text is single-spaced, and the
   * word count is the number of words of the body text.
   */
  predicate WellFormed(c: WebContent) {
    && c.h1 == (if |HeadingsAt(c.headings, 1)| > 0 then Some(HeadingsAt(c.headings, 1)[0]) else None)
    && (forall k :: 0 <= k < |c.links| ==>
          c.links[k].isInternal == IsInternalHref(c.url, c.links[k].href)
          && c.links[k].isExternal == !c.links[k].isInternal)
    && (forall k :: 0 <= k < |c.images| ==> (c.images[k].hasAlt <==> !All(c.images[k].alt, IsSpace)))
    && SingleSpaced(c.bodyText)
    && c.wordCount == |Words(c.bodyText)|
  }

  function StripAll(texts: seq<string>): (r: seq<string>)
    ensures |r| == |texts| && forall k :: 0 <= k < |texts| ==> r[k] == Strip(texts[k])
  {
    seq(|texts|, k requires 0 <= k < |texts| => Strip(texts[k]))
  }

  /** `_extract_headings`: every heading text stripped, level by level. */
  function StripHeadings(h: HeadingTable): (r: HeadingTable)
    ensures forall l: Level :: HeadingsAt(r, l) == StripAll(HeadingsAt(h, l))
  {
    var r: HeadingTable := seq(6, i requires 0 <= i < 6 => StripAll(h[i]));
    assert forall l: Level :: HeadingsAt(r, l) == r[l - 1];
    r
  }

  /** `_extract_images`: one entry per `img` tag, in document order. */
  function ExtractImages(images: seq<RawImage>): (r: seq<Image>)
    ensures |r| == |images|
    ensures forall k :: 0 <= k < |images| ==> r[k] == ExtractImage(images[k])
    ensures forall k :: 0 <= k < |images| ==> (r[k].hasAlt <==> !All(r[k].alt, IsSpace))
  {
    seq(|images|, k requires 0 <= k < |images| => ExtractImage(images[k]))
  }

  /** `_extract_links`: one entry per `a` tag with an `href`, in document order. */
  function ExtractLinks(url: string, anchors: seq<RawAnchor>): (r: seq<Link>)
    ensures |r| == |anchors|
    ensures forall k :: 0 <= k < |anchors| ==> r[k] == ExtractLink(url, anchors[k])
    ensures forall k :: 0 <= k < |anchors| ==>
              && r[k].isInternal == IsInternalHref(url, r[k].href)
              && r[k].isExternal == !r[k].isInternal
  {
    seq(|anchors|, k requires 0 <= k < |anchors| => ExtractLink(url, anchors[k]))
  }

  /**
   * `WebContent.__init__`: strips the title, the meta description and every
   * heading text, takes the first H1, collapses the body text's whitespace,
   * extracts images and links in document order, and counts the words.
   */
  function ExtractContent(url: string, page: RawPage): (c: WebContent)
    ensures WellFormed(c)
    ensures c.url == url
    ensures c.title == (if page.titleText.Some? then Some(Strip(page.titleText.value)) else None)
    ensures c.metaDescription == (if page.metaContent.Some? then Some(Strip(page.metaContent.value)) else None)
    ensures Words(c.bodyText) == Words(page.text) && c.wordCount == |Words(page.text)|
    ensures |c.images| == |page.images| && |c.links| == |page.anchors|
    ensures forall k :: 0 <= k < |page.images| ==> c.images[k] == ExtractImage(page.images[k])
    ensures forall k :: 0 <= k < |page.anchors| ==> c.links[k] == ExtractLink(url, page.anchors[k])
    ensures c.headings == StripHeadings(page.headingTexts)
    ensures c.h1.Some? <==> |HeadingsAt(c.headings, 1)| > 0
    ensures c.h1.Some? ==> c.h1.value == HeadingsAt(c.headings, 1)[0]
    ensures c.hasCanonical == page.hasCanonical
    ensures c.hasOgTitle == page.hasOgTitle && c.hasOgDescription == page.hasOgDescription
  {
    var headings := StripHeadings(page.headingTexts);
    var body := CollapseWhitespace(page.text);
    var c := WebContent(
      url,
      StripPresent(page.titleText),
      StripPresent(page.metaContent),
      FirstOf(HeadingsAt(headings, 1)),
      headings,
      body,
      ExtractImages(page.images),
      ExtractLinks(url, page.anchors),
      |Words(body)|,
      page.hasCanonical,
      page.hasOgTitle,
      page.hasOgDescription);
    ExtractedWellFormed(url, page, c);
    c
  }

  /** An optional tag text, stripped when the tag is present. */
  function StripPresent(text: Option<string>): (r: Option<string>)
    ensures r.Some? <==> text.Some?
    ensures r.Some? ==> r.value == Strip(text.value)
  {
    if text.Some? then Some(Strip(text.value)) else None
  }

  /** The first of a list of texts, if there is one. */
  function FirstOf(texts: seq<string>): (r: Option<string>)
    ensures r.Some? <==> |texts| > 0
    ensures r.Some? ==> r.value == texts[0]
  {
    if |texts| > 0 then Some(texts[0]) else None
  }

  /** A page whose images, links and body text come from the extractors keeps the rules of `WellFormed`. */
  lemma ExtractedWellFormed(url: string, page: RawPage, c: WebContent)
    requires c.h1 == (if |HeadingsAt(c.headings, 1)| > 0 then Some(HeadingsAt(c.headings, 1)[0]) else None)
    requires c.url == url && c.bodyText == CollapseWhitespace(page.text) && c.wordCount == |Words(c.bodyText)|
    requires c.images == ExtractImages(page.images) && c.links == ExtractLinks(url, page.anchors)
    ensures WellFormed(c)
  {
  }

  /** Why `fetch_content` could not produce a page. */
  datatype FetchFailure =
    | Timeout
    | ConnectionFailed
    | HttpFailure(statusCode: nat, detail: string)
    | RequestFailure(detail: string)

  /** The fixed opening of the message of each kind of failure. */
  function FailurePrefix(f: FetchFailure): string {
    match f
    case Timeout => "Request timeout: "
    case ConnectionFailed => "Connection failed: "
    case HttpFailure(_, _) => "HTTP Error "
    case RequestFailure(_) => "Failed to fetch URL: "
  }

  /** The message of the exception `fetch_content` raises. */
  function FailureMessage(f: FetchFailure): (m: string)
    ensures StartsWith(m, FailurePrefix(f))
    ensures (f.HttpFailure? || f.RequestFailure?) ==> |f.detail| <= |m| && m[|m| - |f.detail|..] == f.detail
  {
    var rest := FailureDetail(f);
    assert (FailurePrefix(f) + rest)[..|FailurePrefix(f)|] == FailurePrefix(f);
    FailurePrefix(f) + rest
  }

  /** What follows the prefix: the timeout, the status code, or the library's own message. */
  function FailureDetail(f: FetchFailure): (d: string)
    ensures (f.HttpFailure? || f.RequestFailure?) ==> |f.detail| <= |d| && d[|d| - |f.detail|..] == f.detail
  {
    match f
    case Timeout => "URL took longer than " + Format.NatToString(Config.RequestTimeout) + "s to respond"
    case ConnectionFailed => "Unable to reach the URL"
    case HttpFailure(code, detail) =>
      var head := Format.NatToString(code) + ": ";
      assert (head + detail)[|head|..] == detail;
      head + detail
    case RequestFailure(detail) => detail
  }

  /** Which of the four kinds a failure is. */
  function FailureKind(f: FetchFailure): nat {
    match f
    case Timeout => 0
    case ConnectionFailed => 1
    case HttpFailure(_, _) => 2
    case RequestFailure(_) => 3
  }

  /** Each message starts with its own kind's prefix and with no other's: the kind can be read back. */
  lemma MessageShowsKind(f: FetchFailure, g: FetchFailure)
    ensures StartsWith(FailureMessage(f), FailurePrefix(g)) <==> FailureKind(f) == FailureKind(g)
  {
    var m := FailureMessage(f);
    if FailureKind(f) != FailureKind(g) {
      assert m[0] == FailurePrefix(f)[0] by {
        assert m[..|FailurePrefix(f)|] == FailurePrefix(f);
      }
      FirstCharDiffers(m, FailurePrefix(g));
    }
  }
}
