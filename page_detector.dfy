/**
 * Page-type detection: decides once per page whether the document is a PDF
 * (native or embedded) or an ordinary web page. The three DOM reads of the
 * original (the document's content type, the `type`/`src` attributes of every
 * `embed` and `object` element in document order, and the location's href)
 * are the parameters here.
 */
module PageDetection {
  import opened Types

  const PDF_MIME: string := "application/pdf"
  const PDF_EXTENSION: string := ".pdf"

  /** ASCII lower-casing of one character. */
  function LowerChar(c: char): char {
    if 'A' <= c <= 'Z' then (c as int + 32) as char else c
  }

  /** `toLowerCase`, on the ASCII letters. */
  function ToLower(s: string): (r: string)
    ensures |r| == |s|
    ensures forall i :: 0 <= i < |r| ==> !('A' <= r[i] <= 'Z')
    ensures forall i :: 0 <= i < |r| ==> !('A' <= s[i] <= 'Z') ==> r[i] == s[i]
    ensures forall i :: 0 <= i < |r| && 'A' <= s[i] <= 'Z' ==> r[i] as int == s[i] as int + 32
  {
    seq(|s|, i requires 0 <= i < |s| => LowerChar(s[i]))
  }

  /** Lower-casing a lower-case string changes nothing. */
  lemma ToLowerIdempotent(s: string)
    ensures ToLower(ToLower(s)) == ToLower(s)
  {
  }

  /** `s.endsWith(suffix)`: every suffix match is also a substring match. */
  function EndsWith(s: string, suffix: string): (b: bool)
    ensures |s| < |suffix| ==> !b
    ensures b ==> Includes(s, suffix)
  {
    var b := |suffix| <= |s| && s[|s| - |suffix|..] == suffix;
    assert b ==> OccursAt(s, suffix, |s| - |suffix|);
    b
  }

  /** `sub` occurs in `s` starting at index `i`. */
  predicate OccursAt(s: string, sub: string, i: int) {
    0 <= i <= |s| - |sub| && s[i..i + |sub|] == sub
  }

  /** `s.includes(sub)`: `sub` occurs somewhere in `s`; a prefix occurrence suffices. */
  function Includes(s: string, sub: string): (b: bool)
    ensures |s| < |sub| ==> !b
    ensures |sub| <= |s| && s[..|sub|] == sub ==> b
  {
    assert |sub| <= |s| && s[..|sub|] == sub ==> OccursAt(s, sub, 0);
    exists i | 0 <= i <= |s| - |sub| :: OccursAt(s, sub, i)
  }

  /** The two attributes read from one `embed` or `object` element. */
  datatype EmbedElement = EmbedElement(typeAttr: Option<string>, src: Option<string>)

  /**
   * An element marks the page as a PDF when its type is exactly the PDF media
   * type or its source, lower-cased, ends in ".pdf"; a missing source counts as "".
   */
  function ElementIsPdf(e: EmbedElement): (b: bool)
    ensures e.typeAttr == Some(PDF_MIME) ==> b
    ensures b && e.typeAttr != Some(PDF_MIME) ==> e.src.Some? && |e.src.value| >= |PDF_EXTENSION|
  {
    e.typeAttr == Some(PDF_MIME) || EndsWith(ToLower(e.src.GetOr("")), PDF_EXTENSION)
  }

  /** The scan over the elements in document order, stopping at the first match. */
  function ScanEmbeds(embeds: seq<EmbedElement>): (found: bool)
    ensures found <==> exists i :: 0 <= i < |embeds| && ElementIsPdf(embeds[i])
  {
    if embeds == [] then
      false
    else if ElementIsPdf(embeds[0]) then
      true
    else
      var rest := ScanEmbeds(embeds[1..]);
      assert forall i :: 1 <= i < |embeds| ==> embeds[i] == embeds[1..][i - 1];
      rest
  }

  /**
   * The page type: PDF when the content type is the PDF media type, else when
   * some embedded element marks a PDF, else when the href contains ".pdf"
   * case-insensitively; WEB when none of the three rules fires.
   */
  function DetectPageType(contentType: string, embeds: seq<EmbedElement>, href: string): (r: PageType)
    ensures r == PDF <==>
              contentType == PDF_MIME ||
              (exists i :: 0 <= i < |embeds| && ElementIsPdf(embeds[i])) ||
              Includes(ToLower(href), PDF_EXTENSION)
    ensures r == WEB <==>
              contentType != PDF_MIME &&
              (forall i :: 0 <= i < |embeds| ==> !ElementIsPdf(embeds[i])) &&
              !Includes(ToLower(href), PDF_EXTENSION)
  {
    if contentType == PDF_MIME then
      PDF
    else if ScanEmbeds(embeds) then
      PDF
    else if Includes(ToLower(href), PDF_EXTENSION) then
      PDF
    else
      WEB
  }

  /** A native PDF content type decides the result whatever the embeds and URL are. */
  lemma ContentTypeWins(embeds: seq<EmbedElement>, href: string)
    ensures DetectPageType(PDF_MIME, embeds, href) == PDF
  {
  }

  /** The content-type rule is an exact, case-sensitive comparison. */
  lemma ContentTypeIsCaseSensitive()
    ensures DetectPageType("APPLICATION/PDF", [], "") == WEB
  {
  }

  /** One element typed as the PDF media type makes the page a PDF. */
  lemma TypeAttributeWins(contentType: string, embeds: seq<EmbedElement>, href: string, k: nat)
    requires k < |embeds| && embeds[k].typeAttr == Some(PDF_MIME)
    ensures DetectPageType(contentType, embeds, href) == PDF
  {
  }

  /**
   * A source whose last four characters spell ".pdf" in any letter case
   * makes the element, and so the page, a PDF, whatever its type attribute.
   */
  lemma SourceSuffixWins(typeAttr: Option<string>, src: string)
    requires |src| >= |PDF_EXTENSION|
    requires forall k :: 0 <= k < |PDF_EXTENSION| ==> LowerChar(src[|src| - |PDF_EXTENSION| + k]) == PDF_EXTENSION[k]
    ensures ElementIsPdf(EmbedElement(typeAttr, Some(src)))
  {
    var low := ToLower(src);
    assert low[|low| - |PDF_EXTENSION|..] == PDF_EXTENSION;
  }

  /** An element without a source never matches through the source rule. */
  lemma MissingSourceNeverMatches(typeAttr: Option<string>)
    ensures ElementIsPdf(EmbedElement(typeAttr, None)) <==> typeAttr == Some(PDF_MIME)
  {
  }

  /** The URL rule is a substring test: ".PDF" in the middle of the href suffices. */
  lemma HrefSubstringWins()
    ensures DetectPageType("text/html", [], "https://x.org/a.PDF?page=2") == PDF
  {
    var h := ToLower("https://x.org/a.PDF?page=2");
    assert OccursAt(h, PDF_EXTENSION, 15);
    assert h[|h| - 1] == '2';
  }

  /**
   * The href rule fires on ".pdf" in any letter case at any position: four
   * consecutive characters that lower-case to ".pdf" make the page a PDF.
   */
  lemma HrefMatchesAnyCase(contentType: string, embeds: seq<EmbedElement>, href: string, i: nat)
    requires i + |PDF_EXTENSION| <= |href|
    requires forall k :: 0 <= k < |PDF_EXTENSION| ==> LowerChar(href[i + k]) == PDF_EXTENSION[k]
    ensures DetectPageType(contentType, embeds, href) == PDF
  {
    var low := ToLower(href);
    assert low[i..i + |PDF_EXTENSION|] == PDF_EXTENSION;
    assert OccursAt(low, PDF_EXTENSION, i);
  }

  /** The href rule ignores letter case: lower-casing the href first changes nothing. */
  lemma HrefCaseInsensitive(contentType: string, embeds: seq<EmbedElement>, href: string)
    ensures DetectPageType(contentType, embeds, ToLower(href)) == DetectPageType(contentType, embeds, href)
  {
    ToLowerIdempotent(href);
  }

  /** The embed scan does not depend on the order of the elements. */
  lemma EmbedOrderIrrelevant(a: seq<EmbedElement>, b: seq<EmbedElement>)
    requires multiset(a) == multiset(b)
    ensures ScanEmbeds(a) == ScanEmbeds(b)
  {
    if ScanEmbeds(a) {
      var i :| 0 <= i < |a| && ElementIsPdf(a[i]);
      assert a[i] in multiset(b);
      var j :| 0 <= j < |b| && b[j] == a[i];
    }
    if ScanEmbeds(b) {
      var j :| 0 <= j < |b| && ElementIsPdf(b[j]);
      assert b[j] in multiset(a);
      var i :| 0 <= i < |a| && a[i] == b[j];
    }
  }
}
