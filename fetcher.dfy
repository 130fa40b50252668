/**
 * The page fetcher of app/services/fetcher.py, from the HTTP response on:
 * the request itself and the HTML-to-text extraction are parameters.
 */
module Fetcher {
  import opened Common
  import opened PyStr
  import Utf8

  /**
   * The whitespace handling of `normalize_html_to_text`: split on runs of
   * whitespace, join with one space, strip. The result holds the words
   * of `text` and nothing else, one space apart.
   */
  function CollapseWhitespace(text: string): (r: string)
    ensures Collapsed(r)
    ensures Split(r) == Split(text)
    ensures NonSpace(r) == NonSpace(text)
  {
    SplitGivesWords(text);
    SplitJoin(Split(text));
    JoinWordsCollapsed(Split(text));
    StripCollapsed(Join(" ", Split(text)));
    NonSpaceJoin(Split(text));
    ConcatSplit(text);
    Strip(Join(" ", Split(text)))
  }

  /** A collapsed text is left as it is, so collapsing twice is collapsing once. */
  lemma CollapseFixesCollapsed(t: string)
    requires Collapsed(t)
    ensures CollapseWhitespace(t) == t
  {
    CollapsedIsJoinOfSplit(t);
    StripCollapsed(t);
  }

  lemma CollapseIdempotent(text: string)
    ensures CollapseWhitespace(CollapseWhitespace(text)) == CollapseWhitespace(text)
  {
    CollapseFixesCollapsed(CollapseWhitespace(text));
  }

  /** The visible text of an HTML document (BeautifulSoup's `get_text(separator=" ")` without script/style/noscript). */
  type TextExtractor = Bytes -> string

  /** `normalize_html_to_text`. */
  function NormalizeHtmlToText(extract: TextExtractor, html: Bytes): string {
    CollapseWhitespace(extract(html))
  }

  /** The response of the GET request; `headers` is keyed by lower-case header name. */
  datatype HttpResponse = HttpResponse(status: int, headers: map<string, string>, content: Bytes)

  /** The dict `fetch_url` returns. */
  datatype Fetched = Fetched(
    status: int,
    headers: map<string, string>,
    contentType: Option<string>,
    etag: Option<string>,
    lastModified: Option<string>,
    rawBytes: Bytes,
    rawSha: HexDigest,
    normalizedText: string,
    normalizedSha: HexDigest,
    normalizedLen: nat)

  function Header(headers: map<string, string>, name: string): Option<string> {
    if name in headers then Some(headers[name]) else None
  }

  /**
   * `fetch_url` after the request: digests of the raw body and of the
   * UTF-8 encoding of the normalised text, and the encoded length.
   */
  function FetchUrl(sha: Hasher, extract: TextExtractor, r: HttpResponse): (f: Fetched)
    ensures f.status == r.status && f.headers == r.headers && f.rawBytes == r.content
    ensures f.contentType == Header(r.headers, "content-type")
    ensures f.etag == Header(r.headers, "etag")
    ensures f.lastModified == Header(r.headers, "last-modified")
    ensures f.rawSha == sha(r.content)
    ensures f.normalizedText == NormalizeHtmlToText(extract, r.content)
    ensures f.normalizedSha == sha(Utf8.Encode(f.normalizedText))
    ensures f.normalizedLen == |Utf8.Encode(f.normalizedText)| >= |f.normalizedText|
    ensures Collapsed(f.normalizedText)
  {
    var normBytes := Utf8.Encode(NormalizeHtmlToText(extract, r.content));
    Utf8.DecodeEncode(NormalizeHtmlToText(extract, r.content));
    var text := Utf8.Decode(normBytes).value;
    Fetched(r.status, r.headers, Header(r.headers, "content-type"), Header(r.headers, "etag"),
            Header(r.headers, "last-modified"), r.content, sha(r.content), text, sha(normBytes), |normBytes|)
  }
}
