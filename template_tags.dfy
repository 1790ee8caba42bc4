/**
 * `dashboard/templatetags/gbif-alert_extras.py`: the template tags and filters
 * that build dashboard URLs, URL templates for the front end, the JavaScript
 * configuration object, links to GBIF pages, and links from free text.
 *
 * Django's `reverse` is not part of this model: the URL it resolves a route to
 * is passed in, as a string or as a function of the route's name and keyword
 * arguments.
 */
module TemplateTags {
  import opened Wrappers
  import opened Text
  import opened JsonValues
  import opened Records
  import opened UrlEncoding

  /*
   * Query strings and the dashboard filter link
   */

  /**
   * `_my_reverse`: the reversed URL, followed by `?` and the urlencoded query
   * arguments when there are any (an empty or absent `query_kwargs` adds nothing).
   */
  function MyReverse(url: string, query: seq<(string, string)>): (r: string)
    ensures query == [] ==> r == url
    ensures query != [] ==> r == url + "?" + UrlEncode(query)
  {
    if query != [] then url + "?" + UrlEncode(query) else url
  }

  /** The query string `MyReverse` adds decodes back to the query arguments, in order. */
  lemma MyReverseReadsBack(url: string, query: seq<(string, string)>)
    requires query != []
    requires forall i :: 0 <= i < |query| ==> IsAscii(query[i].0) && IsAscii(query[i].1)
    ensures MyReverse(url, query)[..|url| + 1] == url + "?"
    ensures ParseQs(MyReverse(url, query)[|url| + 1..]) == query
  {
    var r := MyReverse(url, query);
    assert r[|url| + 1..] == UrlEncode(query);
    ParseUrlEncode(query);
  }

  /** `str({k: v})` for a key without quotes in it, given `repr(v)`. */
  function DictRepr(k: string, vRepr: string): string {
    "{'" + k + "': " + vRepr + "}"
  }

  /** `_build_dashboard_url_with_filter(k, v)`: the index page with a `filters` query argument. */
  function DashboardUrlWithFilter(indexUrl: string, k: string, vRepr: string): string {
    MyReverse(indexUrl, [("filters", DictRepr(k, vRepr))])
  }

  /** The filter a data import's dashboard link carries: `{'initialDataImportIds': [pk]}`. */
  function DataImportFilter(pk: nat): string {
    DictRepr("initialDataImportIds", "[" + NatToString(pk) + "]")
  }

  /** `dashboard_url_filtered_by_data_import`, with `indexUrl` the reversed `dashboard:pages:index`. */
  function DashboardUrlFilteredByDataImport(indexUrl: string, pk: nat): string {
    DashboardUrlWithFilter(indexUrl, "initialDataImportIds", "[" + NatToString(pk) + "]")
  }

  /**
   * The link to the dashboard filtered by a data import is the index page with
   * one query argument, `filters`, which reads back as the Python text of
   * `{'initialDataImportIds': [pk]}`.
   */
  lemma DataImportLinkFilters(indexUrl: string, pk: nat)
    ensures DashboardUrlFilteredByDataImport(indexUrl, pk)[..|indexUrl| + 1] == indexUrl + "?"
    ensures ParseQs(DashboardUrlFilteredByDataImport(indexUrl, pk)[|indexUrl| + 1..])
      == [("filters", DataImportFilter(pk))]
  {
    DataImportFilterIsAscii(pk);
    MyReverseReadsBack(indexUrl, [("filters", DataImportFilter(pk))]);
  }

  lemma DataImportFilterIsAscii(pk: nat)
    ensures IsAscii(DataImportFilter(pk))
  {
    var digits := NatToString(pk);
    var pre := "{'initialDataImportIds': [";
    DataImportFilterShape(digits);
    PrefixIsAscii();
    AsciiConcat(pre, digits);
    AsciiConcat(pre + digits, "]}");
  }

  lemma DataImportFilterShape(digits: string)
    ensures DictRepr("initialDataImportIds", "[" + digits + "]") == "{'initialDataImportIds': [" + digits + "]}"
  {
  }

  lemma PrefixIsAscii()
    ensures IsAscii("{'initialDataImportIds': [") && IsAscii("]}")
  {
  }

  lemma AsciiConcat(a: string, b: string)
    requires IsAscii(a) && (IsAscii(b) || AllDigits(b))
    ensures IsAscii(a + b)
  {
    forall i | 0 <= i < |a + b|
      ensures (a + b)[i] as int < 128
    {
      if i >= |a| {
        assert (a + b)[i] == b[i - |a|];
      }
    }
  }

  /*
   * URL templates for the front end
   */

  /** `ReplaceChar` on a one-character string. */
  lemma ReplaceOne(x: char, c: char, r: string)
    ensures ReplaceChar([x], c, r) == if x == c then r else [x]
  {
    assert ReplaceChar([x], c, r) == (if x == c then r else [x]) + ReplaceChar([], c, r);
  }

  /** Replacing the only occurrence of `c` puts `r` in its place. */
  lemma ReplaceSingle(p0: string, p1: string, c: char, r: string)
    requires c !in p0 && c !in p1
    ensures ReplaceChar(p0 + [c] + p1, c, r) == p0 + r + p1
  {
    var head := p0 + [c];
    ReplaceCharAppend(head, p1, c, r);
    ReplaceCharAppend(p0, [c], c, r);
    ReplaceCharAbsent(p0, c, r);
    ReplaceCharAbsent(p1, c, r);
    ReplaceOne(c, c, r);
    assert ReplaceChar(head, c, r) == p0 + r;
  }

  /**
   * `_build_mvt_url_template`: the tile route reversed with zoom 1, x 2 and y 3,
   * with every `1`, `2` and `3` then replaced by `{z}`, `{x}` and `{y}`.
   */
  function MvtUrlTemplate(route: string): string {
    ReplaceChar(ReplaceChar(ReplaceChar(route, '1', "{z}"), '2', "{x}"), '3', "{y}")
  }

  /** `ReplaceChar` applied piece by piece to seven concatenated strings. */
  lemma ReplaceSeven(a0: string, a1: string, a2: string, a3: string, a4: string, a5: string, a6: string, c: char, r: string)
    ensures ReplaceChar(a0 + a1 + a2 + a3 + a4 + a5 + a6, c, r)
      == ReplaceChar(a0, c, r) + ReplaceChar(a1, c, r) + ReplaceChar(a2, c, r) + ReplaceChar(a3, c, r)
         + ReplaceChar(a4, c, r) + ReplaceChar(a5, c, r) + ReplaceChar(a6, c, r)
  {
    ReplaceCharAppend(a0 + a1 + a2 + a3 + a4 + a5, a6, c, r);
    ReplaceCharAppend(a0 + a1 + a2 + a3 + a4, a5, c, r);
    ReplaceCharAppend(a0 + a1 + a2 + a3, a4, c, r);
    ReplaceCharAppend(a0 + a1 + a2, a3, c, r);
    ReplaceCharAppend(a0 + a1, a2, c, r);
    ReplaceCharAppend(a0, a1, c, r);
  }

  /** The route text around the tile coordinates holds none of the digits 1, 2 and 3. */
  predicate NoCoordinateDigit(p: string) {
    '1' !in p && '2' !in p && '3' !in p
  }

  /** Around three pieces, text without `c` is left as it is. */
  lemma ReplaceAround(p0: string, a: string, p1: string, b: string, p2: string, d: string, p3: string, c: char, r: string)
    requires c !in p0 && c !in p1 && c !in p2 && c !in p3
    ensures ReplaceChar(p0 + a + p1 + b + p2 + d + p3, c, r)
      == p0 + ReplaceChar(a, c, r) + p1 + ReplaceChar(b, c, r) + p2 + ReplaceChar(d, c, r) + p3
  {
    ReplaceSeven(p0, a, p1, b, p2, d, p3, c, r);
    ReplaceCharAbsent(p0, c, r);
    ReplaceCharAbsent(p1, c, r);
    ReplaceCharAbsent(p2, c, r);
    ReplaceCharAbsent(p3, c, r);
  }

  /**
   * When the rest of the route holds no `1`, `2` or `3`, the template is the
   * route with the three placeholders where the tile coordinates were.
   */
  lemma MvtTemplatePlaceholders(p0: string, p1: string, p2: string, p3: string)
    requires NoCoordinateDigit(p0) && NoCoordinateDigit(p1) && NoCoordinateDigit(p2) && NoCoordinateDigit(p3)
    ensures MvtUrlTemplate(p0 + "1" + p1 + "2" + p2 + "3" + p3) == p0 + "{z}" + p1 + "{x}" + p2 + "{y}" + p3
  {
    ReplaceAround(p0, "1", p1, "2", p2, "3", p3, '1', "{z}");
    ReplaceOne('1', '1', "{z}");
    ReplaceOne('2', '1', "{z}");
    ReplaceOne('3', '1', "{z}");
    var s1 := p0 + "{z}" + p1 + "2" + p2 + "3" + p3;
    ReplaceAround(p0, "{z}", p1, "2", p2, "3", p3, '2', "{x}");
    ReplaceCharAbsent("{z}", '2', "{x}");
    ReplaceOne('2', '2', "{x}");
    ReplaceOne('3', '2', "{x}");
    var s2 := p0 + "{z}" + p1 + "{x}" + p2 + "3" + p3;
    ReplaceAround(p0, "{z}", p1, "{x}", p2, "3", p3, '3', "{y}");
    ReplaceCharAbsent("{z}", '3', "{y}");
    ReplaceCharAbsent("{x}", '3', "{y}");
    ReplaceOne('3', '3', "{y}");
  }

  /** No `1`, `2` or `3` survives in a tile template, wherever in the route it stood. */
  lemma MvtTemplateHasNoCoordinateDigits(route: string)
    ensures NoCoordinateDigit(MvtUrlTemplate(route))
  {
    var a := ReplaceChar(route, '1', "{z}");
    var b := ReplaceChar(a, '2', "{x}");
    ReplaceCharMembers(route, '1', "{z}");
    ReplaceCharMembers(a, '2', "{x}");
    ReplaceCharMembers(b, '3', "{y}");
  }

  /** A route reversed with `1` as its only argument, every `1` replaced by `placeholder`. */
  function IdTemplate(route: string, placeholder: string): string {
    ReplaceChar(route, '1', placeholder)
  }

  /** With no other `1` in the route, the placeholder stands exactly where the argument was. */
  lemma IdTemplatePlaceholder(p0: string, p1: string, placeholder: string)
    requires '1' !in p0 && '1' !in p1
    ensures IdTemplate(p0 + "1" + p1, placeholder) == p0 + placeholder + p1
  {
    ReplaceSingle(p0, p1, '1', placeholder);
  }

  /** The observation-details template: `{stable_id}` for every `1`, then `?origin={origin}`. */
  function ObservationDetailsTemplate(route: string): string {
    IdTemplate(route, "{stable_id}") + "?origin={origin}"
  }

  lemma ObservationDetailsTemplatePlaceholders(p0: string, p1: string)
    requires '1' !in p0 && '1' !in p1
    ensures ObservationDetailsTemplate(p0 + "1" + p1) == p0 + "{stable_id}" + p1 + "?origin={origin}"
  {
    IdTemplatePlaceholder(p0, p1, "{stable_id}");
  }

  /*
   * The JavaScript configuration object
   */

  /** Django's `reverse(view_name, kwargs=kwargs)`. */
  type Reverse = (string, seq<(string, nat)>) -> string

  /** The `apiEndpoints` object: route URLs and URL templates, in the order `js_config_object` lists them. */
  function ApiEndpoints(reverse: Reverse): seq<(string, Json)> {
    [ ("speciesListUrl", JString(reverse("dashboard:public-api:species-list-json", [])))
    , ("datasetsListUrl", JString(reverse("dashboard:internal-api:datasets-list-json", [])))
    , ("areasListUrl", JString(reverse("dashboard:internal-api:areas-list-json", [])))
    , ("dataImportsListUrl", JString(reverse("dashboard:internal-api:dataimports-list-json", [])))
    , ("observationsCounterUrl", JString(reverse("dashboard:internal-api:filtered-observations-counter", [])))
    , ("observationsJsonUrl", JString(reverse("dashboard:internal-api:filtered-observations-data-page", [])))
    , ("markObservationsAsSeenUrl", JString(reverse("dashboard:internal-api:filtered-observations-mark-as-seen", [])))
    , ("tileServerAggregatedUrlTemplate", JString(MvtUrlTemplate(
        reverse("dashboard:internal-api:maps:mvt-tiles-hexagon-grid-aggregated", [("zoom", 1), ("x", 2), ("y", 3)]))))
    , ("tileServerUrlTemplate", JString(MvtUrlTemplate(
        reverse("dashboard:internal-api:maps:mvt-tiles", [("zoom", 1), ("x", 2), ("y", 3)]))))
    , ("observationDetailsUrlTemplate", JString(ObservationDetailsTemplate(
        reverse("dashboard:pages:observation-details", [("stable_id", 1)]))))
    , ("myCustomAreasUrl", JString(reverse("dashboard:pages:my-custom-areas", [])))
    , ("areasUrlTemplate", JString(IdTemplate(reverse("dashboard:internal-api:area-geojson", [("id", 1)]), "{id}")))
    , ("areaDeleteUrlTemplate", JString(IdTemplate(reverse("dashboard:actions:area-delete", [("id", 1)]), "{id}")))
    , ("minMaxOccPerHexagonUrl", JString(reverse("dashboard:internal-api:maps:mvt-min-max-per-hexagon", [])))
    , ("observationsHistogramDataUrl", JString(reverse("dashboard:internal-api:filtered-observations-monthly-histogram", [])))
    , ("alertAsFiltersUrl", JString(reverse("dashboard:internal-api:alert-as-filters-json", [])))
    , ("alertPageUrlTemplate", JString(IdTemplate(reverse("dashboard:pages:alert-details", [("alert_id", 1)]), "{id}")))
    ]
  }

  /**
   * `js_config_object`: the `conf` dictionary (before `json.dumps`), with
   * `userId` added after the fixed entries only for an authenticated user.
   * `endpoints` is the `apiEndpoints` dictionary, `ApiEndpoints(reverse)`.
   */
  method JsConfigObject(user: User, endpoints: seq<(string, Json)>, mainMapConfig: Json)
    returns (conf: seq<(string, Json)>)
    ensures Keys(conf) == ["authenticatedUser", "apiEndpoints", "mainMapConfig"]
      + (if user.Authenticated? then ["userId"] else [])
    ensures Get(conf, "authenticatedUser") == Some(JBool(user.Authenticated?))
    ensures Get(conf, "apiEndpoints") == Some(JObject(endpoints))
    ensures Get(conf, "mainMapConfig") == Some(mainMapConfig)
    ensures "userId" in Keys(conf) <==> user.Authenticated?
    ensures user.Authenticated? ==> Get(conf, "userId") == Some(JInt(user.pk))
  {
    var authenticated := ("authenticatedUser", JBool(user.Authenticated?));
    var api := ("apiEndpoints", JObject(endpoints));
    var mapConfig := ("mainMapConfig", mainMapConfig);
    conf := [authenticated, api, mapConfig];
    GetOfThree(authenticated, api, mapConfig);
    if user.Authenticated? {
      ghost var fixed := conf;
      conf := conf + [("userId", JInt(user.pk))];
      GetAppend(fixed, "userId", JInt(user.pk), "authenticatedUser");
      GetAppend(fixed, "userId", JInt(user.pk), "apiEndpoints");
      GetAppend(fixed, "userId", JInt(user.pk), "mainMapConfig");
      GetAppend(fixed, "userId", JInt(user.pk), "userId");
    }
  }

  /*
   * Links to GBIF
   */

  const DownloadPrefix := "https://www.gbif.org/occurrence/download/"
  const OccurrencePrefix := "https://www.gbif.org/occurrence/"
  const DatasetPrefix := "https://www.gbif.org/dataset/"

  /** `gbif_download_url`. */
  function GbifDownloadUrl(value: string): string { DownloadPrefix + value }

  /** `gbif_occurrence_url`. */
  function GbifOccurrenceUrl(occurrenceId: string): string { OccurrencePrefix + occurrenceId }

  /** `gbif_dataset_url`. */
  function GbifDatasetUrl(datasetKey: string): string { DatasetPrefix + datasetKey }

  /** What follows `prefix` in `url`, if `url` starts with it. */
  function AfterPrefix(prefix: string, url: string): (r: Option<string>)
    ensures r.Some? <==> prefix <= url
    ensures r.Some? ==> url == prefix + r.value
  {
    if prefix <= url then Some(url[|prefix|..]) else None
  }

  /**
   * Each GBIF link is its fixed prefix followed by the value, which can be read
   * back from it; dataset links never coincide with occurrence or download links.
   */
  lemma GbifUrlsRecoverValue(v: string, w: string)
    ensures AfterPrefix(DownloadPrefix, GbifDownloadUrl(v)) == Some(v)
    ensures AfterPrefix(OccurrencePrefix, GbifOccurrenceUrl(v)) == Some(v)
    ensures AfterPrefix(DatasetPrefix, GbifDatasetUrl(v)) == Some(v)
    ensures GbifDatasetUrl(v) != GbifOccurrenceUrl(w) && GbifDatasetUrl(v) != GbifDownloadUrl(w)
  {
    assert GbifDownloadUrl(v)[|DownloadPrefix|..] == v;
    assert GbifOccurrenceUrl(v)[|OccurrencePrefix|..] == v;
    assert GbifDatasetUrl(v)[|DatasetPrefix|..] == v;
    assert GbifDatasetUrl(v)[21] == 'd';
    assert GbifOccurrenceUrl(w)[21] == 'o';
    assert GbifDownloadUrl(w)[21] == 'o';
  }

  /*
   * Links from free text
   */

  /** ASCII lower case, as `re.IGNORECASE` compares letters. */
  function Lower(c: char): char {
    if 'A' <= c <= 'Z' then (c as int + 32) as char else c
  }

  function LowerAll(s: string): (r: string)
    ensures |r| == |s|
    ensures forall i :: 0 <= i < |s| ==> r[i] == Lower(s[i])
  {
    seq(|s|, i requires 0 <= i < |s| => Lower(s[i]))
  }

  predicate IsLetter(c: char) { 'a' <= Lower(c) <= 'z' }

  predicate IsAlnum(c: char) { IsLetter(c) || IsDigit(c) }

  /** `(?:http|ftp)s?://`. */
  predicate Scheme(p: string) {
    LowerAll(p) in {"http://", "https://", "ftp://", "ftps://"}
  }

  /** `[A-Z0-9](?:[A-Z0-9-]{0,61}[A-Z0-9])?`: 1 to 63 characters, alphanumeric at both ends, hyphens inside. */
  predicate DomainLabel(l: string) {
    1 <= |l| <= 63 && IsAlnum(l[0]) && IsAlnum(l[|l| - 1])
    && forall i :: 0 < i < |l| - 1 ==> IsAlnum(l[i]) || l[i] == '-'
  }

  /** `[A-Z]{2,6}` or `[A-Z0-9-]{2,}`: the top-level label without its optional trailing dot. */
  predicate TopLevelLabel(t: string) {
    || (2 <= |t| <= 6 && forall i :: 0 <= i < |t| ==> IsLetter(t[i]))
    || (2 <= |t| && forall i :: 0 <= i < |t| ==> IsAlnum(t[i]) || t[i] == '-')
  }

  /**
   * `(?:label\.)+(?:tld\.?)`: since no label holds a dot, the name less an
   * optional final dot splits at its dots into at least one label and a
   * top-level label.
   */
  predicate DomainName(h: string) {
    var name := if |h| > 0 && h[|h| - 1] == '.' then h[..|h| - 1] else h;
    var labels := Split(name, '.');
    |labels| >= 2 && TopLevelLabel(labels[|labels| - 1])
    && forall i :: 0 <= i < |labels| - 1 ==> DomainLabel(labels[i])
  }

  /** `\d{1,3}\.\d{1,3}\.\d{1,3}\.\d{1,3}`. */
  predicate IPv4(h: string) {
    var parts := Split(h, '.');
    |parts| == 4 && forall i :: 0 <= i < 4 ==> 1 <= |parts[i]| <= 3 && AllDigits(parts[i])
  }

  /** The host: a domain name, `localhost` in any case, or four dotted groups of 1 to 3 digits. */
  predicate Host(h: string) {
    DomainName(h) || LowerAll(h) == "localhost" || IPv4(h)
  }

  /** `(?::\d+)?`. */
  predicate OptionalPort(p: string) {
    p == "" || (|p| >= 2 && p[0] == ':' && AllDigits(p[1..]))
  }

  /** `(?:/?|[/?]\S+)`: nothing, a slash, or a slash or question mark followed by non-space characters. */
  predicate PathPart(t: string) {
    t == "" || t == "/" || (|t| >= 2 && (t[0] == '/' || t[0] == '?') && forall i :: 1 <= i < |t| ==> !IsPyWhitespace(t[i]))
  }

  /** The whole of `s` is scheme, host, optional port and path. */
  predicate UrlShaped(s: string) {
    exists i, j, k :: 0 <= i <= j <= k <= |s|
      && Scheme(s[..i]) && Host(s[i..j]) && OptionalPort(s[j..k]) && PathPart(s[k..])
  }

  lemma UrlShapedAt(s: string, i: nat, j: nat, k: nat)
    requires i <= j <= k <= |s|
    requires Scheme(s[..i]) && Host(s[i..j]) && OptionalPort(s[j..k]) && PathPart(s[k..])
    ensures UrlShaped(s)
  {
  }

  /** `_is_url`: the pattern matches the whole string, or all of it but a final newline (`$`). */
  predicate IsUrl(s: string) {
    UrlShaped(s) || (|s| > 0 && s[|s| - 1] == '\n' && UrlShaped(s[..|s| - 1]))
  }

  /** A template filter's result: text the template still escapes, or HTML marked safe. */
  datatype Rendered = Text(text: string) | SafeHtml(html: string)

  /** `<a href="href">text</a>`. */
  function Anchor(href: string, text: string): string {
    "<a href=\"" + href + "\">" + text + "</a>"
  }

  /** `as_link_if_url`: a URL becomes an anchor on itself, marked safe as is; anything else is returned unchanged. */
  function AsLinkIfUrl(value: string): (r: Rendered)
    ensures !IsUrl(value) ==> r == Text(value)
    ensures IsUrl(value) ==> r == SafeHtml(Anchor(value, value))
  {
    if IsUrl(value) then SafeHtml(Anchor(value, value)) else Text(value)
  }

  /** The value of the `href` attribute a browser reads from `<a href="...`: up to the first double quote. */
  function HrefValue(html: string): Option<string> {
    match AfterPrefix("<a href=\"", html)
    case None => None
    case Some(rest) =>
      match IndexOf(rest, '"')
      case None => None
      case Some(n) => Some(rest[..n])
  }

  /** An anchor is the opening text, the `href`, a closing quote, then the rest. */
  lemma AnchorSplit(href: string, text: string)
    ensures Anchor(href, text) == "<a href=\"" + (href + ['"'] + (">" + text + "</a>"))
  {
  }

  lemma Regroup(a: string, b: string, tail: string, q: char)
    ensures a + [q] + b + [q] + tail == a + [q] + (b + [q] + tail)
  {
  }

  /** The `href` a browser reads ends at the first double quote after `<a href="`. */
  lemma HrefUpToQuote(a: string, t: string)
    requires '"' !in a
    ensures HrefValue("<a href=\"" + (a + ['"'] + t)) == Some(a)
  {
    var start := "<a href=\"";
    var html := start + (a + ['"'] + t);
    assert html[|start|..] == a + ['"'] + t;
    IndexOfFirst(a, t, '"');
    assert (a + ['"'] + t)[..|a|] == a;
  }

  /** `ab.cd` is a domain name: one label and a top-level label. */
  lemma SampleDomain()
    ensures Host("ab.cd")
  {
    assert "ab.cd" == JoinWith(".", ["ab", "cd"]);
    SplitJoin(["ab", "cd"], '.');
    assert DomainLabel("ab");
    assert TopLevelLabel("cd");
    assert DomainName("ab.cd");
  }

  /** A URL with a double quote in its path passes `_is_url`. */
  lemma QuotedUrlIsUrl()
    ensures IsUrl("http://ab.cd/" + "\"" + "x")
  {
    var s := "http://ab.cd/" + "\"" + "x";
    assert s[..7] == "http://";
    assert LowerAll("http://") == "http://";
    assert s[7..12] == "ab.cd";
    SampleDomain();
    assert s[12..12] == "";
    assert s[12..] == "/\"x";
    assert PathPart(s[12..]);
    UrlShapedAt(s, 7, 12, 12);
  }

  /**
   * A URL with a double quote in it passes through `as_link_if_url` unescaped,
   * and the `href` a browser reads stops at that quote: the rest of the value
   * lands in the tag as markup.
   */
  lemma AsLinkIfUrlBreaksOutOfHref(a: string, b: string)
    requires '"' !in a && IsUrl(a + "\"" + b)
    ensures AsLinkIfUrl(a + "\"" + b).SafeHtml?
    ensures HrefValue(AsLinkIfUrl(a + "\"" + b).html) == Some(a)
  {
    var v := a + "\"" + b;
    var tail := ">" + v + "</a>";
    AnchorSplit(v, v);
    Regroup(a, b, tail, '"');
    HrefUpToQuote(a, b + ['"'] + tail);
  }

  /** Such URLs exist: `http://ab.cd/"x` is one, and its link points to `http://ab.cd/`. */
  lemma AsLinkIfUrlInjectionExample()
    ensures AsLinkIfUrl("http://ab.cd/" + "\"" + "x").SafeHtml?
    ensures HrefValue(AsLinkIfUrl("http://ab.cd/" + "\"" + "x").html) == Some("http://ab.cd/")
  {
    QuotedUrlIsUrl();
    AsLinkIfUrlBreaksOutOfHref("http://ab.cd/", "x");
  }

  /** Django's `escape` for one character. */
  function EscapeChar(c: char): string {
    if c == '&' then "&amp;"
    else if c == '<' then "&lt;"
    else if c == '>' then "&gt;"
    else if c == '"' then "&quot;"
    else if c == '\'' then "&#x27;"
    else [c]
  }

  /** Django's `escape`: the five HTML-special characters as entities. */
  function Escape(s: string): (e: string)
    ensures '"' !in e && '<' !in e && '>' !in e
  {
    if s == [] then "" else EscapeChar(s[0]) + Escape(s[1..])
  }

  /** Reading the five entities `Escape` writes back as characters; any other `&` stands for itself. */
  function Unescape(e: string): string
    decreases |e|
  {
    if e == [] then ""
    else if e[0] != '&' then [e[0]] + Unescape(e[1..])
    else if "&amp;" <= e then "&" + Unescape(e[5..])
    else if "&lt;" <= e then "<" + Unescape(e[4..])
    else if "&gt;" <= e then ">" + Unescape(e[4..])
    else if "&quot;" <= e then "\"" + Unescape(e[6..])
    else if "&#x27;" <= e then "'" + Unescape(e[6..])
    else "&" + Unescape(e[1..])
  }

  lemma UnescapeAppend(c: char, rest: string)
    ensures Unescape(EscapeChar(c) + rest) == [c] + Unescape(rest)
  {
    var q := EscapeChar(c);
    var e := q + rest;
    assert e[|q|..] == rest;
    assert q <= e;
    if c == '<' {
      assert e[1] == 'l';
    } else if c == '>' {
      assert e[1] == 'g';
    } else if c == '"' {
      assert e[1] == 'q';
    } else if c == '\'' {
      assert e[1] == '#';
    } else if c != '&' {
      assert e[0] == c;
    }
  }

  /** Escaping loses nothing: unescaping gives the value back. */
  lemma {:induction false} UnescapeEscape(s: string)
    ensures Unescape(Escape(s)) == s
    decreases |s|
  {
    if s != [] {
      UnescapeEscape(s[1..]);
      UnescapeAppend(s[0], Escape(s[1..]));
    }
  }

  /** `as_link_if_url` with the value escaped before it is marked safe. */
  function AsLinkIfUrlEscaped(value: string): (r: Rendered)
    ensures !IsUrl(value) ==> r == Text(value)
    ensures IsUrl(value) ==> r == SafeHtml(Anchor(Escape(value), Escape(value)))
  {
    if IsUrl(value) then SafeHtml(Anchor(Escape(value), Escape(value))) else Text(value)
  }

  /** With escaping, the `href` a browser reads is the whole value, escaped, and unescapes to it. */
  lemma EscapedLinkKeepsHref(value: string)
    requires IsUrl(value)
    ensures HrefValue(AsLinkIfUrlEscaped(value).html) == Some(Escape(value))
    ensures Unescape(HrefValue(AsLinkIfUrlEscaped(value).html).value) == value
  {
    var e := Escape(value);
    AnchorSplit(e, e);
    HrefUpToQuote(e, ">" + e + "</a>");
    UnescapeEscape(value);
  }
}
