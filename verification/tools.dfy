/**
 * The three search handlers: each composes normalize, validate, compose, dispatch and format,
 * and wraps the outcome, success or error, in the same one-item text envelope. The backends
 * (GitHub repository and code search, the documentation index, the documentation file fetch)
 * are parameters returning a Result, Err carrying the message of the error they would throw.
 */
module Tools {

  import opened Results
  import opened Strings
  import opened Config
  import opened Normalizer
  import opened Organisations
  import opened Formatters

  datatype SearchRequest = SearchRequest(query: string, organisations: Option<seq<string>>)

  /** The part of a GitHub search response the handlers read (`items`, which may be missing). */
  datatype SearchPage<T> = SearchPage(items: Option<seq<T>>)

  /** A documentation-index hit. */
  datatype DocsHit = DocsHit(title: string, url: string)

  /** The per-hit outcome of the documentation fan-out. */
  datatype DocRecord = DocRecord(url: string, text: Option<string>, error: Option<string>)

  /** One element of a tool response: `{type: "text", text}`. */
  datatype ContentItem = ContentItem(kind: string, text: string)

  /** A tool response: `{content: [...]}`. */
  datatype Envelope = Envelope(content: seq<ContentItem>)

  predicate IsTextEnvelope(e: Envelope) {
    |e.content| == 1 && e.content[0].kind == "text"
  }

  function TextOf(e: Envelope): string
    requires IsTextEnvelope(e)
  {
    e.content[0].text
  }

  function ErrorText(operation: string, message: string): string {
    "Error performing " + operation + ": " + message
  }

  /** The shared error boundary: the formatted text, or the error report for `operation`. */
  function Respond(operation: string, outcome: Result<string>): (e: Envelope)
    ensures IsTextEnvelope(e)
    ensures outcome.Ok? ==> TextOf(e) == outcome.value
    ensures outcome.Err? ==> TextOf(e) == ErrorText(operation, outcome.message)
  {
    match outcome
    case Ok(text) => Envelope([ContentItem("text", text)])
    case Err(message) => Envelope([ContentItem("text", ErrorText(operation, message))])
  }

  /** The repository-search query: normalized text scoped to the validated organisations. */
  function PackageSearchQuery(req: SearchRequest): (q: string)
    ensures IsPrefix(NormalizeQuery(req.query) + " ", q)
  {
    var orgs := ValidateOrganisations(req.organisations);
    BuildGitHubQuery(NormalizeQuery(req.query), Some(orgs))
  }

  /** The code-search query: the repository-search query plus the in-file PHP filter. */
  function CodeSearchQuery(req: SearchRequest): (q: string)
    ensures IsPrefix(NormalizeQuery(req.query) + " ", q)
    ensures IsSuffix(CodeSearchSuffix, q)
  {
    PackageSearchQuery(req) + CodeSearchSuffix
  }

  /** searchSprykerPackages. */
  function SearchPackages(req: SearchRequest, searchRepositories: string -> Result<SearchPage<Repo>>): (e: Envelope)
    ensures IsTextEnvelope(e)
    ensures var outcome := searchRepositories(PackageSearchQuery(req));
            && (outcome.Ok? ==> TextOf(e) == FormatResults(outcome.value.items, ValidateOrganisations(req.organisations)))
            && (outcome.Err? ==> TextOf(e) == ErrorText("search", outcome.message))
  {
    var orgs := ValidateOrganisations(req.organisations);
    var formatted :=
      match searchRepositories(BuildGitHubQuery(NormalizeQuery(req.query), Some(orgs)))
      case Ok(page) => Ok(FormatResults(page.items, orgs))
      case Err(message) => Err(message);
    Respond("search", formatted)
  }

  /** searchSprykerCode. */
  function SearchCode(req: SearchRequest, searchCode: string -> Result<SearchPage<CodeMatch>>): (e: Envelope)
    ensures IsTextEnvelope(e)
    ensures var outcome := searchCode(CodeSearchQuery(req));
            && (outcome.Ok? ==> TextOf(e) == FormatCodeResults(outcome.value.items, ValidateOrganisations(req.organisations)))
            && (outcome.Err? ==> TextOf(e) == ErrorText("code search", outcome.message))
  {
    var orgs := ValidateOrganisations(req.organisations);
    var formatted :=
      match searchCode(BuildGitHubQuery(NormalizeQuery(req.query), Some(orgs)) + CodeSearchSuffix)
      case Ok(page) => Ok(FormatCodeResults(page.items, orgs))
      case Err(message) => Err(message);
    Respond("code search", formatted)
  }

  /** The docs-host prefix removed, only when the URL starts with it. */
  function StripDocsHost(url: string): (r: string)
    ensures IsPrefix(DocsHost, url) ==> url == DocsHost + r
    ensures !IsPrefix(DocsHost, url) ==> r == url
  {
    if IsPrefix(DocsHost, url) then url[|DocsHost|..] else url
  }

  /** The content path fetched for a documentation hit: host stripped, first ".html" removed, ".md" ensured. */
  function RewriteDocsUrl(url: string): (path: string)
    ensures IsSuffix(MarkdownExtension, path)
    ensures |path| <= |url| + |MarkdownExtension|
  {
    var core := RemoveFirst(StripDocsHost(url), HtmlExtension);
    if IsSuffix(MarkdownExtension, core) then core else core + MarkdownExtension
  }

  /** One hit of the fan-out: fetch its rewritten path and record the content or the error. */
  function FetchHit(hit: DocsHit, fetchDoc: string -> Result<string>): (record: DocRecord)
    ensures record.text.Some? != record.error.Some?
    ensures var outcome := fetchDoc(RewriteDocsUrl(hit.url));
            && (outcome.Ok? ==> record == DocRecord(hit.url, Some(outcome.value), None))
            && (outcome.Err? ==> record == DocRecord(RewriteDocsUrl(hit.url), None, Some(outcome.message)))
  {
    var path := RewriteDocsUrl(hit.url);
    match fetchDoc(path)
    case Ok(content) => DocRecord(hit.url, Some(content), None)
    case Err(message) => DocRecord(path, None, Some(message))
  }

  /** The settle-all fan-out: one record per hit, in hit order, each settled on its own. */
  function FanOut(hits: seq<DocsHit>, fetchDoc: string -> Result<string>): (records: seq<DocRecord>)
    ensures |records| == |hits|
    ensures forall i :: 0 <= i < |hits| ==> records[i] == FetchHit(hits[i], fetchDoc)
  {
    if hits == [] then [] else [FetchHit(hits[0], fetchDoc)] + FanOut(hits[1..], fetchDoc)
  }

  /** searchSprykerDocs; `formatDocs` stands for formatDocsResults, which is not part of this model. */
  function SearchDocs(
    req: SearchRequest,
    searchIndex: string -> Result<seq<DocsHit>>,
    fetchDoc: string -> Result<string>,
    formatDocs: seq<DocRecord> -> string
  ): (e: Envelope)
    ensures IsTextEnvelope(e)
    ensures var outcome := searchIndex(NormalizeQuery(req.query));
            && (outcome.Ok? ==> TextOf(e) == formatDocs(FanOut(outcome.value, fetchDoc)))
            && (outcome.Err? ==> TextOf(e) == ErrorText("docs search", outcome.message))
  {
    var formatted :=
      match searchIndex(NormalizeQuery(req.query))
      case Ok(hits) => Ok(formatDocs(FanOut(hits, fetchDoc)))
      case Err(message) => Err(message);
    Respond("docs search", formatted)
  }

  lemma ErrorTextIsReport(operation: string, message: string)
    ensures IsPrefix("Error performing ", ErrorText(operation, message))
  {
    assert ErrorText(operation, message) == "Error performing " + (operation + ": " + message);
  }

  lemma NotAnErrorReport(text: string)
    requires text != [] && text[0] != 'E'
    ensures !IsPrefix("Error performing ", text)
  {
  }

  /** A package-search response is an error report exactly when the repository search failed. */
  lemma PackageErrorIffBackendFails(req: SearchRequest, searchRepositories: string -> Result<SearchPage<Repo>>)
    ensures var e := SearchPackages(req, searchRepositories);
            IsPrefix("Error performing ", TextOf(e)) <==> searchRepositories(PackageSearchQuery(req)).Err?
  {
    var outcome := searchRepositories(PackageSearchQuery(req));
    var e := SearchPackages(req, searchRepositories);
    if outcome.Ok? {
      FormattedTextsStartWithForN(outcome.value.items, None, ValidateOrganisations(req.organisations));
      NotAnErrorReport(TextOf(e));
    } else {
      ErrorTextIsReport("search", outcome.message);
    }
  }

  /** A code-search response is an error report exactly when the code search failed. */
  lemma CodeErrorIffBackendFails(req: SearchRequest, searchCode: string -> Result<SearchPage<CodeMatch>>)
    ensures var e := SearchCode(req, searchCode);
            IsPrefix("Error performing ", TextOf(e)) <==> searchCode(CodeSearchQuery(req)).Err?
  {
    var outcome := searchCode(CodeSearchQuery(req));
    var e := SearchCode(req, searchCode);
    if outcome.Ok? {
      FormattedTextsStartWithForN(None, outcome.value.items, ValidateOrganisations(req.organisations));
      NotAnErrorReport(TextOf(e));
    } else {
      ErrorTextIsReport("code search", outcome.message);
    }
  }

  /** The repository search is scoped to exactly the validated organisations, readable back from the query. */
  lemma PackageQueryScope(req: SearchRequest)
    ensures var nq := NormalizeQuery(req.query);
            var q := PackageSearchQuery(req);
            |nq| < |q| && ClausesOrgs(Split(q[|nq| + 1..], ' ')) == Some(ValidateOrganisations(req.organisations))
  {
    var orgs := ValidateOrganisations(req.organisations);
    forall i | 0 <= i < |orgs| ensures ' ' !in orgs[i] {
      AllowedHasNoSpace(orgs[i]);
    }
    BuildGitHubQueryRoundTrip(NormalizeQuery(req.query), orgs);
  }

  /**
   * The code search is scoped to exactly the validated organisations too: between the text
   * and the in-file PHP filter its query holds one `org:` clause per validated organisation.
   */
  lemma CodeQueryScope(req: SearchRequest)
    ensures var nq := NormalizeQuery(req.query);
            var q := CodeSearchQuery(req);
            |nq| + 1 + |CodeSearchSuffix| <= |q|
            && ClausesOrgs(Split(q[|nq| + 1..|q| - |CodeSearchSuffix|], ' ')) == Some(ValidateOrganisations(req.organisations))
  {
    PackageQueryScope(req);
    var nq := NormalizeQuery(req.query);
    var p := PackageSearchQuery(req);
    var q := p + CodeSearchSuffix;
    assert q[|nq| + 1..|q| - |CodeSearchSuffix|] == p[|nq| + 1..];
  }

  /** The documentation search never looks at the organisations of the request. */
  lemma DocsIgnoresOrganisations(
    query: string, orgs1: Option<seq<string>>, orgs2: Option<seq<string>>,
    searchIndex: string -> Result<seq<DocsHit>>,
    fetchDoc: string -> Result<string>,
    formatDocs: seq<DocRecord> -> string)
    ensures SearchDocs(SearchRequest(query, orgs1), searchIndex, fetchDoc, formatDocs)
         == SearchDocs(SearchRequest(query, orgs2), searchIndex, fetchDoc, formatDocs)
  {
  }

  lemma FetchHitDependsOnPath(hit: DocsHit, fetch1: string -> Result<string>, fetch2: string -> Result<string>)
    requires fetch1(RewriteDocsUrl(hit.url)) == fetch2(RewriteDocsUrl(hit.url))
    ensures FetchHit(hit, fetch1) == FetchHit(hit, fetch2)
  {
  }

  /** Record `i` of the fan-out depends only on the fetch of hit `i`'s path: one failure cannot disturb another record. */
  lemma FanOutIsolation(hits: seq<DocsHit>, fetch1: string -> Result<string>, fetch2: string -> Result<string>, i: nat)
    requires i < |hits|
    requires fetch1(RewriteDocsUrl(hits[i].url)) == fetch2(RewriteDocsUrl(hits[i].url))
    ensures FanOut(hits, fetch1)[i] == FanOut(hits, fetch2)[i]
  {
    FetchHitDependsOnPath(hits[i], fetch1, fetch2);
  }

  /** A fetched page is reported under the hit's original URL; a failed one under the rewritten path. */
  lemma FanOutMixedOutcomes(hit1: DocsHit, hit2: DocsHit, fetchDoc: string -> Result<string>, content: string, message: string)
    requires fetchDoc(RewriteDocsUrl(hit1.url)) == Ok(content)
    requires fetchDoc(RewriteDocsUrl(hit2.url)) == Err(message)
    ensures FanOut([hit1, hit2], fetchDoc)
         == [DocRecord(hit1.url, Some(content), None), DocRecord(RewriteDocsUrl(hit2.url), None, Some(message))]
  {
  }

  /** An ".html" occurrence cannot start before `|p|` in `p + ".html"` unless it lies inside `p`. */
  lemma HtmlFirstAtEnd(p: string)
    requires forall k: nat :: !OccursAt(p, HtmlExtension, k)
    ensures OccursAt(p + HtmlExtension, HtmlExtension, |p|)
    ensures forall m: nat :: m < |p| ==> !OccursAt(p + HtmlExtension, HtmlExtension, m)
  {
    var s := p + HtmlExtension;
    assert s[|p|..] == HtmlExtension;
    forall m: nat | m < |p| ensures !OccursAt(s, HtmlExtension, m) {
      if m + 5 <= |p| {
        assert p[m..m + 5] == s[m..m + 5];
        assert !OccursAt(p, HtmlExtension, m);
      } else if m + 5 <= |s| {
        // the window straddles the end of p and holds the '.' of the appended ".html" past its first place
        var j := |p| - m;
        assert s[m..m + 5][j] == s[|p|] == '.';
        assert HtmlExtension[j] != '.';
      }
    }
  }

  /** The usual documentation URL maps to its markdown source path. */
  lemma RewriteDocsUrlCanonical(p: string)
    requires forall k: nat :: !OccursAt(p, HtmlExtension, k)
    requires !IsSuffix(MarkdownExtension, p)
    ensures RewriteDocsUrl(DocsHost + p + HtmlExtension) == p + MarkdownExtension
  {
    var url := DocsHost + p + HtmlExtension;
    assert url[..|DocsHost|] == DocsHost;
    assert StripDocsHost(url) == p + HtmlExtension;
    HtmlFirstAtEnd(p);
    assert (p + HtmlExtension)[..|p|] == p;
    assert RemoveFirst(p + HtmlExtension, HtmlExtension) == p;
  }

  /**
   * The rewrite of any hit URL, step by step: the docs host comes off only as a prefix, then
   * only the first ".html" of what remains is removed, then ".md" is appended unless the
   * result already ends with it.
   */
  lemma RewriteDocsUrlSteps(url: string)
    ensures var s := StripDocsHost(url);
            (forall k: nat :: !OccursAt(s, HtmlExtension, k)) ==>
              RewriteDocsUrl(url) == (if IsSuffix(MarkdownExtension, s) then s else s + MarkdownExtension)
    ensures var s := StripDocsHost(url);
            forall k: nat :: OccursAt(s, HtmlExtension, k) && (forall m: nat :: m < k ==> !OccursAt(s, HtmlExtension, m)) ==>
              var t := s[..k] + s[k + |HtmlExtension|..];
              RewriteDocsUrl(url) == (if IsSuffix(MarkdownExtension, t) then t else t + MarkdownExtension)
  {
  }

  /** The first ".html" of `p + ".html" + rest` is the one after `p` when `p` holds none. */
  lemma HtmlFirstAfter(p: string, rest: string)
    requires forall k: nat :: !OccursAt(p, HtmlExtension, k)
    ensures OccursAt(p + HtmlExtension + rest, HtmlExtension, |p|)
    ensures forall m: nat :: m < |p| ==> !OccursAt(p + HtmlExtension + rest, HtmlExtension, m)
  {
    HtmlFirstAtEnd(p);
    var ph := p + HtmlExtension;
    var s := ph + rest;
    assert s[|p|..|p| + |HtmlExtension|] == ph[|p|..];
    forall m: nat | m < |p| ensures !OccursAt(s, HtmlExtension, m) {
      assert !OccursAt(ph, HtmlExtension, m);
      assert s[m..m + |HtmlExtension|] == ph[m..m + |HtmlExtension|];
    }
  }

  /** A path ending in ".html" does not end in ".md". */
  lemma HtmlIsNotMarkdown(t: string)
    requires IsSuffix(HtmlExtension, t)
    ensures !IsSuffix(MarkdownExtension, t)
  {
    assert t[|t| - 1] == HtmlExtension[4] == 'l';
  }

  /** On a docs-host URL with two ".html", the second one survives and ".md" is appended after it. */
  lemma RewriteDocsUrlKeepsLaterHtml(p: string, q: string)
    requires forall k: nat :: !OccursAt(p, HtmlExtension, k)
    ensures RewriteDocsUrl(DocsHost + p + HtmlExtension + q + HtmlExtension) == p + q + HtmlExtension + MarkdownExtension
  {
    var rest := q + HtmlExtension;
    var s := p + HtmlExtension + rest;
    assert DocsHost + p + HtmlExtension + q + HtmlExtension == DocsHost + s;
    StripDocsHostPrefixed(s);
    RemoveFirstHtmlAfter(p, rest);
    var t := p + rest;
    assert t == p + q + HtmlExtension;
    assert t[|t| - |HtmlExtension|..] == HtmlExtension;
    HtmlIsNotMarkdown(t);
  }

  lemma StripDocsHostPrefixed(s: string)
    ensures StripDocsHost(DocsHost + s) == s
  {
    assert (DocsHost + s)[..|DocsHost|] == DocsHost;
    assert (DocsHost + s)[|DocsHost|..] == s;
  }

  /** Removing the first ".html" of `p + ".html" + rest` leaves `p + rest` when `p` holds none. */
  lemma RemoveFirstHtmlAfter(p: string, rest: string)
    requires forall k: nat :: !OccursAt(p, HtmlExtension, k)
    ensures RemoveFirst(p + HtmlExtension + rest, HtmlExtension) == p + rest
  {
    var s := p + HtmlExtension + rest;
    HtmlFirstAfter(p, rest);
    assert s[..|p|] == p;
    assert s[|p| + |HtmlExtension|..] == rest;
  }

  /** A path-only URL without ".html" is kept, with ".md" added when missing. */
  lemma RewriteDocsUrlForeign(url: string)
    requires !IsPrefix(DocsHost, url)
    requires forall k: nat :: !OccursAt(url, HtmlExtension, k)
    ensures IsSuffix(MarkdownExtension, url) ==> RewriteDocsUrl(url) == url
    ensures !IsSuffix(MarkdownExtension, url) ==> RewriteDocsUrl(url) == url + MarkdownExtension
  {
  }
}
