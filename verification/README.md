# Spryker package search: a Dafny model of the search tools

This project models the request-handling core of the Spryker package-search tool server. The
server offers three tools to an assistant: searching GitHub repositories, searching PHP code,
and searching the Spryker documentation.

- `Normalizer` models `normalizeQuery`. It trims the query, then collapses every whitespace run
  into one plain space. The whitespace set is the ECMAScript `WhiteSpace` plus `LineTerminator` set.
- `Organisations` models three things:
  - `validateOrganisations`, which filters the caller's organisations against the five
    allow-listed Spryker organisations and falls back to the whole list;
  - `buildGitHubQuery`, which appends one `org:` clause per organisation;
  - a reader that recovers the organisations from a composed query.
- `Formatters` models `formatResults` and `formatCodeResults`. Each produces a "Found N …" header,
  numbered three-line blocks and a trailer naming the organisations searched. An empty or missing
  result list gives a fixed sentence instead.
- `Tools` models the three handlers: `searchSprykerPackages`, `searchSprykerCode` and
  `searchSprykerDocs`.
  - Code search appends the ` in:file language:php` filter to the query.
  - Docs search rewrites each hit URL to a markdown content path and fetches the hits one by
    one. Each fetch settles on its own into a record.
  - Every outcome is wrapped in a one-item text envelope. A failing backend becomes
    `Error performing <operation>: <message>`.
- `Scenarios` states the handlers' test requests as lemmas: the "test-query" repository and
  code searches in spryker and the rejected repository search. It adds a two-result repository
  search for "payment module" scoped to spryker. Each lemma holds for every backend that behaves
  as the case describes.
- `Config` holds the allow-list and the fixed strings.
- `Results`, `Strings` and `Decimal` are support modules:
  - `Results` gives Option and Result;
  - `Strings` gives prefix, suffix, join, split, search and first-occurrence removal;
  - `Decimal` renders a number in decimal and reads it back.

The backends are function-valued parameters that return a `Result`:
- GitHub repository search;
- GitHub code search;
- the documentation index;
- the documentation file fetch.

`Err` carries the message of the error the backend would throw.

## Model

| member | source | states |
|---|---|---|
| Normalizer.Trim | src/utils.js:10 | `trim()`: the result is a slice of the input with only whitespace before and after it, and no whitespace at either of its own ends. A string without whitespace at its ends is kept as is |
| Normalizer.CollapseRuns | src/utils.js:10 | `replace(/\s+/g, " ")`: the result is never longer than the input |
| Normalizer.CollapseRunsJoinsWords | src/utils.js:10 | On a string without whitespace at either end, collapsing gives its words joined by single plain spaces, so every inner whitespace run becomes exactly one space |
| Normalizer.WordsTrim | src/utils.js:10 | Trimming removes no word and adds none |
| Normalizer.NormalizeQuery | src/utils.js:9-11 | The normalized query has no leading or trailing whitespace and no two adjacent spaces. Its only whitespace is the plain space. It is never longer than the input |
| Normalizer.NormalizeJoinsWords | src/utils.js:9-11 | The normalized query is exactly the query's words (maximal runs of non-whitespace characters) joined by single plain spaces |
| Normalizer.NormalizeFixedPointIff | src/utils.js:9-11 | A string is left unchanged by normalization if and only if it is already normalized (both directions) |
| Normalizer.NormalizeIdempotent | src/utils.js:9-11 | Normalizing twice gives the same as normalizing once |
| Normalizer.NormalizeKeepsVisible | src/utils.js:9-11 | Normalization keeps every non-whitespace character, in order: only whitespace is removed or replaced |
| Normalizer.CollapseRunsNoAdjacent | src/utils.js:10 | Collapsing whitespace runs leaves no two adjacent spaces |
| Organisations.AllowedOnly | src/utils.js:24 | The filter keeps exactly the allow-listed names. Each keeps its multiplicity and the caller's order. It is empty exactly when no name is allowed |
| Organisations.ValidateOrganisations | src/utils.js:19-31 | Never empty; only allow-listed names. A missing or empty list gives the whole allow-list, and so does a list with no allowed name. Otherwise the caller's allowed names, in order, duplicates kept |
| Organisations.ValidateKeepsValidList | src/utils.js:24-30 | A non-empty list of allowed names is returned as given |
| Organisations.ValidateIdempotent | src/utils.js:19-31 | Validating an already validated list changes nothing |
| Organisations.BuildGitHubQuery | src/utils.js:65-76 | Without organisations the query is the text unchanged. With them it is the text, one space, then a clause starting with `org:` and the first organisation |
| Organisations.BuildGitHubQueryRoundTrip | src/utils.js:70-73 | For organisation names without spaces, splitting the composed query after the text on spaces and reading the `org:` clauses gives back exactly the organisation list |
| Organisations.AllowedOnlyKeepsValid | src/utils.js:24 | An all-allowed list passes the filter unchanged |
| Decimal.NatToString | src/utils.js:45 | The rendered count is a non-empty decimal numeral without leading zeros |
| Decimal.ParseNatToString | src/utils.js:45 | Reading the rendered count back gives the count |
| Formatters.DescriptionText | src/utils.js:49 | A missing or empty description shows "No description available"; any other description is shown as is |
| Formatters.FormatResults | src/utils.js:40-56 | A missing or empty list gives the fixed "No repositories found" sentence. Otherwise the text starts with the count header and ends with the organisations trailer, and its length is exactly the header, the blocks and the trailer, so nothing else lies between them |
| Formatters.FormatResultsEntries | src/utils.js:47-51 | Repository `i` appears as its numbered block right after the header and the blocks of the repositories before it |
| Formatters.FormatResultsCount | src/utils.js:41-45 | The text starts with "Found " exactly when there are results, and the number after it reads back as the number of repositories |
| Formatters.RepoEntryLines | src/utils.js:48-50 | A repository block splits into its numbered-name line, description line and URL line, then a blank line |
| Formatters.FormatCodeResults | src/utils.js:85-101 | A missing or empty list gives the fixed "No code matches found" sentence. Otherwise the text starts with the count header and ends with the organisations trailer, and its length is exactly the header, the blocks and the trailer, so nothing else lies between them |
| Formatters.FormatCodeResultsEntries | src/utils.js:92-96 | Code match `i` appears as its numbered block right after the header and the blocks of the matches before it |
| Formatters.FormatCodeResultsCount | src/utils.js:86-90 | The text starts with "Found " exactly when there are matches, and the number after it reads back as the number of matches |
| Formatters.CodeEntryLines | src/utils.js:93-95 | A code-match block splits into its name-and-repository line, path line and URL line, then a blank line |
| Formatters.FormattedTextsStartWithForN | src/utils.js:40-101 | Every formatter output is non-empty and starts with 'F' or 'N', so none reads as an error report |
| Tools.Respond | src/tools.js:39-56 | The response is one text item. It holds the formatted text on success and "Error performing <operation>: <message>" on failure |
| Tools.PackageSearchQuery | src/tools.js:20-25 | The repository query starts with the normalized text and one space (the validated list is never empty) |
| Tools.PackageQueryScope | src/tools.js:22-25 | The repository query is scoped to exactly the validated organisations, readable back from the query |
| Tools.CodeSearchQuery | src/tools.js:64-69 | The code query starts with the normalized text and one space, and ends with " in:file language:php" |
| Tools.CodeQueryScope | src/tools.js:66-69 | Between the normalized text and the " in:file language:php" filter, the code query reads back as exactly the validated organisations |
| Tools.SearchPackages | src/tools.js:16-58 | A failed repository search gives "Error performing search: <message>". A successful one gives the formatted items, scoped to the validated organisations |
| Tools.PackageErrorIffBackendFails | src/tools.js:29-56 | The package response is an error report if and only if the repository search failed |
| Tools.SearchCode | src/tools.js:60-102 | A failed code search gives "Error performing code search: <message>". A successful one gives the formatted matches |
| Tools.CodeErrorIffBackendFails | src/tools.js:73-100 | The code response is an error report if and only if the code search failed |
| Tools.StripDocsHost | src/tools.js:117-118 | The docs host is removed only when the URL starts with it; any other URL is kept |
| Tools.RewriteDocsUrl | src/tools.js:116-123 | The fetched path always ends in ".md" and grows by at most the length of ".md" |
| Tools.RewriteDocsUrlCanonical | src/tools.js:116-123 | The docs-host URL of a page ending in ".html" maps to the page path with ".md" in place of ".html" |
| Strings.RemoveFirst | src/tools.js:119 | `replace(".html", "")` with a string pattern: without an occurrence the input is kept; otherwise exactly the first occurrence is cut out |
| Tools.RewriteDocsUrlSteps | src/tools.js:116-123 | For every URL: the host comes off only as a prefix, only the first ".html" of the rest is removed, and ".md" is appended exactly when the result does not already end with it |
| Tools.RewriteDocsUrlKeepsLaterHtml | src/tools.js:116-123 | On a docs-host URL with two ".html", the first is removed, the second is kept, and ".md" is appended after it |
| Tools.RewriteDocsUrlForeign | src/tools.js:117-123 | A URL outside the docs host without ".html" is kept, with ".md" appended only when missing |
| Tools.FetchHit | src/tools.js:125-131 | Each record has exactly one of text or error. A fetched page is recorded under the hit's original URL; a failed one under the rewritten path, with the message |
| Tools.FanOut | src/tools.js:114-133 | One record per hit, in hit order, each the outcome of that hit's own fetch |
| Tools.FanOutIsolation | src/tools.js:114-133 | Record `i` depends only on the fetch of hit `i`'s path, so one failed fetch cannot disturb another record |
| Tools.FanOutMixedOutcomes | src/tools.js:125-131 | A success and a failure side by side give one content record under the original URL and one error record under the rewritten path |
| Tools.SearchDocs | src/tools.js:104-154 | A failed index search gives "Error performing docs search: <message>". Otherwise the response formats the fan-out records of the hits found for the normalized query |
| Tools.DocsIgnoresOrganisations | src/tools.js:104-110 | The documentation search gives the same response whatever organisations the request names |
| Scenarios.SprykerScopedQuery | tests/tools.test.js:48-51 | A request scoped to spryker alone searches the normalized text followed by " org:spryker" |
| Scenarios.TestQuery | tests/tools.test.js:48-51 | The request "test-query" in spryker searches "test-query org:spryker" |
| Scenarios.CodeSearchQueryExample | tests/tools.test.js:110-120 | The code search for "test-query" in spryker sends "test-query org:spryker in:file language:php" |
| Scenarios.PackageSearchEndToEnd | src/tools.js:16-44 | A two-result search for "payment module" in spryker answers with text that starts "Found 2 repositories:" and ends naming spryker as the scope |
| Scenarios.PackageSearchFailure | tests/tools.test.js:61-79 | A repository search rejected with "API error" answers "Error performing search: API error" |

## Left out

- Logging: the handlers log requests, counts and errors. The logs do not affect responses and are not modelled.
- Network clients: the GitHub client, the documentation index client and the documentation file fetch are not modelled.
  - They appear only as the backend parameters.
  - Their authentication, paging (`per_page`, `HITS_PER_PAGE`), rate limits and response decoding are not modelled.
- Asynchrony: the documentation fetches run concurrently under `Promise.all`. The model fetches them one after another.
  - The records keep hit order either way.
  - A hit's fetch is a function of its path alone.
- Backends as functions: a backend answers the same query the same way each time. Time-dependent or stateful backends are not modelled.
- Tools.SearchDocs: `formatDocsResults` is imported from `src/utils.js` but not defined in that file. Its output format is not part of this model.
  - It is a parameter `formatDocs`.
  - The contract states only that it receives the fan-out records.
- Malformed data: every item field, hit `url` and request `query` is a present string in the model.
  - In the source, a missing `name`, `html_url` or `path` renders as `undefined`, and a missing `description` gets the fallback text.
  - A null item, a code match without `repository`, a hit without `url`, a missing `query` or a missing response object makes the source throw a type error. The handler then answers with its "Error performing …" text carrying that error's message; those messages are not modelled.
- `total_count` of a search response is only logged. It is not modelled.
- Query length: the tool-schema bound on the query, in `src/index.js`, is not a precondition. The handlers themselves accept any string.
- The `organisations = []` default parameter is modelled as `None`. It is handled like an empty list.
- Normalizer.NormalizeQuery: the whitespace set is the ECMAScript set of code points, written out. Characters outside the Basic Multilingual Plane are single `char`s, not surrogate pairs.
- Tools.RewriteDocsUrl: the contract gives the ".md" ending and a length bound. The exact path for every URL is stated by `RewriteDocsUrlSteps`.
- Normalizer.CollapseRuns: the contract gives only the length bound. What it produces is stated by `CollapseRunsJoinsWords` for strings without whitespace at either end. Those are the only strings it receives, since it runs after `trim()`.
- Formatters.RepoEntryLines and Formatters.CodeEntryLines: these assume fields without line breaks. A field holding one would add lines, so the block would not split back into its fields.
- Organisations.BuildGitHubQuery: the contract states the text, the space and the first clause. The full clause list is stated by `BuildGitHubQueryRoundTrip`. That lemma needs organisation names without spaces, which every allow-listed name is; for names with spaces the clauses could not be told apart.
