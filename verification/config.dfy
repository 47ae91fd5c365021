/** The fixed constants of the search layer (src/config.js and the literals of src/tools.js). */
module Config {

  /** The organisation allow-list, in its declared order. */
  const SprykerOrgs: seq<string> := ["spryker", "spryker-eco", "spryker-sdk", "spryker-shop", "spryker-community"]

  /** Filter clauses appended to every code-search query: in-file matches of PHP sources. */
  const CodeSearchSuffix: string := " in:file language:php"

  /** Host prefix stripped from documentation hit URLs (anchored at the start). */
  const DocsHost: string := "https://docs.spryker.com"

  const HtmlExtension: string := ".html"
  const MarkdownExtension: string := ".md"
}
