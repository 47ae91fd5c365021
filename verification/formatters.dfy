/** formatResults and formatCodeResults: the text rendering of GitHub search results. */
module Formatters {

  import opened Results
  import opened Strings
  import opened Decimal

  /** A repository-search item: only the fields the formatter reads. */
  datatype Repo = Repo(name: string, description: Option<string>, htmlUrl: string)

  /** The repository a code match belongs to. */
  datatype RepositoryRef = RepositoryRef(fullName: string)

  /** A code-search item: only the fields the formatter reads. */
  datatype CodeMatch = CodeMatch(name: string, path: string, htmlUrl: string, repository: RepositoryRef)

  // Each long sentence is written as two literals joined.
  const NoRepositoriesText: string := "No repositories found matching " + "your searchSprykerPackages criteria."
  const NoCodeMatchesText: string := "No code matches found " + "for your search criteria."
  const NoDescriptionText: string := "No description available"
  const TrailerLead: string := "Search performed across organizations: "

  /** The closing line naming the organisations that were searched. */
  function OrgsTrailer(orgs: seq<string>): string {
    TrailerLead + Join(orgs, ", ")
  }

  /** `repo.description || "No description available"`: an absent or empty description is falsy. */
  function DescriptionText(description: Option<string>): (r: string)
    ensures r != []
    ensures description.Some? && description.value != [] ==> r == description.value
    ensures description.None? || description.value == [] ==> r == NoDescriptionText
  {
    match description
    case Some(d) => if d == [] then NoDescriptionText else d
    case None => NoDescriptionText
  }

  /** The block for the repository at 0-based position `index`; it is numbered from 1. */
  function RepoEntry(index: nat, repo: Repo): string {
    NatToString(index + 1) + ". " + repo.name + "\n"
    + "   Description: " + DescriptionText(repo.description) + "\n"
    + "   URL: " + repo.htmlUrl + "\n\n"
  }

  /** The block for the code match at 0-based position `index`; it is numbered from 1. */
  function CodeEntry(index: nat, item: CodeMatch): string {
    NatToString(index + 1) + ". " + item.name + " (" + item.repository.fullName + ")\n"
    + "   Path: " + item.path + "\n"
    + "   URL: " + item.htmlUrl + "\n\n"
  }

  function RepoEntries(repos: seq<Repo>): (r: seq<string>)
    ensures |r| == |repos|
    ensures forall i :: 0 <= i < |repos| ==> r[i] == RepoEntry(i, repos[i])
  {
    seq(|repos|, i requires 0 <= i < |repos| => RepoEntry(i, repos[i]))
  }

  function CodeEntries(items: seq<CodeMatch>): (r: seq<string>)
    ensures |r| == |items|
    ensures forall i :: 0 <= i < |items| ==> r[i] == CodeEntry(i, items[i])
  {
    seq(|items|, i requires 0 <= i < |items| => CodeEntry(i, items[i]))
  }

  /** "Found {count}" followed by the noun phrase of the listing. */
  function CountHeader(count: nat, noun: string): string {
    "Found " + NatToString(count) + noun
  }

  function RepoHeader(count: nat): string {
    CountHeader(count, " repositories:\n\n")
  }

  function CodeHeader(count: nat): string {
    CountHeader(count, " code matches:\n\n")
  }

  /** A count header, the item blocks in order, and a trailer. */
  function Listing(header: string, blocks: seq<string>, trailer: string): (r: string)
    ensures IsPrefix(header, r) && IsSuffix(trailer, r)
    ensures |r| == |header| + |Concat(blocks)| + |trailer|
  {
    var tail := Concat(blocks) + trailer;
    assert (header + tail)[|header| + |tail| - |trailer|..] == tail[|tail| - |trailer|..];
    header + tail
  }

  /** The repository-search listing; an absent or empty result list gives the fixed sentence. */
  function FormatResults(repos: Option<seq<Repo>>, orgs: seq<string>): (r: string)
    ensures repos.None? || repos.value == [] ==> r == NoRepositoriesText
    ensures repos.Some? && repos.value != [] ==>
              IsPrefix(RepoHeader(|repos.value|), r) && IsSuffix(OrgsTrailer(orgs), r)
    ensures repos.Some? && repos.value != [] ==>
              |r| == |RepoHeader(|repos.value|)| + |Concat(RepoEntries(repos.value))| + |OrgsTrailer(orgs)|
  {
    if repos.None? || |repos.value| == 0 then NoRepositoriesText
    else Listing(RepoHeader(|repos.value|), RepoEntries(repos.value), OrgsTrailer(orgs))
  }

  /** The code-search listing; an absent or empty result list gives the fixed sentence. */
  function FormatCodeResults(items: Option<seq<CodeMatch>>, orgs: seq<string>): (r: string)
    ensures items.None? || items.value == [] ==> r == NoCodeMatchesText
    ensures items.Some? && items.value != [] ==>
              IsPrefix(CodeHeader(|items.value|), r) && IsSuffix(OrgsTrailer(orgs), r)
    ensures items.Some? && items.value != [] ==>
              |r| == |CodeHeader(|items.value|)| + |Concat(CodeEntries(items.value))| + |OrgsTrailer(orgs)|
  {
    if items.None? || |items.value| == 0 then NoCodeMatchesText
    else Listing(CodeHeader(|items.value|), CodeEntries(items.value), OrgsTrailer(orgs))
  }

  /** In a listing, block `i` sits right after the header and the blocks before it. */
  lemma ListingLocate(header: string, blocks: seq<string>, trailer: string, i: nat)
    requires i < |blocks|
    ensures OccursAt(Listing(header, blocks, trailer), blocks[i], |header| + |Concat(blocks[..i])|)
  {
    ConcatLocate(blocks, i);
    var off := |Concat(blocks[..i])|;
    var tail := Concat(blocks) + trailer;
    var r := header + tail;
    assert r == Listing(header, blocks, trailer);
    assert tail[off..off + |blocks[i]|] == Concat(blocks)[off..off + |blocks[i]|];
    assert r[|header| + off..|header| + off + |blocks[i]|] == tail[off..off + |blocks[i]|];
  }

  /** The number after "Found " reads back as `count`, whatever follows the header. */
  lemma HeaderCountReadsBack(count: nat, noun: string, rest: string)
    requires noun != [] && noun[0] == ' '
    ensures var r := CountHeader(count, noun) + rest;
            IsPrefix("Found ", r) && ParseNat(TakeDigits(r[6..])) == count
  {
    var r := CountHeader(count, noun) + rest;
    assert r == "Found " + (NatToString(count) + (noun + rest));
    assert r[6..] == NatToString(count) + (noun + rest);
    TakeDigitsOfNumeral(NatToString(count), noun + rest);
    ParseNatToString(count);
  }

  /**
   * Every repository appears, in order, as its numbered block: block `i` starts right after
   * the header and blocks 0..i-1, and the blocks are followed by the organisations trailer.
   */
  lemma FormatResultsEntries(repos: seq<Repo>, orgs: seq<string>, i: nat)
    requires i < |repos|
    ensures OccursAt(FormatResults(Some(repos), orgs), RepoEntry(i, repos[i]),
                     |RepoHeader(|repos|)| + |Concat(RepoEntries(repos)[..i])|)
  {
    var entries := RepoEntries(repos);
    assert FormatResults(Some(repos), orgs) == Listing(RepoHeader(|repos|), entries, OrgsTrailer(orgs));
    assert entries[i] == RepoEntry(i, repos[i]);
    ListingLocate(RepoHeader(|repos|), entries, OrgsTrailer(orgs), i);
  }

  /** Every code match appears, in order, as its numbered block, as for repositories. */
  lemma FormatCodeResultsEntries(items: seq<CodeMatch>, orgs: seq<string>, i: nat)
    requires i < |items|
    ensures OccursAt(FormatCodeResults(Some(items), orgs), CodeEntry(i, items[i]),
                     |CodeHeader(|items|)| + |Concat(CodeEntries(items)[..i])|)
  {
    var entries := CodeEntries(items);
    assert FormatCodeResults(Some(items), orgs) == Listing(CodeHeader(|items|), entries, OrgsTrailer(orgs));
    assert entries[i] == CodeEntry(i, items[i]);
    ListingLocate(CodeHeader(|items|), entries, OrgsTrailer(orgs), i);
  }

  lemma SentinelsAreNotListings()
    ensures !IsPrefix("Found ", NoRepositoriesText) && !IsPrefix("Found ", NoCodeMatchesText)
  {
    assert NoRepositoriesText[0] == 'N';
    assert NoCodeMatchesText[0] == 'N';
  }

  lemma RepoListingCount(repos: seq<Repo>, orgs: seq<string>)
    requires repos != []
    ensures var r := FormatResults(Some(repos), orgs);
            IsPrefix("Found ", r) && ParseNat(TakeDigits(r[6..])) == |repos|
  {
    var h := RepoHeader(|repos|);
    var rest := Concat(RepoEntries(repos)) + OrgsTrailer(orgs);
    assert FormatResults(Some(repos), orgs) == h + rest;
    HeaderCountReadsBack(|repos|, " repositories:\n\n", rest);
  }

  lemma CodeListingCount(items: seq<CodeMatch>, orgs: seq<string>)
    requires items != []
    ensures var r := FormatCodeResults(Some(items), orgs);
            IsPrefix("Found ", r) && ParseNat(TakeDigits(r[6..])) == |items|
  {
    var h := CodeHeader(|items|);
    var rest := Concat(CodeEntries(items)) + OrgsTrailer(orgs);
    assert FormatCodeResults(Some(items), orgs) == h + rest;
    HeaderCountReadsBack(|items|, " code matches:\n\n", rest);
  }

  /** A listing starts with "Found " exactly when there was something to list, and then its count is the number of items. */
  lemma FormatResultsCount(repos: Option<seq<Repo>>, orgs: seq<string>)
    ensures var r := FormatResults(repos, orgs);
            IsPrefix("Found ", r) <==> repos.Some? && repos.value != []
    ensures var r := FormatResults(repos, orgs);
            repos.Some? && repos.value != [] ==> ParseNat(TakeDigits(r[6..])) == |repos.value|
  {
    if repos.Some? && repos.value != [] {
      RepoListingCount(repos.value, orgs);
    } else {
      SentinelsAreNotListings();
    }
  }

  /** As FormatResultsCount, for code matches. */
  lemma FormatCodeResultsCount(items: Option<seq<CodeMatch>>, orgs: seq<string>)
    ensures var r := FormatCodeResults(items, orgs);
            IsPrefix("Found ", r) <==> items.Some? && items.value != []
    ensures var r := FormatCodeResults(items, orgs);
            items.Some? && items.value != [] ==> ParseNat(TakeDigits(r[6..])) == |items.value|
  {
    if items.Some? && items.value != [] {
      CodeListingCount(items.value, orgs);
    } else {
      SentinelsAreNotListings();
    }
  }

  /** Neither listing nor sentinel can be mistaken for an error report: they start with 'F' or 'N'. */
  lemma FormattedTextsStartWithForN(repos: Option<seq<Repo>>, items: Option<seq<CodeMatch>>, orgs: seq<string>)
    ensures var r := FormatResults(repos, orgs); r != [] && (r[0] == 'F' || r[0] == 'N')
    ensures var r := FormatCodeResults(items, orgs); r != [] && (r[0] == 'F' || r[0] == 'N')
  {
    FormatResultsCount(repos, orgs);
    FormatCodeResultsCount(items, orgs);
    assert NoRepositoriesText[0] == 'N';
    assert NoCodeMatchesText[0] == 'N';
  }

  /** A field that holds no line break. */
  predicate SingleLine(s: string) {
    forall i :: 0 <= i < |s| ==> s[i] != '\n'
  }

  /** Joining two line-break-free strings gives one. */
  lemma ConcatSingleLine(a: string, b: string)
    requires SingleLine(a) && SingleLine(b)
    ensures SingleLine(a + b)
  {
    forall i | 0 <= i < |a + b| ensures (a + b)[i] != '\n' {
      if i < |a| {
        assert (a + b)[i] == a[i];
      } else {
        assert (a + b)[i] == b[i - |a|];
      }
    }
  }

  /** A decimal numeral holds no line break. */
  lemma NumeralSingleLine(n: nat)
    ensures SingleLine(NatToString(n))
  {
  }

  /** Three lines each ended by a line break, then a blank line, split back into five pieces. */
  lemma FiveLines(l1: string, l2: string, l3: string)
    requires SingleLine(l1) && SingleLine(l2) && SingleLine(l3)
    ensures Split(l1 + "\n" + l2 + "\n" + l3 + "\n\n", '\n') == [l1, l2, l3, "", ""]
  {
    var parts := [l1, l2, l3, "", ""];
    assert Join(parts, "\n") == l1 + "\n" + l2 + "\n" + l3 + "\n\n" by {
      assert Join(parts[3..], "\n") == "\n";
      assert Join(parts[2..], "\n") == l3 + "\n" + "\n";
    }
    SplitJoin(parts, '\n');
  }

  /**
   * A repository block is three lines and a blank line: the numbered name, the description
   * line and the URL line. Holds when the name, description and URL have no line breaks.
   */
  lemma RepoEntryLines(index: nat, repo: Repo)
    requires SingleLine(repo.name) && SingleLine(DescriptionText(repo.description)) && SingleLine(repo.htmlUrl)
    ensures Split(RepoEntry(index, repo), '\n')
         == [NatToString(index + 1) + ". " + repo.name,
             "   Description: " + DescriptionText(repo.description),
             "   URL: " + repo.htmlUrl, "", ""]
  {
    var l1 := NatToString(index + 1) + ". " + repo.name;
    var l2 := "   Description: " + DescriptionText(repo.description);
    var l3 := "   URL: " + repo.htmlUrl;
    NumeralSingleLine(index + 1);
    assert SingleLine(". ") && SingleLine("   Description: ") && SingleLine("   URL: ");
    ConcatSingleLine(NatToString(index + 1), ". ");
    ConcatSingleLine(NatToString(index + 1) + ". ", repo.name);
    ConcatSingleLine("   Description: ", DescriptionText(repo.description));
    ConcatSingleLine("   URL: ", repo.htmlUrl);
    FiveLines(l1, l2, l3);
    assert RepoEntry(index, repo) == l1 + "\n" + l2 + "\n" + l3 + "\n\n";
  }

  /**
   * A code-match block is three lines and a blank line: the numbered name with the owning
   * repository, the path line and the URL line. Holds when those fields have no line breaks.
   */
  lemma CodeEntryLines(index: nat, item: CodeMatch)
    requires SingleLine(item.name) && SingleLine(item.repository.fullName)
    requires SingleLine(item.path) && SingleLine(item.htmlUrl)
    ensures Split(CodeEntry(index, item), '\n')
         == [NatToString(index + 1) + ". " + item.name + " (" + item.repository.fullName + ")",
             "   Path: " + item.path,
             "   URL: " + item.htmlUrl, "", ""]
  {
    var l1 := NatToString(index + 1) + ". " + item.name + " (" + item.repository.fullName + ")";
    var l2 := "   Path: " + item.path;
    var l3 := "   URL: " + item.htmlUrl;
    NumeralSingleLine(index + 1);
    assert SingleLine(". ") && SingleLine(" (") && SingleLine(")") && SingleLine("   Path: ") && SingleLine("   URL: ");
    ConcatSingleLine(NatToString(index + 1), ". ");
    ConcatSingleLine(NatToString(index + 1) + ". ", item.name);
    ConcatSingleLine(NatToString(index + 1) + ". " + item.name, " (");
    ConcatSingleLine(NatToString(index + 1) + ". " + item.name + " (", item.repository.fullName);
    ConcatSingleLine(NatToString(index + 1) + ". " + item.name + " (" + item.repository.fullName, ")");
    ConcatSingleLine("   Path: ", item.path);
    ConcatSingleLine("   URL: ", item.htmlUrl);
    FiveLines(l1, l2, l3);
    assert CodeEntry(index, item) == l1 + "\n" + l2 + "\n" + l3 + "\n\n";
  }
}
