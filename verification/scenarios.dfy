/** The handlers' test cases, and a two-result repository search for "payment module" scoped to spryker, stated for every backend that behaves as described. */
module Scenarios {

  import opened Results
  import opened Strings
  import opened Config
  import opened Decimal
  import opened Normalizer
  import opened Organisations
  import opened Formatters
  import opened Tools

  lemma SprykerClause()
    ensures Join(OrgClauses(["spryker"]), " ") == "org:spryker"
  {
    var c := OrgClauses(["spryker"]);
    assert c[0] == "org:" + "spryker" == "org:spryker";
    assert c == ["org:spryker"];
  }

  /** A request scoped to spryker alone searches the normalized text plus one `org:spryker` clause. */
  lemma SprykerScopedQuery(query: string)
    ensures PackageSearchQuery(SearchRequest(query, Some(["spryker"]))) == NormalizeQuery(query) + " org:spryker"
  {
    assert IsAllowed("spryker");
    ValidateKeepsValidList(["spryker"]);
    SprykerScopedText(NormalizeQuery(query));
  }

  lemma SprykerScopedText(text: string)
    ensures BuildGitHubQuery(text, Some(["spryker"])) == text + " org:spryker"
  {
    assert " " + "org:spryker" == " org:spryker";
    SprykerClause();
    ConcatAssoc(text, " ", "org:spryker");
  }

  predicate IsWord(w: string) {
    w != [] && forall i :: 0 <= i < |w| ==> !IsSpace(w[i])
  }

  /** Two words separated by one plain space are already normalized. */
  lemma TwoWordsNormalized(a: string, b: string)
    requires IsWord(a) && IsWord(b)
    ensures NormalizeQuery(a + " " + b) == a + " " + b
  {
    var s := a + " " + b;
    assert forall i :: 0 <= i < |s| && i != |a| ==> !IsSpace(s[i]) by {
      forall i | 0 <= i < |s| && i != |a| ensures !IsSpace(s[i]) {
        if i < |a| {
          assert s[i] == a[i];
        } else {
          assert s[i] == b[i - |a| - 1];
        }
      }
    }
    NormalizeFixedPoint(s);
  }

  lemma NormalizePaymentModule()
    ensures NormalizeQuery("payment module") == "payment module"
  {
    assert IsWord("payment") && IsWord("module");
    assert "payment module" == "payment" + " " + "module";
    TwoWordsNormalized("payment", "module");
  }

  lemma PaymentModuleQuery()
    ensures PackageSearchQuery(SearchRequest("payment module", Some(["spryker"]))) == "payment module org:spryker"
  {
    calc {
      PackageSearchQuery(SearchRequest("payment module", Some(["spryker"])));
      == { PaymentModuleParts(); }
      "payment module" + " org:spryker";
      ==
      "payment module org:spryker";
    }
  }

  lemma PaymentModuleParts()
    ensures PackageSearchQuery(SearchRequest("payment module", Some(["spryker"]))) == "payment module" + " org:spryker"
  {
    NormalizePaymentModule();
    SprykerScopedQuery("payment module");
  }

  lemma TwoRepositoriesHeader()
    ensures IsPrefix("Found 2 repositories:", RepoHeader(2))
  {
    assert NatToString(2) == "2";
    assert RepoHeader(2) == "Found 2 repositories:" + "\n\n";
  }

  lemma SprykerTrailer()
    ensures OrgsTrailer(["spryker"]) == "Search performed across organizations: spryker"
  {
    assert Join(["spryker"], ", ") == "spryker";
  }

  lemma ValidateSpryker()
    ensures ValidateOrganisations(Some(["spryker"])) == ["spryker"]
  {
    assert IsAllowed("spryker");
    ValidateKeepsValidList(["spryker"]);
  }

  /** The listing of two repositories found in spryker. */
  lemma TwoRepositoriesListing(repo1: Repo, repo2: Repo)
    ensures IsPrefix("Found 2 repositories:", FormatResults(Some([repo1, repo2]), ["spryker"]))
    ensures IsSuffix("Search performed across organizations: spryker", FormatResults(Some([repo1, repo2]), ["spryker"]))
  {
    TwoRepositoriesHeader();
    var r := FormatResults(Some([repo1, repo2]), ["spryker"]);
    assert r[..|"Found 2 repositories:"|] == RepoHeader(2)[..|"Found 2 repositories:"|];
    SprykerTrailer();
  }

  /** A two-result repository search for "payment module" in spryker lists two repositories and names spryker as the scope. */
  lemma PackageSearchEndToEnd(searchRepositories: string -> Result<SearchPage<Repo>>, repo1: Repo, repo2: Repo)
    requires searchRepositories("payment module org:spryker") == Ok(SearchPage(Some([repo1, repo2])))
    ensures var e := SearchPackages(SearchRequest("payment module", Some(["spryker"])), searchRepositories);
            IsPrefix("Found 2 repositories:", TextOf(e))
            && IsSuffix("Search performed across organizations: spryker", TextOf(e))
  {
    PaymentModuleQuery();
    ValidateSpryker();
    TwoRepositoriesListing(repo1, repo2);
  }

  lemma NormalizeTestQuery()
    ensures NormalizeQuery("test-query") == "test-query"
  {
    NormalizeFixedPoint("test-query");
  }

  /** The repository-search query of the handlers' test request. */
  lemma TestQuery()
    ensures PackageSearchQuery(SearchRequest("test-query", Some(["spryker"]))) == "test-query org:spryker"
  {
    calc {
      PackageSearchQuery(SearchRequest("test-query", Some(["spryker"])));
      == { TestQueryParts(); }
      "test-query" + " org:spryker";
      ==
      "test-query org:spryker";
    }
  }

  lemma TestQueryParts()
    ensures PackageSearchQuery(SearchRequest("test-query", Some(["spryker"]))) == "test-query" + " org:spryker"
  {
    NormalizeTestQuery();
    SprykerScopedQuery("test-query");
  }

  /** The code-search query of the handlers' test request. */
  lemma CodeSearchQueryExample()
    ensures CodeSearchQuery(SearchRequest("test-query", Some(["spryker"]))) == "test-query org:spryker in:file language:php"
  {
    calc {
      CodeSearchQuery(SearchRequest("test-query", Some(["spryker"])));
      == { TestQuery(); }
      "test-query org:spryker" + CodeSearchSuffix;
      ==
      "test-query org:spryker in:file language:php";
    }
  }

  /** A rejected repository search reports its message. */
  lemma PackageSearchFailure(searchRepositories: string -> Result<SearchPage<Repo>>)
    requires searchRepositories("test-query org:spryker") == Err("API error")
    ensures TextOf(SearchPackages(SearchRequest("test-query", Some(["spryker"])), searchRepositories))
         == "Error performing search: API error"
  {
    assert ErrorText("search", "API error") == "Error performing search: API error";
    TestQuery();
  }

}
