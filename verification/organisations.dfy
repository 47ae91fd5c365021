/** validateOrganisations and buildGitHubQuery: the organisation scope of a GitHub search. */
module Organisations {

  import opened Results
  import opened Strings
  import opened Config

  predicate IsAllowed(org: string) {
    org in SprykerOrgs
  }

  /** `a` is `b` with some elements removed, the rest kept in order. */
  predicate IsSubsequence(a: seq<string>, b: seq<string>)
    decreases |b|
  {
    a == [] || (b != [] && if a[0] == b[0] then IsSubsequence(a[1..], b[1..]) else IsSubsequence(a, b[1..]))
  }

  /** `orgs.filter(org => SPRYKER_ORGS.includes(org))`. */
  function AllowedOnly(orgs: seq<string>): (r: seq<string>)
    ensures forall i :: 0 <= i < |r| ==> IsAllowed(r[i])
    ensures forall o :: IsAllowed(o) ==> multiset(r)[o] == multiset(orgs)[o]
    ensures IsSubsequence(r, orgs)
    ensures r == [] <==> forall i :: 0 <= i < |orgs| ==> !IsAllowed(orgs[i])
  {
    if orgs == [] then []
    else
      var rest := AllowedOnly(orgs[1..]);
      assert orgs == [orgs[0]] + orgs[1..];
      if IsAllowed(orgs[0]) then [orgs[0]] + rest else rest
  }

  /** An all-valid list passes the filter unchanged. */
  lemma {:induction false} AllowedOnlyKeepsValid(orgs: seq<string>)
    requires forall i :: 0 <= i < |orgs| ==> IsAllowed(orgs[i])
    ensures AllowedOnly(orgs) == orgs
    decreases |orgs|
  {
    if orgs != [] {
      AllowedOnlyKeepsValid(orgs[1..]);
      assert [orgs[0]] + orgs[1..] == orgs;
    }
  }

  /**
   * The organisations a search is scoped to: the caller's allow-listed organisations in the
   * caller's order (duplicates kept), or the whole allow-list when the caller gave none or
   * none of them is allowed.
   */
  function ValidateOrganisations(orgs: Option<seq<string>>): (r: seq<string>)
    ensures r != []
    ensures forall i :: 0 <= i < |r| ==> IsAllowed(r[i])
    ensures orgs.None? || orgs.value == [] ==> r == SprykerOrgs
    ensures orgs.Some? && (forall i :: 0 <= i < |orgs.value| ==> !IsAllowed(orgs.value[i])) ==> r == SprykerOrgs
    ensures orgs.Some? && (exists i :: 0 <= i < |orgs.value| && IsAllowed(orgs.value[i])) ==>
              IsSubsequence(r, orgs.value) && forall o :: IsAllowed(o) ==> multiset(r)[o] == multiset(orgs.value)[o]
  {
    if orgs.None? || |orgs.value| == 0 then SprykerOrgs
    else
      var validated := AllowedOnly(orgs.value);
      if |validated| == 0 then SprykerOrgs else validated
  }

  /** A caller list made only of allowed organisations is used exactly as given. */
  lemma ValidateKeepsValidList(orgs: seq<string>)
    requires orgs != []
    requires forall i :: 0 <= i < |orgs| ==> IsAllowed(orgs[i])
    ensures ValidateOrganisations(Some(orgs)) == orgs
  {
    AllowedOnlyKeepsValid(orgs);
  }

  /** Validating a validated list changes nothing. */
  lemma ValidateIdempotent(orgs: Option<seq<string>>)
    ensures ValidateOrganisations(Some(ValidateOrganisations(orgs))) == ValidateOrganisations(orgs)
  {
    ValidateKeepsValidList(ValidateOrganisations(orgs));
  }

  function OrgClause(org: string): string {
    "org:" + org
  }

  function OrgClauses(orgs: seq<string>): (r: seq<string>)
    ensures |r| == |orgs|
    ensures forall i :: 0 <= i < |orgs| ==> r[i] == OrgClause(orgs[i])
  {
    seq(|orgs|, i requires 0 <= i < |orgs| => OrgClause(orgs[i]))
  }

  /** The GitHub search query: the text, then one space-separated `org:` clause per organisation. */
  function BuildGitHubQuery(query: string, orgs: Option<seq<string>>): (r: string)
    ensures orgs.None? || orgs.value == [] ==> r == query
    ensures orgs.Some? && orgs.value != [] ==>
              IsPrefix(query + " ", r) && IsPrefix(OrgClause(orgs.value[0]), r[|query| + 1..])
  {
    if orgs.Some? && |orgs.value| > 0 then
      var clauses := Join(OrgClauses(orgs.value), " ");
      assert (query + " " + clauses)[|query| + 1..] == clauses;
      query + " " + clauses
    else query
  }

  /** Reads the organisation back out of an `org:` clause. */
  function ClauseOrg(clause: string): Option<string> {
    if IsPrefix("org:", clause) then Some(clause[4..]) else None
  }

  /** Reads the organisations back out of a sequence of `org:` clauses; None if one is not a clause. */
  function ClausesOrgs(clauses: seq<string>): Option<seq<string>> {
    if clauses == [] then Some([])
    else match (ClauseOrg(clauses[0]), ClausesOrgs(clauses[1..]))
      case (Some(o), Some(os)) => Some([o] + os)
      case _ => None
  }

  lemma {:induction false} ClausesOrgsOfClauses(orgs: seq<string>)
    ensures ClausesOrgs(OrgClauses(orgs)) == Some(orgs)
    decreases |orgs|
  {
    if orgs != [] {
      ClausesOrgsOfClauses(orgs[1..]);
      assert OrgClauses(orgs)[1..] == OrgClauses(orgs[1..]);
      assert ClauseOrg(OrgClause(orgs[0])) == Some(orgs[0]);
      assert [orgs[0]] + orgs[1..] == orgs;
    }
  }

  /**
   * The scope of a composed query can be read back: after the text and one space, splitting
   * on spaces yields one `org:` clause per organisation, in order. Holds for organisation
   * names without spaces, which every allow-listed name is.
   */
  lemma BuildGitHubQueryRoundTrip(query: string, orgs: seq<string>)
    requires orgs != []
    requires forall i :: 0 <= i < |orgs| ==> ' ' !in orgs[i]
    ensures var q := BuildGitHubQuery(query, Some(orgs));
            |query| < |q| && q[..|query| + 1] == query + " " &&
            ClausesOrgs(Split(q[|query| + 1..], ' ')) == Some(orgs)
  {
    var clauses := OrgClauses(orgs);
    forall i | 0 <= i < |clauses| ensures ' ' !in clauses[i] {
      assert clauses[i] == "org:" + orgs[i];
    }
    SplitJoin(clauses, ' ');
    ClausesOrgsOfClauses(orgs);
    var q := BuildGitHubQuery(query, Some(orgs));
    assert q == (query + " ") + Join(clauses, " ");
    assert q[|query| + 1..] == Join(clauses, " ");
  }

  /** No allow-listed organisation name contains a space. */
  lemma AllowedHasNoSpace(org: string)
    requires IsAllowed(org)
    ensures ' ' !in org
  {
  }
}
