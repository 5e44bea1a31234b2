/**
  The request builder of `src/features/hooks/useIssuesRequest.ts`: the
  function inside its `useMemo`, from the hook's seven parameters to the
  request payload without an offset.
*/
module RequestBuilder {
  import opened Wrappers
  import opened Types

  /** `{ values, operator }` of the languages, licenses and issue-languages filters. */
  datatype ValuesFilter = ValuesFilter(values: seq<string>, operator: SetOperator)

  /** The `filter` object; each key is present (`Some`) or absent. */
  datatype IssuesFilter = IssuesFilter(
    languages: Option<ValuesFilter>,
    licenses: Option<ValuesFilter>,
    issueLanguages: Option<ValuesFilter>,
    stars: Option<Stars>)

  /** `Omit<IssuesRequest, 'offset'>`; `None` is an undefined key. */
  datatype BaseRequest = BaseRequest(limit: int, filter: Option<IssuesFilter>, orders: Option<seq<Order>>)

  /** A full `IssuesRequest`. */
  datatype IssuesRequest = IssuesRequest(limit: int, offset: int, filter: Option<IssuesFilter>, orders: Option<seq<Order>>)

  /** `{ ...base, limit, offset }` */
  function WithOffset(base: BaseRequest, limit: int, offset: int): (r: IssuesRequest)
    ensures r.limit == limit && r.offset == offset && r.filter == base.filter && r.orders == base.orders
  {
    IssuesRequest(limit, offset, base.filter, base.orders)
  }

  /** The hook's parameters. */
  datatype Criteria = Criteria(
    selectedLanguages: seq<string>,
    selectedLicenses: seq<string>,
    licensesOperator: SetOperator,
    selectedIssueLanguages: seq<string>,
    issueLanguagesOperator: SetOperator,
    starsFilter: Option<Stars>,
    sortOrders: seq<Order>)

  /** Whether any criterion puts a key into `filter`. */
  predicate AnyActive(c: Criteria) {
    |c.selectedLanguages| > 0 || |c.selectedLicenses| > 0 || |c.selectedIssueLanguages| > 0 || c.starsFilter.Some?
  }

  /** The request payload. */
  function BuildRequest(c: Criteria): (r: BaseRequest)
    ensures r.limit == PageSize
    ensures r.filter.None? <==> !AnyActive(c)
    ensures r.filter.Some? ==> (r.filter.value.languages.Some? <==> |c.selectedLanguages| > 0)
    ensures r.filter.Some? && r.filter.value.languages.Some?
      ==> r.filter.value.languages.value == ValuesFilter(c.selectedLanguages, In)
    ensures r.filter.Some? ==> (r.filter.value.licenses.Some? <==> |c.selectedLicenses| > 0)
    ensures r.filter.Some? && r.filter.value.licenses.Some?
      ==> r.filter.value.licenses.value == ValuesFilter(c.selectedLicenses, c.licensesOperator)
    ensures r.filter.Some? ==> (r.filter.value.issueLanguages.Some? <==> |c.selectedIssueLanguages| > 0)
    ensures r.filter.Some? && r.filter.value.issueLanguages.Some?
      ==> r.filter.value.issueLanguages.value == ValuesFilter(c.selectedIssueLanguages, c.issueLanguagesOperator)
    ensures r.filter.Some? ==> r.filter.value.stars == c.starsFilter
    ensures r.orders.None? <==> |c.sortOrders| == 0
    ensures r.orders.Some? ==> r.orders.value == c.sortOrders
  {
    var languages := if |c.selectedLanguages| > 0 then Some(ValuesFilter(c.selectedLanguages, In)) else None;
    var licenses := if |c.selectedLicenses| > 0 then Some(ValuesFilter(c.selectedLicenses, c.licensesOperator)) else None;
    var issueLanguages :=
      if |c.selectedIssueLanguages| > 0 then Some(ValuesFilter(c.selectedIssueLanguages, c.issueLanguagesOperator)) else None;
    var filter := IssuesFilter(languages, licenses, issueLanguages, c.starsFilter);
    var hasKeys := languages.Some? || licenses.Some? || issueLanguages.Some? || c.starsFilter.Some?;
    BaseRequest(PageSize, if hasKeys then Some(filter) else None, if |c.sortOrders| > 0 then Some(c.sortOrders) else None)
  }

  /** The criteria as the payload sees them: an operator whose list is empty is
      not sent, so it reads as `IN`. */
  function Effective(c: Criteria): Criteria {
    c.(licensesOperator := if |c.selectedLicenses| > 0 then c.licensesOperator else In,
       issueLanguagesOperator := if |c.selectedIssueLanguages| > 0 then c.issueLanguagesOperator else In)
  }

  function ValuesOf(f: Option<ValuesFilter>): seq<string> {
    if f.Some? then f.value.values else []
  }

  function OperatorOf(f: Option<ValuesFilter>): SetOperator {
    if f.Some? then f.value.operator else In
  }

  /** Reads the criteria back out of a payload: the partner of `BuildRequest`. */
  function CriteriaOf(r: BaseRequest): Criteria {
    if r.filter.None? then Criteria([], [], In, [], In, None, r.orders.GetOr([]))
    else
      var f := r.filter.value;
      Criteria(ValuesOf(f.languages), ValuesOf(f.licenses), OperatorOf(f.licenses),
               ValuesOf(f.issueLanguages), OperatorOf(f.issueLanguages), f.stars, r.orders.GetOr([]))
  }

  /** Nothing the payload carries is lost: reading it back gives the effective criteria. */
  lemma CriteriaRoundTrip(c: Criteria)
    ensures CriteriaOf(BuildRequest(c)) == Effective(c)
  {
    var r := BuildRequest(c);
    if r.filter.None? {
      assert |c.selectedLanguages| == 0 && |c.selectedLicenses| == 0 && |c.selectedIssueLanguages| == 0;
      assert c.selectedLanguages == [] && c.selectedLicenses == [] && c.selectedIssueLanguages == [];
    } else {
      if |c.selectedLanguages| == 0 { assert c.selectedLanguages == []; }
      if |c.selectedLicenses| == 0 { assert c.selectedLicenses == []; }
      if |c.selectedIssueLanguages| == 0 { assert c.selectedIssueLanguages == []; }
    }
    if |c.sortOrders| == 0 { assert c.sortOrders == []; }
  }

  /** Two parameter sets give the same payload exactly when they agree on
      everything the payload can carry. */
  lemma SamePayloadIff(c1: Criteria, c2: Criteria)
    ensures BuildRequest(c1) == BuildRequest(c2) <==> Effective(c1) == Effective(c2)
  {
    CriteriaRoundTrip(c1);
    CriteriaRoundTrip(c2);
    if Effective(c1) == Effective(c2) {
      assert c1.selectedLanguages == c2.selectedLanguages && c1.selectedLicenses == c2.selectedLicenses;
      assert c1.selectedIssueLanguages == c2.selectedIssueLanguages && c1.sortOrders == c2.sortOrders;
    }
  }
}
