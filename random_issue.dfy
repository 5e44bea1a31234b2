/**
  The random sampler of `src/features/hooks/useRandomIssue.ts`: up to
  `maxAttempts` requests of one issue at a random offset below `maxOffset`,
  then one request at offset 0; the first non-empty answer is opened. The
  values `Math.random` returns and the fetch results are inputs, consumed in order.
*/
module RandomIssue {
  import opened Wrappers
  import opened Types
  import opened RequestBuilder

  /** The `{ issues }` response `pickRandom` reads; `issues` may be missing. */
  datatype ListResponse = ListResponse(issues: Option<seq<Issue>>)

  /** How one `fetchIssues` call settles. */
  datatype FetchResult = Answered(response: ListResponse) | Failed

  /** Where `pickRandom` ends: an opened issue URL, the "no issues found" alert,
      or the failure alert. */
  datatype Outcome = Opened(url: string) | NoMatch | PickFailed

  /** `response.issues && response.issues.length > 0` */
  predicate Hit(l: ListResponse) {
    l.issues.Some? && |l.issues.value| > 0
  }

  /** `Math.floor(Math.random() * maxOffset)` for a value `r` of `Math.random()`. */
  function RandomOffset(r: real): (offset: nat)
    requires 0.0 <= r < 1.0
    ensures offset < MaxOffset
    ensures offset as real <= r * MaxOffset as real < offset as real + 1.0
  {
    (r * MaxOffset as real).Floor
  }

  function Offsets(randoms: seq<real>): (offsets: seq<nat>)
    requires forall k :: 0 <= k < |randoms| ==> 0.0 <= randoms[k] < 1.0
    ensures |offsets| == |randoms|
    ensures forall k :: 0 <= k < |offsets| ==> offsets[k] < MaxOffset
  {
    seq(|randoms|, k requires 0 <= k < |randoms| => RandomOffset(randoms[k]))
  }

  /** The requests the sampler would issue if none answered: one per offset,
      then the fallback at offset 0; each is the base request with `limit: 1`. */
  function Planned(base: BaseRequest, offsets: seq<nat>): (r: seq<IssuesRequest>)
    ensures |r| == |offsets| + 1
    ensures forall k :: 0 <= k < |offsets| ==> r[k] == IssuesRequest(1, offsets[k], base.filter, base.orders)
    ensures r[|offsets|] == IssuesRequest(1, 0, base.filter, base.orders)
  {
    seq(|offsets|, k requires 0 <= k < |offsets| => WithOffset(base, 1, offsets[k])) + [WithOffset(base, 1, 0)]
  }

  /** The reference search over the remaining attempts (`|offsets|` of them)
      and the fallback: the outcome, and how many requests it takes. */
  function Search(offsets: seq<nat>, results: seq<FetchResult>): (r: (Outcome, nat))
    requires |results| == |offsets| + 1
    ensures 1 <= r.1 <= |offsets| + 1
    decreases |offsets|
  {
    match results[0]
    case Failed => (PickFailed, 1)
    case Answered(l) =>
      if Hit(l) then (Opened(l.issues.value[0].issueUrl), 1)
      else if |offsets| == 0 then (NoMatch, 1)
      else
        var tail := Search(offsets[1..], results[1..]);
        (tail.0, tail.1 + 1)
  }

  /** Every request before the last one `Search` counts was answered empty;
      the last one decides: a failure, the first issue of a non-empty answer,
      or, only at the fallback, "no match". */
  lemma {:induction false} SearchMeaning(offsets: seq<nat>, results: seq<FetchResult>)
    requires |results| == |offsets| + 1
    ensures var r := Search(offsets, results);
      && (forall k :: 0 <= k < r.1 - 1 ==> results[k].Answered? && !Hit(results[k].response))
      && (results[r.1 - 1].Failed? ==> r.0 == PickFailed)
      && ((results[r.1 - 1].Answered? && Hit(results[r.1 - 1].response))
            ==> r.0 == Opened(results[r.1 - 1].response.issues.value[0].issueUrl))
      && (results[r.1 - 1].Answered? && !Hit(results[r.1 - 1].response) ==> r.1 == |offsets| + 1 && r.0 == NoMatch)
    decreases |offsets|
  {
    if results[0].Answered? && !Hit(results[0].response) && |offsets| > 0 {
      SearchMeaning(offsets[1..], results[1..]);
      var t := Search(offsets[1..], results[1..]);
      forall k | 0 <= k < t.1 ensures results[k].Answered? && !Hit(results[k].response) {
        if k > 0 {
          assert results[k] == results[1..][k - 1];
        }
      }
    }
  }

  /** The outcome of `Search` is "no match" exactly when every request was
      answered, none of them with an issue. */
  lemma NoMatchIff(offsets: seq<nat>, results: seq<FetchResult>)
    requires |results| == |offsets| + 1
    ensures Search(offsets, results).0 == NoMatch
        <==> forall k :: 0 <= k < |results| ==> results[k].Answered? && !Hit(results[k].response)
  {
    var r := Search(offsets, results);
    SearchMeaning(offsets, results);
    if forall k :: 0 <= k < |results| ==> results[k].Answered? && !Hit(results[k].response) {
      assert results[r.1 - 1].Answered? && !Hit(results[r.1 - 1].response);
    }
  }

  /** One step of `Search`: the first request decides unless it was answered
      empty, and then the search goes on with the rest. */
  lemma SearchStep(offsets: seq<nat>, results: seq<FetchResult>)
    requires |results| == |offsets| + 1
    ensures results[0].Failed? ==> Search(offsets, results) == (PickFailed, 1)
    ensures results[0].Answered? && Hit(results[0].response) ==>
      Search(offsets, results) == (Opened(results[0].response.issues.value[0].issueUrl), 1)
    ensures results[0].Answered? && !Hit(results[0].response) && |offsets| == 0 ==>
      Search(offsets, results) == (NoMatch, 1)
    ensures results[0].Answered? && !Hit(results[0].response) && |offsets| > 0 ==>
      Search(offsets, results) == (Search(offsets[1..], results[1..]).0, Search(offsets[1..], results[1..]).1 + 1)
  {
  }

  /** The hook instance's `pickingRandom` flag. */
  class Picker {
    var pickingRandom: bool

    constructor ()
      ensures !pickingRandom
    {
      pickingRandom := false;
    }

    /** `pickRandom(baseRequest)`: `randoms` are the `Math.random()` values of the
        attempts, `results[k]` is how the k-th request settles. Returns the
        outcome and the requests actually issued. */
    method PickRandom(base: BaseRequest, randoms: seq<real>, results: seq<FetchResult>)
      returns (outcome: Outcome, issued: seq<IssuesRequest>)
      requires |randoms| == MaxAttempts && forall k :: 0 <= k < |randoms| ==> 0.0 <= randoms[k] < 1.0
      requires |results| == MaxAttempts + 1
      modifies this
      ensures (outcome, |issued|) == Search(Offsets(randoms), results)
      ensures issued == Planned(base, Offsets(randoms))[..|issued|]
      ensures 1 <= |issued| <= MaxAttempts + 1
      ensures !pickingRandom
    {
      pickingRandom := true;
      ghost var offsets := Offsets(randoms);
      ghost var plan := Planned(base, offsets);
      issued := [];
      for attempt := 0 to MaxAttempts
        invariant issued == plan[..attempt]
        invariant Search(offsets, results).0 == Search(offsets[attempt..], results[attempt..]).0
        invariant Search(offsets, results).1 == Search(offsets[attempt..], results[attempt..]).1 + attempt
      {
        var randomOffset := RandomOffset(randoms[attempt]);
        var request := WithOffset(base, 1, randomOffset);
        issued := issued + [request];
        var response := results[attempt];
        assert offsets[attempt..][1..] == offsets[attempt + 1..];
        assert results[attempt..][1..] == results[attempt + 1..];
        SearchStep(offsets[attempt..], results[attempt..]);
        match response
        case Failed =>
          outcome := PickFailed;
          pickingRandom := false;
          return;
        case Answered(l) =>
          if Hit(l) {
            outcome := Opened(l.issues.value[0].issueUrl);
            pickingRandom := false;
            return;
          }
      }
      var request := WithOffset(base, 1, 0);
      issued := issued + [request];
      assert issued == plan;
      assert offsets[MaxAttempts..] == [] && results[MaxAttempts..] == [results[MaxAttempts]];
      SearchStep(offsets[MaxAttempts..], results[MaxAttempts..]);
      match results[MaxAttempts] {
        case Failed =>
          outcome := PickFailed;
        case Answered(l) =>
          if Hit(l) {
            outcome := Opened(l.issues.value[0].issueUrl);
          } else {
            outcome := NoMatch;
          }
      }
      pickingRandom := false;
    }
  }
}
