/** Generated files, saved projects, and the operations on the project list. */
module Projects {
  import opened Wrappers
  import opened Text
  import opened Status

  datatype AddonFile = AddonFile(filename: string, content: string, fileType: string, description: Option<string>)

  /** A saved project; `createdAt` is an ISO timestamp supplied by the caller. */
  datatype Project = Project(
    id: string,
    name: string,
    addonType: string,
    files: seq<AddonFile>,
    createdAt: string,
    iterationCount: int,
    status: Status,
    fileTree: string,
    specSummary: string)

  /** `xs.filter(keep)`. */
  function Filter(keep: Project -> bool, xs: seq<Project>): (r: seq<Project>)
    ensures |r| <= |xs|
    ensures forall x :: x in r <==> x in xs && keep(x)
  {
    if |xs| == 0 then []
    else if keep(xs[0]) then [xs[0]] + Filter(keep, xs[1..])
    else Filter(keep, xs[1..])
  }

  /** Filtering a concatenation filters each part and keeps their order. */
  lemma {:induction false} FilterAppend(keep: Project -> bool, a: seq<Project>, b: seq<Project>)
    ensures Filter(keep, a + b) == Filter(keep, a) + Filter(keep, b)
  {
    if |a| == 0 {
      assert a + b == b;
    } else {
      assert (a + b)[1..] == a[1..] + b;
      FilterAppend(keep, a[1..], b);
    }
  }

  /** A filter that keeps every element is the identity. */
  lemma {:induction false} FilterAll(keep: Project -> bool, xs: seq<Project>)
    requires forall k :: 0 <= k < |xs| ==> keep(xs[k])
    ensures Filter(keep, xs) == xs
  {
    if |xs| > 0 {
      assert keep(xs[0]);
      FilterAll(keep, xs[1..]);
    }
  }

  /** Filtering twice with the same test is filtering once. */
  lemma {:induction false} FilterIdempotent(keep: Project -> bool, xs: seq<Project>)
    ensures Filter(keep, Filter(keep, xs)) == Filter(keep, xs)
  {
    var r := Filter(keep, xs);
    forall k | 0 <= k < |r| ensures keep(r[k]) {
      assert r[k] in r;
    }
    FilterAll(keep, r);
  }

  /** Two tests that agree on every element filter alike. */
  lemma {:induction false} FilterAgree(keep: Project -> bool, keep2: Project -> bool, xs: seq<Project>)
    requires forall k :: 0 <= k < |xs| ==> keep(xs[k]) == keep2(xs[k])
    ensures Filter(keep, xs) == Filter(keep2, xs)
  {
    if |xs| > 0 {
      assert keep(xs[0]) == keep2(xs[0]);
      FilterAgree(keep, keep2, xs[1..]);
    }
  }

  // ---- Delete ----

  /** `handleDeleteProject`: `prev.filter(p => p.id !== id)`. */
  function RemoveById(ps: seq<Project>, id: string): (r: seq<Project>)
    ensures forall p :: p in r <==> p in ps && p.id != id
  {
    Filter((p: Project) => p.id != id, ps)
  }

  /** Removing an id that no project has changes nothing. */
  lemma RemoveAbsent(ps: seq<Project>, id: string)
    requires forall k :: 0 <= k < |ps| ==> ps[k].id != id
    ensures RemoveById(ps, id) == ps
  {
    FilterAll((p: Project) => p.id != id, ps);
  }

  /** Deleting keeps the order of what is left, part by part. */
  lemma RemoveAppend(a: seq<Project>, b: seq<Project>, id: string)
    ensures RemoveById(a + b, id) == RemoveById(a, id) + RemoveById(b, id)
  {
    FilterAppend((p: Project) => p.id != id, a, b);
  }

  /** Deleting the same id twice is deleting it once. */
  lemma RemoveTwice(ps: seq<Project>, id: string)
    ensures RemoveById(RemoveById(ps, id), id) == RemoveById(ps, id)
  {
    FilterIdempotent((p: Project) => p.id != id, ps);
  }

  // ---- Refine's update ----

  /** A refined project: new files only when some came back, and one more iteration. */
  function Refined(p: Project, updated: seq<AddonFile>): Project
  {
    p.(files := if |updated| > 0 then updated else p.files, iterationCount := p.iterationCount + 1)
  }

  /** The update after a successful refine: every project named `name` is refined; no other field moves. */
  function UpdateByName(ps: seq<Project>, name: string, updated: seq<AddonFile>): (r: seq<Project>)
    ensures |r| == |ps|
    ensures forall k :: 0 <= k < |ps| ==>
              r[k].id == ps[k].id && r[k].name == ps[k].name && r[k].addonType == ps[k].addonType
              && r[k].createdAt == ps[k].createdAt && r[k].status == ps[k].status
              && r[k].fileTree == ps[k].fileTree && r[k].specSummary == ps[k].specSummary
    ensures forall k :: 0 <= k < |ps| ==>
              r[k].iterationCount == ps[k].iterationCount + (if ps[k].name == name then 1 else 0)
    ensures forall k :: 0 <= k < |ps| ==>
              r[k].files == (if ps[k].name == name && |updated| > 0 then updated else ps[k].files)
  {
    seq(|ps|, k requires 0 <= k < |ps| => if ps[k].name == name then Refined(ps[k], updated) else ps[k])
  }

  // ---- History search ----

  /** The search test: the name contains the query, both lowered (ASCII letters only). */
  predicate NameMatches(p: Project, query: string)
  {
    Contains(LowerAscii(p.name), LowerAscii(query))
  }

  /** The history screen's filter. */
  function Search(ps: seq<Project>, query: string): (r: seq<Project>)
    ensures forall p :: p in r <==> p in ps && NameMatches(p, query)
  {
    Filter((p: Project) => NameMatches(p, query), ps)
  }

  /** An empty query shows every project, in order. */
  lemma SearchEmpty(ps: seq<Project>)
    ensures Search(ps, "") == ps
  {
    forall k | 0 <= k < |ps| ensures NameMatches(ps[k], "") {
      ContainsEmpty(LowerAscii(ps[k].name));
    }
    FilterAll((p: Project) => NameMatches(p, ""), ps);
  }

  lemma LowerTwice(s: string)
    ensures LowerAscii(LowerAscii(s)) == LowerAscii(s)
  {
  }

  /** The query's case does not matter. */
  lemma SearchIgnoresCase(ps: seq<Project>, query: string)
    ensures Search(ps, LowerAscii(query)) == Search(ps, query)
  {
    LowerTwice(query);
    FilterAgree((p: Project) => NameMatches(p, LowerAscii(query)), (p: Project) => NameMatches(p, query), ps);
  }

  /** Searching keeps the order of the list, part by part. */
  lemma SearchAppend(a: seq<Project>, b: seq<Project>, query: string)
    ensures Search(a + b, query) == Search(a, query) + Search(b, query)
  {
    FilterAppend((p: Project) => NameMatches(p, query), a, b);
  }

  // ---- The count invariant ----

  /** Every saved project has been generated at least once. */
  predicate CountsPositive(ps: seq<Project>)
  {
    forall k :: 0 <= k < |ps| ==> ps[k].iterationCount >= 1
  }

  lemma UpdateKeepsCounts(ps: seq<Project>, name: string, updated: seq<AddonFile>)
    requires CountsPositive(ps)
    ensures CountsPositive(UpdateByName(ps, name, updated))
  {
  }

  lemma RemoveKeepsCounts(ps: seq<Project>, id: string)
    requires CountsPositive(ps)
    ensures CountsPositive(RemoveById(ps, id))
  {
    var r := RemoveById(ps, id);
    forall k | 0 <= k < |r| ensures r[k].iterationCount >= 1 {
      assert r[k] in ps;
    }
  }
}
