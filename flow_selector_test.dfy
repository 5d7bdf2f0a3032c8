/**
 * flow-test-selectors.js: one report entry per selector probed, and the
 * pass count over the probed selector groups. A group passes exactly when
 * findElement would find something with its selectors.
 */
module FlowSelectorTest {
  import opened Wrappers
  import opened Page
  import FlowShorts

  /** One entry of testSelector's `results`: a match with its visibility and text, no match, or the lookup's exception. */
  datatype Probe = Matched(selector: string, visible: bool, text: string) | Unmatched(selector: string) | Broken(selector: string, error: string)

  /** `{ selector, found, ... }.found` */
  predicate Found(e: Probe)
  {
    e.Matched?
  }

  /** `text.substring(0, 50)` */
  function Clip(s: string): (r: string)
    ensures |r| <= 50 && |r| <= |s| && r == s[..|r|]
    ensures |s| > 50 ==> |r| == 50
    ensures |s| <= 50 ==> r == s
  {
    if |s| <= 50 then s else s[..50]
  }

  /** The report entry for one selector. */
  function ProbeOf(p: Page, sel: string): (r: Probe)
    ensures r.selector == sel
    ensures Found(r) <==> Query(p, sel).Found?
    ensures r.Matched? ==> r.visible == Query(p, sel).el.visible && r.text == Clip(Query(p, sel).el.text)
    ensures r.Broken? <==> Query(p, sel).Throws?
    ensures r.Broken? ==> r.error == Query(p, sel).msg
  {
    match Query(p, sel)
    case Found(el) => Matched(sel, el.visible, Clip(el.text))
    case Absent => Unmatched(sel)
    case Throws(m) => Broken(sel, m)
  }

  /** The entries for a list of selectors: one each, in list order. */
  function Probes(p: Page, sels: seq<string>): (r: seq<Probe>)
    ensures |r| == |sels|
    ensures forall i :: 0 <= i < |sels| ==> r[i] == ProbeOf(p, sels[i])
  {
    seq(|sels|, i requires 0 <= i < |sels| => ProbeOf(p, sels[i]))
  }

  /** testSelector's return value. */
  datatype TestResult = TestResult(name: string, results: seq<Probe>)

  /** testSelector: probes every selector, in order, one entry each. */
  method TestSelector(p: Page, selectors: Selectors, name: string) returns (r: TestResult)
    ensures r == TestResult(name, Probes(p, AsList(selectors)))
  {
    var sels := AsList(selectors);
    var results: seq<Probe> := [];
    for i := 0 to |sels|
      invariant |results| == i
      invariant forall j :: 0 <= j < i ==> results[j] == ProbeOf(p, sels[j])
    {
      var e;
      match Query(p, sels[i]) {
        case Found(el) => e := Matched(sels[i], el.visible, Clip(el.text));
        case Absent => e := Unmatched(sels[i]);
        case Throws(m) => e := Broken(sels[i], m);
      }
      results := results + [e];
    }
    return TestResult(name, results);
  }

  /** `result.results.some(r => r.found && r.visible)` */
  predicate Passed(t: TestResult)
  {
    exists i :: 0 <= i < |t.results| && Found(t.results[i]) && t.results[i].visible
  }

  /** A group of selectors passes exactly when findElement would return an element for it. */
  lemma PassedIffFindable(p: Page, sels: seq<string>, name: string)
    ensures Passed(TestResult(name, Probes(p, sels))) <==> FirstVisible(p, sels).Some?
  {
    var r := TestResult(name, Probes(p, sels));
    FirstVisibleIsFirst(p, sels);
    if Passed(r) {
      var i :| 0 <= i < |r.results| && Found(r.results[i]) && r.results[i].visible;
      assert IsVisible(p, sels[i]);
    }
    if FirstVisible(p, sels).Some? {
      var k := FirstVisible(p, sels).value.pos;
      assert Found(r.results[k]) && r.results[k].visible;
    }
  }

  /** `allResults.filter(r => ...some(...)).length` */
  function PassedCount(rs: seq<TestResult>): nat
  {
    if rs == [] then 0 else PassedCount(rs[..|rs| - 1]) + (if Passed(rs[|rs| - 1]) then 1 else 0)
  }

  /** At most every test passes, and all of them pass exactly when the count reaches the number of tests. */
  lemma {:induction false} PassedCountBounds(rs: seq<TestResult>)
    ensures PassedCount(rs) <= |rs|
    ensures PassedCount(rs) == |rs| <==> forall i :: 0 <= i < |rs| ==> Passed(rs[i])
    decreases |rs|
  {
    if rs != [] {
      var init := rs[..|rs| - 1];
      PassedCountBounds(init);
      assert forall i :: 0 <= i < |init| ==> init[i] == rs[i];
    }
  }

  /** One line of the `tests` table: the selectors probed and the group's name. */
  datatype SelectorTest = SelectorTest(selectors: Selectors, name: string)

  /** What run reports: the sign-in page stops it, otherwise every test's result, the pass count and whether all passed. */
  datatype Outcome = SignedOut | Tested(all: seq<TestResult>, passedCount: nat, allPassed: bool)

  /** run from the page it reaches: `url` is its address after loading, `p` the page once a new project is open. */
  method Run(url: string, p: Page, tests: seq<SelectorTest>) returns (r: Outcome)
    ensures r.SignedOut? <==> FlowShorts.NotLoggedIn(url)
    ensures r.Tested? ==> |r.all| == |tests| && r.passedCount == PassedCount(r.all) && r.passedCount <= |tests|
    ensures r.Tested? ==> forall i :: 0 <= i < |tests| ==>
      r.all[i] == TestResult(tests[i].name, Probes(p, AsList(tests[i].selectors))) &&
      (Passed(r.all[i]) <==> FirstVisible(p, AsList(tests[i].selectors)).Some?)
    ensures r.Tested? ==> (r.allPassed <==> forall i :: 0 <= i < |tests| ==> FirstVisible(p, AsList(tests[i].selectors)).Some?)
  {
    if FlowShorts.NotLoggedIn(url) {
      return SignedOut;
    }
    var all: seq<TestResult> := [];
    for i := 0 to |tests|
      invariant |all| == i
      invariant forall j :: 0 <= j < i ==>
        all[j] == TestResult(tests[j].name, Probes(p, AsList(tests[j].selectors))) &&
        (Passed(all[j]) <==> FirstVisible(p, AsList(tests[j].selectors)).Some?)
    {
      var t := TestSelector(p, tests[i].selectors, tests[i].name);
      PassedIffFindable(p, AsList(tests[i].selectors), tests[i].name);
      all := all + [t];
    }
    var passedCount := PassedCount(all);
    PassedCountBounds(all);
    return Tested(all, passedCount, passedCount == |all|);
  }
}
