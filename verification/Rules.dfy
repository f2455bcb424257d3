/** Ordered rules: a check that reports the first rule that is broken. */
module Rules {
  import opened Options

  /** One rule that may be broken, and the reason given for it. */
  datatype Rule<R> = Rule(broken: bool, reason: R)

  predicate BrokenFirst<R>(rules: seq<Rule<R>>, k: nat)
    requires k < |rules|
  {
    rules[k].broken && forall j :: 0 <= j < k ==> !rules[j].broken
  }

  /** The first broken rule gives the reason, and there is none only if no rule is broken. */
  ghost predicate FirstBroken<R>(rules: seq<Rule<R>>, denial: Option<R>) {
    if denial.None? then forall k :: 0 <= k < |rules| ==> !rules[k].broken
    else exists k :: 0 <= k < |rules| && BrokenFirst(rules, k) && rules[k].reason == denial.value
  }

  /** The rules in a row report as the first, or as the second where the first are kept. */
  lemma FirstOfBoth<R>(a: seq<Rule<R>>, b: seq<Rule<R>>, first: Option<R>, second: Option<R>)
    requires FirstBroken(a, first) && FirstBroken(b, second)
    ensures FirstBroken(a + b, if first.Some? then first else second)
  {
    if first.Some? {
      var k :| 0 <= k < |a| && BrokenFirst(a, k) && a[k].reason == first.value;
      assert BrokenFirst(a + b, k);
    } else if second.Some? {
      var k :| 0 <= k < |b| && BrokenFirst(b, k) && b[k].reason == second.value;
      assert BrokenFirst(a + b, |a| + k);
    }
  }
}
