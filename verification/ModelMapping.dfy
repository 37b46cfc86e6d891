/**
  A parsed model-mapping configuration: the candidates of a source at request time, in legacy
  and in rule mode, and the validator whose acceptance has to carry over to request time.
 */
module ModelMapping {
  import opened ModelMappingGraph
  import opened ModelMappingResolver
  import opened Text

  datatype Rule = Rule(id: string, from: Name, to: Name, priority: int, enabled: bool)
  datatype Candidate = Candidate(model: Name, ruleID: string, priority: int)

  const VERSION_RULES := 2

  datatype Config = Config(version: int, legacy: Graph, rules: seq<Rule>) {
    predicate IsRules() {
      version == VERSION_RULES
    }
  }

  datatype Candidates = Found(candidates: seq<Candidate>) | NotFound(error: Error)

  function Trim(s: string): Name {
    Name(TrimSpace(s))
  }

  // ---------------------------------------------------------------- legacy mode

  /** The source takes part in the mapping. */
  predicate Mapped(g: Graph, n: Name) {
    n.text != "" && n in g
  }

  /** Resolution of the source succeeds with this much work. */
  ghost predicate Resolvable(g: Graph, n: Name, budget: int) {
    Mapped(g, n) ==> Expands(g, {}, n, MAX_DEPTH, [], budget)
  }

  ghost function Targets(g: Graph, n: Name): seq<Name> {
    if Mapped(g, n) then Dedup([], Leaves(g, n, MAX_DEPTH)) else []
  }

  ghost function Cost(g: Graph, n: Name): nat {
    if Mapped(g, n) then Size(g, n, MAX_DEPTH) else 0
  }

  /** Resolves one source and reports the work that is left. */
  method ResolveLegacy(g: Graph, source: string, budget: nat) returns (r: Result, remaining: nat)
    ensures r.Resolved? <==> Resolvable(g, Trim(source), budget)
    ensures r.Resolved? ==> r.models == Targets(g, Trim(source)) && remaining == budget - Cost(g, Trim(source))
    ensures r.Rejected? ==> Explains(r.error, g, {}, Trim(source), MAX_DEPTH, [], budget)
    ensures remaining <= budget
  {
    var n := Trim(source);
    if n.text == "" || n !in g {
      return Resolved([]), budget;
    }
    var resolver := new Resolver(g, budget);
    var outcome := resolver.Expand(n, 0);
    remaining := resolver.remaining;
    r := if outcome.Pass? then Resolved(resolver.resolved) else Rejected(outcome.error);
  }

  /**
    What a successful resolution means in the graph: no walk from the source is longer than the
    depth limit, and the candidates are, without repetition, the final names walks end at.
   */
  lemma ResolutionMeaning(g: Graph, n: Name, budget: int)
    requires Mapped(g, n) && Resolvable(g, n, budget)
    ensures forall w :: !LongWalk(g, n, MAX_DEPTH, w)
    ensures Distinct(Targets(g, n)) && |Targets(g, n)| <= MAX_CANDIDATES
    ensures forall x :: x in Targets(g, n) <==> exists w :: Reaches(g, n, w, x)
  {
    FineIffNoLongWalk(g, n, MAX_DEPTH);
    DedupDistinct([], Leaves(g, n, MAX_DEPTH));
    hide Dedup, Leaves, Fine, Reaches;
    forall x ensures x in Targets(g, n) <==> exists w :: Reaches(g, n, w, x) {
      LeavesAreReached(g, n, MAX_DEPTH, x);
    }
  }

  /** A blank or unmapped source has no candidates and costs no work. */
  lemma UnmappedHasNone(g: Graph, n: Name)
    requires n.text == "" || n !in g
    ensures Resolvable(g, n, 0) && Targets(g, n) == [] && Cost(g, n) == 0
  {
  }

  /** A non-self cycle a source can reach makes its resolution fail, whatever the budget. */
  lemma CycleRejects(g: Graph, w: seq<Name>, budget: int)
    requires Walk(g, w) && !Distinct(w) && w[0].text != ""
    ensures !Resolvable(g, w[0], budget)
  {
    CycleNotFine(g, w, MAX_DEPTH);
    var i, j :| 0 <= i < j < |w| && w[i] == w[j];
    assert Hop(g, w[0], w[1]);
  }

  /** Success with less work is success with more; the candidates do not depend on the work at all. */
  lemma MoreWorkStillResolves(g: Graph, n: Name, budget: int, more: int)
    requires Resolvable(g, n, budget) && budget <= more
    ensures Resolvable(g, n, more)
  {
  }

  // ---------------------------------------------------------------- rule mode

  predicate Matches(rules: seq<Rule>, source: Name, k: nat) {
    k < |rules| && rules[k].enabled && rules[k].from == source
  }

  /** Stable order of matching rules: higher priority first, then the earlier rule. */
  predicate Before(rules: seq<Rule>, a: nat, b: nat)
    requires a < |rules| && b < |rules|
  {
    rules[a].priority > rules[b].priority || (rules[a].priority == rules[b].priority && a < b)
  }

  predicate InRange(rules: seq<Rule>, s: seq<nat>) {
    forall i | 0 <= i < |s| :: s[i] < |rules|
  }

  ghost predicate Ordered(rules: seq<Rule>, s: seq<nat>)
    requires InRange(rules, s)
  {
    forall i, j | 0 <= i < j < |s| :: Before(rules, s[i], s[j])
  }

  /** The best rule for its target: no matching rule for the same target comes before it. */
  ghost predicate Best(rules: seq<Rule>, source: Name, k: nat) {
    && Matches(rules, source, k)
    && forall j: nat | Matches(rules, source, j) && rules[j].to == rules[k].to && j != k :: Before(rules, k, j)
  }

  ghost function RuleTargets(rules: seq<Rule>, source: Name): set<Name> {
    set k | 0 <= k < |rules| && Matches(rules, source, k) :: rules[k].to
  }

  /** Position-wise insertion that keeps the order; later positions go after equal priorities. */
  function Insert(rules: seq<Rule>, s: seq<nat>, k: nat): (r: seq<nat>)
    requires InRange(rules, s) && k < |rules|
    ensures InRange(rules, r) && |r| == |s| + 1
    ensures forall x :: x in r <==> x in s || x == k
  {
    if s == [] then [k]
    else
      var last := s[|s| - 1];
      assert forall x :: x in s <==> x in s[..|s| - 1] || x == last;
      if Before(rules, k, last) then Insert(rules, s[..|s| - 1], k) + [last] else s + [k]
  }

  lemma {:induction false} InsertOrdered(rules: seq<Rule>, s: seq<nat>, k: nat)
    requires InRange(rules, s) && Ordered(rules, s) && k < |rules| && k !in s
    ensures Ordered(rules, Insert(rules, s, k))
    decreases |s|
  {
    if s != [] {
      var last := s[|s| - 1];
      if Before(rules, k, last) {
        var front := s[..|s| - 1];
        InsertOrdered(rules, front, k);
        var t := Insert(rules, front, k);
        forall i | 0 <= i < |t| ensures Before(rules, t[i], last) {
          assert t[i] in t;
        }
      } else {
        forall i | 0 <= i < |s| ensures Before(rules, s[i], k) {
        }
      }
    }
  }

  /** The matching rules in stable priority order. */
  method Sorted(rules: seq<Rule>, source: Name) returns (s: seq<nat>)
    ensures InRange(rules, s) && Ordered(rules, s)
    ensures forall k: nat :: k in s <==> Matches(rules, source, k)
  {
    s := [];
    for n := 0 to |rules|
      invariant InRange(rules, s) && Ordered(rules, s)
      invariant forall k: nat :: k in s <==> k < n && Matches(rules, source, k)
    {
      if rules[n].enabled && rules[n].from == source {
        InsertOrdered(rules, s, n);
        s := Insert(rules, s, n);
      }
    }
  }

  ghost predicate OneEach(rules: seq<Rule>, s: seq<nat>)
    requires InRange(rules, s)
  {
    forall i, j | 0 <= i < j < |s| :: rules[s[i]].to != rules[s[j]].to
  }

  ghost function TargetsOf(rules: seq<Rule>, s: seq<nat>): set<Name>
    requires InRange(rules, s)
  {
    set i | 0 <= i < |s| :: rules[s[i]].to
  }

  lemma {:induction false} DistinctTargets(rules: seq<Rule>, s: seq<nat>)
    requires InRange(rules, s) && OneEach(rules, s)
    ensures |TargetsOf(rules, s)| == |s|
    decreases |s|
  {
    if s != [] {
      var front, last := s[..|s| - 1], s[|s| - 1];
      assert OneEach(rules, front) && rules[last].to !in TargetsOf(rules, front);
      hide OneEach, TargetsOf;
      DistinctTargets(rules, front);
      assert s == front + [last];
      TargetsOfAppend(rules, front, last);
    }
  }

  /** `s` lists exactly the best rule of every target, in stable priority order. */
  ghost predicate Selected(rules: seq<Rule>, source: Name, s: seq<nat>) {
    && InRange(rules, s) && Ordered(rules, s)
    && forall k: nat :: k in s <==> Best(rules, source, k)
  }

  /** The positions whose target has not occurred before, in order. */
  ghost function Firsts(rules: seq<Rule>, a: seq<nat>): (f: seq<nat>)
    requires InRange(rules, a)
    ensures InRange(rules, f)
    ensures forall k | k in f :: k in a
  {
    if a == [] then []
    else
      var f, last := Firsts(rules, a[..|a| - 1]), a[|a| - 1];
      if rules[last].to in TargetsOf(rules, f) then f else f + [last]
  }

  lemma TargetsOfAppend(rules: seq<Rule>, s: seq<nat>, k: nat)
    requires InRange(rules, s) && k < |rules|
    ensures TargetsOf(rules, s + [k]) == TargetsOf(rules, s) + {rules[k].to}
  {
    var t := s + [k];
    assert t[|s|] == k;
    forall x | x in TargetsOf(rules, s) ensures x in TargetsOf(rules, t) {
      var i :| 0 <= i < |s| && rules[s[i]].to == x;
      assert t[i] == s[i];
    }
  }

  lemma {:induction false} FirstsCover(rules: seq<Rule>, a: seq<nat>)
    requires InRange(rules, a)
    ensures TargetsOf(rules, Firsts(rules, a)) == TargetsOf(rules, a)
    ensures OneEach(rules, Firsts(rules, a))
    decreases |a|
  {
    if a != [] {
      var front, last := a[..|a| - 1], a[|a| - 1];
      FirstsCover(rules, front);
      assert a == front + [last];
      TargetsOfAppend(rules, front, last);
      var f := Firsts(rules, front);
      TargetsOfAppend(rules, f, last);
      if rules[last].to !in TargetsOf(rules, f) {
        OneEachMore(rules, f, last);
      }
      hide TargetsOf, OneEach;
    }
  }

  lemma OneEachMore(rules: seq<Rule>, s: seq<nat>, k: nat)
    requires InRange(rules, s) && k < |rules| && OneEach(rules, s) && rules[k].to !in TargetsOf(rules, s)
    ensures OneEach(rules, s + [k])
  {
    forall i | 0 <= i < |s| ensures rules[s[i]].to in TargetsOf(rules, s) {
    }
  }

  lemma {:induction false} FirstsOrdered(rules: seq<Rule>, a: seq<nat>)
    requires InRange(rules, a) && Ordered(rules, a)
    ensures Ordered(rules, Firsts(rules, a))
    decreases |a|
  {
    if a != [] {
      var front, last := a[..|a| - 1], a[|a| - 1];
      FirstsOrdered(rules, front);
      var f := Firsts(rules, front);
      forall i | 0 <= i < |f| ensures Before(rules, f[i], last) {
        assert f[i] in front;
      }
    }
  }

  /** No other listed position with the same target comes before `k`. */
  ghost predicate Leads(rules: seq<Rule>, a: seq<nat>, k: nat)
    requires InRange(rules, a)
  {
    k in a && forall i | 0 <= i < |a| && rules[a[i]].to == rules[k].to && a[i] != k :: Before(rules, k, a[i])
  }

  lemma {:induction false} FirstsLead(rules: seq<Rule>, a: seq<nat>, k: nat)
    requires InRange(rules, a) && Ordered(rules, a)
    ensures k in Firsts(rules, a) <==> Leads(rules, a, k)
    decreases |a|
  {
    if a != [] {
      var front, last := a[..|a| - 1], a[|a| - 1];
      FirstsLead(rules, front, k);
      FirstsCover(rules, front);
      LeadsLast(rules, front, last, k);
      assert a == front + [last];
    }
  }

  lemma LeadsLast(rules: seq<Rule>, front: seq<nat>, last: nat, k: nat)
    requires last < |rules| && InRange(rules, front) && InRange(rules, front + [last]) && Ordered(rules, front + [last])
    ensures last !in front
    ensures k != last ==> (Leads(rules, front + [last], k) <==> Leads(rules, front, k))
    ensures Leads(rules, front + [last], last) <==> rules[last].to !in TargetsOf(rules, front)
  {
    var a := front + [last];
    assert forall i | 0 <= i < |front| :: a[i] == front[i];
    assert a[|front|] == last;
    forall i | 0 <= i < |front| ensures Before(rules, front[i], last) {
      assert Before(rules, a[i], a[|front|]);
    }
    hide Ordered;
    if k != last && Leads(rules, front, k) {
      assert Before(rules, k, last);
    }
    if Leads(rules, a, last) {
      forall i | 0 <= i < |front| ensures rules[front[i]].to != rules[last].to {
        assert Before(rules, front[i], last);
      }
    }
  }

  lemma RuleTargetsListed(rules: seq<Rule>, source: Name, all: seq<nat>)
    requires InRange(rules, all)
    requires forall k: nat :: k in all <==> Matches(rules, source, k)
    ensures TargetsOf(rules, all) == RuleTargets(rules, source)
  {
    forall x ensures x in TargetsOf(rules, all) <==> x in RuleTargets(rules, source) {
      if x in TargetsOf(rules, all) {
        var i :| 0 <= i < |all| && rules[all[i]].to == x;
        assert all[i] in all;
      }
      if x in RuleTargets(rules, source) {
        var k :| 0 <= k < |rules| && Matches(rules, source, k) && rules[k].to == x;
        assert k in all;
      }
    }
  }

  lemma FirstsSelected(rules: seq<Rule>, source: Name, all: seq<nat>)
    requires InRange(rules, all) && Ordered(rules, all)
    requires forall k: nat :: k in all <==> Matches(rules, source, k)
    ensures Selected(rules, source, Firsts(rules, all))
    ensures |Firsts(rules, all)| == |RuleTargets(rules, source)|
  {
    RuleTargetsListed(rules, source, all);
    FirstsCover(rules, all);
    DistinctTargets(rules, Firsts(rules, all));
    FirstsOrdered(rules, all);
    hide Firsts, TargetsOf, RuleTargets, Before, Ordered, OneEach;
    forall k: nat ensures k in Firsts(rules, all) <==> Best(rules, source, k) {
      FirstsLead(rules, all, k);
      LeadsIsBest(rules, source, all, k);
    }
  }

  lemma LeadsIsBest(rules: seq<Rule>, source: Name, all: seq<nat>, k: nat)
    requires InRange(rules, all)
    requires forall k: nat :: k in all <==> Matches(rules, source, k)
    ensures Leads(rules, all, k) <==> Best(rules, source, k)
  {
    hide Before;
    if Leads(rules, all, k) {
      forall j: nat | Matches(rules, source, j) && rules[j].to == rules[k].to && j != k ensures Before(rules, k, j) {
        assert j in all;
        var i :| 0 <= i < |all| && all[i] == j;
      }
    }
    if Best(rules, source, k) {
      forall i | 0 <= i < |all| && rules[all[i]].to == rules[k].to && all[i] != k ensures Before(rules, k, all[i]) {
        assert all[i] in all;
      }
    }
  }

  lemma {:induction false} FirstsPrefix(rules: seq<Rule>, a: seq<nat>, n: nat)
    requires InRange(rules, a) && n <= |a|
    ensures |Firsts(rules, a[..n])| <= |Firsts(rules, a)|
    decreases |a| - n
  {
    if n < |a| {
      assert a[..n + 1][..n] == a[..n];
      FirstsPrefix(rules, a, n + 1);
    } else {
      assert a[..n] == a;
    }
  }

  /**
    Rule mode: keeps the first rule of every target in stable priority order.  It fails exactly
    when the source has more distinct targets than allowed.
   */
  method SelectRules(rules: seq<Rule>, source: Name) returns (ok: bool, s: seq<nat>)
    ensures ok <==> |RuleTargets(rules, source)| <= MAX_CANDIDATES
    ensures ok ==> Selected(rules, source, s)
  {
    var all := Sorted(rules, source);
    FirstsSelected(rules, source, all);
    hide Selected, RuleTargets, Matches, Before;
    s := [];
    var seen: set<Name> := {};
    for i := 0 to |all|
      invariant InRange(rules, s) && s == Firsts(rules, all[..i]) && |s| <= MAX_CANDIDATES
      invariant seen == TargetsOf(rules, s)
    {
      assert all[..i + 1][..i] == all[..i];
      if rules[all[i]].to in seen {
        continue;
      }
      TargetsOfAppend(rules, s, all[i]);
      seen := seen + {rules[all[i]].to};
      s := s + [all[i]];
      FirstsPrefix(rules, all, i + 1);
      if |s| > MAX_CANDIDATES {
        return false, s;
      }
    }
    assert all[..|all|] == all;
    ok := true;
  }

  // ---------------------------------------------------------------- candidates at request time

  function Plain(models: seq<Name>): seq<Candidate> {
    seq(|models|, i requires 0 <= i < |models| => Candidate(models[i], "", 0))
  }

  function Chosen(rules: seq<Rule>, s: seq<nat>): seq<Candidate>
    requires InRange(rules, s)
  {
    seq(|s|, i requires 0 <= i < |s| => Candidate(rules[s[i]].to, rules[s[i]].id, rules[s[i]].priority))
  }

  /** An enabled rule of the source gives the candidate, and no rule for the same model has a higher priority or, equal, comes earlier. */
  ghost predicate GivenBy(rules: seq<Rule>, source: Name, c: Candidate, k: nat) {
    && k < |rules| && rules[k].enabled && rules[k].from == source
    && c == Candidate(rules[k].to, rules[k].id, rules[k].priority)
    && forall j | 0 <= j < |rules| && rules[j].enabled && rules[j].from == source && rules[j].to == c.model ::
         rules[j].priority < c.priority || (rules[j].priority == c.priority && k <= j)
  }

  /** The answer in rule mode: every enabled target of the source once, by its best rule, highest priority first. */
  ghost predicate RuleAnswer(rules: seq<Rule>, source: Name, cs: seq<Candidate>) {
    && (forall i | 0 <= i < |cs| :: Given(rules, source, cs[i]))
    && (forall i, j | 0 <= i < j < |cs| :: cs[i].priority >= cs[j].priority && cs[i].model != cs[j].model)
    && (forall k | 0 <= k < |rules| && rules[k].enabled && rules[k].from == source ::
          Offers(cs, rules[k].to))
  }

  ghost predicate Given(rules: seq<Rule>, source: Name, c: Candidate) {
    exists k :: GivenBy(rules, source, c, k)
  }

  predicate Offers(cs: seq<Candidate>, model: Name) {
    exists i | 0 <= i < |cs| :: cs[i].model == model
  }

  lemma ChosenGiven(rules: seq<Rule>, source: Name, s: seq<nat>, i: nat)
    requires Selected(rules, source, s) && i < |s|
    ensures GivenBy(rules, source, Chosen(rules, s)[i], s[i])
  {
    assert s[i] in s;
    assert Best(rules, source, s[i]);
    forall j | 0 <= j < |rules| && rules[j].enabled && rules[j].from == source && rules[j].to == rules[s[i]].to
      ensures rules[j].priority < rules[s[i]].priority || (rules[j].priority == rules[s[i]].priority && s[i] <= j)
    {
      assert Matches(rules, source, j);
    }
  }

  lemma ChosenOrdered(rules: seq<Rule>, source: Name, s: seq<nat>, i: nat, j: nat)
    requires Selected(rules, source, s) && i < j < |s|
    ensures rules[s[i]].priority >= rules[s[j]].priority && rules[s[i]].to != rules[s[j]].to
  {
    assert Before(rules, s[i], s[j]);
    assert s[i] in s && s[j] in s;
    assert Best(rules, source, s[i]) && Best(rules, source, s[j]);
  }

  /** Some rule is the best for the target of any matching rule. */
  lemma {:induction false} BestExists(rules: seq<Rule>, source: Name, k: nat, n: nat) returns (b: nat)
    requires Matches(rules, source, k) && n <= |rules|
    ensures Matches(rules, source, b) && rules[b].to == rules[k].to
    ensures forall j | 0 <= j < n && Matches(rules, source, j) && rules[j].to == rules[k].to && j != b :: Before(rules, b, j)
  {
    b := k;
    if n > 0 {
      b := BestExists(rules, source, k, n - 1);
      if Matches(rules, source, n - 1) && rules[n - 1].to == rules[k].to && n - 1 != b && !Before(rules, b, n - 1) {
        b := n - 1;
      }
    }
  }

  lemma ChosenAnswers(rules: seq<Rule>, source: Name, s: seq<nat>)
    requires Selected(rules, source, s)
    ensures RuleAnswer(rules, source, Chosen(rules, s))
  {
    var cs := Chosen(rules, s);
    hide Selected;
    forall i | 0 <= i < |cs| ensures Given(rules, source, cs[i]) {
      ChosenGiven(rules, source, s, i);
    }
    forall i, j | 0 <= i < j < |cs| ensures cs[i].priority >= cs[j].priority && cs[i].model != cs[j].model {
      ChosenOrdered(rules, source, s, i, j);
    }
    forall k | 0 <= k < |rules| && rules[k].enabled && rules[k].from == source
      ensures Offers(cs, rules[k].to)
    {
      var b := BestExists(rules, source, k, |rules|);
      SelectedHas(rules, source, s, b);
      var i :| 0 <= i < |s| && s[i] == b;
      assert cs[i].model == rules[k].to;
    }
  }

  lemma SelectedHas(rules: seq<Rule>, source: Name, s: seq<nat>, b: nat)
    requires Selected(rules, source, s) && Matches(rules, source, b)
    requires forall j | 0 <= j < |rules| && Matches(rules, source, j) && rules[j].to == rules[b].to && j != b :: Before(rules, b, j)
    ensures b in s
  {
    assert Best(rules, source, b);
  }

  /** `Candidates` succeeds for this source. */
  ghost predicate Answers(c: Config, source: string) {
    if c.IsRules() then |RuleTargets(c.rules, Trim(source))| <= MAX_CANDIDATES
    else Resolvable(c.legacy, Trim(source), MAX_WORK)
  }

  /** The candidates of a source, in the order they are to be tried. */
  method FindCandidates(c: Config, source: string) returns (r: Candidates)
    ensures r.Found? <==> Answers(c, source)
    ensures r.Found? && !c.IsRules() ==>
              var ts := Targets(c.legacy, Trim(source));
              |r.candidates| == |ts| && forall i | 0 <= i < |ts| :: r.candidates[i] == Candidate(ts[i], "", 0)
    ensures r.Found? && c.IsRules() ==> RuleAnswer(c.rules, Trim(source), r.candidates)
  {
    TrimSpaceTrims(source);
    if !c.IsRules() {
      var resolution, _ := ResolveLegacy(c.legacy, TrimSpace(source), MAX_WORK);
      if resolution.Rejected? {
        return NotFound(resolution.error);
      }
      return Found(Plain(resolution.models));
    }
    var ok, s := SelectRules(c.rules, Trim(source));
    if !ok {
      return NotFound(TooManyCandidates);
    }
    ChosenAnswers(c.rules, Trim(source), s);
    r := Found(Chosen(c.rules, s));
  }

  // ---------------------------------------------------------------- validation

  ghost function TotalCost(g: Graph, sources: set<Name>): nat {
    if sources == {} then 0
    else
      var n :| n in sources;
      Cost(g, Trim(n.text)) + TotalCost(g, sources - {n})
  }

  /** The total does not depend on the order in which the sources are taken. */
  lemma {:induction false} TotalCostTake(g: Graph, sources: set<Name>, n: Name)
    requires n in sources
    ensures TotalCost(g, sources) == Cost(g, Trim(n.text)) + TotalCost(g, sources - {n})
    decreases sources
  {
    hide Cost, Trim;
    var m :| m in sources && TotalCost(g, sources) == Cost(g, Trim(m.text)) + TotalCost(g, sources - {m});
    if m != n {
      TotalCostTake(g, sources - {m}, n);
      TotalCostTake(g, sources - {n}, m);
      assert sources - {m} - {n} == sources - {n} - {m};
    }
  }

  ghost function RuleSources(rules: seq<Rule>): set<Name> {
    set k | 0 <= k < |rules| && rules[k].enabled :: rules[k].from
  }

  /** What the validator accepts: every source within its limits and, for legacy, all of them together. */
  ghost predicate Acceptable(c: Config) {
    if c.IsRules() then forall n | n in RuleSources(c.rules) :: Answers(c, n.text)
    else
      && (forall n | n in c.legacy :: Answers(c, n.text))
      && TotalCost(c.legacy, c.legacy.Keys) <= MAX_VALIDATION_WORK
  }

  /** Sources of a configuration, each once; the order does not matter for acceptance. */
  method Sources(c: Config) returns (sources: set<Name>)
    ensures sources == if c.IsRules() then RuleSources(c.rules) else c.legacy.Keys
  {
    sources := {};
    if !c.IsRules() {
      return c.legacy.Keys;
    }
    for i := 0 to |c.rules|
      invariant sources == set k | 0 <= k < i && c.rules[k].enabled :: c.rules[k].from
    {
      if c.rules[i].enabled {
        sources := sources + {c.rules[i].from};
      }
    }
  }

  method ValidateRules(c: Config) returns (ok: bool)
    requires c.IsRules()
    ensures ok <==> Acceptable(c)
  {
    hide Answers;
    var todo := Sources(c);
    ghost var done: set<Name> := {};
    while todo != {}
      invariant todo + done == RuleSources(c.rules)
      invariant forall n | n in done :: Answers(c, n.text)
      decreases todo
    {
      var n :| n in todo;
      var r := FindCandidates(c, n.text);
      if r.NotFound? {
        return false;
      }
      todo := todo - {n};
      done := done + {n};
    }
    ok := true;
  }

  /**
    Resolves every legacy source under a shared work budget.  It accepts exactly the acceptable
    configurations, whatever order the sources come in, and never spends more than the budget.
   */
  method ValidateLegacy(c: Config) returns (ok: bool, spent: nat)
    requires !c.IsRules()
    ensures ok <==> Acceptable(c)
    ensures spent <= MAX_VALIDATION_WORK
    ensures ok ==> spent == TotalCost(c.legacy, c.legacy.Keys)
  {
    hide Resolvable, Cost, TotalCost, Targets, Explains;
    var todo := Sources(c);
    var remaining: nat := MAX_VALIDATION_WORK;
    while todo != {}
      invariant todo <= c.legacy.Keys && remaining <= MAX_VALIDATION_WORK
      invariant forall n | n in c.legacy.Keys - todo :: Answers(c, n.text)
      invariant MAX_VALIDATION_WORK - remaining + TotalCost(c.legacy, todo) == TotalCost(c.legacy, c.legacy.Keys)
      decreases todo
    {
      var n :| n in todo;
      TotalCostTake(c.legacy, todo, n);
      var before: nat := if remaining < MAX_WORK then remaining else MAX_WORK;
      var r, work := ResolveLegacy(c.legacy, n.text, before);
      WorkSplit(c.legacy, Trim(n.text), before);
      if r.Rejected? {
        return false, MAX_VALIDATION_WORK - remaining + (before - work);
      }
      remaining := remaining - (before - work);
      todo := todo - {n};
    }
    assert TotalCost(c.legacy, {}) == 0 by { NoCost(c.legacy); }
    assert c.legacy.Keys - {} == c.legacy.Keys;
    return true, MAX_VALIDATION_WORK - remaining;
  }

  lemma NoCost(g: Graph)
    ensures TotalCost(g, {}) == 0
  {
  }

  /** Under the smaller of two budgets a source resolves just when it does under the larger and fits the smaller. */
  lemma WorkSplit(g: Graph, n: Name, budget: nat)
    requires budget <= MAX_WORK
    ensures Resolvable(g, n, budget) <==> Resolvable(g, n, MAX_WORK) && Cost(g, n) <= budget
  {
  }

  method Validate(c: Config) returns (ok: bool)
    ensures ok <==> Acceptable(c)
  {
    if c.IsRules() {
      ok := ValidateRules(c);
    } else {
      var accepted, _ := ValidateLegacy(c);
      ok := accepted;
    }
  }

  /** A configuration the validator accepts is answered for every source string, listed or not. */
  lemma AcceptedAlwaysAnswers(c: Config, source: string)
    requires Acceptable(c)
    ensures Answers(c, source)
  {
    var n := Trim(source);
    TrimSpaceTrims(source);
    assert Trim(n.text) == n;
    if c.IsRules() {
      if n !in RuleSources(c.rules) {
        assert RuleTargets(c.rules, n) == {};
      } else {
        assert Answers(c, n.text);
      }
    } else if n in c.legacy {
      assert Answers(c, n.text);
    }
  }

  /** In rule mode the validator refuses only what some source would be refused for. */
  lemma RulesAcceptableIff(c: Config)
    requires c.IsRules()
    ensures Acceptable(c) <==> forall source: string :: Answers(c, source)
  {
    if Acceptable(c) {
      forall source: string ensures Answers(c, source) {
        AcceptedAlwaysAnswers(c, source);
      }
    }
  }

  /** In legacy mode it refuses only what some source would be refused for, or too much work in all. */
  lemma LegacyAcceptableIff(c: Config)
    requires !c.IsRules()
    ensures Acceptable(c) <==> (forall source: string :: Answers(c, source)) && TotalCost(c.legacy, c.legacy.Keys) <= MAX_VALIDATION_WORK
  {
    if Acceptable(c) {
      forall source: string ensures Answers(c, source) {
        AcceptedAlwaysAnswers(c, source);
      }
    }
  }

  ghost function EnabledTargets(rules: seq<Rule>, source: Name): set<Name> {
    set k | 0 <= k < |rules| && rules[k].enabled && rules[k].from == source :: rules[k].to
  }

  /**
    When a source is answered.  In rule mode: when it has at most 128 distinct enabled targets.  In
    legacy mode: when it is unmapped, or no walk from it exceeds 32 hops, its expansion has at most
    8192 nodes and at most 128 distinct leaves.
   */
  lemma AnswersExactly(c: Config, source: string)
    ensures var n := Trim(source);
            Answers(c, source) <==>
              if c.IsRules() then |EnabledTargets(c.rules, n)| <= 128
              else || n.text == "" || n !in c.legacy
                   || (&& (forall w :: !LongWalk(c.legacy, n, 32, w))
                       && Size(c.legacy, n, 32) <= 8192 && |Dedup([], Leaves(c.legacy, n, 32))| <= 128)
  {
    var n := Trim(source);
    assert RuleTargets(c.rules, n) == EnabledTargets(c.rules, n);
    hide Size, Leaves, Dedup, LongWalk, Fine, RuleTargets, EnabledTargets, Trim;
    FineIffNoLongWalk(c.legacy, n, 32);
  }
}
