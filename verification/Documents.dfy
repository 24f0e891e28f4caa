/** The object model a document is built into, and the expansion of `extends`. */
module Documents {
  import opened Names
  import opened Predicates

  datatype Result<+T> = Ok(value: T) | Err

  datatype CollectorHeader = CollectorHeader(name: string, providerType: string, connectorKind: string, source: string, schema: string)

  datatype SignalObject = SignalObject(name: string, kind: string, source: string, unit: string, optional: bool, mode: string, literal: string)

  datatype CollectorObject = CollectorObject(header: CollectorHeader, signals: seq<SignalObject>)

  /** `carvedOut` marks an unindented predicate absorbed into the rule before it. */
  datatype PredicateObject = PredicateObject(parsed: Predicate, carvedOut: bool)

  /** `parent` is the name after `extends`, or empty. */
  datatype RuleObject = RuleObject(
    name: string, isAbstract: bool, parent: string, target: string,
    collectors: seq<CollectorObject>, predicates: seq<PredicateObject>)

  datatype ClusterObject = ClusterObject(name: string, rules: seq<string>, predicates: seq<PredicateObject>)

  datatype Document = Document(
    package: string, name: string, abstracts: seq<RuleObject>, rules: seq<RuleObject>,
    clusters: seq<ClusterObject>, predicates: seq<PredicateObject>)

  // ---- extends ----

  const MaxExtendsDepth: nat := 256

  type Abstracts = map<string, RuleObject>

  function Merge(rule: RuleObject, parent: RuleObject): RuleObject {
    rule.(parent := "",
          target := if rule.target == "" then parent.target else rule.target,
          collectors := parent.collectors + rule.collectors,
          predicates := parent.predicates + rule.predicates)
  }

  /** `expandRuleObject`, with the names being expanded given as a set. */
  function Expand(rule: RuleObject, abstracts: Abstracts, visiting: set<string>): Result<RuleObject>
    decreases MaxExtendsDepth - |visiting|
  {
    var parent := NormalizeIdentifier(rule.parent);
    if parent == "" then Ok(rule.(parent := ""))
    else if parent !in abstracts || parent in visiting || |visiting| >= MaxExtendsDepth then Err
    else
      match Expand(abstracts[parent], abstracts, visiting + {parent})
      case Err => Err
      case Ok(p) => Ok(Merge(rule, p))
  }

  /** The set of names being expanded, shared by the whole recursion. */
  class Visiting {
    var names: set<string>

    constructor ()
      ensures names == {}
    {
      names := {};
    }

    /** Inserts the parent, expands it, and takes it out again. */
    method ExpandRule(rule: RuleObject, abstracts: Abstracts) returns (r: Result<RuleObject>)
      requires |names| <= MaxExtendsDepth
      modifies this
      ensures r == Expand(rule, abstracts, old(names))
      ensures r.Ok? ==> names == old(names)
      decreases MaxExtendsDepth - |names|
    {
      var parent := NormalizeIdentifier(rule.parent);
      if parent == "" {
        return Ok(rule.(parent := ""));
      }
      if parent !in abstracts {
        return Err;
      }
      if parent in names {
        return Err;
      }
      if |names| >= MaxExtendsDepth {
        return Err;
      }
      names := names + {parent};
      r := ExpandRule(abstracts[parent], abstracts);
      if r.Err? {
        return;
      }
      names := names - {parent};
      r := Ok(Merge(rule, r.value));
    }
  }

  // ---- the chain it linearises ----

  /** Following `extends` from `parent` reaches a root in exactly `n` steps through defined rules. */
  predicate Reaches(parent: string, abstracts: Abstracts, n: nat)
    decreases n
  {
    var p := NormalizeIdentifier(parent);
    if p == "" then n == 0 else n > 0 && p in abstracts && Reaches(abstracts[p].parent, abstracts, n - 1)
  }

  /** The ancestors, root first. */
  function Lineage(parent: string, abstracts: Abstracts, n: nat): seq<RuleObject>
    requires Reaches(parent, abstracts, n)
    decreases n
  {
    if n == 0 then []
    else
      var p := abstracts[NormalizeIdentifier(parent)];
      Lineage(p.parent, abstracts, n - 1) + [p]
  }

  function CollectorsOf(line: seq<RuleObject>): seq<CollectorObject> {
    if line == [] then [] else CollectorsOf(line[..|line| - 1]) + line[|line| - 1].collectors
  }

  function PredicatesOf(line: seq<RuleObject>): seq<PredicateObject> {
    if line == [] then [] else PredicatesOf(line[..|line| - 1]) + line[|line| - 1].predicates
  }

  /** The target declared nearest to the end of the line. */
  function NearestTarget(line: seq<RuleObject>): string {
    if line == [] then ""
    else if line[|line| - 1].target != "" then line[|line| - 1].target
    else NearestTarget(line[..|line| - 1])
  }

  /** `rule` at the end of its lineage, with everything inherited written out. */
  function Linearised(rule: RuleObject, line: seq<RuleObject>): RuleObject {
    var all := line + [rule];
    rule.(parent := "", target := NearestTarget(all), collectors := CollectorsOf(all), predicates := PredicatesOf(all))
  }

  lemma {:induction false} ReachesUnique(parent: string, abstracts: Abstracts, n: nat, m: nat)
    requires Reaches(parent, abstracts, n) && Reaches(parent, abstracts, m)
    ensures n == m
    decreases n
  {
    if n > 0 && m > 0 {
      ReachesUnique(abstracts[NormalizeIdentifier(parent)].parent, abstracts, n - 1, m - 1);
    }
  }

  /** Every name being expanded lies strictly further from the root than `parent` does. */
  ghost predicate FurtherAway(visiting: set<string>, parent: string, abstracts: Abstracts) {
    forall q, n: nat :: q in visiting && Reaches(parent, abstracts, n) ==> exists m: nat :: m > n && Reaches(q, abstracts, m)
  }

  lemma FurtherStep(visiting: set<string>, parent: string, abstracts: Abstracts)
    requires FurtherAway(visiting, parent, abstracts)
    requires var p := NormalizeIdentifier(parent); p != "" && p in abstracts
    ensures var p := NormalizeIdentifier(parent); FurtherAway(visiting + {p}, abstracts[p].parent, abstracts)
  {
    var p := NormalizeIdentifier(parent);
    FoldingIsIdempotent(parent);
    forall q, n: nat | q in visiting + {p} && Reaches(abstracts[p].parent, abstracts, n)
      ensures exists m: nat :: m > n && Reaches(q, abstracts, m)
    {
      assert Reaches(parent, abstracts, n + 1) && Reaches(p, abstracts, n + 1);
      if q in visiting {
        var m: nat :| m > n + 1 && Reaches(q, abstracts, m);
      }
    }
  }

  lemma NoCycleOnAChain(visiting: set<string>, parent: string, abstracts: Abstracts, n: nat)
    requires FurtherAway(visiting, parent, abstracts) && Reaches(parent, abstracts, n)
    ensures NormalizeIdentifier(parent) !in visiting || NormalizeIdentifier(parent) == ""
  {
    var p := NormalizeIdentifier(parent);
    FoldingIsIdempotent(parent);
    if p in visiting && p != "" {
      var m: nat :| m > n && Reaches(p, abstracts, m);
      assert Reaches(p, abstracts, n);
      ReachesUnique(p, abstracts, n, m);
    }
  }

  lemma MergeLinearises(rule: RuleObject, p: RuleObject, line: seq<RuleObject>)
    ensures Merge(rule, Linearised(p, line)) == Linearised(rule, line + [p])
  {
    var upper, all := line + [p], line + [p] + [rule];
    assert all[..|all| - 1] == upper && all[|all| - 1] == rule;
  }

  lemma AloneIsItself(rule: RuleObject)
    ensures Linearised(rule, []) == rule.(parent := "")
  {
    var all := [] + [rule];
    assert all == [rule] && all[..0] == [];
    assert NearestTarget([]) == "" && NearestTarget(all) == rule.target;
    assert CollectorsOf(all) == [] + rule.collectors == rule.collectors;
    assert PredicatesOf(all) == [] + rule.predicates == rule.predicates;
  }

  lemma {:induction false} ExpandsAlongChain(rule: RuleObject, abstracts: Abstracts, visiting: set<string>, n: nat)
    requires FurtherAway(visiting, rule.parent, abstracts)
    requires Reaches(rule.parent, abstracts, n) && n + |visiting| <= MaxExtendsDepth
    ensures Expand(rule, abstracts, visiting) == Ok(Linearised(rule, Lineage(rule.parent, abstracts, n)))
    decreases n
  {
    var p := NormalizeIdentifier(rule.parent);
    if p == "" {
      AloneIsItself(rule);
    } else {
      NoCycleOnAChain(visiting, rule.parent, abstracts, n);
      FurtherStep(visiting, rule.parent, abstracts);
      ExpandsAlongChain(abstracts[p], abstracts, visiting + {p}, n - 1);
      MergeLinearises(rule, abstracts[p], Lineage(abstracts[p].parent, abstracts, n - 1));
    }
  }

  lemma {:induction false} ExpansionFollowsChain(rule: RuleObject, abstracts: Abstracts, visiting: set<string>) returns (n: nat)
    requires |visiting| <= MaxExtendsDepth && Expand(rule, abstracts, visiting).Ok?
    ensures Reaches(rule.parent, abstracts, n) && n + |visiting| <= MaxExtendsDepth
    decreases MaxExtendsDepth - |visiting|
  {
    var p := NormalizeIdentifier(rule.parent);
    if p == "" {
      n := 0;
    } else {
      var m := ExpansionFollowsChain(abstracts[p], abstracts, visiting + {p});
      n := m + 1;
    }
  }

  /** `extends` leads from `parent` to a root within the depth limit. */
  ghost predicate Rooted(parent: string, abstracts: Abstracts) {
    exists n: nat :: RootedIn(parent, abstracts, n)
  }

  ghost predicate RootedIn(parent: string, abstracts: Abstracts, n: nat) {
    n <= MaxExtendsDepth && Reaches(parent, abstracts, n)
  }

  /** Expansion succeeds exactly when `extends` leads to a root through defined rules in at most 256
      steps, and then writes the whole line out, root first, under the nearest target. */
  lemma ExpansionIsLinearisation(rule: RuleObject, abstracts: Abstracts)
    ensures Expand(rule, abstracts, {}).Ok? <==> Rooted(rule.parent, abstracts)
    ensures forall n: nat :: RootedIn(rule.parent, abstracts, n) ==>
              Expand(rule, abstracts, {}) == Ok(Linearised(rule, Lineage(rule.parent, abstracts, n)))
  {
    if Expand(rule, abstracts, {}).Ok? {
      var n := ExpansionFollowsChain(rule, abstracts, {});
      assert RootedIn(rule.parent, abstracts, n);
    }
    forall n: nat | RootedIn(rule.parent, abstracts, n)
      ensures Expand(rule, abstracts, {}) == Ok(Linearised(rule, Lineage(rule.parent, abstracts, n)))
    {
      ExpandsAlongChain(rule, abstracts, {}, n);
    }
  }

  // ---- expansion of a document ----

  function AbstractIndex(rules: seq<RuleObject>): Result<Abstracts> {
    if rules == [] then Ok(map[])
    else
      match AbstractIndex(rules[..|rules| - 1])
      case Err => Err
      case Ok(m) =>
        var last := rules[|rules| - 1];
        var name := NormalizeIdentifier(last.name);
        if name == "" || name in m then Err
        else Ok(m[name := last.(name := name, parent := NormalizeIdentifier(last.parent))])
  }

  function ExpandEach(rules: seq<RuleObject>, abstracts: Abstracts): Result<seq<RuleObject>> {
    if rules == [] then Ok([])
    else
      match ExpandEach(rules[..|rules| - 1], abstracts)
      case Err => Err
      case Ok(done) =>
        match Expand(rules[|rules| - 1], abstracts, {})
        case Err => Err
        case Ok(r) => Ok(done + [r])
  }

  /** `expandAbstractRules` */
  function ExpandDocument(d: Document): Result<Document> {
    match AbstractIndex(d.abstracts)
    case Err => Err
    case Ok(m) =>
      match ExpandEach(d.rules, m)
      case Err => Err
      case Ok(rules) => Ok(d.(rules := rules))
  }

  method ExpandAbstractRules(d: Document) returns (r: Result<Document>)
    ensures r == ExpandDocument(d)
  {
    var abstracts: Abstracts := map[];
    for i := 0 to |d.abstracts|
      invariant AbstractIndex(d.abstracts[..i]) == Ok(abstracts)
    {
      var a := d.abstracts[i];
      var name := NormalizeIdentifier(a.name);
      assert d.abstracts[..i + 1][..i] == d.abstracts[..i];
      if name == "" || name in abstracts {
        IndexErrorPersists(d.abstracts, i + 1);
        return Err;
      }
      abstracts := abstracts[name := a.(name := name, parent := NormalizeIdentifier(a.parent))];
    }
    assert d.abstracts[..|d.abstracts|] == d.abstracts;
    var expanded := ExpandRules(d.rules, abstracts);
    match expanded
    case Err => return Err;
    case Ok(rules) => return Ok(d.(rules := rules));
  }

  /** The second loop of `expandAbstractRules`: every concrete rule, each with a fresh visiting set. */
  method ExpandRules(concrete: seq<RuleObject>, abstracts: Abstracts) returns (r: Result<seq<RuleObject>>)
    ensures r == ExpandEach(concrete, abstracts)
  {
    var rules: seq<RuleObject> := [];
    for i := 0 to |concrete|
      invariant ExpandEach(concrete[..i], abstracts) == Ok(rules)
    {
      assert concrete[..i + 1][..i] == concrete[..i];
      var visiting := new Visiting();
      var expanded := visiting.ExpandRule(concrete[i], abstracts);
      if expanded.Err? {
        ExpandErrorPersists(concrete, abstracts, i + 1);
        return Err;
      }
      rules := rules + [expanded.value];
    }
    assert concrete[..|concrete|] == concrete;
    return Ok(rules);
  }

  lemma {:induction false} IndexErrorPersists(rules: seq<RuleObject>, k: nat)
    requires k <= |rules| && AbstractIndex(rules[..k]).Err?
    ensures AbstractIndex(rules).Err?
  {
    if k < |rules| {
      assert rules[..|rules| - 1][..k] == rules[..k];
      IndexErrorPersists(rules[..|rules| - 1], k);
    } else {
      assert rules[..k] == rules;
    }
  }

  lemma {:induction false} ExpandErrorPersists(rules: seq<RuleObject>, abstracts: Abstracts, k: nat)
    requires k <= |rules| && ExpandEach(rules[..k], abstracts).Err?
    ensures ExpandEach(rules, abstracts).Err?
  {
    if k < |rules| {
      assert rules[..|rules| - 1][..k] == rules[..k];
      ExpandErrorPersists(rules[..|rules| - 1], abstracts, k);
    } else {
      assert rules[..k] == rules;
    }
  }
}
