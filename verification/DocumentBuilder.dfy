/** The statement loop that builds a document, with its block stack and carve-out. */
module DocumentBuilder {
  import opened Evidence
  import opened Predicates
  import opened Documents

  datatype Block = BundleBlock | RuleBlock | ConstructorBlock | ClusterBlock | CollectorBlock

  /** A statement's keyword with the operands its field parser read; `BadLine` is one no parser accepts.
      `fields` is how many fields the statement has. */
  datatype Line =
    | VersionLine
    | PackageLine(package: string)
    | BundleLine(bundle: string)
    | AbstractLine(name: string, parent: string)
    | ConstructorLine(name: string, parent: string)
    | RuleLine(name: string, parent: string)
    | ClusterLine(name: string)
    | TargetLine(aspect: string)
    | CollectorLine(header: CollectorHeader)
    | SignalLine(signal: SignalObject)
    | MembersLine(members: seq<string>)
    | PredicateLine(parsed: Predicate, fields: nat)
    | BadLine

  /** `CloseOnly` is a lone closing brace; `StrayClose` has one among other tokens. */
  datatype Statement = CloseOnly | StrayClose | Statement(indent: nat, opens: bool, line: Line)

  const MaxBundleQuorumFields: nat := 65536

  datatype State = State(
    doc: Document, rule: Option<RuleObject>, cluster: Option<ClusterObject>, collector: Option<CollectorObject>,
    stack: seq<Block>, indented: bool, quorumFields: nat)

  const EmptyDocument: Document := Document("", "", [], [], [], [])

  const Start: State := State(EmptyDocument, None, None, None, [], false, 0)

  // ---- flushing ----

  function FlushCollector(s: State): State {
    if s.rule.Some? && s.collector.Some?
    then s.(rule := Some(s.rule.value.(collectors := s.rule.value.collectors + [s.collector.value])), collector := None)
    else s.(collector := None)
  }

  function FlushRule(s: State): State {
    var t := FlushCollector(s);
    match t.rule
    case None => t
    case Some(r) =>
      t.(rule := None,
         doc := if r.isAbstract then t.doc.(abstracts := t.doc.abstracts + [r]) else t.doc.(rules := t.doc.rules + [r]))
  }

  function FlushCluster(s: State): State {
    match s.cluster
    case None => s
    case Some(c) => s.(cluster := None, doc := s.doc.(clusters := s.doc.clusters + [c]))
  }

  function CloseBlock(s: State): Result<State> {
    if s.stack == [] then Err
    else
      var t := s.(stack := s.stack[..|s.stack| - 1]);
      match s.stack[|s.stack| - 1]
      case CollectorBlock => Ok(FlushCollector(t))
      case RuleBlock => Ok(FlushRule(t))
      case ConstructorBlock => Ok(FlushRule(t))
      case ClusterBlock => Ok(FlushCluster(t))
      case BundleBlock => Ok(t)
  }

  function Push(s: State, opens: bool, block: Block): State {
    if opens then s.(stack := s.stack + [block]) else s
  }

  // ---- one statement ----

  predicate IsRuleBody(line: Line) {
    line.TargetLine? || line.CollectorLine? || line.SignalLine? || line.PredicateLine?
  }

  function QuorumFields(line: Line): nat {
    if line.PredicateLine? && (line.parsed.Quorum? || line.parsed.Count?) then line.fields else 0
  }

  /** A body statement at column 0 stays with the rule that is open. */
  predicate ForcedIntoRule(s: State, indent: nat, line: Line) {
    indent == 0 && s.rule.Some? && s.cluster == None && IsRuleBody(line)
  }

  predicate AtTopLevel(s: State, indent: nat) {
    (indent == 0 && s.stack == []) || (s.stack == [BundleBlock] && s.rule == None && s.cluster == None)
  }

  predicate InRuleBlock(stack: seq<Block>) {
    RuleBlock in stack || ConstructorBlock in stack
  }

  function OpenRule(s: State, r: RuleObject, opens: bool, block: Block): State {
    Push(FlushRule(FlushCluster(s)).(rule := Some(r), indented := false), opens, block)
  }

  function TopStep(s: State, opens: bool, line: Line): Result<State> {
    match line
    case VersionLine => Ok(s)
    case PackageLine(package) =>
      if s.doc.package != "" then Err else Ok(s.(doc := s.doc.(package := package)))
    case BundleLine(bundle) =>
      if s.doc.name != "" then Err else Ok(Push(s.(doc := s.doc.(name := bundle)), opens, BundleBlock))
    case AbstractLine(name, parent) => Ok(OpenRule(s, RuleObject(name, true, parent, "", [], []), opens, RuleBlock))
    case ConstructorLine(name, parent) => Ok(OpenRule(s, RuleObject(name, true, parent, "", [], []), opens, ConstructorBlock))
    case RuleLine(name, parent) => Ok(OpenRule(s, RuleObject(name, false, parent, "", [], []), opens, RuleBlock))
    case ClusterLine(name) =>
      Ok(Push(FlushCluster(FlushRule(s)).(cluster := Some(ClusterObject(name, [], []))), opens, ClusterBlock))
    case PredicateLine(parsed, _) =>
      var t := FlushCluster(FlushRule(s));
      Ok(t.(doc := t.doc.(predicates := t.doc.predicates + [PredicateObject(parsed, false)])))
    case _ => Err
  }

  function RuleStep(s: State, indent: nat, opens: bool, line: Line): Result<State>
    requires s.rule.Some?
  {
    var t := s.(indented := s.indented || indent > 0);
    match line
    case TargetLine(aspect) =>
      if t.rule.value.target != "" then Err else Ok(t.(rule := Some(t.rule.value.(target := aspect))))
    case CollectorLine(header) => Ok(Push(FlushCollector(t).(collector := Some(CollectorObject(header, []))), opens, CollectorBlock))
    case SignalLine(signal) =>
      if t.collector == None then Err
      else Ok(t.(collector := Some(t.collector.value.(signals := t.collector.value.signals + [signal]))))
    case PredicateLine(parsed, _) =>
      var u := FlushCollector(t);
      var carved := ForcedIntoRule(s, indent, line) && !InRuleBlock(u.stack) && u.indented;
      Ok(u.(rule := Some(u.rule.value.(predicates := u.rule.value.predicates + [PredicateObject(parsed, carved)]))))
    case _ => Err
  }

  function ClusterStep(s: State, line: Line): Result<State>
    requires s.cluster.Some?
  {
    match line
    case MembersLine(members) =>
      if s.cluster.value.rules != [] then Err else Ok(s.(cluster := Some(s.cluster.value.(rules := members))))
    case PredicateLine(parsed, _) =>
      Ok(s.(cluster := Some(s.cluster.value.(predicates := s.cluster.value.predicates + [PredicateObject(parsed, false)]))))
    case _ => Err
  }

  function Dispatch(s: State, indent: nat, opens: bool, line: Line): Result<State> {
    if AtTopLevel(s, indent) && !ForcedIntoRule(s, indent, line) then TopStep(s, opens, line)
    else if s.rule.Some? then RuleStep(s, indent, opens, line)
    else if s.cluster.Some? then ClusterStep(s, line)
    else Err
  }

  function LineStep(s: State, indent: nat, opens: bool, line: Line): Result<State> {
    match Charged(s, QuorumFields(line))
    case Err => Err
    case Ok(charged) => Dispatch(charged, indent, opens, line)
  }

  /** The budget of quorum fields, kept over the whole bundle. */
  function Charged(s: State, fields: nat): Result<State> {
    if s.quorumFields + fields > MaxBundleQuorumFields then Err
    else Ok(s.(quorumFields := s.quorumFields + fields))
  }

  function Step(s: State, st: Statement): Result<State> {
    match st
    case CloseOnly => CloseBlock(s)
    case StrayClose => Err
    case Statement(indent, opens, line) => LineStep(s, indent, opens, line)
  }

  function Run(s: State, sts: seq<Statement>): Result<State>
    decreases |sts|
  {
    if sts == [] then Ok(s)
    else
      match Step(s, sts[0])
      case Err => Err
      case Ok(t) => Run(t, sts[1..])
  }

  function Finish(s: State): Result<Document> {
    if s.stack != [] then Err else ExpandDocument(FlushCluster(FlushRule(s)).doc)
  }

  /** `BuildDocument` */
  function Build(sts: seq<Statement>): Result<Document> {
    match Run(Start, sts)
    case Err => Err
    case Ok(s) => Finish(s)
  }

  // ---- the builder object ----

  class Builder {
    var doc: Document
    var rule: Option<RuleObject>
    var cluster: Option<ClusterObject>
    var collector: Option<CollectorObject>
    var stack: seq<Block>
    var indented: bool
    var quorumFields: nat

    ghost function Abstract(): State
      reads this
    {
      State(doc, rule, cluster, collector, stack, indented, quorumFields)
    }

    /** What a call that answered `ok` has come to. */
    ghost function Outcome(ok: bool): Result<State>
      reads this
    {
      if ok then Ok(Abstract()) else Err
    }

    constructor ()
      ensures Abstract() == Start
    {
      doc, rule, cluster, collector, stack, indented, quorumFields := EmptyDocument, None, None, None, [], false, 0;
    }

    method DoFlushCollector()
      modifies this
      ensures Abstract() == FlushCollector(old(Abstract()))
    {
      if rule.Some? && collector.Some? {
        rule := Some(rule.value.(collectors := rule.value.collectors + [collector.value]));
      }
      collector := None;
    }

    method DoFlushRule()
      modifies this
      ensures Abstract() == FlushRule(old(Abstract()))
    {
      DoFlushCollector();
      if rule.Some? {
        if rule.value.isAbstract {
          doc := doc.(abstracts := doc.abstracts + [rule.value]);
        } else {
          doc := doc.(rules := doc.rules + [rule.value]);
        }
      }
      rule := None;
    }

    method DoFlushCluster()
      modifies this
      ensures Abstract() == FlushCluster(old(Abstract()))
    {
      if cluster.Some? {
        doc := doc.(clusters := doc.clusters + [cluster.value]);
      }
      cluster := None;
    }

    method DoCloseBlock() returns (ok: bool)
      modifies this
      ensures Outcome(ok) == CloseBlock(old(Abstract()))
    {
      if |stack| == 0 {
        return false;
      }
      var kind := stack[|stack| - 1];
      stack := stack[..|stack| - 1];
      match kind {
        case CollectorBlock => DoFlushCollector();
        case RuleBlock => DoFlushRule();
        case ConstructorBlock => DoFlushRule();
        case ClusterBlock => DoFlushCluster();
        case BundleBlock =>
      }
      return true;
    }

    method OpenBlock(opens: bool, block: Block)
      modifies this
      ensures Abstract() == Push(old(Abstract()), opens, block)
    {
      if opens {
        stack := stack + [block];
      }
    }

    method StartRule(r: RuleObject, opens: bool, block: Block)
      modifies this
      ensures Abstract() == OpenRule(old(Abstract()), r, opens, block)
    {
      DoFlushCluster();
      DoFlushRule();
      rule := Some(r);
      indented := false;
      OpenBlock(opens, block);
    }

    method TopLevel(opens: bool, line: Line) returns (ok: bool)
      modifies this
      ensures Outcome(ok) == TopStep(old(Abstract()), opens, line)
    {
      match line
      case VersionLine => return true;
      case PackageLine(package) =>
        if doc.package != "" {
          return false;
        }
        doc := doc.(package := package);
        return true;
      case BundleLine(bundle) =>
        if doc.name != "" {
          return false;
        }
        doc := doc.(name := bundle);
        OpenBlock(opens, BundleBlock);
        return true;
      case AbstractLine(name, parent) =>
        StartRule(RuleObject(name, true, parent, "", [], []), opens, RuleBlock);
        return true;
      case ConstructorLine(name, parent) =>
        StartRule(RuleObject(name, true, parent, "", [], []), opens, ConstructorBlock);
        return true;
      case RuleLine(name, parent) =>
        StartRule(RuleObject(name, false, parent, "", [], []), opens, RuleBlock);
        return true;
      case ClusterLine(name) =>
        DoFlushRule();
        DoFlushCluster();
        cluster := Some(ClusterObject(name, [], []));
        OpenBlock(opens, ClusterBlock);
        return true;
      case PredicateLine(parsed, _) =>
        DoFlushRule();
        DoFlushCluster();
        doc := doc.(predicates := doc.predicates + [PredicateObject(parsed, false)]);
        return true;
      case _ => return false;
    }

    method InRule(indent: nat, opens: bool, line: Line, forced: bool) returns (ok: bool)
      requires rule.Some? && forced == ForcedIntoRule(Abstract(), indent, line)
      modifies this
      ensures Outcome(ok) == RuleStep(old(Abstract()), indent, opens, line)
    {
      if indent > 0 {
        indented := true;
      }
      match line
      case TargetLine(aspect) =>
        if rule.value.target != "" {
          return false;
        }
        rule := Some(rule.value.(target := aspect));
        return true;
      case CollectorLine(header) =>
        DoFlushCollector();
        collector := Some(CollectorObject(header, []));
        OpenBlock(opens, CollectorBlock);
        return true;
      case SignalLine(signal) =>
        if collector == None {
          return false;
        }
        collector := Some(collector.value.(signals := collector.value.signals + [signal]));
        return true;
      case PredicateLine(parsed, _) =>
        DoFlushCollector();
        var carved := forced && !InRuleBlock(stack) && indented;
        rule := Some(rule.value.(predicates := rule.value.predicates + [PredicateObject(parsed, carved)]));
        return true;
      case _ => return false;
    }

    method InCluster(line: Line) returns (ok: bool)
      requires cluster.Some?
      modifies this
      ensures Outcome(ok) == ClusterStep(old(Abstract()), line)
    {
      match line
      case MembersLine(members) =>
        if cluster.value.rules != [] {
          return false;
        }
        cluster := Some(cluster.value.(rules := members));
        return true;
      case PredicateLine(parsed, _) =>
        cluster := Some(cluster.value.(predicates := cluster.value.predicates + [PredicateObject(parsed, false)]));
        return true;
      case _ => return false;
    }

    method Handle(st: Statement) returns (ok: bool)
      modifies this
      ensures Outcome(ok) == Step(old(Abstract()), st)
    {
      match st {
        case CloseOnly => ok := DoCloseBlock();
        case StrayClose => ok := false;
        case Statement(indent, opens, line) => ok := HandleLine(indent, opens, line);
      }
    }

    method HandleLine(indent: nat, opens: bool, line: Line) returns (ok: bool)
      modifies this
      ensures Outcome(ok) == LineStep(old(Abstract()), indent, opens, line)
    {
      ok := Charge(QuorumFields(line));
      if !ok {
        return;
      }
      ok := Route(Abstract(), indent, opens, line);
    }

    /** Counts the quorum fields of one more line against the budget of the bundle. */
    method Charge(fields: nat) returns (ok: bool)
      modifies this`quorumFields
      ensures Outcome(ok) == Charged(old(Abstract()), fields)
    {
      if quorumFields + fields > MaxBundleQuorumFields {
        return false;
      }
      quorumFields := quorumFields + fields;
      return true;
    }

    method Route(ghost s: State, indent: nat, opens: bool, line: Line) returns (ok: bool)
      requires Abstract() == s
      modifies this
      ensures Outcome(ok) == Dispatch(s, indent, opens, line)
    {
      var forced := indent == 0 && rule.Some? && cluster == None && IsRuleBody(line);
      var top := (indent == 0 && stack == []) || (stack == [BundleBlock] && rule == None && cluster == None);
      if top && !forced {
        ok := TopLevel(opens, line);
      } else if rule.Some? {
        ok := InRule(indent, opens, line, forced);
      } else if cluster.Some? {
        ok := InCluster(line);
      } else {
        return false;
      }
    }
  }

  method BuildDocument(sts: seq<Statement>) returns (r: Result<Document>)
    ensures r == Build(sts)
  {
    var b := new Builder();
    for i := 0 to |sts|
      invariant fresh(b)
      invariant Run(Start, sts) == Run(b.Abstract(), sts[i..])
    {
      assert sts[i..][1..] == sts[i + 1..];
      var ok := b.Handle(sts[i]);
      if !ok {
        return Err;
      }
    }
    if |b.stack| > 0 {
      return Err;
    }
    b.DoFlushRule();
    b.DoFlushCluster();
    r := ExpandAbstractRules(b.doc);
  }
}
