/** Which bundle a document is read as. The document keeps every field of the text; the bundle keeps the fields
    that evaluation consults. */
module CompiledDocuments {
  import opened Names
  import opened Evidence
  import opened Predicates
  import opened Bundles
  import opened Analysis
  import D = Documents

  function KindText(kind: FieldKind): string {
    match kind
    case NumberKind => "number"
    case BoolKind => "bool"
    case TextKind => "string"
    case TimeKind => "time"
  }

  predicate ExpiryReads(mode: string, literal: string, e: Expiry) {
    match e
    case Ttl(text, _) => mode == "ttl" && literal == text
    case Until(text, _) => mode == "expires" && literal == text
    case Unlimited => false
  }

  predicate SignalReads(o: D.SignalObject, s: Signal) {
    o.name == s.name && o.kind == KindText(s.kind) && ExpiryReads(o.mode, o.literal, s.expiry) && o.source != "" &&
    (o.unit != "" ==> s.kind == NumberKind && IsCanonical(o.unit))
  }

  predicate HeaderReads(h: D.CollectorHeader, c: Collector) {
    h.name == c.name && h.source == c.source && IsCanonical(h.providerType) && IsCanonical(h.connectorKind) &&
    (h.schema != "" ==> IsCanonical(h.schema))
  }

  predicate CollectorReads(o: D.CollectorObject, c: Collector) {
    HeaderReads(o.header, c) && |o.signals| == |c.signals| &&
    forall i :: 0 <= i < |c.signals| ==> SignalReads(o.signals[i], c.signals[i])
  }

  predicate PredicatesRead(os: seq<D.PredicateObject>, ps: seq<Predicate>) {
    |os| == |ps| && forall i :: 0 <= i < |ps| ==> os[i].parsed == ps[i]
  }

  predicate RuleReads(o: D.RuleObject, r: Rule) {
    !o.isAbstract && o.parent == "" && o.name == r.name && o.target == r.target &&
    |o.collectors| == |r.collectors| && (forall i :: 0 <= i < |r.collectors| ==> CollectorReads(o.collectors[i], r.collectors[i])) &&
    PredicatesRead(o.predicates, r.predicates)
  }

  predicate ClusterReads(o: D.ClusterObject, c: Cluster) {
    o.name == c.name && o.rules == c.rules && PredicatesRead(o.predicates, c.predicates)
  }

  /** The document has this bundle's rules, clusters and final policy, written in full. */
  predicate Reads(d: D.Document, b: Bundle) {
    (d.package != "" ==> IsCanonical(d.package)) && (d.name != "" ==> IsCanonical(d.name)) &&
    |d.rules| == |b.rules| && (forall i :: 0 <= i < |b.rules| ==> RuleReads(d.rules[i], b.rules[i])) &&
    |d.clusters| == |b.clusters| && (forall i :: 0 <= i < |b.clusters| ==> ClusterReads(d.clusters[i], b.clusters[i])) &&
    PredicatesRead(d.predicates, b.predicates)
  }

  /** The document compiles, and to this bundle. */
  ghost predicate CompilesTo(d: D.Document, b: Bundle) {
    Reads(d, b) && Compiles(b)
  }
}
