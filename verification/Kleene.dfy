/** Three-valued evaluation of quorum expressions. */
module Kleene {
  import opened Names
  import opened QuorumSyntax

  datatype Tri = False | True | Unknown

  function TriNot(a: Tri): Tri {
    match a case True => False case False => True case Unknown => Unknown
  }

  function TriBinary(op: Op, a: Tri, b: Tri): Tri {
    match op
    case And => if a == False || b == False then False else if a == Unknown || b == Unknown then Unknown else True
    case Or => if a == True || b == True then True else if a == Unknown || b == Unknown then Unknown else False
  }

  /** The value of `e` when `reading` gives the value of each folded subject name. */
  function Evaluate(e: Expr, reading: string -> Tri): Tri {
    match e
    case Malformed => False
    case Subject(name) => reading(NormalizeIdentifier(name))
    case Not(x) => TriNot(Evaluate(x, reading))
    case Binary(op, l, r) => TriBinary(op, Evaluate(l, reading), Evaluate(r, reading))
  }
}
