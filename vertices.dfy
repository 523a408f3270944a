/**
 * Vertices of the flow graph, reduced to what the path builder and the loop
 * visitor dispatch on: a stable id and the vertex class (its kind).
 */
module Vertices {

  /** The vertex classes the core tells apart; every other class is `Other`. */
  datatype Kind =
    | MethodDecl
    | BlockStatement
    | UnknownCondition      // StandardConditionVertex.Unknown
    | PositiveCondition     // StandardConditionVertex.Positive
    | NegativeCondition     // StandardConditionVertex.Negative
    | ThrowStatement
    | DoLoopStatement
    | ForEachStatement
    | ForLoopStatement
    | WhileLoopStatement
    | MethodCallExpression
    | Other

  datatype Vertex = Vertex(id: int, kind: Kind)

  /** The four loop statements whose visit opens a loop boundary. */
  predicate IsLoop(k: Kind) {
    k == DoLoopStatement || k == ForEachStatement || k == ForLoopStatement || k == WhileLoopStatement
  }

  predicate IsUnknown(v: Vertex) {
    v.kind == UnknownCondition
  }

  /** `convertToPositive` / `convertToNegative`: the same graph vertex with its polarity fixed. */
  function Polarize(cond: Vertex, positive: bool): (resolved: Vertex)
    requires IsUnknown(cond)
    ensures resolved.id == cond.id && !IsUnknown(resolved)
    ensures resolved.kind == PositiveCondition <==> positive
    ensures resolved.kind == NegativeCondition <==> !positive
  {
    Vertex(cond.id, if positive then PositiveCondition else NegativeCondition)
  }
}
