/**
 * The path builder: turns the control-flow routes of one method into ApexPaths,
 * resolving the polarity of every unknown standard condition on the way, and
 * the backward-path filter that keeps only the paths able to reach the start.
 *
 * The graph store is reached only through the queries held by `FlowGraph`:
 * the Gremlin traversal (`routes`), the structural queries and the path
 * expander are its function-valued fields.
 */
module ApexPathUtil {
  import opened Wrappers
  import opened Vertices
  import opened Seqs

  datatype Direction = Forward | Backward

  /** The built-in collapsers and excluders, by name. */
  datatype Policy =
    | ReturnResultPathCollapser
    | SyntheticResultReturnValuePathCollapser
    | BooleanValuePathConditionExcluder
    | ApexPathCaseStatementExcluder
    | NullApexValueConstrainer

  /** A built ApexPathExpanderConfig: the expansion flag and the registered policies, in order. */
  datatype ExpanderConfig = ExpanderConfig(expandMethodCalls: bool, policies: seq<Policy>)

  datatype ApexPath = ApexPath(
    methodVertex: Vertex,
    vertices: seq<Vertex>,
    endsInException: bool,
    throwStatement: Option<Vertex>)

  datatype PathError = UnexpectedException(vertex: Vertex)

  datatype FlowGraph = FlowGraph(
    // method.getOnlyChildOrNull(BLOCK_STATEMENT)
    blockStatementOf: Vertex -> Option<Vertex>,
    // GraphUtil.getControlFlowVertex
    controlFlowVertex: Vertex -> Option<Vertex>,
    // BaseSFVertex.getParentMethod
    parentMethod: Vertex -> Option<Vertex>,
    nextSibling: Vertex -> Option<Vertex>,
    previousSibling: Vertex -> Option<Vertex>,
    // the deduplicated routes of repeat(out/in CFG_PATH).until(no further edge).path()
    routes: (Vertex, Direction) -> seq<seq<Vertex>>,
    // ApexPathExpanderUtil.expand
    expand: (ApexPath, ExpanderConfig) -> seq<ApexPath>)

  // ---------------------------------------------------------------- configs

  /** `Builder.get().expandMethodCalls(flag).build()`: a config with no policy registered. */
  function PlainConfig(expandMethodCalls: bool): (c: ExpanderConfig)
    ensures c.expandMethodCalls == expandMethodCalls
    ensures c.policies == []
  {
    ExpanderConfig(expandMethodCalls, [])
  }

  /** getFullConfiguredPathExpanderConfig: expands calls and registers every known policy. */
  function FullConfiguredConfig(): (c: ExpanderConfig)
    ensures c.expandMethodCalls
    ensures ReturnResultPathCollapser in c.policies && SyntheticResultReturnValuePathCollapser in c.policies
    ensures BooleanValuePathConditionExcluder in c.policies && ApexPathCaseStatementExcluder in c.policies
    ensures NullApexValueConstrainer in c.policies
    ensures forall i, j | 0 <= i < j < |c.policies| :: c.policies[i] != c.policies[j]
  {
    ExpanderConfig(true, [ReturnResultPathCollapser, SyntheticResultReturnValuePathCollapser,
                          BooleanValuePathConditionExcluder, ApexPathCaseStatementExcluder,
                          NullApexValueConstrainer])
  }

  /** getSimpleExpandingConfig: expands calls, no collapser. */
  function SimpleExpandingConfig(): (c: ExpanderConfig)
    ensures c.expandMethodCalls && c.policies == []
  {
    PlainConfig(true)
  }

  /** getSimpleNonExpandingConfig: neither expands calls nor registers a collapser. */
  function SimpleNonExpandingConfig(): (c: ExpanderConfig)
    ensures !c.expandMethodCalls && c.policies == []
  {
    PlainConfig(false)
  }

  // ------------------------------------------------- polarity resolution

  /**
   * The forward walk never runs off the route: an unknown condition always has
   * a following vertex (`it.next()`) and a next sibling to compare it with.
   * The vertex consumed as look-ahead is not examined itself.
   */
  predicate ForwardResolvable(g: FlowGraph, route: seq<Vertex>)
    decreases |route|
  {
    if route == [] then true
    else if IsUnknown(route[0]) then
      |route| >= 2 && g.nextSibling(route[0]).Some? && ForwardResolvable(g, route[2..])
    else ForwardResolvable(g, route[1..])
  }

  /**
   * Forward resolution: an unknown condition becomes positive when the next
   * route vertex is its next sibling, negative otherwise; that next vertex is
   * appended as it is.
   */
  function ResolveForward(g: FlowGraph, route: seq<Vertex>): seq<Vertex>
    requires ForwardResolvable(g, route)
    decreases |route|
  {
    if route == [] then []
    else if IsUnknown(route[0]) then
      [Polarize(route[0], g.nextSibling(route[0]) == Some(route[1])), route[1]]
        + ResolveForward(g, route[2..])
    else [route[0]] + ResolveForward(g, route[1..])
  }

  /**
   * Backward resolution, accumulated in route order: an unknown condition
   * becomes positive when the previous sibling of the vertex accumulated just
   * before it is the condition itself, negative otherwise.
   */
  function ResolveBackward(g: FlowGraph, route: seq<Vertex>): seq<Vertex>
    decreases |route|
  {
    if route == [] then []
    else
      var acc := ResolveBackward(g, route[..|route| - 1]);
      var v := Last(route);
      acc + [if IsUnknown(v) then Polarize(v, acc != [] && g.previousSibling(Last(acc)) == Some(v)) else v]
  }

  /**
   * The backward walk never fails: an unknown condition is never the first
   * vertex (`vertices.get(size - 1)` on an empty list) and the vertex
   * accumulated before it has a previous sibling to compare.
   */
  predicate BackwardResolvable(g: FlowGraph, route: seq<Vertex>)
    decreases |route|
  {
    if route == [] then true
    else
      var prefix := route[..|route| - 1];
      BackwardResolvable(g, prefix) &&
      (IsUnknown(Last(route)) ==>
         var acc := ResolveBackward(g, prefix);
         acc != [] && g.previousSibling(Last(acc)).Some?)
  }

  predicate Resolvable(g: FlowGraph, dir: Direction, route: seq<Vertex>) {
    if dir == Forward then ForwardResolvable(g, route) else BackwardResolvable(g, route)
  }

  /** A raw route the traversal may return from `start`: it begins there and can be resolved. */
  predicate RouteFrom(g: FlowGraph, start: Vertex, dir: Direction, route: seq<Vertex>) {
    |route| > 0 && route[0] == start && Resolvable(g, dir, route)
  }

  predicate RoutesFrom(g: FlowGraph, start: Vertex, dir: Direction, routes: seq<seq<Vertex>>) {
    forall i | 0 <= i < |routes| :: RouteFrom(g, start, dir, routes[i])
  }

  /** The vertices of the path built from one route, in forward order. */
  function RouteVertices(g: FlowGraph, dir: Direction, route: seq<Vertex>): seq<Vertex>
    requires Resolvable(g, dir, route)
  {
    if dir == Forward then ResolveForward(g, route) else Reverse(ResolveBackward(g, route))
  }

  // ------------------------------------------------------------- paths

  /**
   * `new ApexPath(method)` followed by `addVertices`. The ApexPath class is not
   * part of this model: a built path is taken to end in an exception exactly
   * when its last vertex is a throw statement, which is then its throw statement.
   */
  function NewPath(m: Vertex, vertices: seq<Vertex>): (p: ApexPath)
    ensures p.methodVertex == m && p.vertices == vertices
    ensures p.endsInException <==> vertices != [] && Last(vertices).kind == ThrowStatement
    ensures p.throwStatement.Some? <==> p.endsInException
    ensures p.throwStatement.Some? ==> p.throwStatement.value == Last(vertices)
  {
    var throws := |vertices| > 0 && Last(vertices).kind == ThrowStatement;
    ApexPath(m, vertices, throws, if throws then Some(Last(vertices)) else None)
  }

  /** The paths built before expansion: one per route, or the start alone when there is no route. */
  function BuiltPaths(g: FlowGraph, m: Vertex, start: Vertex, dir: Direction,
                      routes: seq<seq<Vertex>>): seq<ApexPath>
    requires RoutesFrom(g, start, dir, routes)
  {
    if routes == [] then [NewPath(m, [start])]
    else seq(|routes|, i requires 0 <= i < |routes| => NewPath(m, RouteVertices(g, dir, routes[i])))
  }

  /** Every path replaced, in order, by the paths the expander makes of it. */
  function ExpandAll(g: FlowGraph, config: ExpanderConfig, paths: seq<ApexPath>): seq<ApexPath>
    decreases |paths|
  {
    if paths == [] then []
    else ExpandAll(g, config, paths[..|paths| - 1]) + g.expand(Last(paths), config)
  }

  /** What getPaths returns. */
  function Paths(g: FlowGraph, m: Vertex, start: Vertex, dir: Direction,
                 config: ExpanderConfig, routes: seq<seq<Vertex>>): seq<ApexPath>
    requires RoutesFrom(g, start, dir, routes)
  {
    var built := BuiltPaths(g, m, start, dir, routes);
    if config.expandMethodCalls then ExpandAll(g, config, built) else built
  }

  /** The backward-path filter: which built paths can reach `start`. */
  predicate ReachesStart(start: Vertex, p: ApexPath) {
    if start.kind == ThrowStatement then p.endsInException && p.throwStatement == Some(start)
    else !p.endsInException
  }

  function KeepReaching(start: Vertex, paths: seq<ApexPath>): (kept: seq<ApexPath>)
    ensures |kept| <= |paths|
    ensures forall p | p in kept :: p in paths && ReachesStart(start, p)
    decreases |paths|
  {
    if paths == [] then []
    else (if ReachesStart(start, paths[0]) then [paths[0]] else []) + KeepReaching(start, paths[1..])
  }

  // ----------------------------------------------------------- methods

  /**
   * What the walk over a route has established after its first i vertices:
   * walking forward, the accumulated vertices followed by the resolution of
   * the rest give the resolution of the whole route; walking backward, they
   * are the resolution of the prefix.
   */
  ghost predicate Walked(g: FlowGraph, dir: Direction, route: seq<Vertex>, i: nat, vertices: seq<Vertex>) {
    i <= |route| &&
    if dir == Forward then
      ForwardResolvable(g, route) && ForwardResolvable(g, route[i..]) &&
      vertices + ResolveForward(g, route[i..]) == ResolveForward(g, route)
    else
      BackwardResolvable(g, route) && vertices == ResolveBackward(g, route[..i])
  }

  /** The inner loop of getPaths: one raw route into the vertices of its path. */
  method ResolveRoute(g: FlowGraph, dir: Direction, route: seq<Vertex>) returns (vertices: seq<Vertex>)
    requires Resolvable(g, dir, route)
    ensures vertices == RouteVertices(g, dir, route)
  {
    vertices := [];
    var i := 0;
    assert route[..0] == [] && route[0..] == route;
    while i < |route|
      invariant Walked(g, dir, route, i, vertices)
      decreases |route| - i
    {
      i, vertices := ResolveNext(g, dir, route, i, vertices);
    }
    if dir == Backward {
      assert route[..i] == route;
      vertices := Reverse(vertices);
    }
  }

  /**
   * One turn of that loop: the next vertex is appended, resolved when it is an
   * unknown condition; walking forward, an unknown condition also consumes
   * the vertex after it, which is appended as it is.
   */
  method ResolveNext(g: FlowGraph, dir: Direction, route: seq<Vertex>, i: nat, vertices: seq<Vertex>)
    returns (next: nat, result: seq<Vertex>)
    requires i < |route| && Walked(g, dir, route, i, vertices)
    ensures i < next <= |route| && Walked(g, dir, route, next, result)
    ensures next == if dir == Forward && IsUnknown(route[i]) then i + 2 else i + 1
    ensures !IsUnknown(route[i]) ==> result == vertices + [route[i]]
    ensures dir == Forward && IsUnknown(route[i]) ==>
              result == vertices + [Polarize(route[i], g.nextSibling(route[i]) == Some(route[i + 1])), route[i + 1]]
    ensures dir == Backward && IsUnknown(route[i]) ==>
              vertices != [] &&
              result == vertices + [Polarize(route[i], g.previousSibling(Last(vertices)) == Some(route[i]))]
  {
    var v := route[i];
    if dir == Backward {
      BackwardStep(g, route, i);
    } else {
      ForwardStep(g, route, i);
    }
    if IsUnknown(v) {
      if dir == Backward {
        var lastVertex := vertices[|vertices| - 1];
        if g.previousSibling(lastVertex) == Some(v) {
          result := vertices + [Polarize(v, true)];
        } else {
          result := vertices + [Polarize(v, false)];
        }
        next := i + 1;
      } else {
        var nextVertexInPath := route[i + 1];
        if g.nextSibling(v) == Some(nextVertexInPath) {
          result := vertices + [Polarize(v, true)];
        } else {
          result := vertices + [Polarize(v, false)];
        }
        result := result + [nextVertexInPath];
        assert result + ResolveForward(g, route[i + 2..]) == vertices + ResolveForward(g, route[i..]);
        next := i + 2;
      }
    } else {
      result := vertices + [v];
      next := i + 1;
      assert dir == Forward ==> result + ResolveForward(g, route[i + 1..]) == vertices + ResolveForward(g, route[i..]);
    }
  }

  /** getPaths, from the routes the traversal returned for `start`. */
  method GetPaths(g: FlowGraph, m: Vertex, start: Vertex, dir: Direction,
                  config: ExpanderConfig, routes: seq<seq<Vertex>>) returns (paths: seq<ApexPath>)
    requires RoutesFrom(g, start, dir, routes)
    ensures paths == Paths(g, m, start, dir, config, routes)
  {
    var results: seq<ApexPath> := [];
    if routes == [] {
      // an empty method
      results := [NewPath(m, [start])];
    } else {
      var i := 0;
      while i < |routes|
        invariant 0 <= i <= |routes|
        invariant |results| == i
        invariant forall k :: 0 <= k < i ==> results[k] == NewPath(m, RouteVertices(g, dir, routes[k]))
      {
        var vertices := ResolveRoute(g, dir, routes[i]);
        results := results + [NewPath(m, vertices)];
        i := i + 1;
      }
    }
    assert results == BuiltPaths(g, m, start, dir, routes);
    if config.expandMethodCalls {
      paths := ExpandPaths(g, config, results);
    } else {
      paths := results;
    }
  }

  /** The expansion loop of getPaths: each path replaced, in order, by its expansions. */
  method ExpandPaths(g: FlowGraph, config: ExpanderConfig, results: seq<ApexPath>) returns (expandedPaths: seq<ApexPath>)
    ensures expandedPaths == ExpandAll(g, config, results)
  {
    expandedPaths := [];
    var j := 0;
    while j < |results|
      invariant 0 <= j <= |results|
      invariant expandedPaths == ExpandAll(g, config, results[..j])
    {
      assert results[..j + 1][..j] == results[..j];
      expandedPaths := expandedPaths + g.expand(results[j], config);
      j := j + 1;
    }
    assert results[..j] == results;
  }

  const SyntheticBlock := Vertex(-1, BlockStatement)

  /** The graph can serve a forward build of `m`: its block, when it has one, is a block statement with usable routes. */
  predicate ForwardReady(g: FlowGraph, m: Vertex) {
    match g.blockStatementOf(m)
    case None => true
    case Some(block) => block.kind == BlockStatement && RoutesFrom(g, block, Forward, g.routes(block, Forward))
  }

  method GetForwardPaths(g: FlowGraph, m: Vertex, config: ExpanderConfig) returns (paths: seq<ApexPath>)
    requires ForwardReady(g, m)
    ensures g.blockStatementOf(m).None? ==> paths == [ApexPath(m, [Vertex(-1, BlockStatement)], false, None)]
    ensures g.blockStatementOf(m).Some? ==>
              var block := g.blockStatementOf(m).value;
              paths == Paths(g, m, block, Forward, config, g.routes(block, Forward))
  {
    var blockStatement := g.blockStatementOf(m);
    if blockStatement.None? {
      // default constructors have no block statement: a synthetic one stands in
      paths := [NewPath(m, [SyntheticBlock])];
    } else {
      var block := blockStatement.value;
      paths := GetPaths(g, m, block, Forward, config, g.routes(block, Forward));
    }
  }

  /** The overloads taking only the expansion flag (the flag defaults to true). */
  method GetForwardPathsExpanding(g: FlowGraph, m: Vertex, expandMethodCalls: bool) returns (paths: seq<ApexPath>)
    requires ForwardReady(g, m)
    ensures g.blockStatementOf(m).None? ==> paths == [ApexPath(m, [Vertex(-1, BlockStatement)], false, None)]
    ensures g.blockStatementOf(m).Some? ==>
              var block := g.blockStatementOf(m).value;
              paths == Paths(g, m, block, Forward, PlainConfig(expandMethodCalls), g.routes(block, Forward))
  {
    paths := GetForwardPaths(g, m, PlainConfig(expandMethodCalls));
  }

  /** The graph can serve a backward build from `start`, once its control-flow vertex is found. */
  predicate ReverseReady(g: FlowGraph, start: Vertex) {
    match g.controlFlowVertex(start)
    case None => true
    case Some(top) => g.parentMethod(top).Some? && RoutesFrom(g, top, Backward, g.routes(top, Backward))
  }

  method GetReversePaths(g: FlowGraph, start: Vertex, config: ExpanderConfig)
    returns (result: Result<seq<ApexPath>, PathError>)
    requires ReverseReady(g, start)
    ensures g.controlFlowVertex(start).None? ==> result == Err(UnexpectedException(start))
    ensures g.controlFlowVertex(start).Some? ==>
              var top := g.controlFlowVertex(start).value;
              result == Ok(KeepReaching(start, Paths(g, g.parentMethod(top).value, top, Backward,
                                                    config, g.routes(top, Backward))))
  {
    var topLevel := g.controlFlowVertex(start);
    if topLevel.None? {
      return Err(UnexpectedException(start));
    }
    var top := topLevel.value;
    var m := g.parentMethod(top).value;
    var paths := GetPaths(g, m, top, Backward, config, g.routes(top, Backward));
    return Ok(KeepReaching(start, paths));
  }

  method GetReversePathsExpanding(g: FlowGraph, start: Vertex, expandMethodCalls: bool)
    returns (result: Result<seq<ApexPath>, PathError>)
    requires ReverseReady(g, start)
    ensures g.controlFlowVertex(start).None? ==> result == Err(UnexpectedException(start))
    ensures g.controlFlowVertex(start).Some? ==>
              var top := g.controlFlowVertex(start).value;
              result == Ok(KeepReaching(start, Paths(g, g.parentMethod(top).value, top, Backward,
                                                    PlainConfig(expandMethodCalls), g.routes(top, Backward))))
  {
    result := GetReversePaths(g, start, PlainConfig(expandMethodCalls));
  }

  // ------------------------------------------------------------ lemmas

  /** One step of the forward walk from position i. */
  lemma ForwardStep(g: FlowGraph, route: seq<Vertex>, i: nat)
    requires i < |route| && ForwardResolvable(g, route[i..])
    ensures IsUnknown(route[i]) ==>
              i + 1 < |route| && ForwardResolvable(g, route[i + 2..]) &&
              ResolveForward(g, route[i..]) ==
              [Polarize(route[i], g.nextSibling(route[i]) == Some(route[i + 1])), route[i + 1]]
                + ResolveForward(g, route[i + 2..])
    ensures !IsUnknown(route[i]) ==>
              ForwardResolvable(g, route[i + 1..]) &&
              ResolveForward(g, route[i..]) == [route[i]] + ResolveForward(g, route[i + 1..])
  {
    if IsUnknown(route[i]) {
      assert route[i..][2..] == route[i + 2..];
    } else {
      assert route[i..][1..] == route[i + 1..];
    }
  }

  /** One step of the backward walk at position i. */
  lemma BackwardStep(g: FlowGraph, route: seq<Vertex>, i: nat)
    requires i < |route| && BackwardResolvable(g, route)
    ensures BackwardResolvable(g, route[..i]) && BackwardResolvable(g, route[..i + 1])
    ensures var acc := ResolveBackward(g, route[..i]);
            (IsUnknown(route[i]) ==> acc != [] && g.previousSibling(Last(acc)).Some?) &&
            ResolveBackward(g, route[..i + 1]) ==
            acc + [if IsUnknown(route[i]) then Polarize(route[i], g.previousSibling(Last(acc)) == Some(route[i]))
                   else route[i]]
  {
    BackwardPrefixResolvable(g, route, i);
    BackwardPrefixResolvable(g, route, i + 1);
    assert route[..i + 1][..i] == route[..i];
  }

  lemma {:induction false} BackwardPrefixResolvable(g: FlowGraph, route: seq<Vertex>, n: nat)
    requires n <= |route|
    requires BackwardResolvable(g, route)
    ensures BackwardResolvable(g, route[..n])
    decreases |route|
  {
    if n < |route| {
      var prefix := route[..|route| - 1];
      BackwardPrefixResolvable(g, prefix, n);
      assert prefix[..n] == route[..n];
    } else {
      assert route[..n] == route;
    }
  }

  /** No two unknown conditions follow each other on the route. */
  predicate NoAdjacentUnknowns(route: seq<Vertex>) {
    forall k | 0 <= k < |route| - 1 :: !(IsUnknown(route[k]) && IsUnknown(route[k + 1]))
  }

  /** Forward resolution replaces vertices one for one and only touches unknown conditions. */
  lemma {:induction false} ForwardResolutionOneForOne(g: FlowGraph, route: seq<Vertex>)
    requires ForwardResolvable(g, route)
    ensures |ResolveForward(g, route)| == |route|
    ensures forall k | 0 <= k < |route| :: ResolveForward(g, route)[k].id == route[k].id
    ensures forall k | 0 <= k < |route| && !IsUnknown(route[k]) :: ResolveForward(g, route)[k] == route[k]
    decreases |route|
  {
    if route != [] {
      var out := ResolveForward(g, route);
      if IsUnknown(route[0]) {
        var rest := route[2..];
        ForwardResolutionOneForOne(g, rest);
        forall k | 2 <= k < |route| ensures out[k] == ResolveForward(g, rest)[k - 2] && route[k] == rest[k - 2] { }
      } else {
        var rest := route[1..];
        ForwardResolutionOneForOne(g, rest);
        forall k | 1 <= k < |route| ensures out[k] == ResolveForward(g, rest)[k - 1] && route[k] == rest[k - 1] { }
      }
    }
  }

  /**
   * The positions of `route` at which the forward walk reads a vertex with
   * `it.next()` at the top of its loop: position 0, then two further after an
   * unknown condition (its look-ahead is consumed with it) and one further
   * otherwise.
   */
  predicate WalkPosition(route: seq<Vertex>, k: int)
    decreases |route|
  {
    if route == [] then false
    else if k == 0 then true
    else
      var step := if IsUnknown(route[0]) then 2 else 1;
      step <= k && step <= |route| && WalkPosition(route[step..], k - step)
  }

  /** Past the first step, the walk positions of a route are those of its rest, shifted. */
  lemma WalkPositionShift(route: seq<Vertex>, k: int)
    requires route != [] && (if IsUnknown(route[0]) then 2 else 1) <= k < |route|
    ensures var step := if IsUnknown(route[0]) then 2 else 1;
            WalkPosition(route, k) == WalkPosition(route[step..], k - step)
  {
  }

  /**
   * Forward resolution, whatever the route, at the positions the walk reads:
   * an unknown condition there is resolved against the vertex after it, and
   * that vertex is appended unchanged.
   */
  lemma {:induction false} ForwardWalkReads(g: FlowGraph, route: seq<Vertex>)
    requires ForwardResolvable(g, route)
    ensures |ResolveForward(g, route)| == |route|
    ensures forall k | 0 <= k < |route| && WalkPosition(route, k) && IsUnknown(route[k]) ::
              k + 1 < |route| &&
              ResolveForward(g, route)[k] == Polarize(route[k], g.nextSibling(route[k]) == Some(route[k + 1])) &&
              ResolveForward(g, route)[k + 1] == route[k + 1]
    decreases |route|
  {
    ForwardResolutionOneForOne(g, route);
    if route != [] {
      var out := ResolveForward(g, route);
      var step := if IsUnknown(route[0]) then 2 else 1;
      var rest := route[step..];
      ForwardWalkReads(g, rest);
      ForwardResolutionOneForOne(g, rest);
      forall k | step <= k < |route| && WalkPosition(route, k) && IsUnknown(route[k])
        ensures k + 1 < |route| && out[k] == Polarize(route[k], g.nextSibling(route[k]) == Some(route[k + 1]))
        ensures out[k + 1] == route[k + 1]
      {
        WalkPositionShift(route, k);
        var j := k - step;
        assert rest[j] == route[k];
        assert j + 1 < |rest| && rest[j + 1] == route[k + 1];
        assert out[k] == ResolveForward(g, rest)[j] && out[k + 1] == ResolveForward(g, rest)[j + 1];
      }
    }
  }

  /**
   * Every position the forward walk does not read is the look-ahead of an
   * unknown condition it did read, and is appended unchanged (an unknown
   * condition there stays unknown).
   */
  lemma {:induction false} ForwardWalkSkips(g: FlowGraph, route: seq<Vertex>)
    requires ForwardResolvable(g, route)
    ensures |ResolveForward(g, route)| == |route|
    ensures forall k | 0 <= k < |route| && !WalkPosition(route, k) ::
              0 < k && WalkPosition(route, k - 1) && IsUnknown(route[k - 1]) &&
              ResolveForward(g, route)[k] == route[k]
    decreases |route|
  {
    ForwardResolutionOneForOne(g, route);
    if route != [] {
      var out := ResolveForward(g, route);
      var step := if IsUnknown(route[0]) then 2 else 1;
      var rest := route[step..];
      ForwardWalkSkips(g, rest);
      ForwardResolutionOneForOne(g, rest);
      forall k | step <= k < |route| && !WalkPosition(route, k)
        ensures 0 < k && WalkPosition(route, k - 1) && IsUnknown(route[k - 1]) && out[k] == route[k]
      {
        WalkPositionShift(route, k);
        var j := k - step;
        assert rest[j] == route[k] && out[k] == ResolveForward(g, rest)[j];
        assert rest[j - 1] == route[k - 1];
        if k - 1 >= step {
          WalkPositionShift(route, k - 1);
        }
      }
      if step == 2 {
        assert !WalkPosition(route, 1);
      }
    }
  }

  /**
   * Corollary: when no two unknown conditions are adjacent the walk reads
   * every unknown condition, so each is resolved and none is left.
   */
  lemma {:induction false} ForwardPolarity(g: FlowGraph, route: seq<Vertex>)
    requires ForwardResolvable(g, route)
    requires NoAdjacentUnknowns(route)
    ensures |ResolveForward(g, route)| == |route|
    ensures forall k | 0 <= k < |route| && IsUnknown(route[k]) ::
              k + 1 < |route| &&
              ResolveForward(g, route)[k] == Polarize(route[k], g.nextSibling(route[k]) == Some(route[k + 1]))
    ensures forall k | 0 <= k < |ResolveForward(g, route)| :: !IsUnknown(ResolveForward(g, route)[k])
  {
    ForwardWalkReads(g, route);
    ForwardWalkSkips(g, route);
    ForwardResolutionOneForOne(g, route);
    var out := ResolveForward(g, route);
    forall k | 0 <= k < |route| && IsUnknown(route[k]) ensures WalkPosition(route, k) {
      assert 0 < k ==> !IsUnknown(route[k - 1]);
    }
    forall k | 0 <= k < |out| ensures !IsUnknown(out[k]) {
      if IsUnknown(route[k]) {
        assert WalkPosition(route, k) && k + 1 < |route|;
        assert out[k] == Polarize(route[k], g.nextSibling(route[k]) == Some(route[k + 1]));
      }
    }
  }

  /** Backward resolution replaces vertices one for one and leaves no unknown condition. */
  lemma {:induction false} BackwardResolutionOneForOne(g: FlowGraph, route: seq<Vertex>)
    requires BackwardResolvable(g, route)
    ensures |ResolveBackward(g, route)| == |route|
    ensures forall k | 0 <= k < |route| :: ResolveBackward(g, route)[k].id == route[k].id
    ensures forall k | 0 <= k < |route| && !IsUnknown(route[k]) :: ResolveBackward(g, route)[k] == route[k]
    ensures forall k | 0 <= k < |route| :: !IsUnknown(ResolveBackward(g, route)[k])
    decreases |route|
  {
    if route != [] {
      var n := |route|;
      var prefix := route[..n - 1];
      BackwardResolutionOneForOne(g, prefix);
      var acc := ResolveBackward(g, prefix);
      var out := ResolveBackward(g, route);
      assert out == acc + [out[n - 1]];
      forall k | 0 <= k < n - 1 ensures out[k] == acc[k] && route[k] == prefix[k] { }
    }
  }

  /**
   * Backward resolution resolves each unknown condition against the previous
   * sibling of the vertex accumulated just before it.
   */
  lemma {:induction false} BackwardPolarity(g: FlowGraph, route: seq<Vertex>)
    requires BackwardResolvable(g, route)
    ensures |ResolveBackward(g, route)| == |route|
    ensures forall k | 0 < k < |route| && IsUnknown(route[k]) ::
              ResolveBackward(g, route)[k] ==
              Polarize(route[k], g.previousSibling(ResolveBackward(g, route)[k - 1]) == Some(route[k]))
    decreases |route|
  {
    BackwardResolutionOneForOne(g, route);
    if route != [] {
      var n := |route|;
      var prefix := route[..n - 1];
      BackwardPolarity(g, prefix);
      var acc := ResolveBackward(g, prefix);
      var out := ResolveBackward(g, route);
      assert out == acc + [out[n - 1]];
      forall k | 0 <= k < n - 1 ensures out[k] == acc[k] && route[k] == prefix[k] { }
    }
  }

  /**
   * The path built from a route has the route's length and keeps its vertices
   * (by id) in forward order: it starts at the start vertex when walking
   * forward, and ends there once a backward route is reversed.
   */
  lemma RouteVerticesShape(g: FlowGraph, start: Vertex, dir: Direction, route: seq<Vertex>)
    requires RouteFrom(g, start, dir, route)
    requires !IsUnknown(start)
    ensures |RouteVertices(g, dir, route)| == |route|
    ensures dir == Forward ==>
              RouteVertices(g, dir, route)[0] == start &&
              forall k | 0 <= k < |route| :: RouteVertices(g, dir, route)[k].id == route[k].id
    ensures dir == Backward ==>
              Last(RouteVertices(g, dir, route)) == start &&
              forall k | 0 <= k < |route| :: RouteVertices(g, dir, route)[k].id == route[|route| - 1 - k].id
  {
    var rv := RouteVertices(g, dir, route);
    if dir == Forward {
      ForwardResolutionOneForOne(g, route);
      assert rv == ResolveForward(g, route);
    } else {
      var back := ResolveBackward(g, route);
      BackwardResolutionOneForOne(g, route);
      ReverseAt(back);
      assert rv == Reverse(back);
      forall k | 0 <= k < |route| ensures rv[k].id == route[|route| - 1 - k].id {
        assert rv[k] == back[|route| - 1 - k];
      }
      assert Last(rv) == back[0] == route[0];
    }
  }

  /**
   * Before expansion there is one path per route, in route order, each as long
   * as its route and anchored at the start vertex; without routes there is a
   * single path holding only the start vertex.
   */
  lemma BuiltPathsShape(g: FlowGraph, m: Vertex, start: Vertex, dir: Direction, routes: seq<seq<Vertex>>)
    requires RoutesFrom(g, start, dir, routes)
    requires !IsUnknown(start)
    ensures routes == [] ==> BuiltPaths(g, m, start, dir, routes) == [ApexPath(m, [start], start.kind == ThrowStatement,
                                                                             if start.kind == ThrowStatement then Some(start) else None)]
    ensures routes != [] ==> |BuiltPaths(g, m, start, dir, routes)| == |routes|
    ensures forall i | 0 <= i < |routes| ::
              var p := BuiltPaths(g, m, start, dir, routes)[i];
              p.methodVertex == m && |p.vertices| == |routes[i]| &&
              (dir == Forward ==> p.vertices[0] == start) &&
              (dir == Backward ==> Last(p.vertices) == start)
  {
    forall i | 0 <= i < |routes|
      ensures var p := BuiltPaths(g, m, start, dir, routes)[i];
              p.methodVertex == m && |p.vertices| == |routes[i]| &&
              (dir == Forward ==> p.vertices[0] == start) &&
              (dir == Backward ==> Last(p.vertices) == start)
    {
      RouteVerticesShape(g, start, dir, routes[i]);
    }
  }

  /** A path is in the expansion exactly when the expander made it from one of the built paths. */
  lemma {:induction false} ExpandAllMembers(g: FlowGraph, config: ExpanderConfig, paths: seq<ApexPath>, q: ApexPath)
    ensures q in ExpandAll(g, config, paths) <==> exists i :: 0 <= i < |paths| && q in g.expand(paths[i], config)
    decreases |paths|
  {
    if paths != [] {
      var n := |paths|;
      var init := paths[..n - 1];
      ExpandAllMembers(g, config, init, q);
      if q in ExpandAll(g, config, paths) && q !in g.expand(paths[n - 1], config) {
        var i :| 0 <= i < |init| && q in g.expand(init[i], config);
        assert init[i] == paths[i];
      }
      if exists i :: 0 <= i < n && q in g.expand(paths[i], config) {
        var i :| 0 <= i < n && q in g.expand(paths[i], config);
        if i < n - 1 {
          assert init[i] == paths[i];
        }
      }
    }
  }

  /** An expander that returns every path as it is leaves the built paths unchanged. */
  lemma {:induction false} ExpandAllIdentity(g: FlowGraph, config: ExpanderConfig, paths: seq<ApexPath>)
    requires forall i | 0 <= i < |paths| :: g.expand(paths[i], config) == [paths[i]]
    ensures ExpandAll(g, config, paths) == paths
    decreases |paths|
  {
    if paths != [] {
      var init := paths[..|paths| - 1];
      forall i | 0 <= i < |init| ensures g.expand(init[i], config) == [init[i]] {
        assert init[i] == paths[i];
      }
      ExpandAllIdentity(g, config, init);
      assert init + [Last(paths)] == paths;
    }
  }

  /** The filter keeps exactly the paths that reach the start, in their original order. */
  lemma {:induction false} KeepReachingExactly(start: Vertex, paths: seq<ApexPath>)
    ensures forall p :: p in KeepReaching(start, paths) <==> p in paths && ReachesStart(start, p)
    ensures IsSubsequence(KeepReaching(start, paths), paths)
    decreases |paths|
  {
    if paths != [] {
      var rest := paths[1..];
      KeepReachingExactly(start, rest);
      var out := KeepReaching(start, paths);
      assert forall p :: p in paths <==> p == paths[0] || p in rest;
      if ReachesStart(start, paths[0]) {
        assert out[0] == paths[0] && out[1..] == KeepReaching(start, rest);
      } else {
        assert out == KeepReaching(start, rest);
        if out != [] {
          assert IsSubsequence(out, paths);
        }
      }
    }
  }

  /** From a throw statement only the paths ending in that very throw survive. */
  lemma ThrowStartKeepsOwnThrow(start: Vertex, paths: seq<ApexPath>)
    requires start.kind == ThrowStatement
    ensures forall p | p in KeepReaching(start, paths) :: p.endsInException && p.throwStatement == Some(start)
    ensures forall p | p in paths && p.endsInException && p.throwStatement == Some(start) :: p in KeepReaching(start, paths)
    ensures IsSubsequence(KeepReaching(start, paths), paths)
  {
    KeepReachingExactly(start, paths);
  }

  /** From any other vertex no path ending in an exception survives, and every other path does. */
  lemma OtherStartDropsExceptions(start: Vertex, paths: seq<ApexPath>)
    requires start.kind != ThrowStatement
    ensures forall p | p in KeepReaching(start, paths) :: !p.endsInException
    ensures forall p | p in paths && !p.endsInException :: p in KeepReaching(start, paths)
    ensures IsSubsequence(KeepReaching(start, paths), paths)
  {
    KeepReachingExactly(start, paths);
  }
}
