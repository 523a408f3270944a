/**
 * The loop-boundary stack a path-walking visitor keeps so that it can tell
 * whether the vertex it visits runs once per loop iteration. Entering a loop
 * pushes a `Loop` boundary; a method call that runs only once although it sits
 * under a loop pushes an exclusion boundary that hides the loop.
 *
 * The LoopBoundaryDetector is modelled as the stack itself (top = last
 * element). StaticBlockUtil.isStaticBlockMethodCall and getParent are graph
 * queries, held by `Ast`.
 */
module LoopDetection {
  import opened Wrappers
  import opened Vertices
  import opened Seqs

  datatype Boundary =
    | Loop(item: Vertex)
    | OverridableExclusion(item: Vertex)
    | PermanentExclusion(item: Vertex)
  {
    predicate IsExclusion() {
      OverridableExclusion? || PermanentExclusion?
    }
  }

  datatype Ast = Ast(parent: Vertex -> Option<Vertex>, isStaticBlockMethodCall: Vertex -> bool)

  function Top(stack: seq<Boundary>): Option<Boundary> {
    if stack == [] then None else Some(Last(stack))
  }

  /** A permanent exclusion is active: a static-block call is being visited. */
  predicate UnderPermanentExclusion(stack: seq<Boundary>) {
    exists k | 0 <= k < |stack| :: stack[k].PermanentExclusion?
  }

  /**
   * isInsideLoop: the loop whose boundary is on top, if any. An exclusion
   * boundary on top hides every loop below it; a permanent exclusion anywhere
   * on the stack also hides every loop entered after it, since the static
   * block runs once whatever loops surround it or lie inside it.
   */
  function InsideLoop(stack: seq<Boundary>): Option<Vertex> {
    if UnderPermanentExclusion(stack) then None
    else
      match Top(stack)
      case Some(Loop(v)) => Some(v)
      case _ => None
  }

  /**
   * The exclusion boundaries visiting `call` pushes: nothing outside every
   * loop; otherwise a permanent exclusion for a static-block call, then an
   * overridable exclusion when the top item is a for-each whose collection
   * expression is the call (the call's parent is that for-each).
   */
  function CallExclusions(ast: Ast, stack: seq<Boundary>, call: Vertex): seq<Boundary> {
    match Top(stack)
    case None => []
    case Some(b) =>
      (if ast.isStaticBlockMethodCall(call) then [PermanentExclusion(call)] else []) +
      (if b.item.kind == ForEachStatement && ast.parent(call) == Some(b.item)
       then [OverridableExclusion(call)] else [])
  }

  /** The stack after leaving `call`: its exclusion boundary, if on top, is popped. */
  function LeaveCall(stack: seq<Boundary>, call: Vertex): seq<Boundary> {
    match Top(stack)
    case Some(b) => if b.IsExclusion() && b.item == call then stack[..|stack| - 1] else stack
    case None => stack
  }

  /** The stack after entering each loop of `loops`, outermost first. */
  function EnterLoops(stack: seq<Boundary>, loops: seq<Vertex>): seq<Boundary>
    decreases |loops|
  {
    if loops == [] then stack else EnterLoops(stack, loops[..|loops| - 1]) + [Loop(Last(loops))]
  }

  /**
   * The stack after leaving each loop of `loops` in the order given, or None
   * as soon as a loop is left whose boundary is not on top (the detector's
   * invariant violation).
   */
  function LeaveLoops(stack: seq<Boundary>, loops: seq<Vertex>): Option<seq<Boundary>>
    decreases |loops|
  {
    if loops == [] then Some(stack)
    else if stack != [] && Last(stack).item == loops[0] then LeaveLoops(stack[..|stack| - 1], loops[1..])
    else None
  }

  class LoopDetectionVisitor {
    /** The boundaries of the LoopBoundaryDetector, innermost last. */
    var boundaries: seq<Boundary>

    constructor ()
      ensures boundaries == []
    {
      boundaries := [];
    }

    function Peek(): (top: Option<Boundary>)
      reads this
      ensures top.None? <==> boundaries == []
      ensures top.Some? ==> top.value == boundaries[|boundaries| - 1]
    {
      Top(boundaries)
    }

    method PushBoundary(b: Boundary)
      modifies this
      ensures boundaries == old(boundaries) + [b]
    {
      boundaries := boundaries + [b];
    }

    /** Popping a boundary keyed to another vertex is a fatal misuse, hence the precondition. */
    method PopBoundary(v: Vertex)
      requires boundaries != [] && Last(boundaries).item == v
      modifies this
      ensures boundaries == old(boundaries)[..|old(boundaries)| - 1]
    {
      boundaries := boundaries[..|boundaries| - 1];
    }

    /** visit(DoLoop/ForEach/ForLoop/WhileLoop statement). */
    method VisitLoop(loop: Vertex) returns (visitChildren: bool)
      requires IsLoop(loop.kind)
      modifies this
      ensures visitChildren
      ensures boundaries == old(boundaries) + [Loop(loop)]
    {
      PushBoundary(Loop(loop));
      return true;
    }

    /** afterVisit(DoLoop/ForEach/ForLoop/WhileLoop statement). */
    method AfterVisitLoop(loop: Vertex)
      requires IsLoop(loop.kind)
      requires boundaries != [] && Last(boundaries).item == loop
      modifies this
      ensures boundaries == old(boundaries)[..|old(boundaries)| - 1]
    {
      PopBoundary(loop);
    }

    method VisitMethodCall(ast: Ast, call: Vertex) returns (visitChildren: bool)
      requires call.kind == MethodCallExpression
      modifies this
      ensures visitChildren
      ensures boundaries == old(boundaries) + CallExclusions(ast, old(boundaries), call)
      ensures |old(boundaries)| <= |boundaries| && boundaries[..|old(boundaries)|] == old(boundaries)
    {
      var currentLoopBoundary := Peek();
      if currentLoopBoundary.Some? {
        var loopBoundaryItem := currentLoopBoundary.value.item;
        CreatePermanentLoopExclusionIfApplicable(ast, call);
        CreateOverridableLoopExclusionIfApplicable(ast, call, loopBoundaryItem);
      }
      return true;
    }

    method CreatePermanentLoopExclusionIfApplicable(ast: Ast, call: Vertex)
      modifies this
      ensures boundaries ==
              old(boundaries) + if ast.isStaticBlockMethodCall(call) then [PermanentExclusion(call)] else []
    {
      if ast.isStaticBlockMethodCall(call) {
        PushBoundary(PermanentExclusion(call));
      }
    }

    method CreateOverridableLoopExclusionIfApplicable(ast: Ast, call: Vertex, loopBoundaryItem: Vertex)
      modifies this
      ensures boundaries ==
              old(boundaries) +
              if loopBoundaryItem.kind == ForEachStatement && ast.parent(call) == Some(loopBoundaryItem)
              then [OverridableExclusion(call)] else []
    {
      if loopBoundaryItem.kind == ForEachStatement {
        var parentVertex := ast.parent(call);
        if parentVertex.Some? && parentVertex.value.kind == ForEachStatement && parentVertex.value == loopBoundaryItem {
          PushBoundary(OverridableExclusion(call));
        }
      }
    }

    method AfterVisitMethodCall(call: Vertex)
      requires call.kind == MethodCallExpression
      modifies this
      ensures boundaries == LeaveCall(old(boundaries), call)
    {
      var currentLoopBoundary := Peek();
      if currentLoopBoundary.Some? {
        var loopBoundary := currentLoopBoundary.value;
        if loopBoundary.IsExclusion() && call == loopBoundary.item {
          PopBoundary(call);
        }
      }
    }

    function IsInsideLoop(): (loop: Option<Vertex>)
      reads this
      ensures loop.Some? <==> boundaries != [] && Last(boundaries).Loop? && !UnderPermanentExclusion(boundaries)
      ensures loop.Some? ==> loop.value == Last(boundaries).item
    {
      InsideLoop(boundaries)
    }
  }

  // ------------------------------------------------------------ lemmas

  /**
   * Entering nested loops and leaving them innermost first restores the stack,
   * and at every depth the innermost loop entered is the one reported.
   */
  lemma {:induction false} NestedLoopsUnwind(stack: seq<Boundary>, loops: seq<Vertex>)
    ensures LeaveLoops(EnterLoops(stack, loops), Reverse(loops)) == Some(stack)
    ensures !UnderPermanentExclusion(stack) && loops != [] ==> InsideLoop(EnterLoops(stack, loops)) == Some(Last(loops))
    ensures loops == [] ==> InsideLoop(EnterLoops(stack, loops)) == InsideLoop(stack)
    decreases |loops|
  {
    if loops != [] {
      var init := loops[..|loops| - 1];
      NestedLoopsUnwind(stack, init);
      EnterLoopsPushes(stack, loops);
      var entered := EnterLoops(stack, loops);
      assert entered == EnterLoops(stack, init) + [Loop(Last(loops))];
      assert Reverse(loops) == [Last(loops)] + Reverse(init);
      assert entered[..|entered| - 1] == EnterLoops(stack, init);
      assert Reverse(loops)[1..] == Reverse(init);
    }
  }

  /** Entering loops only adds `Loop` boundaries, one per loop, on top of the stack. */
  lemma {:induction false} EnterLoopsPushes(stack: seq<Boundary>, loops: seq<Vertex>)
    ensures |EnterLoops(stack, loops)| == |stack| + |loops|
    ensures EnterLoops(stack, loops)[..|stack|] == stack
    ensures forall k | 0 <= k < |loops| :: EnterLoops(stack, loops)[|stack| + k] == Loop(loops[k])
    decreases |loops|
  {
    if loops != [] {
      var init := loops[..|loops| - 1];
      EnterLoopsPushes(stack, init);
      var e := EnterLoops(stack, loops);
      assert e == EnterLoops(stack, init) + [Loop(Last(loops))];
      forall k | 0 <= k < |loops| ensures e[|stack| + k] == Loop(loops[k]) {
        if k < |init| {
          assert init[k] == loops[k];
        }
      }
    }
  }

  /**
   * Visiting a method call never removes a boundary: it adds at most two, both
   * exclusions keyed to the call, and none when the stack is empty.
   */
  lemma CallOnlyPushesExclusions(ast: Ast, stack: seq<Boundary>, call: Vertex)
    ensures |CallExclusions(ast, stack, call)| <= 2
    ensures stack == [] ==> CallExclusions(ast, stack, call) == []
    ensures forall b | b in CallExclusions(ast, stack, call) :: b.IsExclusion() && b.item == call
  {
  }

  /** Inside a loop, a static-block call always pushes a permanent exclusion, first. */
  lemma StaticBlockCallPushesPermanent(ast: Ast, stack: seq<Boundary>, call: Vertex)
    ensures PermanentExclusion(call) in CallExclusions(ast, stack, call)
            <==> stack != [] && ast.isStaticBlockMethodCall(call)
    ensures stack != [] && ast.isStaticBlockMethodCall(call) ==>
              CallExclusions(ast, stack, call)[0] == PermanentExclusion(call)
  {
  }

  /**
   * An overridable exclusion is pushed exactly when the top item (looked at
   * before any push) is a for-each and the call's parent is that for-each.
   */
  lemma ForEachCollectionCallPushesOverridable(ast: Ast, stack: seq<Boundary>, call: Vertex)
    ensures OverridableExclusion(call) in CallExclusions(ast, stack, call)
            <==> stack != [] && Last(stack).item.kind == ForEachStatement && ast.parent(call) == Some(Last(stack).item)
  {
  }

  /** A call meeting both rules pushes the permanent exclusion, then the overridable one. */
  lemma BothRulesPushTwo(ast: Ast, stack: seq<Boundary>, call: Vertex)
    requires stack != [] && ast.isStaticBlockMethodCall(call)
    requires Last(stack).item.kind == ForEachStatement && ast.parent(call) == Some(Last(stack).item)
    ensures CallExclusions(ast, stack, call) == [PermanentExclusion(call), OverridableExclusion(call)]
  {
  }

  /** Leaving a call pops one boundary exactly when the top is an exclusion keyed to it. */
  lemma LeaveCallPopsOwnExclusion(stack: seq<Boundary>, call: Vertex)
    ensures |LeaveCall(stack, call)| == |stack| - 1
            <==> stack != [] && Last(stack).IsExclusion() && Last(stack).item == call
    ensures |LeaveCall(stack, call)| != |stack| - 1 ==> LeaveCall(stack, call) == stack
    ensures LeaveCall(stack, call) == stack[..|LeaveCall(stack, call)|]
  {
  }

  /**
   * When the call is not yet on the stack, visiting and leaving it restores the
   * stack unless both rules fired: then the permanent exclusion is left behind.
   */
  lemma CallVisitBalance(ast: Ast, stack: seq<Boundary>, call: Vertex)
    requires forall k | 0 <= k < |stack| :: stack[k].item != call
    ensures |CallExclusions(ast, stack, call)| < 2 ==>
              LeaveCall(stack + CallExclusions(ast, stack, call), call) == stack
    ensures |CallExclusions(ast, stack, call)| == 2 ==>
              LeaveCall(stack + CallExclusions(ast, stack, call), call) == stack + [PermanentExclusion(call)]
  {
    var pushed := CallExclusions(ast, stack, call);
    if pushed == [] {
      assert stack + pushed == stack;
    }
  }

  /**
   * The collection expression of a for-each (`for (s : getValues())`) runs
   * once: while it is visited no loop is reported, and after it the for-each is
   * reported again.
   */
  lemma ForEachCollectionRunsOnce(ast: Ast, stack: seq<Boundary>, forEach: Vertex, call: Vertex)
    requires forEach.kind == ForEachStatement && call.kind == MethodCallExpression
    requires ast.parent(call) == Some(forEach) && !ast.isStaticBlockMethodCall(call)
    ensures var inside := stack + [Loop(forEach)];
            InsideLoop(inside + CallExclusions(ast, inside, call)) == None &&
            LeaveCall(inside + CallExclusions(ast, inside, call), call) == inside &&
            (!UnderPermanentExclusion(stack) ==> InsideLoop(inside) == Some(forEach))
  {
    var inside := stack + [Loop(forEach)];
    assert CallExclusions(ast, inside, call) == [OverridableExclusion(call)];
  }

  /**
   * A static-block call reports no loop, however many loops surround it, and
   * neither does any loop nested inside it while it is being visited.
   */
  lemma StaticBlockCallOutsideLoops(ast: Ast, stack: seq<Boundary>, loops: seq<Vertex>, call: Vertex, inner: seq<Vertex>)
    requires ast.isStaticBlockMethodCall(call)
    requires loops != []
    ensures var visiting := EnterLoops(stack, loops) + CallExclusions(ast, EnterLoops(stack, loops), call);
            InsideLoop(visiting) == None && InsideLoop(EnterLoops(visiting, inner)) == None
  {
    EnterLoopsPushes(stack, loops);
    var visiting := EnterLoops(stack, loops) + CallExclusions(ast, EnterLoops(stack, loops), call);
    assert visiting[|stack| + |loops|] == PermanentExclusion(call);
    LoopsAbovePermanentNotReported(visiting, inner);
    assert inner[..|inner|] == inner;
  }

  /** Loops entered while a permanent exclusion is active are never reported, however deep. */
  lemma {:induction false} LoopsAbovePermanentNotReported(stack: seq<Boundary>, loops: seq<Vertex>)
    requires UnderPermanentExclusion(stack)
    ensures UnderPermanentExclusion(EnterLoops(stack, loops))
    ensures forall k | 0 <= k <= |loops| :: InsideLoop(EnterLoops(stack, loops[..k])) == None
  {
    EnterLoopsPushes(stack, loops);
    var j :| 0 <= j < |stack| && stack[j].PermanentExclusion?;
    assert EnterLoops(stack, loops)[j] == stack[j];
    forall k | 0 <= k <= |loops| ensures InsideLoop(EnterLoops(stack, loops[..k])) == None {
      EnterLoopsPushes(stack, loops[..k]);
      assert EnterLoops(stack, loops[..k])[j] == stack[j];
    }
  }
}
