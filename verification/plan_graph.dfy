/** Prerequisite graphs of plan documents: cycle detection by depth-first search, and document validation. */
module PlanGraph {
  import opened Text

  type Deps = map<string, seq<string>>

  /** Each step of the walk goes from an operation to one it requires. */
  ghost predicate Walk(deps: Deps, p: seq<string>) {
    |p| > 0 && forall i {:trigger p[i]} :: 0 < i < |p| ==> p[i] in At(deps, p[i - 1])
  }

  ghost predicate HasCycle(deps: Deps) { exists p :: Walk(deps, p) && |p| > 1 && p[0] == p[|p| - 1] }

  /** The operations in an order in which every requirement comes before what requires it. */
  ghost predicate Ordered(deps: Deps, order: seq<string>) {
    Distinct(order) && forall i, y :: 0 <= i < |order| && y in At(deps, order[i]) ==> y in order[..i]
  }

  ghost predicate Covers(deps: Deps, order: seq<string>) { forall x :: x in deps ==> x in order }

  /** A walk of more than one step along an order goes back in it. */
  lemma {:induction false} WalkDescends(deps: Deps, order: seq<string>, p: seq<string>, i: nat) returns (j: nat)
    requires Ordered(deps, order) && Walk(deps, p) && |p| > 1 && i < |order| && p[0] == order[i]
    ensures j < i && p[|p| - 1] == order[j]
  {
    var n := |p| - 1;
    var at := i;
    if n > 1 {
      assert Walk(deps, p[..n]);
      at := WalkDescends(deps, order, p[..n], i);
    }
    assert p[n] in At(deps, p[n - 1]);
    j :| 0 <= j < at && order[j] == p[n];
  }

  /** An order that covers every operation with requirements excludes cycles. */
  lemma OrderExcludesCycle(deps: Deps, order: seq<string>)
    requires Ordered(deps, order) && Covers(deps, order)
    ensures !HasCycle(deps)
  {
    forall p | Walk(deps, p) && |p| > 1 ensures p[0] != p[|p| - 1] {
      assert p[1] in At(deps, p[0]);
      var i :| 0 <= i < |order| && order[i] == p[0];
      var j := WalkDescends(deps, order, p, i);
    }
  }

  datatype Mark = Visiting | Visited

  /** The marks of a search: the stack is the walk that is being followed, the order what is finished. */
  ghost predicate Search(deps: Deps, marks: map<string, Mark>, stack: seq<string>, order: seq<string>) {
    && (forall x :: x in marks && marks[x] == Visiting <==> x in stack)
    && (forall x :: x in marks && marks[x] == Visited <==> x in order)
    && Ordered(deps, order) && (stack == [] || Walk(deps, stack))
  }

  /** Coming back to a node on the stack closes a cycle. */
  lemma StackCycle(deps: Deps, stack: seq<string>, node: string)
    requires node in stack && Walk(deps, stack) && node in At(deps, stack[|stack| - 1])
    ensures HasCycle(deps)
  {
    var i :| 0 <= i < |stack| && stack[i] == node;
    var p := stack[i..] + [node];
    forall k {:trigger p[k]} | 0 < k < |p| ensures p[k] in At(deps, p[k - 1]) {
      if k < |p| - 1 { assert p[k] == stack[i + k] && p[k - 1] == stack[i + k - 1]; }
    }
    assert Walk(deps, p) && p[0] == p[|p| - 1];
  }

  lemma Push(deps: Deps, marks: map<string, Mark>, stack: seq<string>, order: seq<string>, node: string)
    requires Search(deps, marks, stack, order) && node !in marks
      && (stack == [] || node in At(deps, stack[|stack| - 1]))
    ensures Search(deps, marks[node := Visiting], stack + [node], order)
  {
    var p := stack + [node];
    forall k {:trigger p[k]} | 0 < k < |p| ensures p[k] in At(deps, p[k - 1]) {
      if k < |stack| { assert p[k] == stack[k] && p[k - 1] == stack[k - 1]; }
    }
  }

  lemma Pop(deps: Deps, marks: map<string, Mark>, stack: seq<string>, order: seq<string>, node: string)
    requires Search(deps, marks, stack + [node], order) && node !in stack && (stack == [] || Walk(deps, stack))
    requires forall y :: y in At(deps, node) ==> y in order
    ensures Search(deps, marks[node := Visited], stack, order + [node])
  {
    assert node in stack + [node];
    Finish(deps, order, node);
  }

  lemma Finish(deps: Deps, order: seq<string>, node: string)
    requires Ordered(deps, order) && node !in order && forall y :: y in At(deps, node) ==> y in order
    ensures Ordered(deps, order + [node])
  {
    var r := order + [node];
    forall i, y | 0 <= i < |r| && y in At(deps, r[i]) ensures y in r[..i] {
      if i < |order| { assert r[..i] == order[..i]; } else { assert r[..i] == order; }
    }
  }

  ghost predicate Closed(deps: Deps, nodes: set<string>) {
    forall x, y :: x in nodes && y in At(deps, x) ==> y in nodes
  }

  /** Follows the requirements of one operation. `nodes` bounds the search. */
  method Visit(deps: Deps, node: string, marks: map<string, Mark>, ghost stack: seq<string>, ghost order: seq<string>,
      ghost nodes: set<string>)
    returns (cycle: Option<string>, marks': map<string, Mark>, ghost order': seq<string>)
    requires Search(deps, marks, stack, order) && node in nodes && Closed(deps, nodes)
    requires stack == [] || node in At(deps, stack[|stack| - 1])
    ensures cycle.Some? ==> HasCycle(deps)
    ensures cycle.None? ==> Search(deps, marks', stack, order') && node in order' && order <= order'
    ensures marks.Keys <= marks'.Keys
    decreases nodes - marks.Keys, 0
  {
    if node in marks {
      if marks[node] == Visiting {
        StackCycle(deps, stack, node);
        return Some(node), marks, order;
      }
      return None, marks, order;
    }
    Push(deps, marks, stack, order, node);
    cycle, marks', order' := VisitAll(deps, node, marks[node := Visiting], stack, order, nodes);
    if cycle.None? {
      Pop(deps, marks', stack, order', node);
      marks', order' := marks'[node := Visited], order' + [node];
    }
  }

  method VisitAll(deps: Deps, node: string, marks: map<string, Mark>, ghost stack: seq<string>,
      ghost order: seq<string>, ghost nodes: set<string>)
    returns (cycle: Option<string>, marks': map<string, Mark>, ghost order': seq<string>)
    requires Search(deps, marks, stack + [node], order) && node in nodes && Closed(deps, nodes)
    ensures cycle.Some? ==> HasCycle(deps)
    ensures cycle.None? ==> Search(deps, marks', stack + [node], order') && order <= order'
                            && forall y :: y in At(deps, node) ==> y in order'
    ensures marks.Keys <= marks'.Keys
    decreases nodes - marks.Keys, 1
  {
    var required := At(deps, node);
    marks', order' := marks, order;
    for i := 0 to |required|
      invariant Search(deps, marks', stack + [node], order') && order <= order' && marks.Keys <= marks'.Keys
      invariant forall k :: 0 <= k < i ==> required[k] in order'
    {
      cycle, marks', order' := Visit(deps, required[i], marks', stack + [node], order', nodes);
      if cycle.Some? { return; }
    }
    cycle := None;
  }

  /** dependencyCycle: an operation on a cycle, or an order that proves there is none. */
  method DependencyCycle(deps: Deps) returns (cycle: Option<string>, ghost order: seq<string>)
    ensures cycle.Some? <==> HasCycle(deps)
    ensures cycle.None? ==> Ordered(deps, order) && Covers(deps, order)
  {
    ghost var nodes := deps.Keys + (set x, y | x in deps && y in deps[x] :: y);
    var marks: map<string, Mark> := map[];
    order := [];
    var todo := deps.Keys;
    while todo != {}
      invariant todo <= deps.Keys && Search(deps, marks, [], order)
      invariant forall x :: x in deps && x !in todo ==> x in order
    {
      var x :| x in todo;
      todo := todo - {x};
      cycle, marks, order := Visit(deps, x, marks, [], order, nodes);
      if cycle.Some? { return; }
    }
    cycle := None;
    OrderExcludesCycle(deps, order);
  }
}
