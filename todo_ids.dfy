/** `nextTodoId`: one more than the largest id in the current list. */
module TodoIds {
  import opened Directory

  /** `visibleTodos.map(todo => todo.id)`. */
  function Ids(list: seq<EnrichedTodo>): seq<int>
  {
    seq(|list|, i requires 0 <= i < |list| => list[i].id)
  }

  /** `Math.max(...xs)` on a non-empty sequence: an element of `xs` that no element exceeds. */
  function Max(xs: seq<int>): (m: int)
    requires |xs| > 0
    ensures forall i :: 0 <= i < |xs| ==> xs[i] <= m
    ensures m in xs
  {
    if |xs| == 1 then xs[0]
    else
      var rest := Max(xs[1..]);
      if xs[0] >= rest then xs[0] else rest
  }

  /** `nextTodoId`: one past some id in the list and greater than every id in it. */
  function NextTodoId(list: seq<EnrichedTodo>): (r: int)
    requires |list| > 0
    ensures exists i :: 0 <= i < |list| && r == list[i].id + 1
    ensures forall i :: 0 <= i < |list| ==> list[i].id < r
  {
    var ids := Ids(list);
    assert forall i :: 0 <= i < |list| ==> ids[i] == list[i].id;
    assert Max(ids) in ids;
    Max(ids) + 1
  }

  /** No two entries share an id. */
  predicate DistinctIds(list: seq<EnrichedTodo>)
  {
    forall i, j :: 0 <= i < j < |list| ==> list[i].id != list[j].id
  }

  /** Appending an entry that carries the next id keeps the ids pairwise distinct. */
  lemma AppendNextIdKeepsDistinct(list: seq<EnrichedTodo>, e: EnrichedTodo)
    requires |list| > 0 && DistinctIds(list) && e.id == NextTodoId(list)
    ensures DistinctIds(list + [e])
  {
  }
}
