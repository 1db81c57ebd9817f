/** The dependency check that a Task Spec must pass (agent/spec.py, `_assert_task_graph`). */
module TaskGraph {
  import opened Prelude

  datatype SpecTask = SpecTask(id: string, dependsOn: seq<string>)

  datatype GraphError =
    | DuplicateTaskId
    | UnknownDependency(task: string, dep: string)
    | DependencyCycle(node: string)

  type Adjacency = map<string, seq<string>>

  function Ids(tasks: seq<SpecTask>): (ids: seq<string>)
    ensures |ids| == |tasks|
    ensures forall i :: 0 <= i < |tasks| ==> ids[i] == tasks[i].id
  {
    seq(|tasks|, i requires 0 <= i < |tasks| => tasks[i].id)
  }

  ghost predicate UniqueIds(tasks: seq<SpecTask>) {
    Distinct(Ids(tasks))
  }

  ghost predicate KnownDependencies(tasks: seq<SpecTask>) {
    forall t, d :: t in tasks && d in t.dependsOn ==> d in Ids(tasks)
  }

  /** Every node's dependencies come strictly before it. */
  ghost predicate DependenciesFirst(tasks: seq<SpecTask>, order: seq<string>) {
    forall i, t, d :: 0 <= i < |order| && t in tasks && t.id == order[i] && d in t.dependsOn ==>
                        d in order[..i]
  }

  ghost predicate Topological(tasks: seq<SpecTask>, order: seq<string>) {
    && Distinct(order)
    && (forall x :: x in order <==> x in Ids(tasks))
    && DependenciesFirst(tasks, order)
  }

  ghost predicate DependsOn(tasks: seq<SpecTask>, a: string, b: string) {
    exists t :: t in tasks && t.id == a && b in t.dependsOn
  }

  ghost predicate IsPath(tasks: seq<SpecTask>, p: seq<string>) {
    forall i :: 0 <= i < |p| - 1 ==> DependsOn(tasks, p[i], p[i + 1])
  }

  /** A walk along dependencies that returns to where it started. */
  ghost predicate IsCycle(tasks: seq<SpecTask>, p: seq<string>) {
    |p| >= 2 && p[0] == p[|p| - 1] && IsPath(tasks, p)
  }

  /** What the rest of the orchestrator needs of a spec: it can be worked through in some order. */
  ghost predicate Accepted(tasks: seq<SpecTask>) {
    && UniqueIds(tasks)
    && KnownDependencies(tasks)
    && exists order :: Topological(tasks, order)
  }

  ghost predicate Represents(adjacency: Adjacency, tasks: seq<SpecTask>) {
    && UniqueIds(tasks)
    && KnownDependencies(tasks)
    && (forall x :: x in adjacency <==> x in Ids(tasks))
    && (forall t :: t in tasks ==> t.id in adjacency && adjacency[t.id] == t.dependsOn)
  }

  lemma EdgesAgree(adjacency: Adjacency, tasks: seq<SpecTask>, a: string, b: string)
    requires Represents(adjacency, tasks)
    requires a in adjacency && b in adjacency[a]
    ensures DependsOn(tasks, a, b) && b in adjacency
  {
    var i :| 0 <= i < |tasks| && Ids(tasks)[i] == a;
    assert tasks[i] in tasks && adjacency[a] == tasks[i].dependsOn;
  }

  /** Along a path in a topologically ordered list, positions strictly fall. */
  lemma {:induction false} PathDescends(tasks: seq<SpecTask>, order: seq<string>, p: seq<string>, k: nat)
    requires Topological(tasks, order) && IsPath(tasks, p) && 2 <= |p| && k < |order| && p[0] == order[k]
    ensures exists j :: 0 <= j < k && order[j] == p[|p| - 1]
    decreases |p|
  {
    assert DependsOn(tasks, p[0], p[1]);
    assert p[1] in order[..k];
    var j :| 0 <= j < k && order[j] == p[1];
    if |p| > 2 {
      var rest := p[1..];
      forall i | 0 <= i < |rest| - 1 ensures DependsOn(tasks, rest[i], rest[i + 1]) {
        assert DependsOn(tasks, p[i + 1], p[i + 2]);
      }
      PathDescends(tasks, order, rest, j);
    }
  }

  /** An ordered graph and a cycle exclude each other. */
  lemma OrderExcludesCycle(tasks: seq<SpecTask>, order: seq<string>, cycle: seq<string>)
    requires Topological(tasks, order)
    ensures !IsCycle(tasks, cycle)
  {
    if IsCycle(tasks, cycle) {
      assert DependsOn(tasks, cycle[0], cycle[1]);
      var t :| t in tasks && t.id == cycle[0];
      var n :| 0 <= n < |tasks| && tasks[n] == t;
      assert Ids(tasks)[n] == cycle[0];
      assert cycle[0] in order;
      var k :| 0 <= k < |order| && order[k] == cycle[0];
      PathDescends(tasks, order, cycle, k);
    }
  }

  /** The invariant of the search: `stack` is `visiting` as the path of open calls, outermost
      first, and `finished` is `visited` in the order of leaving. */
  ghost predicate Searching(tasks: seq<SpecTask>, visiting: set<string>, visited: set<string>,
                            stack: seq<string>, finished: seq<string>)
  {
    && Distinct(stack) && Distinct(finished)
    && (forall x :: x in stack <==> x in visiting)
    && (forall x :: x in finished <==> x in visited)
    && visiting !! visited
    && IsPath(tasks, stack)
    && DependenciesFirst(tasks, finished)
  }

  lemma Enter(tasks: seq<SpecTask>, visiting: set<string>, visited: set<string>,
              stack: seq<string>, finished: seq<string>, node: string)
    requires Searching(tasks, visiting, visited, stack, finished)
    requires node !in visiting && node !in visited
    requires stack != [] ==> DependsOn(tasks, stack[|stack| - 1], node)
    ensures Searching(tasks, visiting + {node}, visited, stack + [node], finished)
  {
    var longer := stack + [node];
    forall i | 0 <= i < |longer| - 1 ensures DependsOn(tasks, longer[i], longer[i + 1]) {
      if i < |stack| - 1 {
        assert DependsOn(tasks, stack[i], stack[i + 1]);
      }
    }
  }

  lemma Leave(tasks: seq<SpecTask>, adjacency: Adjacency, visiting: set<string>, visited: set<string>,
              stack: seq<string>, finished: seq<string>, node: string)
    requires Represents(adjacency, tasks) && node in adjacency
    requires Searching(tasks, visiting, visited, stack + [node], finished)
    requires forall d :: d in adjacency[node] ==> d in visited
    ensures Searching(tasks, visiting - {node}, visited + {node}, stack, finished + [node])
  {
    var open := stack + [node];
    assert node == open[|stack|] && node in open;
    assert forall i :: 0 <= i < |stack| ==> stack[i] == open[i];
    forall i | 0 <= i < |stack| - 1 ensures DependsOn(tasks, stack[i], stack[i + 1]) {
      assert DependsOn(tasks, open[i], open[i + 1]);
    }
    var longer := finished + [node];
    forall i, t, d | 0 <= i < |longer| && t in tasks && t.id == longer[i] && d in t.dependsOn
      ensures d in longer[..i]
    {
      assert longer[..i] == if i < |finished| then finished[..i] else finished;
    }
  }

  /** Meeting a node that is still open closes a walk from that node back to it. */
  lemma CloseCycle(tasks: seq<SpecTask>, stack: seq<string>, node: string) returns (cycle: seq<string>)
    requires IsPath(tasks, stack) && node in stack && DependsOn(tasks, stack[|stack| - 1], node)
    ensures IsCycle(tasks, cycle) && node in cycle
  {
    var i :| 0 <= i < |stack| && stack[i] == node;
    cycle := stack[i..] + [node];
    forall k | 0 <= k < |cycle| - 1 ensures DependsOn(tasks, cycle[k], cycle[k + 1]) {
      if k < |cycle| - 2 {
        assert DependsOn(tasks, stack[i + k], stack[i + k + 1]);
      }
    }
  }

  /** The depth-first search: `visiting` and `visited` are the source's two sets. */
  class GraphCheck {
    const adjacency: Adjacency
    ghost const tasks: seq<SpecTask>
    var visiting: set<string>
    var visited: set<string>
    ghost var stack: seq<string>
    ghost var finished: seq<string>

    ghost predicate Valid()
      reads this
    {
      && Represents(adjacency, tasks)
      && visiting <= adjacency.Keys && visited <= adjacency.Keys
      && Searching(tasks, visiting, visited, stack, finished)
    }

    constructor (tasks: seq<SpecTask>, adjacency: Adjacency)
      requires Represents(adjacency, tasks)
      ensures Valid() && this.tasks == tasks && this.adjacency == adjacency
      ensures visiting == {} && visited == {} && stack == []
    {
      this.tasks := tasks;
      this.adjacency := adjacency;
      visiting, visited, stack, finished := {}, {}, [], [];
    }

    /** `dfs(node)`: afterwards `node` has been visited and the open calls are as before, or a
        node that is still open was met again and its cycle is the evidence. */
    method Dfs(node: string) returns (met: Option<string>, ghost cycle: seq<string>)
      requires Valid() && node in adjacency
      requires stack != [] ==> DependsOn(tasks, stack[|stack| - 1], node)
      modifies this
      ensures met.Some? ==> IsCycle(tasks, cycle) && met.value in cycle
      ensures met.None? ==> Valid() && node in visited && stack == old(stack) && visiting == old(visiting)
      ensures old(visited) <= visited
      decreases adjacency.Keys - visiting
    {
      cycle := [];
      if node in visited {
        return None, [];
      }
      if node in visiting {
        cycle := CloseCycle(tasks, stack, node);
        return Some(node), cycle;
      }
      Enter(tasks, visiting, visited, stack, finished, node);
      visiting := visiting + {node};
      stack := stack + [node];
      var deps := adjacency[node];
      for k := 0 to |deps|
        invariant Valid() && stack == old(stack) + [node] && visiting == old(visiting) + {node}
        invariant forall j :: 0 <= j < k ==> deps[j] in visited
        invariant old(visited) <= visited
      {
        EdgesAgree(adjacency, tasks, node, deps[k]);
        met, cycle := Dfs(deps[k]);
        if met.Some? {
          return;
        }
      }
      Leave(tasks, adjacency, visiting, visited, old(stack), finished, node);
      visiting := visiting - {node};
      stack := old(stack);
      visited := visited + {node};
      finished := finished + [node];
      met := None;
    }
  }

  /** Each task id with the ids it depends on; of two tasks of one id the later counts. */
  function AdjacencyOf(tasks: seq<SpecTask>): Adjacency {
    if tasks == [] then map[]
    else AdjacencyOf(tasks[..|tasks| - 1])[tasks[|tasks| - 1].id := tasks[|tasks| - 1].dependsOn]
  }

  lemma {:induction false} AdjacencyOfRepresents(tasks: seq<SpecTask>)
    requires UniqueIds(tasks)
    ensures forall x :: x in AdjacencyOf(tasks) <==> x in Ids(tasks)
    ensures forall t :: t in tasks ==> t.id in AdjacencyOf(tasks) && AdjacencyOf(tasks)[t.id] == t.dependsOn
  {
    if tasks == [] {
    } else {
      var init := tasks[..|tasks| - 1];
      assert Ids(tasks) == Ids(init) + [tasks[|tasks| - 1].id];
      AdjacencyOfRepresents(init);
    }
  }

  /** `_assert_task_graph`: accepts exactly the lists with distinct ids, known dependencies and no
      cycle, and reports the first of the three that fails. */
  method AssertTaskGraph(tasks: seq<SpecTask>) returns (r: Result<(), GraphError>, ghost evidence: seq<string>)
    ensures r.Ok? <==> Accepted(tasks)
    ensures r.Ok? <==> UniqueIds(tasks) && KnownDependencies(tasks) && !exists c :: IsCycle(tasks, c)
    ensures r.Ok? ==> Topological(tasks, evidence)
    ensures r == Err(DuplicateTaskId) <==> !UniqueIds(tasks)
    ensures r.Err? && r.error.UnknownDependency? <==> UniqueIds(tasks) && !KnownDependencies(tasks)
    ensures r.Err? && r.error.UnknownDependency? ==>
              r.error.dep !in Ids(tasks) && DependsOn(tasks, r.error.task, r.error.dep)
    ensures r.Err? && r.error.DependencyCycle? ==> IsCycle(tasks, evidence) && r.error.node in evidence
  {
    evidence := [];
    var ids := Ids(tasks);
    var known := set id | id in ids;
    if |ids| != |known| {
      if Distinct(ids) {
        SizeFromDistinct(ids);
      }
      return Err(DuplicateTaskId), [];
    }
    DistinctFromSize(ids);
    var adjacency := AdjacencyOf(tasks);
    AdjacencyOfRepresents(tasks);
    for i := 0 to |tasks|
      invariant forall n :: 0 <= n < i ==> forall d :: d in tasks[n].dependsOn ==> d in known
    {
      var deps := tasks[i].dependsOn;
      for j := 0 to |deps|
        invariant forall m :: 0 <= m < j ==> deps[m] in known
      {
        if deps[j] !in known {
          assert tasks[i] in tasks && deps[j] in tasks[i].dependsOn;
          return Err(UnknownDependency(tasks[i].id, deps[j])), [];
        }
      }
    }
    forall t, d | t in tasks && d in t.dependsOn ensures d in ids {
      var n :| 0 <= n < |tasks| && tasks[n] == t;
      assert d in tasks[n].dependsOn && d in known;
    }
    var check := new GraphCheck(tasks, adjacency);
    for i := 0 to |ids|
      invariant fresh(check)
      invariant check.Valid() && check.tasks == tasks && check.adjacency == adjacency && check.stack == []
      invariant forall j :: 0 <= j < i ==> ids[j] in check.visited
    {
      var met, cycle := check.Dfs(ids[i]);
      if met.Some? {
        forall order | Topological(tasks, order) ensures false {
          OrderExcludesCycle(tasks, order, cycle);
        }
        return Err(DependencyCycle(met.value)), cycle;
      }
    }
    evidence := check.finished;
    assert Topological(tasks, evidence);
    forall c ensures !IsCycle(tasks, c) {
      OrderExcludesCycle(tasks, evidence, c);
    }
    r := Ok(());
  }

  /** A list is longer than the set of its elements exactly when an element is repeated. */
  lemma {:induction false} DistinctFromSize(s: seq<string>)
    requires |s| == |set x | x in s|
    ensures Distinct(s)
  {
    if s == [] {
    } else {
      var init, last := s[..|s| - 1], s[|s| - 1];
      var small := set x | x in init;
      assert (set x | x in s) == small + {last};
      SetOfSeqBound(init);
      DistinctFromSize(init);
    }
  }

  lemma {:induction false} SizeFromDistinct(s: seq<string>)
    requires Distinct(s)
    ensures |s| == |set x | x in s|
  {
    if s == [] {
    } else {
      var init, last := s[..|s| - 1], s[|s| - 1];
      assert (set x | x in s) == (set x | x in init) + {last};
      SizeFromDistinct(init);
    }
  }

  lemma {:induction false} SetOfSeqBound(s: seq<string>)
    ensures |set x | x in s| <= |s|
  {
    if s == [] {
    } else {
      var init, last := s[..|s| - 1], s[|s| - 1];
      assert (set x | x in s) == (set x | x in init) + {last};
      SetOfSeqBound(init);
    }
  }
}
