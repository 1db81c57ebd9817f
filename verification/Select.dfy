/** Deterministic choice of the next task (agent/select.py). */
module Select {
  import opened Prelude
  import opened TaskGraph
  import opened Spec
  import opened State

  const UNKNOWN_ID := AgentError(InvalidInput, InvalidState)
  const BLOCKED := AgentError(PolicyViolation, DependencyBlocked)

  predicate Ready(task: SpecTask, completed: seq<string>) {
    forall d :: d in task.dependsOn ==> d in completed
  }

  /** The first task, in definition order, that is not completed and whose dependencies are. */
  function FirstReady(tasks: seq<SpecTask>, completed: seq<string>): (r: Option<SpecTask>)
    ensures r.Some? ==> r.value in tasks && r.value.id !in completed && Ready(r.value, completed)
    ensures r.None? ==> forall t :: t in tasks && t.id !in completed ==> !Ready(t, completed)
  {
    if tasks == [] then None
    else if tasks[0].id !in completed && Ready(tasks[0], completed) then Some(tasks[0])
    else FirstReady(tasks[1..], completed)
  }

  function Lookup(tasks: seq<SpecTask>, id: string): (r: Option<SpecTask>)
    ensures r.Some? ==> r.value in tasks && r.value.id == id
    ensures r.None? <==> id !in Ids(tasks)
  {
    if tasks == [] then None
    else if tasks[|tasks| - 1].id == id then Some(tasks[|tasks| - 1])
    else
      assert Ids(tasks) == Ids(tasks[..|tasks| - 1]) + [tasks[|tasks| - 1].id];
      Lookup(tasks[..|tasks| - 1], id)
  }

  /** What `select_next_task` decides. */
  function NextTask(tasks: seq<SpecTask>, completed: seq<string>, current: Option<string>)
    : Result<Option<SpecTask>, AgentError>
  {
    if exists x :: x in completed && x !in Ids(tasks) then Err(UNKNOWN_ID)
    else if current.Some? && current.value !in completed then
      var task := Lookup(tasks, current.value);
      if task.None? then Err(UNKNOWN_ID)
      else if Ready(task.value, completed) then Ok(task) else Err(BLOCKED)
    else if FirstReady(tasks, completed).Some? then Ok(FirstReady(tasks, completed))
    else if exists t :: t in tasks && t.id !in completed then Err(BLOCKED)
    else Ok(None)
  }

  /** `missing_dependencies`: the dependencies still to be completed, in order. */
  function MissingDependencies(dependsOn: seq<string>, completed: set<string>): (missing: seq<string>)
    ensures forall d :: d in missing <==> d in dependsOn && d !in completed
  {
    if dependsOn == [] then []
    else (if dependsOn[0] !in completed then [dependsOn[0]] else []) + MissingDependencies(dependsOn[1..], completed)
  }

  lemma MissingFirst(dependsOn: seq<string>, completed: set<string>)
    requires dependsOn != []
    ensures MissingDependencies(dependsOn, completed) ==
              (if dependsOn[0] in completed then [] else [dependsOn[0]])
              + MissingDependencies(dependsOn[1..], completed)
  {
  }

  /** `missing_dependencies` filters place by place: it keeps order and repetition, and drops exactly
      the completed ones. */
  lemma {:induction false} MissingExactly(a: seq<string>, b: seq<string>, d: string, completed: set<string>)
    ensures MissingDependencies(a + b, completed) ==
        MissingDependencies(a, completed) + MissingDependencies(b, completed)
    ensures MissingDependencies([d], completed) == if d in completed then [] else [d]
    decreases |a|
  {
    assert [d][1..] == [];
    if a == [] {
      assert a + b == b;
    } else {
      hide MissingDependencies;
      assert (a + b)[1..] == a[1..] + b && (a + b)[0] == a[0];
      MissingFirst(a, completed);
      MissingFirst(a + b, completed);
      MissingExactly(a[1..], b, d, completed);
      ConcatAssociates(if a[0] in completed then [] else [a[0]],
                       MissingDependencies(a[1..], completed), MissingDependencies(b, completed));
    }
  }

  /** The loop over the tasks in definition order: the first ready one, or all the blocked ones. */
  method ScanForReady(tasks: seq<SpecTask>, completedTasks: seq<string>, completed: set<string>)
    returns (ready: Option<SpecTask>, blocked: seq<SpecTask>)
    requires forall x :: x in completed <==> x in completedTasks
    ensures ready == FirstReady(tasks, completedTasks)
    ensures ready.None? ==> forall t :: t in blocked <==> t in tasks && t.id !in completedTasks
  {
    blocked := [];
    for i := 0 to |tasks|
      invariant FirstReady(tasks, completedTasks) == FirstReady(tasks[i..], completedTasks)
      invariant forall t :: t in blocked <==> t in tasks[..i] && t.id !in completedTasks
    {
      var task := tasks[i];
      assert tasks[i..][1..] == tasks[i + 1..] && tasks[..i + 1] == tasks[..i] + [task];
      if task.id !in completed {
        var missing := MissingDependencies(task.dependsOn, completed);
        if missing == [] {
          assert forall d :: d in task.dependsOn ==> d !in missing;
          return Some(task), [];
        }
        assert missing[0] in missing && missing[0] in task.dependsOn;
        blocked := blocked + [task];
      }
    }
    assert tasks[..|tasks|] == tasks;
    ready := None;
  }

  /** `select_next_task`: the loop with early return and the list of blocked tasks. */
  method SelectNextTask(spec: TaskSpec, state: ExecutionState) returns (r: Result<Option<SpecTask>, AgentError>)
    ensures r == NextTask(spec.tasks, state.completedTasks, state.currentTask)
  {
    var known := set id | id in Ids(spec.tasks);
    var completed := set id | id in state.completedTasks;
    if !(completed <= known) {
      ghost var unknown :| unknown in completed && unknown !in known;
      assert unknown in state.completedTasks;
      return Err(UNKNOWN_ID);
    }
    assert forall x :: x in state.completedTasks ==> x in completed && x in known;
    if state.currentTask.Some? && state.currentTask.value !in completed {
      var current := Lookup(spec.tasks, state.currentTask.value);
      if current.None? {
        return Err(UNKNOWN_ID);
      }
      var missing := MissingDependencies(current.value.dependsOn, completed);
      if missing != [] {
        assert missing[0] in missing;
        return Err(BLOCKED);
      }
      assert forall d :: d in current.value.dependsOn ==> d !in missing;
      return Ok(current);
    }
    var ready, blocked := ScanForReady(spec.tasks, state.completedTasks, completed);
    if ready.Some? {
      return Ok(ready);
    }
    if blocked != [] {
      assert blocked[0] in blocked;
      return Err(BLOCKED);
    }
    return Ok(None);
  }

  /** Completed ids are known and, if a task is under way, it may be worked on. */
  ghost predicate Consistent(tasks: seq<SpecTask>, completed: seq<string>, current: Option<string>) {
    && (forall x :: x in completed ==> x in Ids(tasks))
    && (current.Some? && current.value !in completed ==>
          forall t :: t in tasks && t.id == current.value ==> Ready(t, completed))
    && (current.Some? ==> current.value in Ids(tasks))
  }

  /** If some id of a topological order is still open, the first open one is ready. */
  lemma {:induction false} SomeTaskReady(tasks: seq<SpecTask>, order: seq<string>, completed: seq<string>, k: nat)
    returns (t: SpecTask)
    requires Topological(tasks, order) && k < |order| && order[k] !in completed
    ensures t in tasks && t.id !in completed && Ready(t, completed)
    decreases k
  {
    assert order[k] in order;
    var n :| 0 <= n < |tasks| && Ids(tasks)[n] == order[k];
    t := tasks[n];
    if !Ready(t, completed) {
      var d :| d in t.dependsOn && d !in completed;
      assert d in order[..k];
      var j :| 0 <= j < k && order[j] == d;
      t := SomeTaskReady(tasks, order, completed, j);
    }
  }

  /** On an accepted graph a consistent state is never reported blocked, a selected task is open
      and ready, and nothing is selected exactly when everything is completed. */
  lemma SelectorNeverBlocks(tasks: seq<SpecTask>, completed: seq<string>, current: Option<string>)
    requires Accepted(tasks) && Consistent(tasks, completed, current)
    ensures NextTask(tasks, completed, current).Ok?
    ensures NextTask(tasks, completed, current) == Ok(None) <==> AllDone(tasks, completed)
    ensures var next := NextTask(tasks, completed, current).value;
            next.Some? ==> next.value in tasks && next.value.id !in completed && Ready(next.value, completed)
  {
    if current.Some? && current.value !in completed {
      assert current.value in Ids(tasks);
    } else {
      var order :| Topological(tasks, order);
      if t :| t in tasks && t.id !in completed {
        var n :| 0 <= n < |tasks| && tasks[n] == t;
        assert Ids(tasks)[n] in Ids(tasks);
        var k :| 0 <= k < |order| && order[k] == t.id;
        var ready := SomeTaskReady(tasks, order, completed, k);
      } else {
        forall x | x in Ids(tasks) ensures x in completed {
          var n :| 0 <= n < |tasks| && Ids(tasks)[n] == x;
          assert tasks[n] in tasks;
        }
      }
      if FirstReady(tasks, completed).Some? {
        var t := FirstReady(tasks, completed).value;
        var n :| 0 <= n < |tasks| && tasks[n] == t;
        assert Ids(tasks)[n] in Ids(tasks);
      }
    }
  }

  /** `t` is the task that `id` stands for: the last one of that name. */
  ghost predicate Named(tasks: seq<SpecTask>, id: string, t: SpecTask) {
    exists k :: 0 <= k < |tasks| && tasks[k] == t && t.id == id && forall j :: k < j < |tasks| ==> tasks[j].id != id
  }

  /** `t` is the first task that is open and may be worked on. */
  ghost predicate FirstWorkable(tasks: seq<SpecTask>, completed: seq<string>, t: SpecTask) {
    exists k :: 0 <= k < |tasks| && tasks[k] == t && Workable(t, completed)
      && forall j :: 0 <= j < k ==> !Workable(tasks[j], completed)
  }

  predicate Workable(t: SpecTask, completed: seq<string>) { t.id !in completed && Ready(t, completed) }

  /** A last task of another name does not matter. */
  lemma NamedBefore(tasks: seq<SpecTask>, id: string, t: SpecTask)
    requires tasks != [] && tasks[|tasks| - 1].id != id
    ensures Named(tasks, id, t) <==> Named(tasks[..|tasks| - 1], id, t)
  {
    var init := tasks[..|tasks| - 1];
    if Named(tasks, id, t) {
      var k :| 0 <= k < |tasks| && tasks[k] == t && t.id == id
               && forall j :: k < j < |tasks| ==> tasks[j].id != id;
      assert init[k] == t;
    }
    if Named(init, id, t) {
      var k :| 0 <= k < |init| && init[k] == t && t.id == id
               && forall j :: k < j < |init| ==> init[j].id != id;
      assert tasks[k] == t;
      forall j | k < j < |tasks| ensures tasks[j].id != id {
        if j < |init| { assert init[j].id != id; }
      }
    }
  }

  lemma NamedLast(tasks: seq<SpecTask>, id: string, t: SpecTask)
    requires tasks != [] && tasks[|tasks| - 1].id == id
    ensures Named(tasks, id, t) <==> t == tasks[|tasks| - 1]
  {
  }

  lemma {:induction false} LookupNamed(tasks: seq<SpecTask>, id: string, t: SpecTask)
    ensures Named(tasks, id, t) <==> Lookup(tasks, id) == Some(t)
    decreases |tasks|
  {
    hide Named;
    if tasks == [] {
      NobodyNamed(id, t);
    } else if tasks[|tasks| - 1].id == id {
      NamedLast(tasks, id, t);
    } else {
      NamedBefore(tasks, id, t);
      LookupNamed(tasks[..|tasks| - 1], id, t);
    }
  }

  lemma NobodyNamed(id: string, t: SpecTask)
    ensures !Named([], id, t)
  {
  }

  lemma {:induction false} FirstReadyWorkable(tasks: seq<SpecTask>, completed: seq<string>)
    ensures forall t :: FirstWorkable(tasks, completed, t) <==> FirstReady(tasks, completed) == Some(t)
    decreases |tasks|
  {
    hide Ready;
    if tasks != [] {
      FirstReadyWorkable(tasks[1..], completed);
      if Workable(tasks[0], completed) {
        forall t ensures FirstWorkable(tasks, completed, t) <==> t == tasks[0] {
        }
      } else {
        forall t ensures FirstWorkable(tasks, completed, t) <==> FirstWorkable(tasks[1..], completed, t) {
          if FirstWorkable(tasks, completed, t) {
            var k :| 0 <= k < |tasks| && tasks[k] == t && Workable(t, completed)
                     && forall j :: 0 <= j < k ==> !Workable(tasks[j], completed);
            assert tasks[1..][k - 1] == t;
          }
          if FirstWorkable(tasks[1..], completed, t) {
            var k :| 0 <= k < |tasks[1..]| && tasks[1..][k] == t && Workable(t, completed)
                     && forall j :: 0 <= j < k ==> !Workable(tasks[1..][j], completed);
            assert tasks[k + 1] == t;
            forall j | 0 <= j < k + 1 ensures !Workable(tasks[j], completed) {
              if j > 0 { assert !Workable(tasks[1..][j - 1], completed); }
            }
          }
        }
      }
    }
  }

  predicate AllKnown(tasks: seq<SpecTask>, completed: seq<string>) { forall x :: x in completed ==> x in Ids(tasks) }

  /** A task is under way that is not completed. */
  predicate UnderWay(completed: seq<string>, current: Option<string>) {
    current.Some? && current.value !in completed
  }

  ghost predicate SomeOpen(tasks: seq<SpecTask>, completed: seq<string>) {
    exists t :: t in tasks && t.id !in completed
  }

  /** Every answer of the selection, on any list of tasks and any state: a task under way is the only
      candidate, and it is blocked, never skipped, while a dependency of it is open; else the first
      workable task; blocked when tasks are open and none is workable. */
  lemma SelectsExactly(tasks: seq<SpecTask>, completed: seq<string>, current: Option<string>, t: SpecTask)
    ensures var r := NextTask(tasks, completed, current);
            var known := AllKnown(tasks, completed);
            && (r == Err(UNKNOWN_ID) <==>
                  !known || (UnderWay(completed, current) && current.value !in Ids(tasks)))
            && (r == Ok(Some(t)) <==>
                  known && if UnderWay(completed, current) then Named(tasks, current.value, t) && Ready(t, completed)
                           else FirstWorkable(tasks, completed, t))
            && (r == Ok(None) <==> known && !UnderWay(completed, current) && !SomeOpen(tasks, completed))
            && (r == Err(BLOCKED) <==>
                  known && if UnderWay(completed, current) then
                             exists u :: Named(tasks, current.value, u) && !Ready(u, completed)
                           else SomeOpen(tasks, completed) && forall u :: u in tasks ==> !Workable(u, completed))
  {
    if UnderWay(completed, current) {
      forall u ensures Named(tasks, current.value, u) <==> Lookup(tasks, current.value) == Some(u) {
        LookupNamed(tasks, current.value, u);
      }
    }
    FirstReadyWorkable(tasks, completed);
    hide Named, FirstWorkable, Ready, Lookup, FirstReady;
  }
}
