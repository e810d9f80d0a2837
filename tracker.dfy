/**
 * The remote task tracker's section as the sync script sees it: the list of
 * tasks in the configured section, each with an opaque id and the
 * attributes it was created with, and a log of the calls the script makes.
 */
module Tracker {
  import opened Common

  /** The attributes of an `addTask` call. */
  datatype TaskArgs = TaskArgs(
    content: string,
    dueString: Option<string>,
    projectId: string,
    sectionId: string,
    labels: seq<string>)

  datatype Task = Task(id: nat, args: TaskArgs)

  /** A call made against the tracker. */
  datatype Call = ListTasks(projectId: string, sectionId: string) | DeleteTask(id: nat) | AddTask(args: TaskArgs)

  /** The tasks whose id differs from `id`, in order. */
  function WithoutId(ts: seq<Task>, id: nat): seq<Task>
  {
    if ts == [] then []
    else (if ts[0].id == id then [] else [ts[0]]) + WithoutId(ts[1..], id)
  }

  predicate DistinctIds(ts: seq<Task>)
  {
    forall i, j :: 0 <= i < j < |ts| ==> ts[i].id != ts[j].id
  }

  /** The attributes of the tasks, in order. */
  function ArgsOf(ts: seq<Task>): (r: seq<TaskArgs>)
    ensures |r| == |ts|
  {
    if ts == [] then [] else [ts[0].args] + ArgsOf(ts[1..])
  }

  /** One delete call per task, in the given order. */
  function Deletes(ts: seq<Task>): (r: seq<Call>)
    ensures |r| == |ts|
  {
    if ts == [] then [] else [DeleteTask(ts[0].id)] + Deletes(ts[1..])
  }

  /** One add call per task description, in the given order. */
  function Adds(specs: seq<TaskArgs>): (r: seq<Call>)
    ensures |r| == |specs|
  {
    if specs == [] then [] else [AddTask(specs[0])] + Adds(specs[1..])
  }

  /** How often a call occurs in a log. */
  function Occurrences(log: seq<Call>, c: Call): nat
  {
    if log == [] then 0 else (if log[0] == c then 1 else 0) + Occurrences(log[1..], c)
  }

  lemma {:induction false} DeletesAppend(xs: seq<Task>, ys: seq<Task>)
    ensures Deletes(xs + ys) == Deletes(xs) + Deletes(ys)
  {
    if xs == [] {
      assert xs + ys == ys;
    } else {
      assert (xs + ys)[0] == xs[0] && (xs + ys)[1..] == xs[1..] + ys;
      DeletesAppend(xs[1..], ys);
    }
  }

  lemma {:induction false} AddsAppend(xs: seq<TaskArgs>, ys: seq<TaskArgs>)
    ensures Adds(xs + ys) == Adds(xs) + Adds(ys)
  {
    if xs == [] {
      assert xs + ys == ys;
    } else {
      assert (xs + ys)[0] == xs[0] && (xs + ys)[1..] == xs[1..] + ys;
      AddsAppend(xs[1..], ys);
    }
  }

  lemma {:induction false} ArgsOfAppend(xs: seq<Task>, ys: seq<Task>)
    ensures ArgsOf(xs + ys) == ArgsOf(xs) + ArgsOf(ys)
  {
    if xs == [] {
      assert xs + ys == ys;
    } else {
      assert (xs + ys)[0] == xs[0] && (xs + ys)[1..] == xs[1..] + ys;
      ArgsOfAppend(xs[1..], ys);
    }
  }

  lemma {:induction false} OccurrencesAppend(xs: seq<Call>, ys: seq<Call>, c: Call)
    ensures Occurrences(xs + ys, c) == Occurrences(xs, c) + Occurrences(ys, c)
  {
    if xs == [] {
      assert xs + ys == ys;
    } else {
      assert (xs + ys)[0] == xs[0] && (xs + ys)[1..] == xs[1..] + ys;
      OccurrencesAppend(xs[1..], ys, c);
    }
  }

  lemma {:induction false} WithoutAbsentId(ts: seq<Task>, id: nat)
    requires forall i :: 0 <= i < |ts| ==> ts[i].id != id
    ensures WithoutId(ts, id) == ts
  {
    if ts != [] {
      WithoutAbsentId(ts[1..], id);
    }
  }

  /** With distinct ids, deleting the first task's id removes exactly that task. */
  lemma DeleteFirst(ts: seq<Task>)
    requires DistinctIds(ts) && ts != []
    ensures WithoutId(ts, ts[0].id) == ts[1..]
  {
    var rest := ts[1..];
    forall i | 0 <= i < |rest| ensures rest[i].id != ts[0].id {
      assert rest[i] == ts[i + 1];
    }
    WithoutAbsentId(rest, ts[0].id);
  }

  /** Every delete in the log comes before every add. */
  lemma {:induction false} DeletesBeforeAdds(ts: seq<Task>, specs: seq<TaskArgs>, i: nat, j: nat)
    requires i < |ts| + |specs| && j < |ts| + |specs|
    requires (Deletes(ts) + Adds(specs))[i].DeleteTask? && (Deletes(ts) + Adds(specs))[j].AddTask?
    ensures i < |ts| <= j
  {
    if i >= |ts| {
      AddsAreAdds(specs, i - |ts|);
    }
    if j < |ts| {
      DeletesAreDeletes(ts, j);
    }
  }

  lemma {:induction false} DeletesAreDeletes(ts: seq<Task>, k: nat)
    requires k < |ts|
    ensures Deletes(ts)[k] == DeleteTask(ts[k].id)
  {
    if k > 0 {
      DeletesAreDeletes(ts[1..], k - 1);
    }
  }

  lemma {:induction false} AddsAreAdds(specs: seq<TaskArgs>, k: nat)
    requires k < |specs|
    ensures Adds(specs)[k] == AddTask(specs[k])
  {
    if k > 0 {
      AddsAreAdds(specs[1..], k - 1);
    }
  }

  /** With distinct ids, every listed task is deleted exactly once. */
  lemma {:induction false} DeletedExactlyOnce(ts: seq<Task>, specs: seq<TaskArgs>, k: nat)
    requires DistinctIds(ts) && k < |ts|
    ensures Occurrences(Deletes(ts) + Adds(specs), DeleteTask(ts[k].id)) == 1
  {
    var log := Deletes(ts) + Adds(specs);
    assert log[0] == DeleteTask(ts[0].id);
    assert log[1..] == Deletes(ts[1..]) + Adds(specs);
    if k == 0 {
      forall i | 0 <= i < |ts[1..]| ensures ts[1..][i].id != ts[0].id {
        assert ts[1..][i] == ts[i + 1];
      }
      NotDeleted(ts[1..], specs, ts[0].id);
    } else {
      assert ts[0].id != ts[k].id;
      assert DistinctIds(ts[1..]) by {
        forall i, j | 0 <= i < j < |ts[1..]| ensures ts[1..][i].id != ts[1..][j].id {
          assert ts[1..][i] == ts[i + 1] && ts[1..][j] == ts[j + 1];
        }
      }
      assert ts[1..][k - 1] == ts[k];
      DeletedExactlyOnce(ts[1..], specs, k - 1);
    }
  }

  lemma {:induction false} NotDeleted(ts: seq<Task>, specs: seq<TaskArgs>, id: nat)
    requires forall i :: 0 <= i < |ts| ==> ts[i].id != id
    ensures Occurrences(Deletes(ts) + Adds(specs), DeleteTask(id)) == 0
  {
    var log := Deletes(ts) + Adds(specs);
    if ts == [] {
      assert log == Adds(specs);
      NoDeleteInAdds(specs, id);
    } else {
      assert log[1..] == Deletes(ts[1..]) + Adds(specs);
      NotDeleted(ts[1..], specs, id);
    }
  }

  lemma {:induction false} NoDeleteInAdds(specs: seq<TaskArgs>, id: nat)
    ensures Occurrences(Adds(specs), DeleteTask(id)) == 0
  {
    if specs != [] {
      NoDeleteInAdds(specs[1..], id);
    }
  }

  /**
   * The configured section of the tracker: its tasks in listing order, the
   * next id the tracker hands out, and the log of calls made so far.
   */
  class TaskTracker {
    var tasks: seq<Task>
    var nextId: nat
    var calls: seq<Call>

    /** Ids are distinct and all below the next one handed out. */
    ghost predicate Valid()
      reads this
    {
      DistinctIds(tasks) && forall i :: 0 <= i < |tasks| ==> tasks[i].id < nextId
    }

    constructor (initial: seq<Task>, next: nat)
      requires DistinctIds(initial) && forall i :: 0 <= i < |initial| ==> initial[i].id < next
      ensures Valid()
      ensures tasks == initial && nextId == next && calls == []
    {
      tasks, nextId, calls := initial, next, [];
    }

    /** getTasks({projectId, sectionId}): the section's tasks, in order. */
    method GetTasks(projectId: string, sectionId: string) returns (r: seq<Task>)
      modifies this`calls
      ensures r == tasks
      ensures calls == old(calls) + [ListTasks(projectId, sectionId)]
    {
      r := tasks;
      calls := calls + [ListTasks(projectId, sectionId)];
    }

    /** deleteTask(id): the task with that id is gone, nothing else changes. */
    method Delete(id: nat)
      requires Valid()
      modifies this`tasks, this`calls
      ensures Valid()
      ensures tasks == WithoutId(old(tasks), id)
      ensures calls == old(calls) + [DeleteTask(id)]
    {
      DeleteKeepsValid(tasks, nextId, id);
      tasks := WithoutId(tasks, id);
      calls := calls + [DeleteTask(id)];
    }

    /** addTask(args): a new task with a fresh id is appended. */
    method Add(args: TaskArgs) returns (t: Task)
      requires Valid()
      modifies this
      ensures Valid()
      ensures t == Task(old(nextId), args)
      ensures tasks == old(tasks) + [t] && nextId == old(nextId) + 1
      ensures calls == old(calls) + [AddTask(args)]
    {
      t := Task(nextId, args);
      tasks := tasks + [t];
      nextId := nextId + 1;
      calls := calls + [AddTask(args)];
    }
  }

  lemma {:induction false} WithoutIdMembers(ts: seq<Task>, id: nat, t: Task)
    ensures t in WithoutId(ts, id) <==> t in ts && t.id != id
  {
    if ts != [] {
      WithoutIdMembers(ts[1..], id, t);
      assert ts == [ts[0]] + ts[1..];
    }
  }

  lemma {:induction false} DeleteKeepsValid(ts: seq<Task>, next: nat, id: nat)
    requires DistinctIds(ts) && forall i :: 0 <= i < |ts| ==> ts[i].id < next
    ensures var w := WithoutId(ts, id); DistinctIds(w) && forall i :: 0 <= i < |w| ==> w[i].id < next
  {
    if ts != [] {
      var rest := ts[1..];
      assert DistinctIds(rest) by {
        forall i, j | 0 <= i < j < |rest| ensures rest[i].id != rest[j].id {
          assert rest[i] == ts[i + 1] && rest[j] == ts[j + 1];
        }
      }
      DeleteKeepsValid(rest, next, id);
      var w := WithoutId(ts, id);
      var wr := WithoutId(rest, id);
      assert w == (if ts[0].id == id then [] else [ts[0]]) + wr;
      forall i | 0 <= i < |w| ensures w[i].id < next {
        WithoutIdMembers(ts, id, w[i]);
      }
      if ts[0].id != id {
        forall i, j | 0 <= i < j < |w| ensures w[i].id != w[j].id {
          if i == 0 {
            WithoutIdMembers(rest, id, w[j]);
            var m :| 0 <= m < |rest| && rest[m] == w[j];
            assert ts[m + 1] == w[j];
          } else {
            assert w[i] == wr[i - 1] && w[j] == wr[j - 1];
          }
        }
      }
    }
  }
}
