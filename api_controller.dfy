/** The in-memory task store behind the `/tasks` endpoints: an ordered list of tasks
    and an identifier counter, with list, create, get-by-id, update and delete. HTTP
    responses become values: `Some(task)` for a found task, `None` for "not found",
    and a flag for whether a delete removed anything. */
module Controller {
  import opened Tasks

  datatype Option<T> = None | Some(value: T)

  /** `String.trim`: drops every character up to and including the space from both ends. */
  function Trim(s: string): string
    decreases |s|
  {
    if s != [] && s[0] <= ' ' then Trim(s[1..])
    else if s != [] && s[|s| - 1] <= ' ' then Trim(s[..|s| - 1])
    else s
  }

  /** Trimming leaves something exactly when some character is above the space. */
  lemma {:induction false} TrimNonEmpty(s: string)
    ensures Trim(s) != [] <==> exists i :: 0 <= i < |s| && s[i] > ' '
    decreases |s|
  {
    if s != [] && s[0] <= ' ' {
      TrimNonEmpty(s[1..]);
      assert forall i :: 0 < i < |s| ==> s[i] == s[1..][i - 1];
    } else if s != [] && s[|s| - 1] <= ' ' {
      TrimNonEmpty(s[..|s| - 1]);
      assert forall i :: 0 <= i < |s| - 1 ==> s[i] == s[..|s| - 1][i];
    } else if s != [] {
      assert s[0] > ' ';
    }
  }

  /** Bean Validation's `@NotBlank` on a string: once the string is trimmed,
      something is left. */
  predicate NotBlank(s: string): (r: bool)
    ensures r <==> Trim(s) != []
  {
    TrimNonEmpty(s);
    exists i :: 0 <= i < |s| && s[i] > ' '
  }

  /** Identifiers strictly increase from each task to the next in list order. */
  ghost predicate IdsIncreasing(ts: seq<Task>)
  {
    forall i :: 0 < i < |ts| ==> ts[i - 1].id < ts[i].id
  }

  /** Increase between neighbours is increase between any two positions; in particular
      no two tasks of the list share an identifier or are the same object. */
  lemma {:induction false} IdsIncreasingPairwise(ts: seq<Task>, i: nat, j: nat)
    requires IdsIncreasing(ts) && i < j < |ts|
    ensures ts[i].id < ts[j].id
    decreases j - i
  {
    if i + 1 < j {
      IdsIncreasingPairwise(ts, i, j - 1);
    }
  }

  lemma IdsIncreasingAllPairs(ts: seq<Task>)
    requires IdsIncreasing(ts)
    ensures forall i, j :: 0 <= i < j < |ts| ==> ts[i].id < ts[j].id && ts[i] != ts[j]
  {
    forall i, j | 0 <= i < j < |ts|
      ensures ts[i].id < ts[j].id
    {
      IdsIncreasingPairwise(ts, i, j);
    }
  }

  /** The position of the first task whose identifier is `id`, as
      `stream().filter(task -> task.getId() == id).findFirst()` finds it. */
  function FirstIndexOf(ts: seq<Task>, id: int): (r: Option<nat>)
    ensures r.Some? ==> r.value < |ts| && ts[r.value].id == id
    ensures r.Some? ==> forall j :: 0 <= j < r.value ==> ts[j].id != id
    ensures r.None? <==> forall j :: 0 <= j < |ts| ==> ts[j].id != id
  {
    if ts == [] then None
    else if ts[0].id == id then Some(0)
    else match FirstIndexOf(ts[1..], id)
      case None => None
      case Some(k) => Some(k + 1)
  }

  /** In a list with increasing identifiers the first match is the only match. */
  lemma FirstIndexOfUnique(ts: seq<Task>, i: nat)
    requires IdsIncreasing(ts) && i < |ts|
    ensures FirstIndexOf(ts, ts[i].id) == Some(i)
  {
    IdsIncreasingAllPairs(ts);
  }

  /** `removeIf(task -> task.getId() == id)`: the tasks whose identifier differs from
      `id`, in their original order. */
  function RemoveId(ts: seq<Task>, id: int): (r: seq<Task>)
    ensures |r| <= |ts|
    ensures forall k :: 0 <= k < |r| ==> r[k].id != id
  {
    if ts == [] then []
    else
      var init, last := ts[..|ts| - 1], ts[|ts| - 1];
      assert ts == init + [last];
      var kept := RemoveId(init, id);
      if last.id == id then kept else kept + [last]
  }

  /** A task survives the removal exactly when it was in the list with another
      identifier. */
  lemma {:induction false} RemoveIdMembers(ts: seq<Task>, id: int, t: Task)
    ensures t in RemoveId(ts, id) <==> t in ts && t.id != id
  {
    if ts != [] {
      var init := ts[..|ts| - 1];
      RemoveIdMembers(init, id, t);
      assert ts == init + [ts[|ts| - 1]];
    }
  }

  /** Removal distributes over concatenation, so survivors keep their relative order. */
  lemma {:induction false} RemoveIdAppend(a: seq<Task>, b: seq<Task>, id: int)
    ensures RemoveId(a + b, id) == RemoveId(a, id) + RemoveId(b, id)
    decreases |b|
  {
    if b != [] {
      var init := b[..|b| - 1];
      RemoveIdAppend(a, init, id);
      assert (a + b)[..|a + b| - 1] == a + init;
      assert b == init + [b[|b| - 1]];
    } else {
      assert a + b == a;
    }
  }

  /** Removing an identifier that no task has leaves the list as it was. */
  lemma {:induction false} RemoveIdAbsent(ts: seq<Task>, id: int)
    requires forall j :: 0 <= j < |ts| ==> ts[j].id != id
    ensures RemoveId(ts, id) == ts
  {
    if ts != [] {
      var init := ts[..|ts| - 1];
      RemoveIdAbsent(init, id);
      assert ts == init + [ts[|ts| - 1]];
    }
  }

  /** Under increasing identifiers, removing the identifier of position `i` removes
      exactly that task and keeps the others in order. */
  lemma {:induction false} RemoveIdUnique(ts: seq<Task>, i: nat)
    requires IdsIncreasing(ts) && i < |ts|
    ensures RemoveId(ts, ts[i].id) == ts[..i] + ts[i + 1..]
  {
    var n := |ts|;
    var id := ts[i].id;
    var init := ts[..n - 1];
    assert IdsIncreasing(init) by {
      forall k | 0 < k < |init|
        ensures init[k - 1].id < init[k].id
      {
        assert init[k - 1] == ts[k - 1] && init[k] == ts[k];
      }
    }
    if i == n - 1 {
      forall j | 0 <= j < |init|
        ensures init[j].id != id
      {
        IdsIncreasingPairwise(ts, j, i);
      }
      RemoveIdAbsent(init, id);
    } else {
      IdsIncreasingPairwise(ts, i, n - 1);
      RemoveIdUnique(init, i);
      assert RemoveId(ts, id) == RemoveId(init, id) + [ts[n - 1]];
      assert init[..i] == ts[..i];
      assert init[i + 1..] + [ts[n - 1]] == ts[i + 1..];
    }
  }

  /** Removal keeps identifiers increasing. */
  lemma RemoveIdIncreasing(ts: seq<Task>, id: int)
    requires IdsIncreasing(ts)
    ensures IdsIncreasing(RemoveId(ts, id))
  {
    match FirstIndexOf(ts, id)
    case None =>
      RemoveIdAbsent(ts, id);
    case Some(i) =>
      RemoveIdUnique(ts, i);
      var r := ts[..i] + ts[i + 1..];
      forall k | 0 < k < |r|
        ensures r[k - 1].id < r[k].id
      {
        if k == i {
          IdsIncreasingPairwise(ts, i - 1, i + 1);
        } else {
          assert k < i || (r[k - 1] == ts[k] && r[k] == ts[k + 1]);
        }
      }
  }

  /** The store. `tasks` is the list in insertion order and `counter` the last
      identifier handed out; `issued` records every identifier handed out so far. */
  class ApiController {
    var tasks: seq<Task>
    var counter: nat
    ghost var issued: set<int>

    ghost predicate Valid()
      reads this
    {
      IdsIncreasing(tasks) &&
      (forall i :: 0 <= i < |tasks| ==> tasks[i].id in issued) &&
      (forall n :: n in issued <==> 1 <= n <= counter)
    }

    /** An empty store whose counter starts at 0. */
    constructor ()
      ensures Valid()
      ensures tasks == [] && counter == 0 && issued == {}
    {
      tasks := [];
      counter := 0;
      issued := {};
    }

    /** GET /tasks: the current tasks, in insertion order. */
    method ListTasks() returns (r: seq<Task>)
      requires Valid()
      ensures r == tasks
      ensures IdsIncreasing(r)
    {
      r := tasks;
    }

    /** POST /tasks: the next counter value becomes the identifier of a new task
        appended at the end. */
    method CreateTask(text: string) returns (t: Task)
      requires Valid() && NotBlank(text)
      modifies this
      ensures Valid() && fresh(t)
      ensures t.id == old(counter) + 1 && t.text == text
      ensures counter == old(counter) + 1
      ensures t.id !in old(issued) && issued == old(issued) + {t.id}
      ensures tasks == old(tasks) + [t]
      ensures GetTaskById(t.id) == Some(t)
    {
      counter := counter + 1;
      t := new Task(counter, text);
      tasks := tasks + [t];
      issued := issued + {counter};
      FirstIndexOfUnique(tasks, |tasks| - 1);
    }

    /** GET /tasks/{id}: the first task with identifier `id`, or `None` (not found). */
    function GetTaskById(id: int): (r: Option<Task>)
      reads this
      ensures r.None? <==> forall t :: t in tasks ==> t.id != id
      ensures r.Some? ==> r.value.id == id
      ensures r.Some? ==> exists i :: 0 <= i < |tasks| && tasks[i] == r.value &&
                            forall j :: 0 <= j < i ==> tasks[j].id != id
    {
      match FirstIndexOf(tasks, id)
      case None => None
      case Some(i) => Some(tasks[i])
    }

    /** PUT /tasks/{id}: replaces the text of the first task with identifier `id` in
        place and returns it, or returns `None` (not found). */
    method UpdateTask(id: int, text: string) returns (r: Option<Task>)
      requires Valid() && NotBlank(text)
      modifies tasks
      ensures Valid()
      ensures tasks == old(tasks) && counter == old(counter) && issued == old(issued)
      ensures r == GetTaskById(id)
      ensures r.Some? ==> r.value.id == id && r.value.text == text
      ensures forall t :: t in tasks && (r.None? || t != r.value) ==> t.text == old(t.text)
    {
      match FirstIndexOf(tasks, id)
      case None =>
        r := None;
      case Some(i) =>
        IdsIncreasingAllPairs(tasks);
        tasks[i].SetText(text);
        r := Some(tasks[i]);
    }

    /** DELETE /tasks/{id}: removes every task with identifier `id` and reports whether
        there was one. */
    method DeleteTask(id: int) returns (removed: bool)
      requires Valid()
      modifies this
      ensures Valid()
      ensures removed <==> exists j :: 0 <= j < |old(tasks)| && old(tasks)[j].id == id
      ensures tasks == RemoveId(old(tasks), id)
      ensures counter == old(counter) && issued == old(issued)
      ensures removed ==> |tasks| == |old(tasks)| - 1
      ensures !removed ==> tasks == old(tasks)
      ensures GetTaskById(id) == None
    {
      var kept: seq<Task> := [];
      var i := 0;
      removed := false;
      while i < |tasks|
        invariant 0 <= i <= |tasks|
        invariant kept == RemoveId(tasks[..i], id)
        invariant removed <==> exists j :: 0 <= j < i && tasks[j].id == id
      {
        assert tasks[..i + 1][..i] == tasks[..i];
        if tasks[i].id == id {
          removed := true;
        } else {
          kept := kept + [tasks[i]];
        }
        i := i + 1;
      }
      assert tasks[..i] == tasks;
      match FirstIndexOf(tasks, id) {
        case None =>
          RemoveIdAbsent(tasks, id);
        case Some(k) =>
          RemoveIdUnique(tasks, k);
      }
      RemoveIdIncreasing(tasks, id);
      tasks := kept;
    }
  }

  /** The walk-through of the service's behaviour: two creates, an update, a delete,
      and a create after the delete that does not reuse the deleted identifier. */
  method Walkthrough()
  {
    var store := new ApiController();
    assert NotBlank("buy milk") by { assert "buy milk"[0] > ' '; }
    assert NotBlank("walk dog") by { assert "walk dog"[0] > ' '; }
    assert NotBlank("buy almond milk") by { assert "buy almond milk"[0] > ' '; }
    var milk := store.CreateTask("buy milk");
    assert milk.id == 1;
    var dog := store.CreateTask("walk dog");
    assert dog.id == 2;
    var all := store.ListTasks();
    assert all == [milk, dog];
    var updated := store.UpdateTask(1, "buy almond milk");
    assert updated == Some(milk) && milk.text == "buy almond milk" && dog.text == "walk dog";
    var removed := store.DeleteTask(2);
    assert removed;
    all := store.ListTasks();
    assert all == [milk];
    assert store.GetTaskById(2) == None;
    var again := store.CreateTask("walk dog");
    assert again.id == 3;
  }
}
