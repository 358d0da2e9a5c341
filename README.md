# Task store of the `/tasks` service

This project models the in-memory task store behind a small CRUD web service.
The store keeps tasks in an ordered list and hands out identifiers from a counter.
Each task has a fixed numeric identifier and a text that can be replaced.
The store offers five operations: list, create, get by id, update the text, and delete.

- `task.dfy`, module `Tasks`: the `Task` class. `id` is a `const` because the Java field is `final`, so no operation can change it. `text` is a `var`, and `SetText` replaces it.
- `api_controller.dfy`, module `Controller`: the class `ApiController`.
  - `tasks` is the list in insertion order. `counter` is the last identifier handed out.
  - A ghost set `issued` holds every identifier handed out so far. It is exactly `1..counter`.
  - `Valid()` is the object invariant. It says identifiers strictly increase along the list and every listed identifier has been issued.
  - The operations are methods. The exception is get-by-id, a read-only stream lookup, which is a function.
  - The pure functions `FirstIndexOf` (the `filter`/`findFirst` scan) and `RemoveId` (the `removeIf` filter) specify the scans. Lemmas about them cover: uniqueness of the first match, removal of exactly one task, order of the survivors, and preservation of the invariant.
  - `Walkthrough` is a client method. Its assertions state this scenario and are proved from the contracts alone: create "buy milk" (id 1); create "walk dog" (id 2); update 1; delete 2; a further create gets id 3, not 2.

HTTP responses become values. Create returns the new task itself (201 Created). Get and update return `Some(task)` for a found task (200 OK). "Not found" is `None` (404). Delete returns a flag: `true` means 204 No Content, `false` means 404.

The `@NotBlank` constraint on the request text is a precondition `NotBlank(text)` of create and update. Bean validation rejects a blank text before the controller method runs, so the store never sees one. `NotBlank` follows the Hibernate Validator reading of `@NotBlank`: after trimming the characters up to and including the space (`String.trim`), something remains. That validator is not part of this model; only its predicate is.

## Model

| member | source | states |
|---|---|---|
| `Tasks.Task.constructor` | controller/Task.java:8-20 | the new task's identifier and text (and the getters' results) are exactly the constructor's arguments |
| `Tasks.Task.SetText` | controller/Task.java:18-25 | afterwards `GetText()` returns the new text; only the `text` field of the receiver may change (the identifier is a constant) |
| `Controller.NotBlank` | controller/TaskRequest.java:6 | the `@NotBlank` test on the request text, a precondition of create and update: true exactly when trimming the characters up to and including the space off both ends (`String.trim`, modelled by `Trim`) leaves something |
| `Controller.TrimNonEmpty` | controller/TaskRequest.java:6 | trimming leaves something exactly when some character of the text is above the space, so a blank text is one whose every character is at or below the space |
| `Controller.IdsIncreasingPairwise` | controller/ApiController.java:36-38 | if identifiers increase between neighbours, then at any positions i < j the identifier at i is below the one at j |
| `Controller.IdsIncreasingAllPairs` | controller/ApiController.java:36-38 | in a list with increasing identifiers, any two positions hold different identifiers and different task objects |
| `Controller.FirstIndexOf` | controller/ApiController.java:52-54 | the result is the position of a task with the given identifier, and no earlier task has it; the result is none exactly when no task has it |
| `Controller.FirstIndexOfUnique` | controller/ApiController.java:52-54 | under increasing identifiers, the lookup of the identifier at position i finds exactly position i |
| `Controller.RemoveId` | controller/ApiController.java:76 | no survivor of the removal carries the removed identifier, and the list never grows |
| `Controller.RemoveIdMembers` | controller/ApiController.java:76 | a task survives the removal if and only if it was in the list and has a different identifier |
| `Controller.RemoveIdAppend` | controller/ApiController.java:76 | removal works segment by segment over a concatenation, so survivors keep their relative order |
| `Controller.RemoveIdAbsent` | controller/ApiController.java:76-77 | removing an identifier no task carries leaves the list unchanged |
| `Controller.RemoveIdUnique` | controller/ApiController.java:76 | under increasing identifiers, removing the identifier at position i removes exactly that one task; the rest stay in order |
| `Controller.RemoveIdIncreasing` | controller/ApiController.java:76 | removal preserves strictly increasing identifiers |
| `Controller.ApiController.constructor` | controller/ApiController.java:24-25 | the store starts with an empty list, counter 0 and no issued identifiers, and satisfies the invariant |
| `Controller.ApiController.ListTasks` | controller/ApiController.java:28-31 | returns the current list itself, in insertion order, and its identifiers strictly increase |
| `Controller.ApiController.CreateTask` | controller/ApiController.java:34-47 | the new task has identifier old counter + 1 (so the first is 1) and the requested text; that identifier was never issued before; the counter grows by exactly one; the task is appended after the unchanged earlier entries; a later lookup of its identifier finds it; the invariant is kept |
| `Controller.ApiController.GetTaskById` | controller/ApiController.java:50-57 | returns the first task with the given identifier, or none exactly when no task has it; it reads the store and changes nothing |
| `Controller.ApiController.UpdateTask` | controller/ApiController.java:60-71 | returns the task a lookup would find. If one is found, its text becomes the new text and its identifier stays. The list, the order, the length, the counter and the text of every other task are unchanged. If none is found, nothing changes. The invariant is kept |
| `Controller.ApiController.DeleteTask` | controller/ApiController.java:74-78 | the new list is the old one without the tasks of that identifier. The flag is true exactly when such a task existed; then the length drops by exactly one, and otherwise the list is unchanged. The counter and issued identifiers stay, so a deleted identifier is never handed out again. A later lookup of the identifier finds nothing. The invariant is kept |

## Left out

- HTTP plumbing: `ResponseEntity` status codes, request routing, and the `Location` URI built by `ServletUriComponentsBuilder` (controller/ApiController.java:41-46). These are framework calls; the model returns the task or a not-found value instead.
- Bean validation (`@Valid`, `@NotBlank`): it runs in the framework before the controller method. It appears only as the precondition `NotBlank` on create and update, so the model has no error path for a blank text.
- `TaskRequest` is a plain data holder for the request body; the model passes its text directly.
- Concurrency: the synchronized list, the atomic counter, and the unlocked stream iteration over the synchronized list. The model is sequential.
- `ListTasks` returns the current sequence as a value. Java returns the live list, so a caller could see later changes; that aliasing is not modelled.
- The identifier counter is an unbounded `nat`. The Java `long` would overflow after 2^63 creates; that is not modelled.
- JSON serialisation of `Task`.
- `Tasks.Task.GetId` and `Tasks.Task.GetText` are plain getters and have no contracts of their own. The constructor and `SetText` state what they return.
