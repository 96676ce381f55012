# Add-todo form: a Dafny model

The application renders a list of todos joined with a user directory and
offers a form: a title field, a user selector and a submit button. A submit
with a known user and a title that does not trim to empty appends a new todo
and clears the form; a failed submit lowers the `titleEntered` and/or
`userChosen` flags that show the error notices; editing a field raises its flag
again.

The model has five modules:

- `Optional`: the `User | null` result of the lookup.
- `Text`: ECMAScript `String.prototype.trim` over the WhiteSpace and
  LineTerminator code points, and the fact that a string trims to empty
  exactly when it is all white space.
- `Directory`: users, raw todos and enriched todos; `getUser` as `GetUser`
  (first match in directory order) and the initial `todos` map as `Join`.
- `TodoIds`: `nextTodoId` as `NextTodoId`, i.e. `Max(Ids(list)) + 1`.
- `AddTodoForm`: the component state `FormState`, one transition function per
  handler (`ResetStep`, `AddTodoStep`, `SubmitStep`, `TitleStep`,
  `UserSelectStep`), the invariant they keep, runs of events, and the class
  `AppForm` whose fields `title`, `userId`, `visibleTodos`, `titleEntered`,
  `userChosen` the handler methods overwrite. Every handler method is proved
  equal to its transition function.

`addTodo` reads all state before any setter takes effect, so it is one
transition from the old state: the `if (!userId)` test sees the old user id
even after a successful submit has reset it. The method `AppForm.AddTodo`
captures the old values in locals first and then applies the setters in the
order the source calls them. `addTodo` keeps its `id` parameter. The id tested
by the guard may differ from the `userId` stored in the new todo. `handleSubmit`
passes the current `userId`.

The two directories are arbitrary ordered sequences. User ids need not be
unique or positive. When some user has id 0, a successful submit with that id
lowers `userChosen`. `AddTodoForm.AcceptedSubmitKeepsFlags` therefore assumes
that no user has id 0.

`Math.max()` of no arguments is `-Infinity` (src/App.tsx:28). The model does
not represent it, so `NextTodoId` is defined only on a non-empty list. The list
starts from the todo directory and never shrinks, so the component requires a
non-empty todo directory.

## Model

| member | source | states |
|---|---|---|
| `Text.TrimStart` | src/App.tsx:37 | the result is the suffix of the string starting at its first non-white character; everything dropped is white space |
| `Text.TrimEnd` | src/App.tsx:37 | the result is the prefix ending at the last non-white character; everything dropped is white space |
| `Text.TrimEmptyIffBlank` | src/App.tsx:59 | `title.trim()` is empty exactly when every character of the title is white space |
| `Directory.GetUser` | src/App.tsx:11-13 | the result is `None` exactly when no user has the id; otherwise it is a user of the directory with that id |
| `Directory.GetUserIsFirstMatch` | src/App.tsx:11-13 | when the first user with the id sits at position k, the lookup returns that user (first match in directory order) |
| `Directory.Join` | src/App.tsx:15-18 | same length and order as the todo directory; entry i keeps todo i's id, userId, title and completed, and its user is the lookup of its userId |
| `Directory.StripJoin` | src/App.tsx:15-18 | dropping the users from the join gives back the todo directory exactly |
| `Directory.JoinResolved` | src/App.tsx:15-18 | every joined entry is resolved, and it has a user exactly when the directory holds a user with its userId |
| `TodoIds.Max` | src/App.tsx:28 | the maximum of a non-empty list is one of its elements and no element exceeds it |
| `TodoIds.NextTodoId` | src/App.tsx:27-29 | on a non-empty list the next id is some present id plus one and exceeds every present id, i.e. it is max(ids) + 1 |
| `TodoIds.AppendNextIdKeepsDistinct` | src/App.tsx:39 | appending a todo with the next id keeps the ids pairwise distinct |
| `AddTodoForm.SubmitAcceptsIff` | src/App.tsx:37 | a submit is accepted exactly when some user has the selected id and the title is not all white space |
| `AddTodoForm.SubmitAccepted` | src/App.tsx:36-51 | an accepted submit appends exactly one todo at the end, leaves the earlier entries as they were, builds it as {next id, userId, untrimmed title, completed false, the user}, gives it an id above all present ones and resets the draft to "" and 0 |
| `AddTodoForm.SubmitRejected` | src/App.tsx:36-57 | a rejected submit leaves the list, the title and the user id unchanged |
| `AddTodoForm.SubmitFlags` | src/App.tsx:54-61 | after any submit `userChosen` is false exactly when it was false or the old user id was 0, and `titleEntered` is false exactly when it was false or the old title was blank |
| `AddTodoForm.AcceptedSubmitKeepsFlags` | src/App.tsx:54-61 | when no user has id 0, an accepted submit leaves both flags unchanged |
| `AddTodoForm.AcceptedSubmitShowsNoError` | src/App.tsx:54-61 | in a state satisfying the invariant, when no user has id 0, an accepted submit leaves both `titleEntered` and `userChosen` true, so no error notice shows |
| `AddTodoForm.UnknownUserRejected` | src/App.tsx:37-57 | a non-zero id that matches no user is rejected without lowering `userChosen` |
| `AddTodoForm.InitialInvariant` | src/App.tsx:21-25 | the initial state satisfies the invariant |
| `AddTodoForm.AppendKeepsInvariant` | src/App.tsx:38-50 | appending a resolved, non-blank, uncompleted todo that carries the next id keeps the invariant |
| `AddTodoForm.AddTodoKeepsInvariant` | src/App.tsx:36-62 | `addTodo` keeps the invariant and only extends the list |
| `AddTodoForm.TitleKeepsInvariant` | src/App.tsx:69-72 | `handleTitle` keeps the invariant |
| `AddTodoForm.UserSelectKeepsInvariant` | src/App.tsx:74-77 | `handleUserSelect` keeps the invariant |
| `AddTodoForm.InvariantGivesDistinctIds` | src/App.tsx:27-50 | if the fixture ids are distinct, all ids in any state that satisfies the invariant are distinct |
| `AddTodoForm.Step` | src/App.tsx:64-77 | handling one event never removes or changes an existing entry (the old list is a prefix of the new), and the list grows by exactly one entry when the event is an accepted submit and by none otherwise |
| `AddTodoForm.Run` | src/App.tsx:64-77 | after any sequence of events the old list is a prefix of the new one |
| `AddTodoForm.RunKeepsInvariant` | src/App.tsx:36-77 | every sequence of events keeps the invariant |
| `AddTodoForm.ReachableStates` | src/App.tsx:21-77 | every state reached from the initial one satisfies the invariant and still starts with the joined fixtures |
| `AddTodoForm.ScenarioInitial` | src/App.tsx:11-18 | with one user and one todo, the joined list is that todo with the user attached |
| `AddTodoForm.ScenarioAccepted` | src/App.tsx:36-51 | from there a valid submit appends todo 2 with that user and clears the draft |
| `AddTodoForm.ScenarioEmptyTitle` | src/App.tsx:54-61 | with an empty title the submit only lowers `titleEntered` |
| `AddTodoForm.AppForm.constructor` | src/App.tsx:21-25 | the component starts with an empty draft, the joined fixtures and both flags true |
| `AddTodoForm.AppForm.HandleReset` | src/App.tsx:31-34 | the draft becomes "" and 0, nothing else changes; the invariant is kept |
| `AddTodoForm.AppForm.AddTodo` | src/App.tsx:36-62 | the new state is `AddTodoStep` of the old one; the invariant holds and the list only grows |
| `AddTodoForm.AppForm.HandleSubmit` | src/App.tsx:64-67 | the new state is `addTodo(userId)` applied to the old one |
| `AddTodoForm.AppForm.HandleTitle` | src/App.tsx:69-72 | only `title` (to the value) and `titleEntered` (to true) change; the invariant holds |
| `AddTodoForm.AppForm.HandleUserSelect` | src/App.tsx:74-77 | only `userId` (to the value) and `userChosen` (to true) change; the invariant holds |

The invariant (`AddTodoForm.Invariant`) says:

- the list is not empty;
- a lowered `titleEntered` means the title is blank;
- a lowered `userChosen` means the user id is 0;
- every entry's user is the lookup of its `userId`;
- every todo added after the fixtures has an id above all ids before it, a
  title that is not blank, and `completed` false.

## Left out

- The JSX tree and its rendering (src/App.tsx:79-133): the error notices, the select options and the list hand-off are view code.
- src/components/TodoInfo/TodoInfo.tsx: presentational only.
- The form's `action`/`method` attributes and `event.preventDefault()`: no request is sent. This is browser plumbing.
- `+event.target.value` in `handleUserSelect`: the handler takes an integer. The model has no string-to-number coercion and no `NaN` (for which `!userId` would also hold).
- React's `useState` batching and re-rendering: each handler is one atomic transition.
- The fixture contents of `./api/users` and `./api/todos`: the directories are arbitrary sequences. The user record keeps only `id` and `name`, because the `User` type's file is not part of this model.
- JavaScript numbers are doubles. Ids are unbounded integers here, so there is no rounding past 2^53.
- JavaScript strings are UTF-16 code units. Here they are Unicode scalar values. Every trimmed code point is in the Basic Multilingual Plane, so trimming is unaffected.
- AddTodoForm.AppForm.constructor: requires a non-empty todo directory. `Math.max()` of an empty list gives `-Infinity`, a floating-point result that the model does not represent, so `NextTodoId` is defined only on non-empty lists.
