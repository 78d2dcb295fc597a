# Task manager core: a Dafny model

This project models the stateful core of a small task-management web
application (a Next.js client over a REST/MongoDB server):

- **Task store over browser storage** (`client/src/utils/localStorage.ts`):
  each user's task list lives under the key `"tasks_" + userId` of a
  key-value store, modelled as `map<string, seq<Task>>` held by the class
  `LocalTaskStore.TaskStorage`. The module has read, create (which prepends),
  merge-update by id (which returns null for an unknown id) and delete by id.
  It also has pure transition functions (`AfterSave`, `AfterUpdate`,
  `AfterDelete`). The methods are proved to follow them, and the lemmas
  about isolation, ordering and idempotence are stated over them.
- **Session controller** (`client/src/context/AuthContext.tsx`): the pure
  `authReducer` is the function `AuthContext.AuthReducer`. The provider's
  mount effect, `login`, `signup` and `logout` are methods of the class
  `AuthContext.AuthProvider`, which holds the reducer state and the
  persisted `token` and `user` keys. Each method keeps the invariant
  `Valid()`: authenticated exactly when a user and a token are held, and an
  authenticated session is the persisted one.
- **Task schema** (`server/models/Task.js`): the schema's trim, required,
  enum, default and timestamp rules become
  `TaskSchema.Normalize` / `TaskSchema.Create`, returning the normalised
  fields or the list of failed validators. `String.prototype.trim` is
  modelled in `JsString`.
- **Dashboard bookkeeping** (`client/src/app/dashboard/page.tsx`): the
  component state `{tasks, isLoading, showAddModal, showEditModal,
  currentTask, newTask}` is the class `Dashboard.DashboardPage`. Its
  handlers update those fields after the success or failure of each request.
  They use the list operations of `TaskLists`: prepend, `map`-replace by id
  and `filter` by id.

`TaskTypes` reconstructs the client's `Task` record:
`_id`, `title`, `description`, `status`, `createdAt`, `updatedAt`, with
`status` one of `pending | in-progress | completed`. It also defines the
draft a user fills in and the `Partial<Task>` of an update, with `None`
for a field that is not supplied. `AuthTypes` transcribes `User` and
`AuthState` from `client/src/types/auth.ts`.

Every request to the server is an abstract outcome given as a parameter.
For login and signup this is `ApiSuccess(user, token)` or
`ApiFailure(message)`. For the task requests it is a `Result`. The clock
and id readings (`Date.now()`, each `new Date()`) are parameters too, so
the model claims nothing about their uniqueness or order.

Three behaviours of the code are worth stating outright:
- A local `updateTask` of an unknown id returns null and writes nothing.
  A local `deleteTask` of an unknown id writes the unchanged list back and
  raises nothing. Neither reports "not found".
- A failed login or signup does not sign the user out. `SET_ERROR` keeps
  the user, token and `isAuthenticated` of the state before.
- A task created by the local `saveTask` takes two separate `new Date()`
  readings for its timestamps. So its `createdAt` and `updatedAt` need not be equal. For a saved server
  document they are the same reading (`TaskSchema.Create`).

## Model

| member | source | states |
|---|---|---|
| TaskTypes.ParseStatus | server/models/Task.js:14-18 | a parsed status is one whose stored name is exactly the input |
| TaskTypes.ParseStatusName | server/models/Task.js:17 | each of the three status names parses back to its status |
| TaskLists.IndexOfId | client/src/utils/localStorage.ts:26 | `findIndex` by id: -1 exactly when no task has the id; otherwise a position holding the id with none before it |
| TaskLists.WithoutId | client/src/utils/localStorage.ts:41 | `filter` by id: a task is in the result iff it was in the list and its id differs; the result is no longer than the list |
| TaskLists.WithoutIdAppend | client/src/utils/localStorage.ts:41 | filtering distributes over concatenation, so the kept tasks keep their relative order |
| TaskLists.WithoutIdCounts | client/src/utils/localStorage.ts:41 | every occurrence of a task with the id is removed, and every other task keeps its multiplicity |
| TaskLists.WithoutIdAbsent | client/src/utils/localStorage.ts:39-43 | filtering an id that no task carries returns the list unchanged |
| TaskLists.WithoutIdIdempotent | client/src/app/dashboard/page.tsx:87 | filtering the same id twice equals filtering it once |
| TaskLists.ReplaceById | client/src/app/dashboard/page.tsx:73-75 | `map`-replace: same length; every entry with the id becomes the replacement, every other entry is unchanged at its position |
| TaskLists.ReplaceByIdAbsent | client/src/app/dashboard/page.tsx:73-75 | replacing an id no entry carries leaves the list unchanged |
| JsString.TrimStart | server/models/Task.js:7 | the result is a suffix of the input; everything dropped is white space; the result does not start with white space |
| JsString.TrimEnd | server/models/Task.js:12 | the result is a prefix of the input; everything dropped is white space; the result does not end with white space |
| JsString.Trim | server/models/Task.js:7 | the `trim: true` setter: never longer than the input, and neither starts nor ends with white space; its body cuts the white-space prefix with TrimStart and then the white-space suffix with TrimEnd, whose contracts fix the result as the slice between the longest white-space prefix and the longest white-space suffix; TrimEmpty, TrimIdempotent and TrimFixed carry the rest |
| JsString.TrimEmpty | server/models/Task.js:6-7 | a string trims to "" exactly when every character is white space |
| JsString.TrimIdempotent | server/models/Task.js:7 | trimming twice equals trimming once |
| JsString.TrimFixed | server/models/Task.js:12 | a string with no white space at either end is its own trim |
| TaskSchema.Normalize | server/models/Task.js:3-19 | a submission is accepted exactly when Errors finds nothing; a rejected one carries exactly the (non-empty) list Errors gives, so the failing paths in schema order |
| TaskSchema.Message | server/models/Task.js:4-13 | every error has a non-empty message; TitleRule and DescriptionRule state the schema's own messages for the title and description errors, and MessagesDistinct proves no two errors share one |
| TaskSchema.MessagesDistinct | server/models/Task.js:6-11 | two errors with the same message are the same error |
| TaskSchema.StatusErrors | server/models/Task.js:14-18 | at most one status error: none iff the value is one of the three names; "" fails `required`, checked before `enum`; any other unknown value fails `enum` |
| TaskSchema.Errors | server/models/Task.js:3-19 | at most three errors; the title error iff the trimmed title is missing or empty, likewise the description; a status error iff the defaulted status is not a valid name; ErrorsWellFormed adds that none repeats and that nothing else appears |
| TaskSchema.ErrorsWellFormed | server/models/Task.js:3-19 | at most one error per path: no error appears twice, and every error is the title error, the description error or the status error for the submitted (or defaulted) value |
| TaskSchema.TitleRule | server/models/Task.js:4-8 | the title check fails iff the title is omitted or all white space, and then Normalize rejects the submission with TitleRequired, whose message is 'Please add a title'; an accepted title is stored trimmed |
| TaskSchema.DescriptionRule | server/models/Task.js:9-13 | the description check fails iff the description is omitted or all white space, and then Normalize rejects the submission with DescriptionRequired, whose message is 'Please add a description'; an accepted description is stored trimmed |
| TaskSchema.StatusRule | server/models/Task.js:14-19 | a status error is reported iff a status is given and is not one of the three names; "" gives `StatusRequired`, any other unknown value `StatusNotInEnum`, never both; an omitted status becomes `pending`; a given one is kept |
| TaskSchema.Accepts | server/models/Task.js:3-19 | a submission is accepted iff title and description each hold a non-white-space character and the status is omitted or valid |
| TaskSchema.NormalizeIdempotent | server/models/Task.js:7-18 | resubmitting the fields of an accepted task is accepted and returns them unchanged |
| TaskSchema.Create | server/models/Task.js:20-22 | a created document carries the normalised fields and `createdAt == updatedAt ==` the save time; errors are passed through |
| LocalTaskStore.StorageKey | client/src/utils/localStorage.ts:3 | the key is the user id behind the fixed prefix "tasks_" |
| LocalTaskStore.StorageKeyInjective | client/src/utils/localStorage.ts:3 | two users share a key only if they are the same user |
| LocalTaskStore.StoredTasks | client/src/utils/localStorage.ts:5-9 | the stored list, or the empty list when nothing is stored under the key |
| LocalTaskStore.AfterSave | client/src/utils/localStorage.ts:19-20 | only the user's key changes, and it now holds the new task followed by the old list; SavePrepends and SaveIsolated restate this per user |
| LocalTaskStore.NewTask | client/src/utils/localStorage.ts:13-18 | the new task has the draft's title, description and status, and the given id and two clock readings |
| LocalTaskStore.Merge | client/src/utils/localStorage.ts:29-33 | `updatedAt` is always the new reading, and an empty patch only refreshes it; MergeFields gives every field |
| LocalTaskStore.AfterUpdate | client/src/utils/localStorage.ts:26-35 | only the user's key may change; the result is null iff no stored task has the id, and then the store is unchanged; otherwise the list keeps its length and the returned task has the new `updatedAt`; UpdatePresent gives the exact position |
| LocalTaskStore.AfterDelete | client/src/utils/localStorage.ts:41-42 | only the user's key changes, and it is always written; the kept tasks are exactly the old ones without the id; DeleteRemoves, DeleteTwice and DeleteAbsent carry the rest |
| LocalTaskStore.MergeFields | client/src/utils/localStorage.ts:29-33 | every supplied field, `_id` and `createdAt` included, overrides the old value; the others keep theirs; `updatedAt` is always the new reading |
| LocalTaskStore.SaveIsolated | client/src/utils/localStorage.ts:11-22 | a save for user u changes no key except u's, so no other user's list changes |
| LocalTaskStore.UpdateIsolated | client/src/utils/localStorage.ts:24-37 | an update for user u changes no key except u's, so no other user's list changes |
| LocalTaskStore.DeleteIsolated | client/src/utils/localStorage.ts:39-43 | a delete for user u changes no key except u's, so no other user's list changes |
| LocalTaskStore.SavePrepends | client/src/utils/localStorage.ts:19-21 | after a save the list is one longer, headed by the new task, followed by the old list in order |
| LocalTaskStore.UpdateMissing | client/src/utils/localStorage.ts:26-27 | for an id not in the list the result is null and the store is untouched |
| LocalTaskStore.UpdatePresent | client/src/utils/localStorage.ts:26-36 | for a present id, only its first position changes, to the merged task, which is also returned; length and all other positions are kept |
| LocalTaskStore.DeleteRemoves | client/src/utils/localStorage.ts:39-43 | after a delete the user's list is the old one with exactly the tasks carrying the id removed |
| LocalTaskStore.DeleteAbsent | client/src/utils/localStorage.ts:41-42 | deleting an id not in the list leaves the user's list as it was |
| LocalTaskStore.DeleteTwice | client/src/utils/localStorage.ts:39-43 | deleting twice leaves the same store as deleting once |
| LocalTaskStore.SaveThenDelete | client/src/utils/localStorage.ts:11-43 | deleting the id of a just-saved task, when no earlier task carries that id, gives back the user's earlier list |
| LocalTaskStore.TaskStorage.constructor | client/src/utils/localStorage.ts:1-3 | the store starts with the given contents |
| LocalTaskStore.TaskStorage.GetStoredTasks | client/src/utils/localStorage.ts:5-9 | returns the list under the user's key, or the empty list when there is none |
| LocalTaskStore.TaskStorage.SaveTask | client/src/utils/localStorage.ts:11-22 | returns the new task and writes it in front of the user's list; nothing else in the store changes |
| LocalTaskStore.TaskStorage.UpdateTask | client/src/utils/localStorage.ts:24-37 | returns and stores exactly what the update specification gives: null and no write for a missing id, otherwise the merged task at its first position |
| LocalTaskStore.TaskStorage.DeleteTask | client/src/utils/localStorage.ts:39-43 | writes the user's list back without the id |
| AuthContext.InitialState | client/src/context/AuthContext.tsx:58-64 | no user, no token, not authenticated, loading, no error |
| AuthContext.AuthReducer | client/src/context/AuthContext.tsx:21-56 | every action keeps the session invariant; `LOGIN_SUCCESS` and `LOGOUT` end loading and clear the error; `SET_LOADING` and `SET_ERROR` keep user, token and `isAuthenticated`; per-action results in LoginSuccessInstalls, LogoutForgets, SetLoadingOnly and SetErrorOnly |
| AuthContext.LoginSuccessInstalls | client/src/context/AuthContext.tsx:23-31 | `LOGIN_SUCCESS` sets user and token from the payload, authenticates, stops loading and clears the error |
| AuthContext.LogoutForgets | client/src/context/AuthContext.tsx:32-40 | `LOGOUT` gives the same signed-out state from any state: no user or token, not authenticated, not loading, no error |
| AuthContext.SetLoadingOnly | client/src/context/AuthContext.tsx:41-46 | `SET_LOADING` changes only the loading flag, to the payload, and clears the error |
| AuthContext.SetErrorOnly | client/src/context/AuthContext.tsx:47-52 | `SET_ERROR` sets the error, stops loading, and keeps user, token and `isAuthenticated` |
| AuthContext.RunKeepsConsistent | client/src/context/AuthContext.tsx:21-56 | any sequence of actions from a consistent state ends in a consistent state |
| AuthContext.ReachableConsistent | client/src/context/AuthContext.tsx:21-64 | every state reachable from the initial state is consistent |
| AuthContext.Rehydrated | client/src/context/AuthContext.tsx:69-80 | keeps the invariant and always ends loading with no error; with a non-empty stored token and a stored user it installs them, otherwise the session is left as it was |
| AuthContext.Attempted | client/src/context/AuthContext.tsx:82-112 | keeps the invariant and ends loading; on success the returned session is installed with no error; on failure the error is the message or the fallback and the prior session is kept |
| AuthContext.RehydrateFromInitial | client/src/context/AuthContext.tsx:69-80 | on mount, a stored non-empty token and a stored user give the authenticated session with those values; otherwise anonymous and not loading |
| AuthContext.AttemptSucceeds | client/src/context/AuthContext.tsx:82-91 | a successful login or signup installs the returned user and token, authenticated, not loading, no error |
| AuthContext.AttemptFails | client/src/context/AuthContext.tsx:92-95 | a failed attempt records the error message or the fallback, stops loading, and keeps the prior session |
| AuthContext.AuthProvider.constructor | client/src/context/AuthContext.tsx:66-67 | the provider starts in the initial state over whatever storage holds, and the invariant holds |
| AuthContext.AuthProvider.Rehydrate | client/src/context/AuthContext.tsx:69-80 | applies the mount effect to the state, leaves storage untouched, and keeps the invariant |
| AuthContext.AuthProvider.Authenticate | client/src/context/AuthContext.tsx:82-96 | on success stores the returned token and user; on failure leaves storage untouched and re-raises; the state follows the attempt specification |
| AuthContext.AuthProvider.Login | client/src/context/AuthContext.tsx:82-96 | `login`, as Authenticate with fallback 'Login failed' |
| AuthContext.AuthProvider.Signup | client/src/context/AuthContext.tsx:98-112 | `signup`, as Authenticate with fallback 'Signup failed' |
| AuthContext.AuthProvider.Logout | client/src/context/AuthContext.tsx:114-118 | removes both keys and applies `LOGOUT`, keeping the invariant |
| Dashboard.EmptyDraft | client/src/app/dashboard/page.tsx:23-27 | the add form is empty title, empty description, status `pending` |
| Dashboard.DashboardPage.constructor | client/src/app/dashboard/page.tsx:18-27 | no tasks, not loading, both modals closed, no current task, empty form |
| Dashboard.DashboardPage.LoadTasks | client/src/app/dashboard/page.tsx:40-50 | the list becomes the response on success and is kept on failure; loading is false afterwards; nothing else changes |
| Dashboard.DashboardPage.HandleAddTask | client/src/app/dashboard/page.tsx:52-62 | with a user and a success: the returned task is prepended, the form reset and the add modal closed; otherwise nothing changes |
| Dashboard.DashboardPage.HandleEditTask | client/src/app/dashboard/page.tsx:64-67 | sets the current task and opens the edit modal; the list and the rest are unchanged |
| Dashboard.DashboardPage.HandleUpdateTask | client/src/app/dashboard/page.tsx:69-81 | with a current task, a user and a success: every entry with the current id is replaced by the returned task, the edit modal closes and the current task is cleared; otherwise nothing changes |
| Dashboard.DashboardPage.HandleDeleteTask | client/src/app/dashboard/page.tsx:83-91 | with a user and a success: the list loses every entry with the id, in order; otherwise nothing changes |

## Left out

- HTTP plumbing (`client/src/services/api.ts`: `fetch`, URLs, headers, JSON decoding, `getHeaders`): every request is an abstract success or failure outcome.
- Server and local-auth credential checks (duplicate email, password comparison, token issuance): that code is not part of this model. Login and signup see only the outcome.
- JSON serialisation of the stored values and the `typeof window` server-rendering guard: the store holds structured values. A stored `user` is always treated as truthy, since it is a non-empty JSON text.
- React scheduling: the handlers are sequential atomic steps. The stale `tasks` closures in the dashboard handlers and `useEffect` timing are not modelled.
- Rendering, modals, icons, form field edits, the add-modal open and cancel buttons, and the redirect to the login page: UI.
- Clock and id generation: `Date.now()` and each `new Date()` reading are parameters. Ids are not claimed unique.
- Mongoose casting of non-string values, `null` paths, the `_id` the database assigns, persistence, and updates of saved documents.
- `Partial<Task>` fields explicitly set to `undefined`: a patch field is either supplied or absent.
- The draft passed to `saveTask` carries only title, description and status; other properties that `...task` would spread over the new record are not modelled.
- Exceptions thrown by `localStorage.setItem` (e.g. quota exceeded) and by `JSON.parse`.
- TaskSchema.Normalize: the wording of the combined validation error message is not modelled. The model gives the failing paths in schema order, each with its own message (`TaskSchema.Message`).
