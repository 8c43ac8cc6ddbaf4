# Todo service: request-handling model

A Dafny model of the todo HTTP service's core. The service offers CRUD over task
records kept in one DynamoDB table, "TodoTable", and runs under two hosts:
- the standalone ASP.NET host, in `Program.cs`;
- the serverless Lambda host, in `LambdaEntryPoint.cs`.

The model replaces the table with a finite map `Store = map<string, TodoTask>` keyed by
the task's hash key `Id`. Each handler is a pure function from the request and the
store to a reply and the new store (`Handled`). The reply is either an HTTP response
(status, JSON body, `Location` header) or the backend exception the handler lets
escape (`Rethrow`).

Modules, one per source file or concern:
- `Wrappers`: `Option` (C# `null`) and `Result` (a value or a thrown error).
- `Text`: `char.IsWhiteSpace` as `IsWs`, with the .NET character set written out. `string.IsNullOrWhiteSpace`. `string.Length` as `Utf16Length`, which counts UTF-16 code units, so a character outside the Basic Multilingual Plane counts twice.
- `Tasks` (`Models/ToDoTask.cs`): the `TodoTask` record, its defaults, and the store.
- `TaskService` (`Services/TaskService.cs`): scan, lookup, upsert and remove. Each backend request takes a `Call`, which is `Answered` or `Failed(error)`. A failure is returned unchanged and leaves the store as it was.
- `Http`: the reply shapes shared by both hosts.
- `ApiHost` (`Program.cs`) and `LambdaHost` (`LambdaEntryPoint.cs`): the handlers of each host.
- `ApiProperties`, `LambdaProperties`: lemmas about one host that relate several calls or several inputs.
- `HostComparison`: how the two hosts answer the same request differently.
- `Sessions`: sequences of requests served by either host, and the invariant each host keeps on the stored tasks.

Inputs the code cannot see are parameters:
- the GUID a handler draws (`newId`, or `generated` for the record's own initialiser);
- the order of the backend's first scan page (`scanOrder`);
- whether each backend request succeeds (`Call`).

Two behaviours a reader may not expect:
- `GetAllAsync` returns the first scan page uncut, whatever `limit` (`TaskService.GetAllMayExceedLimit`).
- Only the standalone host limits titles to 200 code units; the Lambda host stores any non-blank title (`Sessions.LambdaBreaksApiInvariant`).

## Model

| member | source | states |
|---|---|---|
| Tasks.NewTask | src/ToDoApi/Models/ToDoTask.cs:11-15 | a default task has the generated id, title "", no description, and is not completed |
| Text.Utf16LengthAppend | src/ToDoApi/Program.cs:105 | `Title.Length` is additive: the code units of a concatenation are the sum of the parts' code units |
| Text.Utf16Length | src/ToDoApi/Program.cs:105 | `Title.Length` counts UTF-16 code units: at least the character count, at most twice it, and zero only for the empty string |
| TaskService.FirstPage | src/ToDoApi/Services/TaskService.cs:29-33 | the first scan page holds exactly the stored tasks whose keys the backend yields, and has no more entries than the keys yielded |
| TaskService.GetAll | src/ToDoApi/Services/TaskService.cs:18-40 | listing returns only stored tasks, returns every stored task on the first page, and rethrows a backend failure unchanged |
| TaskService.GetAllIgnoresLimit | src/ToDoApi/Services/TaskService.cs:18-33 | the result of listing does not depend on `limit` |
| TaskService.GetAllMayExceedLimit | src/ToDoApi/Services/TaskService.cs:18-33 | with limit 1 a two-task page is returned whole, so no `|result| <= limit` bound holds |
| TaskService.GetById | src/ToDoApi/Services/TaskService.cs:42-66 | lookup returns the stored task when the key is present and null when it is absent, which is not an error; a failure is rethrown |
| TaskService.Create | src/ToDoApi/Services/TaskService.cs:68-87 | saving is an unconditional upsert by `Id`: the key set gains `Id`, the slot holds the task, other slots are unchanged; a failure is rethrown and nothing is written |
| TaskService.Update | src/ToDoApi/Services/TaskService.cs:89-109 | updating is the same save as creating, with no existence check, so an absent id would be inserted |
| TaskService.Delete | src/ToDoApi/Services/TaskService.cs:111-130 | deleting removes exactly the key, whether or not it existed, and leaves every other slot unchanged; a failure is rethrown |
| TaskService.SavePreservesKeyedById | src/ToDoApi/Models/ToDoTask.cs:11 | a save keeps every slot holding the task whose `Id` names it |
| TaskService.SameIdSameSlot | src/ToDoApi/Models/ToDoTask.cs:11 | two tasks with equal `Id` occupy one slot: the second save overwrites the first, and a save adds at most one entry |
| TaskService.DeleteIdempotent | src/ToDoApi/Services/TaskService.cs:121 | deleting a key twice leaves the same store as deleting it once |
| Http.TodoPath | src/ToDoApi/Program.cs:110 | the location of a task is the prefix `/todos/` followed by exactly its id |
| ApiHost.Rejection | src/ToDoApi/Program.cs:102-106 | a refused title gets 400 with no location and the store untouched; a blank title carries "Title is required and cannot be empty", a long one "Title cannot exceed 200 characters" |
| LambdaHost.TitleMissing | src/ToDoApi/LambdaEntryPoint.cs:111 | the serverless host's whole validation: a JSON `null` body, a null title, or a title of white space only |
| Wrappers.Option.GetOr | src/ToDoApi/Program.cs:88 | `limit ?? 100`: the given limit when present, 100 otherwise |
| ApiHost.CheckTitle | src/ToDoApi/Program.cs:102-106 | a title is blank iff it is null or all white space; it is too long iff it is not blank and exceeds 200 code units; an accepted title has 1 to 200 code units |
| ApiHost.ListTodos | src/ToDoApi/Program.cs:87-89 | GET /todos answers 200 with a page of stored tasks including every stored task whose key is scanned, whatever `limit`, and never changes the store |
| ApiHost.GetTodo | src/ToDoApi/Program.cs:92-96 | GET /todos/{id} answers 200 with the stored task or 404 with no body, and never changes the store |
| ApiHost.PostTodo | src/ToDoApi/Program.cs:99-111 | a blank title gets 400 "Title is required and cannot be empty" and a long one 400 "Title cannot exceed 200 characters", store unchanged; 201 happens iff the title passes and the save succeeds, and then the body is stored under the new id with that id, and returned with location `/todos/{id}` |
| ApiHost.PutTodo | src/ToDoApi/Program.cs:114-131 | title rejection comes before the lookup; an absent id gets 404 "Task with ID '{id}' not found" and nothing is created; 200 iff title passes, id exists and the save succeeds, and then the body with the route id replaces the record; the key set never changes |
| ApiHost.DeleteTodo | src/ToDoApi/Program.cs:134-138 | DELETE answers 204 with no body whether or not the id existed, removes only that key, and rethrows a failure |
| ApiProperties.LengthLimitIsInclusive | src/ToDoApi/Program.cs:105-106 | a title of exactly 200 characters is accepted and one of 201 is refused as too long |
| ApiProperties.SurrogatePairsCountTwice | src/ToDoApi/Program.cs:105-106 | 101 characters outside the BMP make 202 code units and are refused |
| ApiProperties.BlankTakesPrecedence | src/ToDoApi/Program.cs:102-106 | every title made of white space only, of any length (n spaces for every n, over 200 included), gets the blank message from POST and PUT, store unchanged |
| ApiProperties.DefaultTaskIsRejected | src/ToDoApi/Program.cs:102-103 | a default task, which is what `{"title": ""}` binds to, is refused as blank by POST and PUT and the store is unchanged |
| ApiProperties.BmpTitleAccepted | src/ToDoApi/Program.cs:102-106 | a BMP title of 1 to 200 characters that does not start with white space is accepted |
| ApiProperties.PutValidatesBeforeLookup | src/ToDoApi/Program.cs:117-126 | an invalid title on a missing id gets 400, not 404 |
| ApiProperties.CreatedTaskIsReadable | src/ToDoApi/Program.cs:108-110 | GET at the location a successful POST returns answers 200 with the created task |
| ApiProperties.BodyIdIsIgnored | src/ToDoApi/Program.cs:108-128 | the id in a POST or PUT body never affects the reply or the store |
| ApiProperties.OtherFieldsUnconstrained | src/ToDoApi/Models/ToDoTask.cs:14-15 | with an accepted title, any description and completion flag are stored as given |
| ApiProperties.PutReplacesWholeRecord | src/ToDoApi/Program.cs:128-130 | a successful PUT stores every field of the body and leaves other keys unchanged |
| ApiProperties.DeleteTwiceIsDeleteOnce | src/ToDoApi/Program.cs:134-137 | a second DELETE gives the same reply and store as the first |
| ApiProperties.BuyMilkScenario | src/ToDoApi/Program.cs:92-137 | create "Buy milk" gives 201 at /todos/X; GET gives the task with no description and not completed; PUT gives the new title; DELETE gives 204; GET then gives 404 |
| LambdaHost.ListTodos | src/ToDoApi/LambdaEntryPoint.cs:84-89 | GET /todos lists with limit 100 and answers 200 with a page of stored tasks, store unchanged |
| LambdaHost.GetTodo | src/ToDoApi/LambdaEntryPoint.cs:91-104 | GET /todos/{id} answers 200 with the stored task, or 404 with error "Not found", store unchanged |
| LambdaHost.PostTodo | src/ToDoApi/LambdaEntryPoint.cs:106-123 | a JSON `null` body or a null or blank title gets 400 "Title is required", store unchanged; otherwise 201 iff the save succeeds, storing the body under the new id with no length check and no location |
| LambdaHost.PutTodo | src/ToDoApi/LambdaEntryPoint.cs:125-149 | a blank title gets 400 before the lookup; an absent id gets 404 "Not found" with no save; 200 iff the save succeeds, storing the body with the route id; the key set never changes |
| LambdaHost.DeleteTodo | src/ToDoApi/LambdaEntryPoint.cs:151-157 | DELETE answers 204 whether or not the id existed and removes only that key |
| LambdaProperties.NoLengthLimit | src/ToDoApi/LambdaEntryPoint.cs:111-119 | a non-blank title of 1000 code units is stored and answered with 201 |
| LambdaProperties.MissingOrDefaultBodyRejected | src/ToDoApi/LambdaEntryPoint.cs:109-116 | a JSON `null` body, or a default task, gets 400 "Title is required" from POST, as does a JSON `null` body from PUT |
| LambdaProperties.PutValidatesBeforeLookup | src/ToDoApi/LambdaEntryPoint.cs:131-144 | a blank title on a missing id gets 400, not 404 |
| LambdaProperties.CreatedTaskIsReadable | src/ToDoApi/LambdaEntryPoint.cs:118-122 | GET of the new id after a successful POST answers 200 with the created task |
| LambdaProperties.BodyIdIsIgnored | src/ToDoApi/LambdaEntryPoint.cs:118-146 | the id in a POST or PUT body never affects the reply or the store |
| LambdaProperties.DeleteTwiceIsDeleteOnce | src/ToDoApi/LambdaEntryPoint.cs:151-157 | a second DELETE gives the same reply and store as the first |
| HostComparison.BlankChecksAgree | src/ToDoApi/LambdaEntryPoint.cs:111 | the serverless host refuses a present body exactly when the standalone host finds its title blank |
| HostComparison.PostDiffersExactlyOnLongTitles | src/ToDoApi/LambdaEntryPoint.cs:111-119 | for a new id, the two POSTs give the same status and store unless the title is over 200 code units; the stores differ, and one host answers 400 while the other answers 201, iff the title is too long and the save succeeds |
| HostComparison.OnlyApiSendsLocation | src/ToDoApi/Program.cs:110 | on a created task only the standalone host sends a location; both store the same |
| HostComparison.PutDiffersExactlyOnLongTitles | src/ToDoApi/LambdaEntryPoint.cs:131-148 | the two PUTs give the same status and store unless the title is over 200 code units; one host answers 400 while the other answers 200 iff the title is too long, the id exists and both backend calls succeed |
| HostComparison.ListsAgree | src/ToDoApi/LambdaEntryPoint.cs:87 | both hosts return the same list whatever limit the client sends to the standalone host |
| HostComparison.GetsAgree | src/ToDoApi/LambdaEntryPoint.cs:97-103 | GET by id gives the same status and store in both hosts, and the same reply on success |
| HostComparison.DeletesAgree | src/ToDoApi/LambdaEntryPoint.cs:151-157 | DELETE behaves identically in both hosts |
| Sessions.ApiRun | src/ToDoApi/Program.cs:124-126 | after any sequence of requests to the standalone host, every key was there before or was drawn by a POST, because PUT never creates |
| Sessions.LambdaRun | src/ToDoApi/LambdaEntryPoint.cs:138-144 | the same for the serverless host |
| Sessions.ApiInvariantIsStronger | src/ToDoApi/Program.cs:102-106 | a table that satisfies the standalone host's title invariant satisfies the serverless one, and is keyed by id |
| Sessions.ApiStepPreservesInvariant | src/ToDoApi/Program.cs:99-138 | each standalone request keeps every task under its own non-empty id with a valid title |
| Sessions.ApiRunPreservesInvariant | src/ToDoApi/Program.cs:99-138 | so does every sequence of standalone requests |
| Sessions.LambdaStepPreservesInvariant | src/ToDoApi/LambdaEntryPoint.cs:106-157 | each serverless request keeps every task under its own non-empty id with a non-blank title |
| Sessions.LambdaRunPreservesInvariant | src/ToDoApi/LambdaEntryPoint.cs:106-157 | so does every sequence of serverless requests |
| Sessions.LambdaBreaksApiInvariant | src/ToDoApi/LambdaEntryPoint.cs:111-119 | one serverless POST stores a 201-unit title, breaking the standalone host's invariant on the shared table |

## Left out

- DynamoDB client and context construction, and the table-metadata setting: foreign library code. The table is an abstract map.
- The table name: all five service operations name "TodoTable", overriding the class attribute's "Tasks". So the model has one store and no table parameter.
- Scan paging: only the first page is returned. Its contents and order are the `scanOrder` parameter, because the page size and order are chosen by the backend.
- TaskService.FirstPage: `scanOrder` may repeat a key, so the model admits a page listing a task twice, which a DynamoDB scan never returns; it over-approximates the page, and no stated property depends on distinctness.
- Backend failures: a failed request is modelled as writing nothing. A write that fails after the backend applied it is not modelled.
- Logging, dependency injection, the rate limiter, CORS, Swagger, static files, the `/` endpoints and `/health`: side effects or hosting configuration with no domain rules. `/health` also reads the clock, the environment and the machine name.
- JSON (de)serialisation and routing: bodies arrive already bound to a `TodoTask`, with missing fields at their defaults.
- Standalone requests with no body: the framework rejects them before the handler runs, so `Sessions` requires a bound body (`Bound`) for them.
- Query strings that do not parse as `int?`: also rejected by the framework.
- Serverless bodies that are empty, malformed or not JSON: `ReadFromJsonAsync` throws out of the handler, so the framework answers 5xx. This is not modelled; the model's `None` body is a JSON `null` body.
- GUID generation: the new id is a parameter. Routed requests assume it is not empty.
- Lone UTF-16 surrogates in titles: a Dafny `char` is a Unicode scalar value, so such a title cannot be written. `Utf16Length` counts well-formed strings.
- Read consistency: the store is a map, so every read sees the last write. The code asks DynamoDB for no consistent reads (its operation configs set only the table name), so `LoadAsync` and `ScanAsync` are eventually consistent. A GET right after a 201 may answer 404, a PUT right after a POST may answer 404, and a PUT right after a DELETE may read the old task and re-create it through the upsert. The members that rely on strongly consistent reads are `TaskService.GetById`, `TaskService.GetAll` ("only stored tasks"), both `CreatedTaskIsReadable` lemmas, the 404 branch of both `PutTodo` handlers, `ApiProperties.BuyMilkScenario`, and the "PUT never creates" reading of `Sessions.ApiRun` and `Sessions.LambdaRun`.
- Async execution and concurrent requests: each handler is one atomic step, and `Sessions` serves requests one after another. Last-write-wins races are not modelled.
- The 5xx status the framework sends for an escaped exception: the handler's reply is `Rethrow(error)`.
