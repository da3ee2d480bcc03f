# Player records: storage engine, service and lifecycle

This project models the core of a small Go service that keeps "player"
records in a document collection and serves them over HTTP:

- the **storage engine** (`StorageMongo`): insert, a version-checked replace
  that acts as a compare-and-swap on `(_id, version)`, get by id, delete, a
  full scan, and a filtered, paged listing; driver errors are classified into
  the player package's error kinds (no documents becomes NotFound, a
  duplicate key becomes Conflict);
- the **record service**: creates records with a fresh id, version and
  timestamps, updates by read-modify-replace with a new version, and wraps
  storage errors with operation context;
- the **status mapping** at the HTTP boundary (`writeServiceErr`) and the
  paths that answer a malformed request with 400 before the service is
  reached;
- the **process lifecycle** (`App.Run`): boot, run the server until
  cancellation or a serve failure, then a shutdown under a fresh timeout that
  stops the server and disconnects the store client, collecting every error.

Modules, one per file:

- `Base` (`base.dfy`): `Option`, Go's `uint` and `int64`, the conversion of
  one to the other.
- `Errors` (`errors.dfy`): the five sentinels, the foreign errors the code
  tests for, wrapping with `%w`, `errors.Join`, and `errors.Is`.
- `Players` (`player.dfy`): the record, its stored document, its JSON form,
  and the filter request.
- `Mongo` (`mongo.dfy`): an in-memory collection class standing in for the
  driver: documents by `_id`, a natural order, an optional unique index on
  `email`, and the effect of each driver call the engine makes, as a pure
  function that each method of the class is proved to follow.
- `Storage` (`storage.dfy`): the engine, as pure specification functions
  with lemmas, and the `StorageMongo` class whose methods are proved equal to
  them.
- `Service` (`service.dfy`): the same arrangement for the record service.
- `Handler` (`handler.dfy`): status mapping and request planning.
- `Lifecycle` (`app.dfy`): `Run`, `shutdown` and the outcome of `run`.

Environment inputs are parameters:

- Every driver call takes `fault: Option<Fault>`: `None` means the call
  reaches the collection; `Some(e)` is a failure from the driver, the network
  or a context that stops the call before the collection, and holds no
  sentinel of the player package. An error that arrives after the server has
  applied a write is not modelled (see Left out).
- `xid.New()` and `time.Now()` are the parameters `newId`, `newVersion` and
  `clock` of the service methods.
- `Update` takes `rival: Option<Player>`. It stands for a replace by another
  client from the same read copy, committed between this call's read and its
  replace.
- `Run` takes what boot, `run` and the two shutdown calls return. `run`
  itself is the function `RunPhase` of what `Serve` returned, whether the
  context is cancelled, and which ready case the select picks.
- `xid.ID.String()` and RFC 3339 formatting are the symbolic values
  `XidString(id)` and `Rfc3339Utc(seconds)`.

What the code does in a few places worth knowing, which the model follows:

- `Run` returns `boot: <err>` as soon as boot fails, before run and shutdown
  (cmd/00-go-base-tpl/app.go:37-39).
- `startupTimeout` is set when the app is built
  (cmd/00-go-base-tpl/app_builder.go:85) and never read, so nothing bounds
  boot.
- Boot's connect, ping and setup loop are commented out and boot returns nil
  (cmd/00-go-base-tpl/app.go:60-75); `Setup`'s index creation is commented
  out too and it returns an empty error (internal/player/storage.go:160-169).
- The text of `ErrConflict`, "player with such email already exists"
  (internal/player/errors.go:9), and the commented-out unique `email_idx`
  index (internal/player/storage.go:161-167) show that emails are meant to be
  unique. Since that index is never created, they are not (see Findings).
- Create, Update's replace step and Delete wrap every storage error with
  context, classified or not (internal/player/service.go:45, 69, 78). Read and
  Update's read step return the storage error unwrapped
  (internal/player/service.go:52, 58).
- The filter's count, find and cursor errors are wrapped but never classified
  (internal/player/storage.go:103, 131, 146).
- The request body's `validate:"required"` tags on `name` and `email`
  (cmd/00-go-base-tpl/handler/player.go:19-20) are never checked, so a create
  with an empty email or name reaches the service.

## Model

| member | source | states |
|---|---|---|
| Base.ToInt64 | internal/player/storage.go:142-143 | `int64(uint)` keeps values below 2^63. Values from 2^63 up become negative. The result is always congruent to the input modulo 2^64. |
| Errors.Join | cmd/00-go-base-tpl/app.go:56 | Join gives nil exactly for an empty list. Otherwise, for any leaf target, the joined error `Is` that target exactly when one of its members is. |
| Errors.KindsDistinct | internal/player/errors.go:7-13 | There are exactly five sentinels. They are pairwise distinct and carry pairwise distinct messages. |
| Errors.WrapKeepsKind | internal/player/service.go:44-46 | Wrapping an error with `%w` context keeps every kind the cause has and adds none. |
| Errors.ForeignHasNoKind | internal/player/storage.go:184-185 | A driver, network or context error, however wrapped or joined, never classifies as any of the five kinds. |
| Players.BsonKeysDistinct | internal/player/player.go:10-17 | The six fields are stored under six distinct names (`_id`, `version`, `email`, `name`, `updated_at`, `created_at`). |
| Players.DocumentLayout | internal/player/player.go:10-17 | A stored document has exactly the six keys, and `_id` holds the id. |
| Players.DocumentInjective | internal/player/player.go:10-17 | Two records have the same document exactly when they are equal, so storing a record loses nothing. |
| Players.MarshalJSONShows | internal/player/player.go:28-39 | `MarshalJSON`: the JSON shows the id and version texts and the email and name unchanged. Each timestamp appears as its whole UTC second. Two records marshal alike exactly when they agree on these. |
| Players.MarshalJSONIgnoresZoneAndFraction | internal/player/player.go:34-35 | The time zone a timestamp carries and its fraction of a second never reach the JSON. |
| Mongo.MatchingMember | internal/player/storage.go:119-129 | A record is among the matches of a filter exactly when it is stored under an id of the natural order and agrees with every field the filter names. |
| Mongo.MatchingStored | internal/player/storage.go:67 | Every match is the record stored under its own id. |
| Mongo.MatchingById | internal/player/storage.go:67 | A filter naming an `_id` matches at most the record under that id. |
| Mongo.MatchingCount | internal/player/storage.go:129 | The number of matches equals the number of distinct stored ids whose record matches. |
| Mongo.MatchingAll | internal/player/storage.go:89 | The empty filter yields every stored record, in natural order. |
| Mongo.OverwriteKeepsIndexed | internal/player/storage.go:45-52 | Overwriting a stored record keeps the `_id` index consistent. It keeps the email index too when no other record holds the new email. |
| Mongo.PageWindow | internal/player/storage.go:138-144 | A page is the contiguous window of the matches that starts after the skipped ones. Its length is the limit, or all that remain when the limit is 0 or exceeds them. |
| Mongo.WithoutSpec | internal/player/storage.go:76 | Removing an id from the order keeps every other id and drops exactly one entry when the id was present, in an order without repeats. |
| Mongo.WithoutSplice | internal/player/storage.go:76 | In an order without repeats, removing the id at a position leaves the ids before it and after it, in their order. |
| Mongo.Collection.constructor | internal/player/storage.go:23-29 | A new collection is empty, and its index invariant holds. |
| Mongo.Collection.Scan | internal/player/storage.go:138-144 | Walking the natural order collects exactly the matching records, in order (loop invariant). |
| Mongo.Collection.InsertOne | internal/player/storage.go:32 | Inserting fails with a duplicate key when the id, or (under the email index) the email, is taken. Otherwise it appends the record. The index invariant is kept. |
| Mongo.Collection.UpdateOne | internal/player/storage.go:45-52 | `$set` sets every field of the first match. It reports 0 modified when nothing matches or nothing changes. It fails on an id change or on an email the index forbids. The index invariant is kept. |
| Mongo.Collection.DeleteOne | internal/player/storage.go:76 | Deleting removes the first match from both the map and the order, and reports the count. |
| Mongo.Collection.FindOne | internal/player/storage.go:67 | Returns the first match, or no-documents. |
| Mongo.Collection.Find | internal/player/storage.go:138-144 | Returns the page of matches. A negative skip is a server error. |
| Mongo.Collection.CountDocuments | internal/player/storage.go:129 | Returns the number of matches. |
| Storage.ConvertErr | internal/player/storage.go:172-186 | Classification either passes the error through or replaces it by NotFound or Conflict. It makes up no other error. |
| Storage.RequestFilter | internal/player/storage.go:119-127 | The filter has a name key exactly when the name is non-empty and an email key exactly when the email is, each holding the request's value. It has no other key. |
| Storage.CursorToPlayersEffect | internal/player/storage.go:99-107 | Without a decode failure the cursor's records come back unchanged and in order. A decode failure comes back wrapped "cursor convert all", still `Is` the failure, and carries no kind. |
| Storage.ConvertErrClassifies | internal/player/storage.go:172-186 | For a driver error: NotFound exactly for no-documents. Conflict exactly for duplicate-key that is not also no-documents. Never IDMismatch, VersionMismatch or EmptyRequest. Any other error passes through unchanged. |
| Storage.RequestFilterSelects | internal/player/storage.go:119-127 | The filter built from a request matches exactly the records the request selects. It is empty exactly for an empty request. |
| Storage.CasMatching | internal/player/storage.go:45-50 | The `(_id, version)` filter matches only the stored record with that id, and only when its version is the expected one. |
| Storage.IdMatching | internal/player/storage.go:67 | The `_id` filter matches exactly the record stored under the id, if any. |
| Storage.InsertEffect | internal/player/storage.go:31-38 | A taken id, or a taken email under the index, gives Conflict and no change. A fault that stops the call before the collection changes nothing. Otherwise exactly the record is added at the end of the order and returned. The index invariant is kept. |
| Storage.ReplaceIsCompareAndSwap | internal/player/storage.go:40-62 | Mismatched ids give IDMismatch. A stored record with the expected version is overwritten, or Conflict under the email index. A missing match or an identical document gives VersionMismatch. A rejected replace, or a fault that stops the call before the collection, changes nothing. |
| Storage.StaleCopyLoses | internal/player/storage.go:45-59 | After a replace from a read copy commits a new version, a second replace from that copy gets VersionMismatch and changes nothing. |
| Storage.GetByIdEffect | internal/player/storage.go:64-73 | Returns the stored record for a present id and NotFound for an absent one. A driver error is classified. |
| Storage.DeleteEffect | internal/player/storage.go:75-86 | A present id loses exactly its entry in the map and the order. The order is the old one with that one position cut out. An absent id gives NotFound and no change. A fault that stops the call before the collection is classified and changes nothing. |
| Storage.AllEffect | internal/player/storage.go:88-107 | Returns every stored record in natural order. A find error is classified. A cursor error is wrapped "cursor convert all". |
| Storage.SelectedCount | internal/player/storage.go:129 | The count of selected records equals the number of stored records that satisfy the request. |
| Storage.SelectedMembers | internal/player/storage.go:119-127 | The selected records are exactly the stored ones the request asks for. |
| Storage.FilterEffect | internal/player/storage.go:109-157 | An empty request gives EmptyRequest. The total counts the stored records matching every non-empty field. A total of 0 gives an empty page. The page is the window after `offset`, at most `limit` long, where 0 means unlimited. An offset of 2^63 or more makes the find fail. Each failure carries its own wrap. |
| Storage.IdMismatchOnlyFromPrecheck | internal/player/storage.go:40-62 | Replace fails with IDMismatch exactly when the two ids differ. No driver failure classifies as IDMismatch. |
| Storage.EmptyRequestOnlyFromPrecheck | internal/player/storage.go:109-157 | Filter fails with EmptyRequest exactly when both fields are empty. No count, find or cursor failure classifies as EmptyRequest. |
| Storage.StorageMongo.constructor | internal/player/storage.go:23-29 | The engine wraps the collection it is given, whose index invariant holds (see Left out on the collection `NewStorageMongo` leaves nil). |
| Storage.StorageMongo.Setup | internal/player/storage.go:159-170 | Setup creates no index and always fails with an empty error. |
| Storage.StorageMongo.Insert | internal/player/storage.go:31-38 | The result and new collection state are those of `InsertSpec`, and the invariant is kept. |
| Storage.StorageMongo.Replace | internal/player/storage.go:40-62 | The result and new collection state are those of `ReplaceSpec`, the compare-and-swap. The invariant is kept. |
| Storage.StorageMongo.GetByID | internal/player/storage.go:64-73 | The result is that of `GetSpec`, and nothing changes. |
| Storage.StorageMongo.Delete | internal/player/storage.go:75-86 | The result and new collection state are those of `DeleteSpec`, and the invariant is kept. |
| Storage.StorageMongo.All | internal/player/storage.go:88-107 | The result is that of `AllSpec`, and nothing changes. |
| Storage.StorageMongo.Filter | internal/player/storage.go:109-157 | Builds the filter key by key and returns `FilterSpec`'s result. Nothing changes. |
| Service.NewRecord | internal/player/service.go:33-41 | The new record has the given email and name, the new id and version, and CreatedAt equal to UpdatedAt: the current instant, shown in UTC. |
| Service.Restamp | internal/player/service.go:61-65 | The updated record keeps the read copy's id and CreatedAt. It takes the given email, name and version, and the current instant in UTC as UpdatedAt. |
| Service.CreateEffect | internal/player/service.go:32-49 | Stores and returns a record with the given email and name, the new id and version, and CreatedAt equal to UpdatedAt, the current UTC time. A collision gives Conflict wrapped "insert player" and no change. |
| Service.CreateThenRead | internal/player/service.go:32-53 | A created record reads back unchanged, with its email and name. |
| Service.UpdateAbsent | internal/player/service.go:55-59 | Updating an absent id gives NotFound, unwrapped, and writes nothing. |
| Service.UpdateEffect | internal/player/service.go:55-73 | A successful update keeps the id and CreatedAt. It sets email and name, the new version and UpdatedAt, and changes exactly that entry. |
| Service.UpdateLosesToInterleavedWrite | internal/player/service.go:61-70 | When another writer's replace from the same read copy commits in between, Update fails with VersionMismatch wrapped "replace player". Only the other write stands. |
| Service.ReplaceAfterAnyInterleavedWriteLoses | internal/player/service.go:55-70 | If the record Update read is gone or carries another version by the time of the replace, whatever write came in between, the replace gets VersionMismatch and changes nothing. |
| Service.DeleteKeepsKind | internal/player/service.go:75-82 | Delete has the storage call's effect. Its error carries exactly the storage error's kinds. |
| Service.DuplicateEmailAccepted | cmd/00-go-base-tpl/app.go:69-75 | Without the email index, two creates with one email and different ids both succeed and leave two records with that email. |
| Service.DuplicateEmailRejected | internal/player/storage.go:181-183 | With the email index, the second create of a held email gives Conflict and no change, so emails stay unique. |
| Service.PlayerService.constructor | internal/player/service.go:25-30 | The service holds the storage engine and its name. |
| Service.PlayerService.Create | internal/player/service.go:32-49 | The result and new state are those of `CreateSpec` for the generated id, version and clock. |
| Service.PlayerService.Read | internal/player/service.go:51-53 | Read is GetByID, and nothing changes. |
| Service.PlayerService.Update | internal/player/service.go:55-73 | Reads, restamps the copy and replaces with the read copy as the expected one. The result and new state are those of `UpdateSpec`. |
| Service.PlayerService.Delete | internal/player/service.go:75-82 | The result and new state are those of `ServiceDeleteSpec`. |
| Service.PlayerService.List | internal/player/service.go:84-86 | List is All, and nothing changes. |
| Service.PlayerService.Filter | internal/player/service.go:88-95 | Filter is the storage filter, and nothing changes. |
| Handler.ServiceErrStatus | cmd/00-go-base-tpl/handler/player.go:68-95 | A service error is always answered with 404, 409 or 500. |
| Handler.ServiceErrStatusByKind | cmd/00-go-base-tpl/handler/player.go:68-95 | 404 exactly for NotFound. 409 exactly for Conflict or VersionMismatch without NotFound. 500 for everything else, including IDMismatch and EmptyRequest. Wrapping never changes the status. |
| Handler.ForeignIsServerError | cmd/00-go-base-tpl/handler/player.go:88-94 | An unclassified store failure is answered with 500. |
| Handler.DriverFailureStatus | cmd/00-go-base-tpl/handler/player.go:68-95 | From a driver failure through classification and wrapping: no-documents is 404, duplicate-key is 409, and anything else is 500. |
| Handler.MarshalAll | cmd/00-go-base-tpl/handler/player.go:282-290 | The list response carries every record's JSON form, in order. |
| Handler.CreatePlan | cmd/00-go-base-tpl/handler/player.go:115-135 | A body that does not decode gets 400 with the error wrapped "unmarshal request body", and no service call. A decoded body's email and name are passed to Create as they are. |
| Handler.ReadPlan | cmd/00-go-base-tpl/handler/player.go:137-151 | An id that does not parse gets 400 with the error wrapped "parse id", and no service call. A parsed id is read. |
| Handler.UpdatePlan | cmd/00-go-base-tpl/handler/player.go:153-178 | A bad body or a bad id gets 400, and the body error is reported when both are bad. Otherwise Update gets the parsed id and the decoded email and name. |
| Handler.DeletePlan | cmd/00-go-base-tpl/handler/player.go:180-193 | An id that does not parse gets 400 with the parse error unwrapped, and no service call. A parsed id is deleted. |
| Handler.FilterPlan | cmd/00-go-base-tpl/handler/player.go:304-321 | A query that does not decode gets 400 "decode query", and no service call. Otherwise its name and email become the filter request, and offset and limit are passed on as they are. |
| Handler.ReadReplies | cmd/00-go-base-tpl/handler/player.go:137-151 | A stored record is sent as its JSON form with 200. An absent id gets 404 with NotFound. A store failure gets 404 for no-documents, 409 for duplicate-key and 500 otherwise, with the classified error as the body. |
| Handler.DeleteReplies | cmd/00-go-base-tpl/handler/player.go:180-193 | Deleting a stored id is answered with 200 and an empty object. An absent id gets 404 with NotFound wrapped "delete player". |
| Handler.ListReplies | cmd/00-go-base-tpl/handler/player.go:282-290 | The list is answered with 200 and every stored record's JSON form, in natural order. |
| Handler.EmptyFilterIsServerError | cmd/00-go-base-tpl/handler/player.go:304-328 | A filter with neither name nor email reaches the service and is answered with 500 and EmptyRequest, because `writeServiceErr` has no case for that kind. |
| Lifecycle.Shutdown | cmd/00-go-base-tpl/app.go:107-119 | Both calls are attempted, in order, under the given context. The result is nil exactly when both succeed; otherwise it joins both errors, each wrapped, server first. |
| Lifecycle.Run | cmd/00-go-base-tpl/app.go:33-57 | A boot error is returned as "boot: ..." with nothing else run. Otherwise the phases run under the right contexts, and the report holds the non-cancel run error and then the shutdown error. It is nil exactly when neither exists. |
| Lifecycle.RunAsWritten | cmd/00-go-base-tpl/app.go:59-76 | With the repository's `boot`, which always returns nil, every run serves and then shuts down under the fresh context. The result is nil exactly when there is neither a run error nor a shutdown error. |
| Lifecycle.ShutdownContextIsFresh | cmd/00-go-base-tpl/app.go:49-52 | The shutdown context is not cancelled even when the run context is. |
| Lifecycle.RunPhase | cmd/00-go-base-tpl/app.go:78-105 | `run` is still waiting exactly when the context is not cancelled and Serve has returned no error other than server-closed. Otherwise it returns the cancellation or the serve failure wrapped "http server". |
| Lifecycle.RunOutcomes | cmd/00-go-base-tpl/app.go:78-105 | A nil or server-closed Serve result, or a failure that loses the race to cancellation, yields the cancellation and no report entry. A failure `run` receives is returned wrapped "http server". |
| Lifecycle.ReportShape | cmd/00-go-base-tpl/app.go:41-56 | The report has at most two entries. It is empty exactly when there is no error. The shutdown error is last, and every leaf of a shutdown error is still found through the report. |

## Left out

- Logging, the HTTP server itself, routing, response writing and its marshal
  and write errors, and XID and RFC 3339 text encoding are left out. They are
  I/O or foreign library code. JSON texts appear as the symbolic
  `XidString` and `Rfc3339Utc` values.
- JSON, query-string and path-id decoding appear only through their outcome:
  a decoded value or an error.
- `Players.FormatRFC3339`: renders only the whole UTC second. The calendar
  layout itself is not modelled.
- `Lifecycle.CtxErr`: contexts never reach their deadline. A shutdown
  call that times out appears only through the error it returns.
- `Lifecycle.Run`: takes boot's outcome as a parameter so that the boot
  failure path can be stated. The repository's `boot` (modelled as
  `BootStub`) always succeeds, and `RunAsWritten` is `Run` with it.
- The server goroutine and the select in `run` appear only through the
  value `run` returns (`RunPhase`). Signal delivery and scheduling are not
  modelled.
- `Mongo.Collection.Find`: a negative limit takes its absolute value in one
  batch. The driver's batch-size cap and cursor batching are not modelled, and
  neither is `cursor.Close`.
- Documents are decoded back into records exactly. BSON's millisecond
  precision for dates is not modelled.
- `Storage.StorageMongo.constructor`: the model hands the engine a wired
  collection. `NewStorageMongo` (internal/player/storage.go:27-29) leaves its
  `collection` field nil, and nothing in the repository sets it
  (cmd/00-go-base-tpl/app_builder.go:103-105). The same holds for the store
  client that `Lifecycle.Shutdown` disconnects: `App.mongoClient` is never set
  (cmd/00-go-base-tpl/app_builder.go:82-92), yet shutdown calls `Disconnect`
  on it (cmd/00-go-base-tpl/app.go:114). Those calls through nil pointers are
  not modelled; each store call and the disconnect take their outcome as an
  input.
- `Storage.ReplaceIsCompareAndSwap`, `Storage.InsertEffect`,
  `Storage.DeleteEffect`, `Service.CreateEffect`: a fault stands for a call
  that did not reach the collection, so every faulted call leaves it as it
  was. The writes run under the request's context, which is cancelled when
  the client goes away, so in the program the driver can also return a
  context or network error after the server applied the write. That case is
  not modelled: there the write stays although the caller gets an error (a
  500 from the handler).
- `Storage.FilterEffect`, `Service.UpdateSpec`: each storage call sees one
  collection state. `FilterSpec` evaluates the count and the find on the same
  state, so the total agrees with the page only when nothing is written
  between the two calls; in the program, an insert or delete in that window
  makes them disagree. Writes by other requests appear only as `Update`'s
  `rival`, a replace from the same read copy, and, for the replace step
  alone, as any later state in `ReplaceAfterAnyInterleavedWriteLoses`.
- `main.go`, `init.go`, `config.go`, `app_builder.go` and the other
  handlers (home page, questions, HTML template, bot integration) are outside
  this model.

## Findings

| source | as written | input that shows it | evidently intended | confidence | as-written member | corrected member |
|---|---|---|---|---|---|---|
| cmd/00-go-base-tpl/app.go:69-75 | Boot never runs `Setup`. `Setup` (internal/player/storage.go:159-170) creates no index, so the collection has no unique index on `email`. | Over a wired collection, two creates with the same email, e.g. `Create("a@x", "A")` then `Create("a@x", "B")`, both succeed. As the repository builds the engine, its collection is nil (see Left out). | The second create fails with Conflict, "player with such email already exists". | high, not executed | Service.DuplicateEmailAccepted | Service.DuplicateEmailRejected |

The model keeps the collection's email index as a parameter (`uniqueEmail`)
throughout, and its invariant `Indexed` holds in both configurations. Every
storage and service lemma is stated for it, so the corrected configuration
(`uniqueEmail = true`) is the one that yields Conflict on a taken email.
