# Product catalogue store and ownership service, in Dafny

This project models two layers of a small Go product catalogue (`item-comparison-api`).

**The store.** `ProductRepoJson` keeps one JSON file per product, `<storagePath>/<id>.json`. It offers these operations:
- create a batch, refusing ids whose file exists;
- overwrite a batch;
- read by id;
- delete by id;
- an ordered multi-get;
- a directory scan.

**The service.** `ProductService` stamps new records with their seller and creation time. Only the owning seller may update or delete a record. Reads pass through as response objects.

**The mappers.** These copy fields between the request, the stored record and the response.

The store's storage directory is modelled as a value of type `FsState`:
- whether the directory exists;
- its entries, each a file or a sub-directory;
- for each of `os.Stat`, `os.ReadFile` and `os.Remove`, the names on which that call fails with an OS error other than "not found", with the cause;
- for `os.WriteFile`, the names on which it fails and at which stage: the open, the write or the close;
- whether listing the directory fails.

Each `os` call is a pure function of that state. `WriteFile` gives the next state and the `PathError` it reports, if any. `os.WriteFile` truncates the file when it opens it. So a write that fails after the open still changes the file: a failed write leaves a truncated document, and a failed close leaves the complete one. A batch that stops on such a failure leaves that one file changed. The store class holds the state in fields and updates it in place. Each method is proved equal to a specification function: `LoadAll`, `RunBatch`, `Lookup`, `CompareAll` or `DeleteOne`. The same holds for the service class, whose functions are `Listings`, `UpdateAll` and `DeleteAsOwner`. The lemmas in `RepositoryProperties` and `ServiceProperties` state what those functions guarantee.

Errors are the datatype `Error`: `NotFound`, `AlreadyExists`, `Unauthorized` and `StorageError`. `Message` gives the text each one prints. The service decides that a record is missing by looking for "does not exist" in that text. `NotFoundIsRecognised` ties the service's test to the store's message.

`UpdateProducts` in the service dereferences the result of a failed lookup, which is nil. That is a Go panic. The model has an explicit `Panicked` outcome for it. So the model proves that an update never creates a record (`UpdateNeverCreates`, `UpdateOfMissingPanics`). The documented intent was that an update of a missing id creates it; the model follows the code.

## Model

| member | source | states |
|---|---|---|
| Decimal.NatToString | internal/repository/product_dao.go:85 | `%d` of a natural number is a non-empty string of digits |
| Decimal.ParseNatToString | internal/repository/product_dao.go:85 | the digits written for `n` read back as `n` |
| Decimal.IntToStringInjective | internal/repository/product_dao.go:85 | two integers are written the same by `%d` exactly when they are equal |
| Json.Marshal | internal/repository/product_dao.go:95-99 | encoding fails exactly when price or rating is NaN or infinite; what it writes decodes back to the same product |
| Errors.NotFoundIsRecognised | internal/services/product_service.go:78 | the store's "product with ID %d does not exist" message always contains "does not exist" |
| FileSystem.WriteFile | internal/repository/product_dao.go:102-105 | `os.WriteFile` changes only the named entry; when it reports no error that entry holds the written document; it changes nothing when the directory is missing |
| FileSystem.ExtBefore | internal/repository/product_dao.go:50 | `filepath.Ext` returns a suffix of the name that is empty or starts with '.' |
| Wrappers.CollectAllMeaning | internal/repository/product_dao.go:144-157 | the fail-fast loop succeeds exactly when every step does, then with one result per element in order; otherwise it fails with the first step's error |
| Wrappers.CollectAllFirstError | internal/repository/product_dao.go:146-150 | the error returned is that of the first failing element |
| Repository.LoadAll | internal/repository/product_dao.go:32-37 | a missing directory gives an empty list and no error |
| Repository.RunBatch | internal/repository/product_dao.go:83-109 | at most the whole batch is written; the result is success exactly when every product was written |
| Repository.ProductRepoJson.constructor | internal/repository/product_dao.go:16-25 | an empty path becomes "data/" |
| Repository.ProductRepoJson.LoadProducts | internal/repository/product_dao.go:28-76 | the directory scan returns exactly `LoadAll` of the directory and its sorted listing |
| Repository.ProductRepoJson.SaveProducts | internal/repository/product_dao.go:79-110 | the directory and the result afterwards are those of `RunBatch` in create mode |
| Repository.ProductRepoJson.UpdateProducts | internal/repository/product_dao.go:112-137 | the directory and the result afterwards are those of `RunBatch` in overwrite mode |
| Repository.ProductRepoJson.CompareProducts | internal/repository/product_dao.go:139-158 | returns exactly `CompareAll`, one lookup per id in order |
| Repository.ProductRepoJson.GetProductByID | internal/repository/product_dao.go:160-187 | returns exactly `Lookup`: NotFound for a missing file, a storage error for other read or decode failures |
| Repository.ProductRepoJson.DeleteByID | internal/repository/product_dao.go:189-208 | on success the directory becomes `DeleteOne`'s; on failure it is unchanged and the error is `DeleteOne`'s |
| RepositoryProperties.FileNameInjective | internal/repository/product_dao.go:165 | distinct ids have distinct file names |
| RepositoryProperties.JsonSuffixIsExt | internal/repository/product_dao.go:50 | a name ending in ".json" has extension ".json" |
| RepositoryProperties.FileNameIsJson | internal/repository/product_dao.go:50 | every record file passes the scan's extension filter |
| RepositoryProperties.CandidatesMeaning | internal/repository/product_dao.go:44-52 | the scan reads exactly the listed non-directory ".json" entries, in listing order |
| RepositoryProperties.LoadAllMeaning | internal/repository/product_dao.go:32-75 | missing directory gives an empty list; a listing failure is reported; otherwise one product per selected entry in sorted order, or the first unreadable or undecodable entry's error and no partial list |
| RepositoryProperties.LookupMeaning | internal/repository/product_dao.go:165-186 | NotFound exactly when the file is missing and reading it does not fail otherwise; the product exactly when the file can be read and holds it; any other failure is a storage error |
| RepositoryProperties.CompareAllMeaning | internal/repository/product_dao.go:144-157 | success gives one product per requested id in request order, repeats included; failure gives the first failing lookup's error |
| RepositoryProperties.StepMeaning | internal/repository/product_dao.go:85-105 | one loop iteration either writes the product to its own file and changes nothing else, or stops: with "already exists" exactly in create mode over a present file whose stat succeeds, otherwise with a storage error; a stopped iteration changes at most its own file, and only when the write fails after the open, leaving it truncated or complete |
| RepositoryProperties.StepWrites | internal/repository/product_dao.go:89-105 | an iteration that writes found the directory and, in create mode, no file; only that product's file changes |
| RepositoryProperties.RunBatchWritesPrefix | internal/repository/product_dao.go:83-106 | no rollback: the products before the first failure are written in order; a successful batch leaves exactly them; a failed one leaves what the failing product's step did from that state, with every other entry as after the prefix |
| RepositoryProperties.BatchState | internal/repository/product_dao.go:83-106 | the directory after a successful batch is the one with the whole batch stored in order |
| RepositoryProperties.BatchFailure | internal/repository/product_dao.go:83-106 | a failed batch stopped at the product whose step, from the state after the written prefix, fails with the reported error and leaves the final directory |
| RepositoryProperties.BatchWritable | internal/repository/product_dao.go:102 | a product was written only if the directory exists and writing its file does not fail |
| RepositoryProperties.StoredUntouched | internal/repository/product_dao.go:102 | writing a batch leaves every name outside the batch's file names as it was |
| RepositoryProperties.BatchKeysWithin | internal/repository/product_dao.go:116-133 | a batch over files that all exist adds no entry, whether it goes through or not |
| RepositoryProperties.StoredLast | internal/repository/product_dao.go:102 | the last write of an id decides its file |
| RepositoryProperties.ReadBackAfterBatch | internal/repository/product_dao.go:160-187 | after a successful save or update, reading an id of the batch gives the last product written for it |
| RepositoryProperties.SavedAreLoaded | internal/repository/product_dao.go:28-76 | after a successful save or update, a directory scan that goes through returns every product of the batch |
| RepositoryProperties.BatchLeavesOthers | internal/repository/product_dao.go:83-133 | a batch leaves every other id's file reading the same, whether it goes through or stops |
| RepositoryProperties.LookupIgnores | internal/repository/product_dao.go:165-168 | a change to a file other than record `id`'s does not change its lookup |
| RepositoryProperties.SaveKeepsExisting | internal/repository/product_dao.go:89-92 | a create batch never replaces an existing entry whose stat succeeds |
| RepositoryProperties.SaveOverwritesWhenStatFails | internal/repository/product_dao.go:89 | when `os.Stat` fails for another reason than absence, the create step is the overwrite step, and replaces an existing file |
| RepositoryProperties.SaveStopsAtExisting | internal/repository/product_dao.go:89-92 | a create batch stops no later than the first product whose file exists and can be examined, with "already exists" for it if it gets there |
| RepositoryProperties.SaveRefusesRepeat | internal/repository/product_dao.go:85-105 | a create batch that repeats an id fails at or before the second occurrence |
| RepositoryProperties.SaveRefusesFirstRepeat | internal/repository/product_dao.go:85-105 | a create batch whose first id recurs fails at or before the recurrence |
| RepositoryProperties.CreateSucceedsOnFresh | internal/repository/product_dao.go:83-109 | a create batch of distinct ids whose files are absent and writable, with every product encodable, succeeds |
| RepositoryProperties.OverwriteFailsOnlyOnStorage | internal/repository/product_dao.go:116-133 | an overwrite batch does no existence check: it fails only with storage errors, and succeeds when every file can be written and every product encoded |
| RepositoryProperties.DeleteOneMeaning | internal/repository/product_dao.go:194-207 | NotFound, with nothing changed, exactly when the file is missing and removing it does not fail otherwise; a present entry that is not a non-empty directory and has no remove fault is removed; on success exactly that entry is gone |
| RepositoryProperties.DeleteLeavesOthers | internal/repository/product_dao.go:194-197 | deleting one id leaves every other id's file reading the same |
| Mappers.ProductFromRequest | internal/services/product_mappers.go:9-20 | every request field is carried over; seller and creation time are empty |
| Mappers.ProductToResponse | internal/services/product_mappers.go:23-33 | the response copies id, name, price, brand, image URL, rating and seller from the record, and never shows the description or the specifications |
| Mappers.ResponseShowsListing | internal/services/product_mappers.go:23-33 | two records give the same response exactly when they agree on id, name, price, brand, image URL, rating and seller |
| Mappers.ResponseOfRequest | internal/services/product_mappers.go:9-33 | a request shown back keeps id, name, price, brand, image URL and rating, with an empty seller |
| Mappers.ProductsFromRequests | internal/services/product_mappers.go:36-42 | same length; element i is the conversion of request i |
| Mappers.ProductsToResponses | internal/services/product_mappers.go:45-51 | same length; element i is the response of record i |
| Services.NewListing | internal/services/product_service.go:47-49 | a saved record carries the request's fields, the caller as seller and the call's time |
| Services.Listings | internal/services/product_service.go:44-51 | the save batch has one record per request in request order, all with one shared creation time |
| Services.ProductService.constructor | internal/services/product_service.go:18-21 | the service wraps the given store |
| Services.ProductService.LoadProducts | internal/services/product_service.go:24-37 | the store's error unchanged, or one response per loaded record in order |
| Services.ProductService.SaveProducts | internal/services/product_service.go:40-61 | the store receives the stamped batch in request order, and its result is returned unchanged |
| Services.ProductService.UpdateProducts | internal/services/product_service.go:63-104 | the directory and outcome afterwards are `UpdateAll`'s: a failed lookup panics, another seller's record gives "unauthorized" before any write, otherwise the merged batch is overwritten |
| Services.ProductService.CompareProducts | internal/services/product_service.go:106-118 | the store's error unchanged, or one response per requested id in order |
| Services.ProductService.GetProductByID | internal/services/product_service.go:120-132 | the store's error unchanged, or the response of the stored record |
| Services.ProductService.DeleteProductByID | internal/services/product_service.go:134-157 | on success the directory becomes `DeleteAsOwner`'s; on failure it is unchanged and the error is returned |
| ServiceProperties.SaveReadsBack | internal/services/product_service.go:44-57 | after a successful save each requested id reads back as the request, owned by the caller, created at the call's time |
| ServiceProperties.SaveRefusesRepeatedId | internal/services/product_service.go:54-57 | a save request that repeats an id fails, writing nothing from the second occurrence on |
| ServiceProperties.PlanUpdateMeaning | internal/services/product_service.go:71-94 | the update loop goes through exactly when the caller owns every requested record, and then keeps each record's creation time and seller |
| ServiceProperties.PlanUpdateStops | internal/services/product_service.go:75-88 | when the update loop stops, it stops at the first record that is unreadable or not the caller's |
| ServiceProperties.UpdateSuccessMeansOwned | internal/services/product_service.go:75-97 | a successful update implies every requested record existed and belonged to the caller |
| ServiceProperties.UpdateNeverCreates | internal/services/product_service.go:75-97 | whatever the outcome, the update leaves the set of entries unchanged |
| ServiceProperties.UpdateOfMissingPanics | internal/services/product_service.go:75-92 | the first request whose record cannot be read panics, and nothing is written |
| ServiceProperties.UpdateOfOthersRefused | internal/services/product_service.go:85-88 | the first request for another seller's record returns "unauthorized", and nothing is written |
| ServiceProperties.UpdateReadsBack | internal/services/product_service.go:90-97 | after a successful update each id reads back as the request, with its former creation time and seller |
| ServiceProperties.UpdateLeavesOthers | internal/services/product_service.go:97 | records not named in the request read the same afterwards |
| ServiceProperties.MissingRecordRecognised | internal/services/product_service.go:75-78 | a lookup of a missing file fails with an error that passes the "does not exist" test |
| ServiceProperties.DeleteAsOwnerMeaning | internal/services/product_service.go:137-156 | a missing record gives the store's NotFound; "unauthorized" exactly when another seller owns the record; for the owner, the removal's storage error when removing fails, and otherwise success, with the record gone and every other record reading the same |

## Left out

- Integer width: ids are unbounded integers; Go's 64-bit `int` is not modelled (no arithmetic is done on ids).
- JSON encoding: file contents are represented by what `json.Unmarshal` makes of them (a product or a syntax error). The indented text layout, field tags, `omitempty`, and exact float32 text are not modelled. The round trip `Unmarshal(Marshal(p)) == p` is a property of the model's `Marshal`. encoding/json guarantees it for float32 values, but the model does not derive it.
- OS errors other than "not found" come from the state: per call, the names with a recorded fault, and a listing fault. In Go they can come and go between calls.
- FileSystem.WriteFile: a write that fails after the open leaves a document that fails to decode as truncated JSON. Partial contents that happen to decode, or that decode with another error message, are not modelled.
- RepositoryProperties.ReadBackAfterBatch: requires that reading the file of the id does not fail. A read fault on it makes the lookup fail even after a successful write.
- ServiceProperties.SaveReadsBack: requires the same, for the same reason.
- RepositoryProperties.SaveKeepsExisting: requires that `os.Stat` of the entry does not fail. When it fails, SaveProducts overwrites the file (`SaveOverwritesWhenStatFails`).
- RepositoryProperties.SaveStopsAtExisting: requires the same of the existing file, for the same reason.
- RepositoryProperties.SaveRefusesRepeat: requires the same of the repeated id's file, for the same reason.
- RepositoryProperties.SaveRefusesFirstRepeat: requires the same of the repeated id's file, for the same reason.
- ServiceProperties.SaveRefusesRepeatedId: requires the same of the repeated id's file, for the same reason.
- Permissions, file modes and symbolic links are not modelled.
- The directory listing: `os.ReadDir` returns the entries sorted by name. LoadProducts takes that listing as a parameter, required to be exactly the entries in sorted order.
- Paths: entries are named by file name within the one storage directory. `storagePath` appears only in messages and does not choose the directory.
- Repository.ProductRepoJson.LoadProducts: Go returns a nil slice when no file is selected and an empty slice when the directory is missing. Both are the empty sequence here.
- Clock: the RFC 3339 time is a `now` parameter of SaveProducts and UpdateProducts.
- Logging with `fmt.Printf` is not modelled.
- Concurrency: the gap between `os.Stat` and `os.WriteFile` in SaveProducts is not modelled. Neither is any other interleaving; calls are sequential.
- The `ProductRepo` interface: the service holds the file store itself, its one implementation, rather than an interface value.
- Services.ProductService.UpdateProducts: the panic is an outcome value. Go would unwind the stack, which the model does not capture.
- The HTTP handlers, the router, server start-up, and the older duplicate declarations of the handler, product and interface are not part of this model.
