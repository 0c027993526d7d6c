# aws-todo-app core, modelled in Dafny

The todo application keeps task records ("todos") in a DynamoDB table. An export serialises
the records one table scan returns to CSV, uploads the file to an S3 bucket and returns a
time-limited download link. Feature flags are read from an SSM parameter path. Two of the
app's Next.js routes are modelled: `/api/todos` (list, validated create) and `/api/export`. The browser table sorts records by a clicked column.

This project models the rules inside that glue code and proves the properties the code promises:

- **Error handling.** Caught values are modelled as three kinds: an `Error` instance, a plain
  object, or a non-object. The error envelope starts from one of these.
- **Adapters as state.** The table and the bucket are classes holding maps. Each AWS fault is an
  explicit `Option<Thrown>` parameter.
- **Environment as parameters.** The clock, uuid, date parser and formatter, presigner,
  `JSON.stringify`, and the SNS/SQS send calls are function parameters.

Modules follow the source files:

| module | file |
|---|---|
| `Types` | `types.dfy` |
| `Strings` (the JavaScript string operations used) | `strings.dfy` |
| `AwsErrors` (the normalisation the three AWS adapters share) | `awserrors.dfy` |
| `ErrorHandler` | `errorhandler.dfy` |
| `CsvGenerator` | `csv.dfy` |
| `DynamoDb` | `dynamodb.dfy` |
| `S3` | `s3.dfy` |
| `Sqs` | `sqs.dfy` |
| `Sns` | `sns.dfy` |
| `FeatureFlagsStore` | `featureflags.dfy` |
| `TodoTable` | `todotable.dfy` |
| `TodosRoute` | `todosroute.dfy` |
| `ExportRoute` | `exportroute.dfy` |

Headline results:

- **CSV escaping round-trips.** Field escaping follows RFC 4180, section 2, rules 6 and 7.
  Unescaping an escaped field gives back the original. A full CSV reader is written beside the
  generator, and reading a generated export gives back the header and the raw cells of every row.
- **The update builder binds exactly what it should.** It binds each attribute that is present
  and nothing else. Executing the request it builds yields the partial update.
- **Conditional writes behave as specified.** Create never overwrites. Update and delete never
  insert. A missing id gives `null` on update and `false` on delete.
- **The client sort is a sort.** Its output is a permutation of the input, ordered by a
  comparator that is proved antisymmetric and transitive.
- **The flag loop computes a fold.** The feature-flag loop computes a fold in which the last
  write wins.

## Model

| member | source | states |
|---|---|---|
| Types.PriorityName | lib/types.ts:2 | every priority has one of the three names High, Medium, Low |
| Types.StatusName | lib/types.ts:3 | every status has one of the four names Not Started, In Progress, Done, Canceled |
| Types.ParsePriority | app/api/todos/route.ts:35-44 | a string parses exactly when it is one of the three priority names, and parsing inverts naming |
| Types.ParseStatus | app/api/todos/route.ts:47-56 | a string parses exactly when it is one of the four status names, and parsing inverts naming |
| Types.NamesRoundTrip | lib/types.ts:2-3 | name-then-parse is the identity; there are exactly 3 distinct priority names and 4 distinct status names |
| Strings.IndexOf | lib/featureFlags.ts:35 | `indexOf`: the result is an occurrence and no earlier position is one; `None` means there is no occurrence anywhere |
| Strings.RemoveFirst | lib/featureFlags.ts:35 | `replace` with a string pattern: unchanged without an occurrence, otherwise the string with its first occurrence cut out, one pattern's length shorter |
| Strings.RemoveFirstPrefix | lib/featureFlags.ts:35 | removing a pattern the string starts with leaves exactly the rest |
| Strings.AsciiLower | lib/featureFlags.ts:38 | same length, and every character is lower-cased pointwise |
| Strings.LexTrichotomy | components/TodoTable.tsx:46-47 | the JavaScript `<` order on strings is total and asymmetric |
| Strings.LexTransitive | components/TodoTable.tsx:46-47 | the JavaScript `<` order on strings is transitive |
| AwsErrors.IsAwsError | lib/dynamodb.ts:32-34 | definition: a non-null object with a `name` key, which every `Error` has; InstanceofBranchUnreachable and Normalized state it |
| AwsErrors.InstanceofBranchUnreachable | lib/dynamodb.ts:32-53 | every `Error` instance passes the `isAwsError` guard, so the adapters' `instanceof Error` branch is dead |
| AwsErrors.MessageOr | lib/dynamodb.ts:39 | `error.message \|\| fallback`: the message when present and non-empty, the fallback otherwise |
| AwsErrors.Normalized | lib/dynamodb.ts:22-61 | always sets a code. A named error gets its name as code, its message or the fallback, and itself as details, and its own stack exactly in development. Anything else gets UNKNOWN_ERROR, the "unexpected" text, `String(error)` as details and no stack |
| DynamoDb.HandleDynamoDBError | lib/dynamodb.ts:22-61 | the field-by-field updates produce exactly the normalised error with the DynamoDB texts |
| S3.HandleS3Error | lib/s3.ts:18-57 | the field-by-field updates produce exactly the normalised error with the export texts |
| Sns.HandleSnsError | lib/sns.ts:15-54 | the field-by-field updates produce exactly the normalised error with the SNS texts |
| ErrorHandler.IsApiError | utils/errorHandler.ts:42-44 | definition: a truthy object with `message` and `code` keys, `message` inherited by every `Error`; Classify and MessageWithoutCodeIsUnknown state it |
| ErrorHandler.AsApiError | utils/errorHandler.ts:8-9 | a value that passed `isApiError` keeps its own code, message and stack; a plain object also keeps its details |
| ErrorHandler.Classify | utils/errorHandler.ts:8-23 | three-way classification. An ApiError is taken unchanged. Another `Error` gets INTERNAL_ERROR, its message, its name as details and its stack exactly in development. Anything else gets UNKNOWN_ERROR, the generic message and `String(error)` |
| ErrorHandler.CreateErrorResponse | utils/errorHandler.ts:5-31 | the response carries the given status, `success` false, no data, and the classified error |
| ErrorHandler.CreateSuccessResponse | utils/errorHandler.ts:33-40 | the response carries the given status, `success` true, the data, and no error |
| ErrorHandler.ApiErrorPassesThrough | utils/errorHandler.ts:8-9 | a thrown ApiError with a code lands in the envelope unchanged |
| ErrorHandler.ClassifyIdempotent | utils/errorHandler.ts:8-23 | classifying a re-thrown classified error changes nothing |
| ErrorHandler.MessageWithoutCodeIsUnknown | utils/errorHandler.ts:17-23 | an object with a message but no code is not an ApiError and gets the generic UNKNOWN_ERROR |
| ErrorHandler.DetailsIsObject | utils/errorHandler.ts:52 | definition: details present and of `typeof` object; FormatErrorForDisplay states it |
| ErrorHandler.FormatErrorForDisplay | utils/errorHandler.ts:47-57 | the message is always a prefix. The result equals the message exactly when details is not an object; otherwise the banner and the JSON follow it |
| CsvGenerator.NeedsQuoting | utils/csvGenerator.ts:33 | definition: a field needs quoting when it holds a comma, a newline or a double quote; EscapeField states it |
| CsvGenerator.DoubleQuotes | utils/csvGenerator.ts:35 | every double quote doubled: no shorter than the input, and unchanged without a quote; HalveDoubled is its inverse |
| CsvGenerator.EscapeField | utils/csvGenerator.ts:31-39 | unchanged exactly when the field has no comma, newline or quote; quoted on both ends exactly when it has one |
| CsvGenerator.HalveDoubled | utils/csvGenerator.ts:35 | halving `""` undoes the doubling of quotes |
| CsvGenerator.EscapeRoundTrip | utils/csvGenerator.ts:31-39 | removing the outer quotes and halving `""` recovers every original field |
| CsvGenerator.CarriageReturnNotQuoted | utils/csvGenerator.ts:33 | a field with only `\r` as special character is emitted unquoted, unlike RFC 4180 |
| CsvGenerator.RowFields | utils/csvGenerator.ts:10-18 | definition: id, escaped description, formatted due date, priority and status names, formatted timestamps; RowIsEncoded states it |
| CsvGenerator.Row | utils/csvGenerator.ts:9-19 | definition: the row cells joined by `,`; RowIsEncoded states it |
| CsvGenerator.GenerateCsv | utils/csvGenerator.ts:4-28 | definition: the header line, then one row per todo, joined by `\n`; GenerateEmpty, GenerateAppend and ReadBackExport state it |
| CsvGenerator.FormatDate | utils/csvGenerator.ts:42-48 | the formatted date, or the input string unchanged when formatting throws |
| CsvGenerator.GenerateEmpty | utils/csvGenerator.ts:4-28 | an empty list yields only the header line, with no trailing newline |
| CsvGenerator.GenerateAppend | utils/csvGenerator.ts:9-25 | one more todo appends exactly `\n` and its row: rows come in input order |
| CsvGenerator.RowIsEncoded | utils/csvGenerator.ts:10-18 | when the other cells are plain, a row is the record of the seven raw cells with only the description escaped |
| CsvGenerator.GeneratedIsEncoded | utils/csvGenerator.ts:4-28 | when the id and formatted dates of every todo are plain, the export is the RFC 4180 encoding of the header record followed by the raw records |
| CsvGenerator.ParseEscapedField | utils/csvGenerator.ts:31-39 | the CSV reader gives back every escaped field and stops at the following separator |
| CsvGenerator.ParseEncodedRecord | utils/csvGenerator.ts:24 | the CSV reader gives back every encoded non-empty record |
| CsvGenerator.ParseEncodedCsv | utils/csvGenerator.ts:22-25 | reading back the `\n`-join of encoded non-empty records gives the records |
| CsvGenerator.ReadBackExport | utils/csvGenerator.ts:4-28 | reading a generated export gives back the header and the raw cells of every todo, in order |
| DynamoDb.IsConditionalCheckFailure | lib/dynamodb.ts:166-170 | definition: an `Error` named ConditionalCheckFailedException; UpdateTodo and DeleteTodo state it |
| DynamoDb.UpdatedAttributes | lib/dynamodb.ts:120-152 | the SET list starts with `updatedAt` |
| DynamoDb.UpdatedValues | lib/dynamodb.ts:120-152 | one value per attribute, starting with the clock reading |
| DynamoDb.UpdatedAttributesDistinct | lib/dynamodb.ts:125-152 | attributes are distinct. An optional field appears exactly when it is defined, besides `updatedAt` |
| DynamoDb.UpdatedValuesMatch | lib/dynamodb.ts:125-152 | each attribute's value is the input field's value, or the clock reading for `updatedAt` |
| DynamoDb.PlaceholderKeys | lib/dynamodb.ts:120-152 | the placeholder map has exactly one `marker + attribute` key per attribute |
| DynamoDb.PlaceholderLookup | lib/dynamodb.ts:120-152 | each attribute's placeholder maps to that attribute's value |
| DynamoDb.PlaceholderCount | lib/dynamodb.ts:120-152 | the name and value maps have as many keys as there are parts |
| DynamoDb.RequestFor | lib/dynamodb.ts:117-162 | definition: the request keyed by id, `SET` over the parts, the two maps, guarded by `attribute_exists(id)`; BuildUpdateRequest and RequestForBindsExactly state it |
| DynamoDb.ApplyUpdate | lib/dynamodb.ts:117-165 | definition of the partial update: provided fields replaced, `updatedAt` refreshed, `id` and `createdAt` kept; StatusOnlyUpdate and ExecuteMeansApplyUpdate state it |
| DynamoDb.Execute | lib/dynamodb.ts:155-165 | definition of what the table does with a `SET` request: each bound attribute takes its value; ExecuteMeansApplyUpdate states it |
| DynamoDb.RequestForBindsExactly | lib/dynamodb.ts:117-165 | each set attribute is named by `#a`→`a` and valued by `:a`, and nothing else is bound |
| DynamoDb.AppendWhen | lib/dynamodb.ts:125-152 | one guarded push-and-assign step keeps parts, names and values consistent, and extends the attributes exactly when the field is defined |
| DynamoDb.BuildUpdateRequest | lib/dynamodb.ts:117-165 | The request is keyed by id and guarded by `attribute_exists(id)`. Its expression is `SET ` plus the parts joined with `, `, and it binds exactly the defined fields and `updatedAt` |
| DynamoDb.BoundOf | lib/dynamodb.ts:120-157 | an attribute is bound, to its value, exactly when it is in the SET list |
| DynamoDb.ExecuteMeansApplyUpdate | lib/dynamodb.ts:155-165 | executing the built request replaces the provided fields, refreshes `updatedAt` and keeps `id` and `createdAt` |
| DynamoDb.SendUpdate | lib/dynamodb.ts:155-165 | the record the table returns for the built request is the partial update |
| DynamoDb.StatusOnlyUpdate | lib/dynamodb.ts:117-165 | updating only the status changes nothing but the status and `updatedAt` |
| DynamoDb.NewTodo | lib/dynamodb.ts:95-101 | the given id, the four input fields copied, `createdAt == updatedAt ==` the clock reading |
| DynamoDb.RecordStore.constructor | lib/dynamodb.ts:17-19 | an empty table |
| DynamoDb.RecordStore.Scan | lib/dynamodb.ts:64-75 | the scan lists every stored record exactly once |
| DynamoDb.RecordStore.GetAllTodos | lib/dynamodb.ts:64-75 | every record exactly once, `[]` for an empty table, or the normalised fault |
| DynamoDb.RecordStore.GetTodoById | lib/dynamodb.ts:78-90 | the stored record, `None` (null) when absent, or the normalised fault |
| DynamoDb.RecordStore.CreateTodo | lib/dynamodb.ts:93-114 | writes the new record only when the id is absent; an existing id gives the normalised conditional-check failure and no change |
| DynamoDb.RecordStore.UpdateTodo | lib/dynamodb.ts:117-172 | A present id is replaced by its partial update. An absent id or a conditional-check failure gives `None` and no change. Any other fault is normalised |
| DynamoDb.RecordStore.DeleteTodo | lib/dynamodb.ts:175-191 | A present id is removed and gives `true`. An absent id or a conditional-check failure gives `false`. Any other fault is normalised |
| DynamoDb.CreateThenGet | lib/dynamodb.ts:93-114 | fetching a just-created record returns it, with the input fields and `createdAt == updatedAt` |
| DynamoDb.DeleteThenGet | lib/dynamodb.ts:175-191 | after a delete, a fetch gives null and a second delete gives `false` |
| S3.BucketName | lib/s3.ts:15 | a non-empty configured name, and `todo-exports-dev` when the setting is missing or empty; never empty |
| S3.Dashify | lib/s3.ts:64 | every `:` and `.` becomes `-`, every other character is kept |
| S3.FileName | lib/s3.ts:63-64 | definition: `todo-export-`, the dashed timestamp and `.csv`; FileNameShape states it |
| S3.ContentDisposition | lib/s3.ts:72 | definition: `attachment; filename="<name>"`; UploadCsvAndGetSignedUrl stores it |
| S3.FileNameShape | lib/s3.ts:63-64 | The name is `todo-export-`, the timestamp and `.csv`. It has no colon, and its only dot is the one before `csv` |
| S3.ExportBucket.constructor | lib/s3.ts:15 | an empty bucket under the configured name |
| S3.ExportBucket.UploadCsvAndGetSignedUrl | lib/s3.ts:60-98 | Stores the CSV as `text/csv` with an attachment disposition under the generated name. It then presigns that key for 600 s and reports an expiry 600000 ms after the second clock reading. A put or presign failure is normalised |
| Sns.Subject | lib/sns.ts:81 | "Todo Completed: " exactly for a done todo, otherwise "Todo Updated: ", followed by the description and nothing else |
| Sns.SendTodoNotification | lib/sns.ts:61-94 | A missing or empty topic gives the configuration error, and only then. A success published the todo's JSON with the subject. A publish failure is normalised |
| Sns.PublishFailureIsNotConfiguration | lib/sns.ts:91-93 | a normalised publish failure is never the configuration error |
| Sqs.Rewrapped | lib/sqs.ts:60-63 | the prefix, then the `Error`'s message, or "Unknown error" for any other value |
| Sqs.WellFormedQueueUrl | lib/sqs.ts:32-34 | definition: starts with `https://sqs.` and contains `.amazonaws.com/`; SendExportMessage states it |
| Sqs.RequestFor | lib/sqs.ts:36-49 | definition: the queue, the message's JSON and the attributes `exportType` and `requestedAt`; SendExportMessage states it |
| Sqs.SendExportMessage | lib/sqs.ts:24-64 | Unset and malformed URLs fail before any send. With a well-formed URL, a send that returns a non-empty MessageId gives exactly that id. A send failure or a missing or empty id is re-thrown as a prefixed `Error` |
| FeatureFlagsStore.Contributes | lib/featureFlags.ts:33 | definition: both Name and Value present and non-empty; FlagsOfKeys states it |
| FeatureFlagsStore.FlagName | lib/featureFlags.ts:35 | definition: Name with the first occurrence of `/todoapp/dev/` removed, by RemoveFirst; FlagNameUnderPath, FlagNameNotAnchored and FlagNameRemovesOnce state it |
| FeatureFlagsStore.IsTrueValue | lib/featureFlags.ts:38 | definition: the ASCII lower-cased value equals `true`; TrueValueCases states it |
| FeatureFlagsStore.Assign | lib/featureFlags.ts:29-40 | `featureFlags[name] = value` on an object literal: the key is set to the value and every other key is kept, except `__proto__`, whose inherited setter ignores a boolean and leaves the object unchanged |
| FeatureFlagsStore.FlagsOf | lib/featureFlags.ts:31-43 | definition: the fold of Assign over the parameters; FlagsOfKeys, FlagsOfLastWins and FetchFeatureFlags state it |
| FeatureFlagsStore.FlagsOfKeys | lib/featureFlags.ts:29-43 | a flag exists exactly when its name is not `__proto__` and some parameter with non-empty name and value derives it |
| FeatureFlagsStore.ProtoParameterIgnored | lib/featureFlags.ts:29-40 | a parameter named `/todoapp/dev/__proto__` with value `true` yields no flags |
| FeatureFlagsStore.FlagsOfLastWins | lib/featureFlags.ts:40 | a flag other than `__proto__` holds the coerced value of the last parameter deriving its name |
| FeatureFlagsStore.FetchFeatureFlags | lib/featureFlags.ts:21-52 | the loop computes the fold over the parameters; no parameters or any failure gives `{}` |
| FeatureFlagsStore.TrueValueCases | lib/featureFlags.ts:38 | "true", "TRUE", "True" are true; "yes", "1", "true ", "false" are not |
| FeatureFlagsStore.FlagNameUnderPath | lib/featureFlags.ts:14-35 | a name under `/todoapp/dev/` loses exactly that prefix |
| FeatureFlagsStore.FlagNameNotAnchored | lib/featureFlags.ts:35 | the removal is not anchored: `x/todoapp/dev/y` becomes `xy` |
| FeatureFlagsStore.FlagNameRemovesOnce | lib/featureFlags.ts:35 | only the first occurrence is removed |
| TodoTable.NextSort | components/TodoTable.tsx:18-25 | definition of the click transition; ClickSelectsColumn and TwoClicksRestore state it |
| TodoTable.ClickSelectsColumn | components/TodoTable.tsx:18-25 | a click selects its column; a new column starts ascending, the current one flips |
| TodoTable.TwoClicksRestore | components/TodoTable.tsx:18-25 | two clicks on the current column restore the state |
| TodoTable.SortState.constructor | components/TodoTable.tsx:15-16 | the initial state is (dueDate, asc) |
| TodoTable.SortState.HandleSort | components/TodoTable.tsx:18-25 | the two state variables take the transition's values |
| TodoTable.PriorityRank | components/TodoTable.tsx:33-37 | ranks lie in 1..3 |
| TodoTable.StatusRank | components/TodoTable.tsx:40-44 | ranks lie in 1..4 |
| TodoTable.RanksInjective | components/TodoTable.tsx:33-44 | distinct priorities and distinct statuses have distinct ranks |
| TodoTable.Compare | components/TodoTable.tsx:28-49 | definition of the comparator; CompareShape, CompareTransitive and the two ascending-order lemmas state it |
| TodoTable.KeyTrichotomy | components/TodoTable.tsx:29-48 | of two keys exactly one is less, or they are equal |
| TodoTable.CompareShape | components/TodoTable.tsx:46-48 | the comparator returns -1, 0 or 1, 0 exactly for equal keys; it is antisymmetric and desc negates asc |
| TodoTable.CompareTransitive | components/TodoTable.tsx:29-48 | the comparator's `<= 0` is transitive |
| TodoTable.AscendingPriorityLowFirst | components/TodoTable.tsx:33-37 | ascending priority puts Low before Medium before High |
| TodoTable.AscendingStatusOrder | components/TodoTable.tsx:40-48 | ascending status puts Not Started before In Progress before Done before Canceled |
| TodoTable.Insert | components/TodoTable.tsx:27-52 | inserting adds exactly one element to the multiset |
| TodoTable.InsertSorted | components/TodoTable.tsx:27-52 | inserting into a sorted list keeps it sorted |
| TodoTable.SortedTodos | components/TodoTable.tsx:27-52 | the sorted copy is a permutation of the input |
| TodoTable.SortedTodosCorrect | components/TodoTable.tsx:27-52 | the sorted copy is a permutation of the input with its length, ordered by the comparator |
| TodoTable.GetPriorityClass | components/TodoTable.tsx:81-88 | a class exactly for the three known priorities, `''` for anything else |
| TodoTable.GetStatusClass | components/TodoTable.tsx:90-98 | a class exactly for the four known statuses, `''` for anything else |
| TodoTable.ClassesDistinct | components/TodoTable.tsx:81-98 | distinct known values get distinct classes |
| TodosRoute.ValidateCreate | app/api/todos/route.ts:23-76 | Checks required fields, then priority, then status, then the date, and the first failure decides. Success holds exactly when all pass. The input copies description, priority and status and carries the canonical date |
| TodosRoute.ValidationEnvelope | app/api/todos/route.ts:23-69 | a validation error reaches the 400 envelope unchanged |
| TodosRoute.PostTodos | app/api/todos/route.ts:18-84 | An unreadable body gives 500, and a validation failure gives 400 with the store untouched. A valid body creates the record and answers 201 with it. A store failure answers 500 |
| TodosRoute.GetTodos | app/api/todos/route.ts:7-15 | 200 with every stored record exactly once, or 500 with the normalised fault |
| ExportRoute.PostExport | app/api/export/route.ts:8-40 | A listing failure gives 500. An empty table gives 400 NO_DATA with nothing uploaded. Otherwise the CSV of exactly the listed records is uploaded and the link answered with 200, and upload failures give 500 |

## Left out

- The AWS SDK clients, their commands and the network are not modelled. The table and the
  bucket are maps. Every other service call is a function parameter or an injected fault.
- Presigning and the SSM `GetParametersByPath` call are not modelled. Presigning is a parameter.
  The SSM call is given as its outcome. Pagination of that call (`NextToken`) is not modelled,
  since the source reads one page only.
- uuid generation, the wall clock, date-fns `format`, and JavaScript `Date` parsing and
  `toISOString` are parameters. Timezones and formats are not modelled.
- `JSON.stringify` output is a parameter, and `console` logging is left out. `process.env` reads
  are parameters. `NODE_ENV === 'development'` is a boolean.
- The `stack` text of an `Error` that the code constructs itself is not modelled. It is the
  runtime's.
- The React UI and the other routes are outside this model: rendering, `SortIcon`, the table's
  own date display, the `[id]` route, feature-flag and system-info routes.
- The export route never reads a feature flag or calls the queue adapter, so there is no queued
  export branch. `Sqs.SendExportMessage` is modelled on its own.
- `toLowerCase` is modelled on ASCII letters only. String `<` compares whole characters; UTF-16
  surrogate details are not modelled.
- Request bodies hold string or absent fields only. Non-string JSON values in `description`,
  `dueDate`, `priority` or `status` are not modelled.
- DynamoDb.RecordStore.Scan: the model lists the whole table, in unspecified order. The source
  sends one `ScanCommand` and never follows `LastEvaluatedKey`, so it reads a single page of at
  most 1 MB; a larger table is listed, and exported, only partially. Pagination is not modelled.
- TodoTable.SortedTodos: the engine's `Array.prototype.sort` is modelled as an insertion sort.
  Permutation and order are proved; stability is not claimed.
- DynamoDb.Execute: the table's handling of the request reads its name and value maps. It does
  not parse the `UpdateExpression` text.
- DynamoDb.RecordStore.UpdateTodo: the request is built only on the path where the record
  exists. Building it has no effect on the table.
- The adapters' `instanceof Error` branch is dead, and each handler method has `assert false`
  there. The initial message of each normalised error is overwritten on every path, so it never
  appears in a result.
- CsvGenerator.ReadBackExport: stated only when the other cells (id, formatted dates) need no
  quoting. Those cells are emitted unescaped. A comma in an id or formatted date would shift the
  columns for any reader.
- The export handler has no artificial delay and no queue branch.
- Only the description is escaped in a CSV row; the other cells are emitted as they are.
