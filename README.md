# DailyTask operator: a Dafny model

This project models the core of a small Kubernetes operator for the `DailyTask` custom
resource (group `example.com`, version `v1`, plural `dailytasks`). The operator lists the
resources in one namespace and then watches them. For each resource it lists, and for each
`Added` or `Modified` event, it writes back a status: today's time and weekday, rated `Good`.
It writes that status with a JSON merge patch, first to the status subresource and then,
if that is refused, to the whole object.

The model has six modules:

- `Wrappers` (wrappers.dfy): `Option` stands for C# `null`, and `Result` for a thrown exception.
- `Ascii` (ascii.dfy): comparison that ignores case, standing in for `StringComparer.OrdinalIgnoreCase`.
- `Json` (json.dfy): the JSON values that the serializer reads and writes. `Json.Get` is
  `JsonElement.TryGetProperty`: a property that occurs twice is found at its last occurrence.
- `EnumMemberJsonConverter` (enum_member_converter.dfy): the enum converter from the
  serializer options. `EnumMemberConverter` is a class. Its constructor loop fills two maps:
  `enumToString`, and `stringToEnum`, which is keyed by the upper-case fold so that lookups
  ignore case. `Read` and `Write` are proved equal to the reference functions `Decode` and
  `Encode`, which are stated directly on the member list. An enum type is the list of its
  members in declaration order, given as (name, optional `[EnumMember]` value). The member
  at position i has underlying value i, so `default(T)` is 0.
- `Models` (v1_daily_task.dfy): `V1DailyTask`, `V1DailyTaskSpec`, `V1DailyTaskStatus`,
  `DayInfo` and `Rating` as datatypes, with the values a fresh object carries. It also holds
  their JSON form with the fixed wire property names. Nulls are written out. Reading follows
  `JsonSerializer.Deserialize`. The properties of an object are applied in document order to a
  freshly constructed object. A known property is read and assigned, and a nested object is
  read into a fresh instance. An unknown property is skipped. A value of the wrong kind is an
  error. So an absent property keeps its initialiser's value. A repeated property is read at
  every occurrence, and the last one stays. Lemmas prove that this in-order reading agrees
  with the reference reading by last occurrence (`TaskByLast` and its siblings) exactly when
  every occurrence reads.
- `DailyTaskController` (daily_task_controller.dfy):
  - `UpdateStatus` is a function. Its inputs are the outcome (returns or throws) of each of
    the three client calls. It returns the trace of calls made and how the write ended.
  - `WatchLoop` is a class that holds the state of `StartAsync`: the resource-version token
    and the log of status writes started, each either awaited (list) or spawned (watch).
  - `WatchLoop` has one method per list response (`OnList`, `ReadListVersion`,
    `ReconcileListed`), one per watch event (`OnEvent`), one per pass of the outer loop
    (`RunCycle`), and one for the loop itself (`Run`). Each is proved against a
    specification function: `AfterList`, `Step`, `AfterCycle`, `AfterCycles`.

Behaviour of the code worth knowing:

- `rating` is read by the stock string-enum converter bound to the property
  (Models/V1DailyTask.cs:48). A property-level converter takes precedence over the one in
  the options. So a rating string that names no member makes reading the resource fail; it
  does not yield `Good`. `Models.RatingReadersOnUnknownName` shows the two converters disagreeing.
- In the list path, a resource that cannot be read throws out of the `foreach`
  (Controllers/DailyTaskController.cs:73). The outer handler at line 125 catches it.
  The items after it are not reconciled, and no watch is opened in that pass. A token taken
  earlier in the pass is kept.
- Closing the watch stream, or an error on it, is only logged
  (Controllers/DailyTaskController.cs:119-120). The loop lists again only after the
  30-minute wait.
- If the listed token has expired, the code does not fall back to a list without a token.
  It retries with the same token after the 5-second back-off.
- `UpdateStatus` on a null resource, or on one with null metadata, throws at line 141. The
  outer `catch` at line 231 swallows it, so no call is made (`Report.NullReference`).

## Model

| member | source | states |
|---|---|---|
| `Ascii.EqualsIgnoreCaseIffFoldsEqual` | Converters/EnumMemberJsonConverter.cs:27 | Comparing ignoring case is the same as comparing the upper-case folds, so a map keyed by the fold gives case-insensitive lookups |
| `Json.Get` | Controllers/DailyTaskController.cs:57-59 | A property lookup finds a value exactly when the name occurs; the value is the one at the last occurrence of that name |
| `EnumMemberJsonConverter.Decimal` | Converters/EnumMemberJsonConverter.cs:66-68 | `ToString()` of a value that no member declares is a non-empty decimal string that spells that value (read back by `DecimalValue`): a leading '-' exactly for negative values, digits after it, and no leading zero unless the value is 0 |
| `EnumMemberJsonConverter.LastMatch` | Converters/EnumMemberJsonConverter.cs:34-41 | Reference search: the last member whose wire string equals the input ignoring case, or none when no member matches |
| `EnumMemberJsonConverter.ForwardTableContents` | Converters/EnumMemberJsonConverter.cs:34-40 | The forward table built member by member holds exactly the declared values, each mapped to its alias, or else its name |
| `EnumMemberJsonConverter.ReverseTableAgrees` | Converters/EnumMemberJsonConverter.cs:34-41 | A case-insensitive lookup in the reverse table built member by member succeeds exactly when some wire string matches, and it yields the last matching member |
| `EnumMemberJsonConverter.EnumMemberConverter.constructor` | Converters/EnumMemberJsonConverter.cs:29-43 | The loop over the members leaves both dictionaries equal to the tables built from every member in order |
| `EnumMemberJsonConverter.EnumMemberConverter.Read` | Converters/EnumMemberJsonConverter.cs:45-57 | The dictionary lookup returns what the reference `Decode` gives: the last matching member for a non-empty string, and the zero value otherwise |
| `EnumMemberJsonConverter.EnumMemberConverter.Write` | Converters/EnumMemberJsonConverter.cs:59-69 | The dictionary lookup returns what the reference `Encode` gives: the member's wire string, or the decimal value for an undeclared value |
| `EnumMemberJsonConverter.EncodeDeclared` | Converters/EnumMemberJsonConverter.cs:36-40 | A declared member is written as its `[EnumMember]` value when it has one, and as its name otherwise |
| `EnumMemberJsonConverter.DecodeNonString` | Converters/EnumMemberJsonConverter.cs:47-48 | For a token that is not a JSON string, the `Read` method returns the zero value |
| `EnumMemberJsonConverter.DecodeUnknown` | Converters/EnumMemberJsonConverter.cs:50-54 | The empty string, and any string that no wire string matches ignoring case, read as the zero value |
| `EnumMemberJsonConverter.DecodeIsMemberOrDefault` | Converters/EnumMemberJsonConverter.cs:45-57 | The `Read` method never throws. It returns the zero value, or a declared member whose wire string equals the input string ignoring case |
| `EnumMemberJsonConverter.LastMatchIgnoresCase` | Converters/EnumMemberJsonConverter.cs:27 | Two strings that are equal ignoring case find the same last match |
| `EnumMemberJsonConverter.DecodeIgnoresCase` | Converters/EnumMemberJsonConverter.cs:50-51 | Two strings that are equal ignoring case read as the same value |
| `EnumMemberJsonConverter.RoundTrip` | Converters/EnumMemberJsonConverter.cs:39-63 | If the wire strings are non-empty and pairwise distinct ignoring case, reading what was written for a declared member gives that member back |
| `EnumMemberJsonConverter.CollisionLaterWins` | Converters/EnumMemberJsonConverter.cs:34-41 | When two wire strings collide ignoring case, the earlier member is still written as its own string, but that string reads back as a later colliding member, at or after the later index (the last one owns the entry) |
| `Models.NewDailyTaskDefaults` | Models/V1DailyTask.cs:10-23 | A fresh resource has apiVersion `example.com/v1`, kind `DailyTask`, empty non-null metadata and spec, and a null status |
| `Models.DecodeRating` | Models/V1DailyTask.cs:41-49 | The stock converter reads a string only as the member whose name it equals ignoring case |
| `Models.RatingWrittenAsName` | Models/V1DailyTask.cs:41-49 | A rating is written as `"Good"` or `"Bad"`. The enum-member codec would write the same name, since no member declares an alias |
| `Models.RatingReadersOnUnknownName` | Models/V1DailyTask.cs:47-49 | On a string that is not a member name or number, the enum-member codec yields `Good` but the stock converter bound to the property fails |
| `Models.RatingRoundTrip` | Models/V1DailyTask.cs:41-45 | Every rating reads back as itself from its name in any case, with either converter |
| `Models.WireNames` | Models/V1DailyTask.cs:10-61 | The written property names are `apiVersion`, `kind`, `metadata`, `spec`, `status`, `today`, `time`, `day`, `rating`, `taskName`, `description`, `priority`, in declaration order |
| `Models.ReadTaskByLastOccurrence` | Models/V1DailyTask.cs:8-24 | Reading a resource in document order succeeds exactly when every occurrence of every property reads, and the result is then the reading by last occurrence |
| `Models.ReadMetaByLastOccurrence` | Models/V1DailyTask.cs:16-17 | The same for `metadata`: every occurrence must read, and each field comes from the last occurrence of its name |
| `Models.ReadSpecByLastOccurrence` | Models/V1DailyTask.cs:52-62 | The same for `spec` |
| `Models.ReadDayInfoByLastOccurrence` | Models/V1DailyTask.cs:32-50 | The same for `status.today` |
| `Models.ReadStatusByLastOccurrence` | Models/V1DailyTask.cs:26-30 | The same for `status` |
| `Models.RepeatedPropertyReadEachTime` | Models/V1DailyTask.cs:19-20 | `{"spec": 5, "spec": {}}` does not read, although `{"spec": {}}` reads as a fresh resource: an ill-typed earlier occurrence is not hidden by a later one |
| `Models.DecodeEmptyObject` | Models/V1DailyTask.cs:10-23 | Reading `{}` gives a freshly constructed resource, since every absent property keeps its initialiser's value |
| `Models.SpecRoundTrip` | Models/V1DailyTask.cs:52-62 | Every spec, with any 32-bit priority, reads back as itself |
| `Models.DayInfoRoundTrip` | Models/V1DailyTask.cs:32-50 | Every `DayInfo` reads back as itself, including its rating |
| `Models.StatusRoundTrip` | Models/V1DailyTask.cs:26-30 | Every status, with or without `today`, reads back as itself |
| `Models.TaskRoundTrip` | Models/V1DailyTask.cs:8-24 | Every resource reads back as itself from what is written for it, whatever its fields are (null fields included) |
| `DailyTaskController.UpdateStatus` | Controllers/DailyTaskController.cs:137-236 | The write makes at most three calls. The existence check comes first and is made only once |
| `DailyTaskController.NoPatchAfterFailedGet` | Controllers/DailyTaskController.cs:157-171 | A non-null resource with metadata always gets the existence check. When it throws, the write ends there: exactly one call is made, and neither patch endpoint is called |
| `DailyTaskController.StatusPatchFirst` | Controllers/DailyTaskController.cs:195-206 | The status-subresource patch is the first patch. When the check passes and the status patch succeeds, the trace is exactly the check and that patch, carrying the computed merge patch. The whole-object patch is then never made |
| `DailyTaskController.FallbackExactlyOnce` | Controllers/DailyTaskController.cs:207-224 | When the check passes and the status patch throws, the whole-object patch is made exactly once, last, with the same merge-patch document |
| `DailyTaskController.FailuresSwallowed` | Controllers/DailyTaskController.cs:225-235 | The write always ends normally. It ends in `BothPatchesFailed` exactly when both patches threw after a successful check. It reports `NullReference` exactly when it made no call |
| `DailyTaskController.CallsTargetTheResource` | Controllers/DailyTaskController.cs:158-221 | Every call addresses `example.com`/`v1`/`dailytasks`, the resource's own namespace (else the controller's) and the resource's own name |
| `DailyTaskController.PatchCarriesComputedStatus` | Controllers/DailyTaskController.cs:145-198 | Every patch is a merge patch whose `status` reads back as today's time and day rated `Good` |
| `DailyTaskController.UpdateIgnoresSpecAndStatus` | Controllers/DailyTaskController.cs:145-153 | Two resources with the same metadata get the same calls, whatever their spec and status |
| `DailyTaskController.ListDispatchesAppend` | Controllers/DailyTaskController.cs:66-78 | List items are handled in order: the writes for a prefix that reads completely come before those for the rest |
| `DailyTaskController.ListDispatchesOne` | Controllers/DailyTaskController.cs:73-77 | One listed item starts exactly one awaited write when it reads as a resource, and none when it reads as null |
| `DailyTaskController.ListStopsAtUnreadable` | Controllers/DailyTaskController.cs:70-78 | An item that cannot be read ends the list: nothing after it is reconciled |
| `DailyTaskController.TokenAfterEvents` | Controllers/DailyTaskController.cs:103-106 | After a run of events, the token is the version of the last event that carries one. It is unchanged when no event carries one |
| `DailyTaskController.DispatchesAfterEvents` | Controllers/DailyTaskController.cs:108-112 | Events only append to the write log, one write per readable `Added` or `Modified` event, in event order |
| `DailyTaskController.OtherEventsStartNothing` | Controllers/DailyTaskController.cs:108-112 | `Deleted`, `Bookmark` and `Error` events start no write |
| `DailyTaskController.ListOneResource` | Controllers/DailyTaskController.cs:57-78 | Listing one resource at version v sets the token to v and starts one awaited write for that resource |
| `DailyTaskController.ModifiedEvent` | Controllers/DailyTaskController.cs:99-112 | A `Modified` event for a resource with a version sets the token to that version and spawns one write |
| `DailyTaskController.CycleWithWatch` | Controllers/DailyTaskController.cs:46-123 | A pass whose list completes and whose watch opens waits out the watch window. Its writes are the list's followed by one per readable `Added` or `Modified` event, in order. Its token is that of the last event carrying one, else the list's |
| `DailyTaskController.ListThenModifiedScenario` | Controllers/DailyTaskController.cs:44-123 | A list at "100" with one resource, then a `Modified` event at "101": the token ends at "101" and two writes are started, the awaited one first |
| `DailyTaskController.WatchLoop.constructor` | Controllers/DailyTaskController.cs:31 | The loop starts with the empty token and no writes |
| `DailyTaskController.WatchLoop.OnList` | Controllers/DailyTaskController.cs:54-80 | The new token and write log are those of `AfterList`, which skips a null response and reports whether handling it threw |
| `DailyTaskController.WatchLoop.ReadListVersion` | Controllers/DailyTaskController.cs:57-63 | `metadata.resourceVersion` replaces the token when present (a null value included). A non-string value, or a `metadata` that is not an object, throws |
| `DailyTaskController.WatchLoop.ReconcileListed` | Controllers/DailyTaskController.cs:66-79 | The loop leaves the token alone and appends the listed writes. It reports failure exactly when some item cannot be read |
| `DailyTaskController.WatchLoop.OnEvent` | Controllers/DailyTaskController.cs:91-117 | An unreadable payload changes nothing. Otherwise the token takes the resource's version when it has one, and a write is spawned for `Added` and `Modified` |
| `DailyTaskController.WatchLoop.RunCycle` | Controllers/DailyTaskController.cs:46-133 | One pass: list, then watch events in order. It backs off 5 seconds after any throw, and otherwise waits the 30-minute window |
| `DailyTaskController.WatchLoop.Run` | Controllers/DailyTaskController.cs:44-134 | The passes run in sequence and the state carries over between them. The delay chosen after each pass is recorded |

## Left out

- Program.cs is not part of this model. It loads the configuration, sets the TLS flag,
  handles Ctrl+C and has the top-level `catch`.
- Kubernetes client calls are not modelled. In `UpdateStatus` each one becomes an entry in
  the call trace, and whether it throws is an input. The list response and the watch events
  are inputs. The API server applying the merge patch (RFC 7386, section 2) is not modelled.
- `DateTime.Now` and its formatting are not modelled. The time string (`HH:mm:ss`) and the
  weekday name are the `Clock` parameter. The source reads the clock separately for each
  string; the model uses one reading.
- Concurrency is not modelled. `Task.Run` spawns a write without waiting, and the model only
  records that the write was started; its calls are what `UpdateStatus` gives. Watch events
  are applied one at a time, in order.
- Timing is reduced to which delay follows a pass (30 minutes or 5 seconds). Cancellation is
  reduced to how many passes `Run` is given.
- Console logging is left out. `Report` records which outcome the write logged.
- Reflection (`CanConvert`, `CreateConverter`, `GetCustomAttribute`) is not modelled. An enum
  type is given as its member list. Explicit underlying values, and several names sharing one
  value, are not modelled.
- The controller's namespace (Controllers/DailyTaskController.cs:15, :20-24) is not part of
  the loop state. It addresses the list and watch calls, which are not modelled, and it is
  `UpdateStatus`'s `controllerNamespace` parameter.
- Only the `name`, `namespace` and `resourceVersion` properties of `V1ObjectMeta` are
  modelled; its other properties are not. JSON numbers are integers, and layout
  (`WriteIndented`) is not modelled. The watch handler serializes and then deserializes the
  event object; the model reads the payload directly, which gives the same result.
- EnumMemberJsonConverter.EnumMemberConverter.Read: only ASCII letters are folded when
  ignoring case. `OrdinalIgnoreCase` also folds non-ASCII letters.
- Models.DecodeRating: only exact member names (any case) and the numbers 0 and 1 are
  accepted. The stock converter parses strings with `Enum.TryParse`, so it also accepts
  names with surrounding blanks (`" Good "`), numeric strings (`"1"`), comma-separated
  names, and undeclared numbers, which a two-member datatype cannot hold.
- Models.RatingReadersOnUnknownName: "the stock converter fails" holds only for strings
  that are not a member name (ignoring case and surrounding blanks), not a number and not a
  comma-separated list of names. For strings such as `" Good "` or `"1"`, the stock
  converter reads a member; the model rejects them (see the line above).
- EnumMemberJsonConverter.Decode: it gives what the `Read` method returns. For a JSON
  object or array token, `Read` returns 0 without consuming the value. System.Text.Json
  checks the reader's position after a custom converter's `Read`, and throws in that case.
  Deserializing through this converter therefore fails on such a token. The serializer's
  check is not modelled.
