# razy-cwlogs core, in Dafny

razy-cwlogs is a terminal browser for Amazon CloudWatch Logs. This project models its core logic as
immutable datatypes and pure functions, and proves properties of them. The core covers:

- **Stores.** An ordered set keeps log groups, streams and events. Its identity is a primary key:
  the ARN for groups and streams, the event id for events. It has ascending and descending views
  under a derived key.
- **Repositories.** The preset and profile repositories number their entries in insertion order.
  They filter by a substring query and label themselves after it. The profile file contributes
  through a line-level `[profile name]` header parser.
- **Validation.** Raw service records are checked fail-fast into domain records. Byte counts
  become binary-prefixed sizes.
- **Cursors.** The paginated listing cursors are state machines. The remote listing call is a
  function argument.
- **Navigation.** The three panes of the shell screen cycle. Their focus flag and wrap-around
  item cursors are part of the model, as are the list lookups behind them.
- **Search buffer.** The header's search text buffer.
- **Reducers.** Key and action handling are pure reducers. Each returns the next application state,
  the actions it sends on the channel (an outbox), the fetch tasks it spawns and the error it
  returns, if any.
- **Utilities.** Session ids, the bounded debug log, the `Key` display format and key-event
  translation.

The key order of every store is a lawful strict total order. Rust's `str` order is lexicographic by
code point; `Ordering.StrLt` models it, and its laws are proved in the `Ordering` module.

The model takes these external effects as parameters:

- **The clock.** `now` is an argument of the log-writing operations.
- **The AWS client factory.** It is a function from a profile name to an optional error.
- **The remote listing call.** It is a function from a request to a reply, which is a page or a
  transport failure.
- **The profile file.** It is a sequence of line-read results.

## Model

| member | source | states |
|---|---|---|
| Store.Clear | src/collection/store.rs:38-40 | A cleared store has length 0. |
| Store.InsertSetSemantics | src/collection/store.rs:42-44 | Insert keeps the items strictly ascending by key and adds the item's key to the key set. An item whose key is present leaves the store unchanged. Otherwise exactly that item is added. |
| Store.InsertIsSetInsert | src/collection/store.rs:42-44 | On sorted sequences, insertion is set insertion on keys and multiset insertion of the item when the key is new. |
| Store.InsertKeepsSorted | src/collection/store.rs:42-44 | Insertion keeps the sequence strictly ascending by key. |
| Store.ExtendIsUnion | src/collection/store.rs:46-48 | Extend yields a sorted store whose key set is the union of the old keys and the new items' keys. Old items are kept. Every item comes from the store or the input. The first input item of each new key is present. |
| Store.LenIsKeyCount | src/collection/store.rs:118-122 | The length of a sorted store is the number of distinct keys in it. |
| Store.FromSeqDeduplicates | src/collection/store.rs:103-107 | Collecting a sequence gives a sorted store with exactly the input's keys and one item per key, all drawn from the input. |
| Store.SortByPermutes | src/collection/store.rs:54-61 | The ascending view is a permutation of its input. |
| Store.SortByAscending | src/collection/store.rs:54-61 | Over distinct primary keys, the ascending view is strictly ascending by (derived key, item). |
| Store.MaxIndexIsGreatest | src/collection/store.rs:72-82 | The item a max-heap pops first is after every other item in the view order. |
| Store.SortDescByPermutes | src/collection/store.rs:72-82 | Popping greatest-first yields a permutation of the input. |
| Store.SortDescByDescending | src/collection/store.rs:72-82 | Popping greatest-first yields a strictly descending sequence. |
| Store.AscendingUnique | src/collection/store.rs:54-61 | Two strictly ascending arrangements of the same multiset are equal. |
| Store.DescIsReverseOfAsc | src/collection/store.rs:72-82 | The descending view is exactly the ascending view reversed. |
| Store.OrderByAscIsSortedPermutation | src/collection/store.rs:63-70 | `order_by_asc`/`order_by_asc_ref` list each stored item once, strictly ascending by (key, item). |
| Store.OrderByDescIsReversedAsc | src/collection/store.rs:84-94 | `order_by_desc`/`order_by_desc_ref` list each stored item once, strictly descending, as the exact reverse of the ascending view. |
| Store.Reverse | src/collection/store.rs:72-82 | Reversal keeps the length and mirrors positions. |
| Ordering.StrLtStrictTotal | src/aws/cwlogs/group/model.rs:51-55 | Lexicographic string order is irreflexive, transitive and total. |
| GroupModel.GroupOrderLawful | src/aws/cwlogs/group/model.rs:45-55 | Groups compare by ARN under a strict total order. |
| GroupModel.TryFromSpec | src/aws/cwlogs/group/model.rs:60-76 | The first missing field in the order arn, creation_time, log_group_name, stored_bytes is the error. A negative byte count is the `Negative` size error. Otherwise every field is copied, and retention is the day count in seconds. |
| GroupModel.TryFromExample | src/aws/cwlogs/group/model.rs:98-110 | The fixed example group parses to the expected record: three days of retention and 256 KiB stored. |
| GroupStore.InsertDedupsByArn | src/aws/cwlogs/group/store.rs:19-21 | Inserting a group whose ARN is present changes nothing. A new ARN adds exactly that group. The ARN set grows by the group's ARN. |
| GroupStore.ClearThenExtend | src/aws/cwlogs/group/store.rs:15-25 | Clear then extend holds exactly the input's ARNs, only input groups, and the first group of each ARN. Its length is the number of distinct ARNs. |
| GroupStore.ArnsAreKeys | src/aws/cwlogs/group/store.rs:55-59 | The ARN set is the key set of the store order. |
| GroupStore.OrderByNameAscSorted | src/aws/cwlogs/group/store.rs:27-30 | The name view is a permutation of the groups, ascending by group name with the ARN as tie-break. |
| GroupStore.OrderByCreationTimeSorted | src/aws/cwlogs/group/store.rs:32-38 | The creation-time views are permutations, ascending by (creation time, ARN), and exact reverses of each other. |
| GroupStore.OrderBySizeSorted | src/aws/cwlogs/group/store.rs:40-46 | The size views are permutations, ascending by (stored bytes, ARN), and exact reverses of each other. |
| StreamModel.TryFromSpec | src/aws/cwlogs/stream/model.rs:46-65 | The first missing field, in source order, is the error. Otherwise each field is copied, and each timestamp is its field's epoch millis. |
| StreamModel.TryFromExample | src/aws/cwlogs/stream/model.rs:86-99 | The fixed example stream parses to the expected record. |
| StreamModel.StreamOrderLawful | src/aws/cwlogs/stream/model.rs:31-41 | Streams compare by ARN under a strict total order. |
| StreamStore.InsertDedupsByArn | src/aws/cwlogs/stream/store.rs:14-16 | Inserting a stream whose ARN is present changes nothing. Otherwise the stream is added. |
| StreamStore.ExtendDedupsByArn | src/aws/cwlogs/stream/store.rs:18-20 | Extend unions the ARN sets, keeps the old streams and adds only input streams. |
| StreamStore.OrderByCreationTimeSorted | src/aws/cwlogs/stream/store.rs:22-28 | Both views are permutations of the stored streams. The ascending view is ordered by (creation time, ARN), and the descending view is its exact reverse. |
| EventModel.EventIdConversions | src/aws/cwlogs/event/model.rs:14-24 | An `EventId` from a `String` or a `&str` wraps the same text. The conversion is injective. |
| EventModel.TryFromSpec | src/aws/cwlogs/event/model.rs:59-72 | The first missing field in the order event_id, ingestion_time, log_stream_name, message, timestamp is the error. Otherwise every field is copied. |
| EventModel.TryFromExample | src/aws/cwlogs/event/model.rs:91-103 | The fixed example event parses to the expected record. |
| EventModel.EventOrderLawful | src/aws/cwlogs/event/model.rs:44-54 | Events compare by event id under a strict total order. |
| EventStore.InsertDedupsById | src/aws/cwlogs/event/store.rs:14-16 | Inserting an event whose id is present changes nothing. Otherwise the event is added. |
| EventStore.ExtendDedupsById | src/aws/cwlogs/event/store.rs:18-20 | Extend unions the id sets, keeps the old events and adds only input events. |
| EventStore.OrderByTimeSorted | src/aws/cwlogs/event/store.rs:22-30 | Both views are permutations. The ascending view is ordered by ((event time, stream name), event id), and the descending view is its exact reverse. |
| Mapper.MapField | src/aws/cwlogs/mapper.rs:7-16 | The result succeeds exactly when the field is present and is then its value. An error names the field. |
| Mapper.MapFieldInverse | src/aws/cwlogs/mapper.rs:7-16 | Reading the result back as an option gives the input field. |
| Mapper.MapStringFieldIsMapField | src/aws/cwlogs/mapper.rs:18-24 | `map_string_field` is `map_field` with the conversion applied, and has the same error. |
| Mapper.MapUnixEpochMillisSpec | src/aws/cwlogs/mapper.rs:26-33 | A present millisecond count is that instant. An absent one is the missing-field error. |
| Mapper.AsDuration | src/aws/cwlogs/mapper.rs:38-42 | The result fits in `u64`. For non-negative day counts without overflow it is days × 86400 seconds. |
| Mapper.OneDay | src/aws/cwlogs/mapper.rs:129-135 | One day is 86400 seconds. |
| Mapper.FirstMissingSpec | src/aws/cwlogs/group/model.rs:61-67 | No field is reported missing exactly when all are present. A reported field is the first absent one. |
| Size.SizeFromI64 | src/size.rs:154-164 | The conversion succeeds exactly for non-negative values and keeps the value. A negative value is the `Negative` error. |
| Size.UnitRanges | src/size.rs:6-46 | Byte covers [0, 1023]. Unit k ≥ 1 covers [1024^k, 1024^(k+1) − 1]. The multiplier table is inverted by `UnitOfMultiplier`. |
| Size.Pow1024Values | src/size.rs:6-46 | The powers of 1024 match the table's limits. |
| Size.Log1024Brackets | src/size.rs:108-132 | The integer base-1024 logarithm lies between consecutive powers. |
| Size.Log1024Unique | src/size.rs:108-132 | That logarithm is the only exponent with this bracketing. |
| Size.PreferredUnitByRange | src/size.rs:108-132 | The chosen unit is exactly the one whose [min, max] holds the byte count. There is none above the pebibyte maximum. |
| Size.HumanFromSizeSpec | src/size.rs:185-195 | The conversion fails with `TooLarge` exactly above the pebibyte maximum. Otherwise the unit holds the count, the size is count / 1024^multiplier, and the size lies in [0, 1023] for bytes and [1, 1023] for other units. |
| Size.HumanFromSizeExamples | src/size.rs:185-195 | 2047 bytes is 1 KiB, 1023 is 1023 B, the pebibyte maximum is 1023 PiB, one byte more is `TooLarge`, and 1 KiB displays as `1KiB`. |
| Size.DisplayRoundTrip | src/size.rs:179-183 | Parsing the display text (decimal size then short unit name) gives back the size. |
| Query.QueryFrom | src/query.rs:18-24 | The result is `None` exactly for the empty string. Otherwise its word is the input. |
| Query.QueryRoundTrip | src/query.rs:7-16 | `Into<String>` and `word` of `query_from(s)` give back `s`. The word is never empty. |
| Query.QueryFromInjective | src/query.rs:18-24 | Different strings give different results. |
| Text.TrimSpec | src/aws/profile.rs:61-63 | `trim` keeps a slice between a whitespace prefix and a whitespace suffix, and that slice neither starts nor ends with whitespace. |
| Text.TrimPadded | src/aws/profile.rs:61-70 | Trimming whitespace-padded text that neither starts nor ends with whitespace gives that text back. |
| Text.TrimIdempotent | src/aws/profile.rs:61-70 | Trimming twice equals trimming once. |
| Text.ContainsIffOccurs | src/aws/profile.rs:142-146 | Substring containment holds exactly when the word occurs at some position. |
| Text.NatToStringRoundTrip | src/app/shell/handler.rs:123-125 | Decimal printing gives non-empty digits with no leading zero, and they read back as the number. |
| Repository.WellNumberedIsSorted | src/aws/profile.rs:85-88 | Entries numbered 1..n in order are sorted under the (number, name) key. |
| Repository.InsertAppends | src/preset.rs:83-85 | Insert appends the entry numbered len + 1, keeps the numbering and appends the item. |
| Repository.ExtendAppends | src/preset.rs:87-91 | Extend appends the items numbered consecutively from len + 1, in input order. |
| Repository.SetQueryLabel | src/preset.rs:93-100 | The label is the default label, followed by ` ("word")` under a query. Entries are unchanged. |
| Repository.FilterSpec | src/preset.rs:106-112 | The filtered view holds exactly the items whose name matches, is no longer than the input, and is the whole input without a query. |
| Repository.FilterAppend | src/preset.rs:106-112 | Filtering distributes over concatenation, so the filtered view keeps insertion order. |
| Repository.IterSpec | src/preset.rs:106-112 | `iter` yields exactly the matching stored items. `len` is at most the entry count. |
| Repository.MatchesIffOccurs | src/preset.rs:135-141 | A name matches a query exactly when the word occurs in it. |
| Profile.ParseHeaderRecognises | src/aws/profile.rs:59-76 | A line yields a name exactly when its trimmed form starts with `[` and ends with `]`. |
| Profile.ParseHeaderPlain | src/aws/profile.rs:61-70 | A padded `[ name ]` header yields the trimmed name. |
| Profile.ParseHeaderProfile | src/aws/profile.rs:64-70 | A padded `[ profile name ]` header yields the name without the `profile ` prefix. |
| Profile.InsertHeadersError | src/aws/profile.rs:78-82 | The first line-read error aborts the load with that error. |
| Profile.InsertHeadersOk | src/aws/profile.rs:78-82 | Without read errors, the parsed headers are appended in file order, with numbering, query and label unchanged. |
| Profile.FromLinesSpec | src/aws/profile.rs:56-83 | Loading yields the first read error, or a store labelled `Profiles`, without a query, listing the headers in file order. |
| Profile.InsertKeepsDuplicates | src/aws/profile.rs:85-88 | Inserting a name already present adds a second entry, and the length grows by one. |
| Profile.ExtendAppendsInOrder | src/aws/profile.rs:90-94 | Extend appends the names in order, and the view gains exactly the matching ones. |
| Profile.SetQueryFilters | src/aws/profile.rs:96-115 | Under a query, `iter` yields exactly the names containing the word, and the label is `Profiles ("word")`. Without a query it yields every name, labelled `Profiles`. |
| Preset.PresetOrderSpec | src/preset.rs:54-64 | Presets compare by name only, under a lawful order. |
| Preset.ToRequestSpec | src/preset.rs:66-73 | The request carries exactly the preset's prefix; every other field is the default. |
| Preset.DefaultStoreSpec | src/preset.rs:115-133 | The default store is empty and labelled `Presets`. |
| Preset.InsertKeepsSameName | src/preset.rs:83-85 | Insert appends entry len + 1 even for a name already present. |
| Preset.ExtendAppendsInOrder | src/preset.rs:87-91 | Extend numbers from len + 1 in order, and the view gains exactly the matching presets. |
| Preset.SetQueryFilters | src/preset.rs:93-141 | Under a query, `iter` yields exactly the presets whose name contains the word, `len` is at most the entry count, and the label is `Presets ("word")`. Without a query, every preset under `Presets`. |
| Paging.ParseEachSpec | src/aws/cwlogs/group/cursor.rs:13-19 | A page parses exactly when every record does, giving the records in order. Otherwise the error is that of the first bad record. |
| Paging.NewPagedFetchesFirstPage | src/aws/cwlogs/group/cursor.rs:50-61 | A new cursor has no token and more to fetch, and its first `next` sends the request without a token. |
| Paging.NextPagedSpec | src/aws/cwlogs/group/cursor.rs:75-88 | An exhausted cursor answers `Ok(None)` and sends nothing. Otherwise the saved token is taken into the request. A transport failure leaves no token and more to fetch. An answer commits has_next and the token before parsing, then returns the parsed page or the parse error. |
| Paging.TransportErrorRestarts | src/aws/cwlogs/group/cursor.rs:77-79 | After a transport failure, the next call restarts without a token. |
| Paging.ParseErrorSkipsPage | src/aws/cwlogs/group/cursor.rs:80-83 | After a page fails to parse, the next call asks for the page after it. |
| Paging.RunPaged | src/aws/cwlogs/group/cursor.rs:75-88 | Repeated `next` calls give one result per call. |
| Paging.ExhaustedStaysExhausted | src/aws/cwlogs/group/cursor.rs:76-86 | An exhausted cursor stays unchanged and answers `Ok(None)` forever. |
| Paging.TokenlessPageExhausts | src/aws/cwlogs/group/cursor.rs:80-81 | Once a tokenless page arrives, every later `next` is `Ok(None)`. |
| Paging.RefreshResendsLastRequest | src/aws/cwlogs/group/cursor.rs:90-94 | `refresh` resends the request last sent by `next`. |
| Paging.NextTokenSpec | src/aws/cwlogs/event/cursor.rs:69-77 | The token cursor always sends a request carrying the saved token. It saves the response token, or none on failure, and returns the parsed page or the parse error. |
| Paging.TokenlessAnswerRestarts | src/aws/cwlogs/event/cursor.rs:73 | After a tokenless answer, the event cursor starts over from the first page. |
| GroupCursor.CwlGroupsFromSpec | src/aws/cwlogs/group/cursor.rs:13-19 | A missing list is an empty page. Otherwise the page is the groups parsed in order, or the first parse error. |
| GroupCursor.ErrorTextSpec | src/aws/cwlogs/group/cursor.rs:21-34 | The error text is `parse error` exactly for parse errors. A transport error's text is `rusoto error. cause:` followed by the cause. |
| StreamCursor.CwlStreamsFromSpec | src/aws/cwlogs/stream/cursor.rs:13-21 | A missing list is an empty page. Otherwise the page is the streams parsed in order, or the first parse error. |
| EventCursor.CwlEventsFromSpec | src/aws/cwlogs/event/cursor.rs:12-20 | A missing list is an empty page. Otherwise the page is the events parsed in order, or the first parse error. |
| Stateful.Select | src/ui/widget/stateful.rs:21-38 | The selection is `None` exactly for an empty list. Otherwise it is an index below the length. |
| Stateful.SelectNextSpec | src/ui/widget/stateful.rs:9-11 | With no selection, `next` picks 0. Otherwise it picks (i + 1) mod length, so a stale index is reduced and the last wraps to 0. |
| Stateful.SelectPreviousSpec | src/ui/widget/stateful.rs:13-15 | With no selection, `previous` picks 0. From 0 it picks length − 1, otherwise (i − 1) mod length. |
| Stateful.UnselectRestarts | src/ui/widget/stateful.rs:9-38 | After `unselect`, stepping either way over a non-empty list selects the first item. |
| Stateful.NextThenPrevious | src/ui/widget/stateful.rs:21-38 | For i < length, `next` then `previous` returns to i. |
| Stateful.PreviousThenNext | src/ui/widget/stateful.rs:21-38 | For i < length, `previous` then `next` returns to i. |
| Stateful.ForwardShift | src/ui/widget/stateful.rs:21-38 | k `next` steps from i reach (i + k) mod length. |
| Stateful.ForwardCycle | src/ui/widget/stateful.rs:21-38 | `length` steps of `next` return to the start. |
| Search.Clamp | src/ui/widget/search.rs:9-17 | The result lies in [min, max], is x when x is inside, and is the nearer bound otherwise. |
| Search.Default | src/ui/widget/search.rs:19-23 | The default buffer is empty, with the cursor at 0. |
| Search.AppendChar | src/ui/widget/search.rs:26-29 | The character is inserted at the cursor, the rest shifts right and the cursor advances by one. |
| Search.DeleteChar | src/ui/widget/search.rs:31-36 | The character before the cursor is removed and the cursor steps back. At position 0 or on an empty buffer nothing changes. |
| Search.MovePosition | src/ui/widget/search.rs:38-43 | The text is unchanged. On an empty buffer nothing moves. Otherwise the cursor moves by the direction, clamped to [0, len], except that a sum past `i32::MAX` wraps negative and the cursor goes to 0. |
| Search.MoveWrapsPastI32Max | src/ui/widget/search.rs:38-43 | At the end of a buffer of `i32::MAX` characters, a step right wraps and puts the cursor at 0. |
| Search.SingleStepsNeverWrap | src/ui/widget/search.rs:38-43 | While the buffer length plus one fits in `i32`, steps of ±1 move by one, clamped to [0, len]. |
| Ints.WrapI32 | src/ui/widget/search.rs:40 | The wrapped value lies in `i32` range, equals the input inside that range, and is the input minus 2^32 just above it. |
| Search.AppendThenDelete | src/ui/widget/search.rs:26-36 | Appending then deleting restores the buffer and cursor. |
| Search.TypingBuildsQuery | src/ui/widget/search.rs:26-47 | Typing at the end appends to the query. |
| Search.MoveLeftRight | src/ui/widget/search.rs:38-43 | Left then right returns to the same position away from the start. |
| ListWidgets.NthIsIndex | src/ui/widget/presets.rs:18-24 | The i-th element is `xs[i]` for i below the length, and `None` otherwise. |
| ListWidgets.SelectedPresetSpec | src/ui/widget/presets.rs:18-24 | No selection gives `None`. Index i gives the i-th preset of the filtered view, or `None` past its end. |
| ListWidgets.SelectedProfileSpec | src/ui/widget/profiles.rs:18-24 | No selection gives `None`. Index i gives the i-th profile of the filtered view, or `None` past its end. |
| ListWidgets.SelectionFollowsQuery | src/ui/widget/presets.rs:18-24 | The same index names different presets once a query is set. |
| ListWidgets.SelectedPresetIsShown | src/ui/widget/presets.rs:18-53 | The selected preset is the one shown at the selected row. |
| ListWidgets.SelectedProfileIsShown | src/ui/widget/profiles.rs:18-52 | The selected profile is the one shown at the selected row. |
| ShellState.WidgetOrderCycle | src/app/shell/state.rs:40-49 | `prev` inverts `next` in both directions, and three `next` steps return to the start, with no fixed point. |
| ShellState.Default | src/app/shell/state.rs:57-65 | The initial shell has no focus and meets both shell invariants. It is ready for any data whose list lengths fit in `i32`, and from it `next` selects Presets and `previous` selects Groups. |
| ShellState.SetFocus | src/app/shell/state.rs:72-76 | Only the focus flag changes. Afterwards the shell has focus exactly when it had focus before or a pane is selected, and "focus implies a selected pane" is kept. |
| ShellState.ClearFocus | src/app/shell/state.rs:78-80 | Only the focus flag changes, and afterwards the shell has no focus. |
| ShellState.FocusToggles | src/app/shell/state.rs:72-80 | Clearing after setting equals clearing. With a pane selected, setting after clearing equals setting and gives focus. With no pane selected, setting focus changes nothing. |
| ShellState.WidgetStepsSpec | src/app/shell/state.rs:115-130 | With no selection, `next` selects Presets and `previous` selects Groups. Otherwise they follow the adjacency table, and `previous` undoes `next`. |
| ShellState.SelectNext | src/app/shell/state.rs:82-88 | Stepping keeps "focus implies a selected pane" and keeps the pane cursors inside `i32` range. |
| ShellState.SelectNextSpec | src/app/shell/state.rs:82-145 | Unfocused, only the pane changes, to the next one. Focused, only the selected pane's item cursor moves forward, over that pane's filtered length. |
| ShellState.SelectPrevious | src/app/shell/state.rs:90-96 | Stepping keeps "focus implies a selected pane" and keeps the pane cursors inside `i32` range. |
| ShellState.SelectPreviousSpec | src/app/shell/state.rs:90-160 | The same as `SelectNextSpec`, backwards. |
| ShellState.ExecuteItemSpec | src/app/shell/state.rs:98-177 | No selection and Groups give no action. On Presets or Profiles with a selected profile, the pane becomes Groups and the action is `RequestLogGroups(profile, selected preset)`. Otherwise nothing changes. Focus does not affect the action. |
| ShellState.TransitionsKeepFocusInv | src/app/shell/state.rs:72-173 | Every transition keeps "focus implies a selected pane". |
| AppState.SettersIdempotent | src/app/state.rs:11-21 | Both setters are idempotent, and `is_running` reflects the last one applied. |
| Session.Default | src/session.rs:37-44 | The default set is empty and its next id is 1. |
| Session.InsertFresh | src/session.rs:31-34 | Insert stores under the unused current id, keeps every other session, adds exactly one id and increases the next id. |
| Session.InsertManyIds | src/session.rs:31-34 | n inserts occupy exactly the next n ids. |
| Session.DefaultThenInsertMany | src/session.rs:31-44 | From the default set, n inserts occupy ids 1..n. |
| Debug.AppendItem | src/ui/widget/debug.rs:13-18 | The length never exceeds the capacity, grows by one below it, and the new item is last. |
| Debug.AppendItemKeepsNewest | src/ui/widget/debug.rs:13-18 | Appending keeps the newest `capacity` items in arrival order. |
| Debug.AppendAllKeepsNewest | src/ui/widget/debug.rs:13-18 | Any run of appends keeps the newest `capacity` items of everything appended. |
| Debug.New | src/ui/widget/debug.rs:27-33 | A new log has empty buffers, counter 0 and the requested capacity. |
| Debug.Default | src/ui/widget/debug.rs:53-57 | The default capacity is 30. |
| Debug.AppendKey | src/ui/widget/debug.rs:39-42 | The counter advances first, the key is recorded under the new number, and the logs are untouched. |
| Debug.AppendLog | src/ui/widget/debug.rs:48-50 | The message is recorded with the given time, and the keys are untouched. |
| Debug.KeysNumberedFromOne | src/ui/widget/debug.rs:39-42 | The first two keys are numbered 1 and 2. |
| Key.DisplayShapes | src/event/key.rs:26-42 | Space has its own `<Space>` forms. Other characters print bare, or as `<Ctrl+c>` / `<Alt+c>`. `Unknown` prints bare, and named keys print as `<Name>`. |
| Key.DisplayRoundTrip | src/event/key.rs:26-42 | The display text parses back to the key. |
| Key.DisplayInjective | src/event/key.rs:26-42 | Different keys display differently. |
| Key.FromKeyEventSpec | src/event/key/crossterm_key.rs:11-35 | A character with exactly CONTROL is `Ctrl`, with exactly ALT is `Alt`, and otherwise is `Char`, always carrying that character. The result is `Unknown` exactly for codes other than Enter, Tab, Backspace, Esc, the four arrows and characters. |
| Key.FromKeyEventOnto | src/event/key/crossterm_key.rs:11-35 | Every key is produced by some event. |
| AppData.New | src/app/data.rs:20-37 | New data is consistent exactly when the preset and profile stores are numbered in insertion order, the group store, search buffer and session set are well formed, and any debug log is well formed. |
| AppData.WithProfilesSpec | src/app/data.rs:86-106 | The start-up presets are project-prd, project-stg, project-dev, lambda and glue, in that order, under `Presets`. There are no groups, and the search buffer is empty. |
| AppData.DebugKey | src/app/data.rs:65-69 | With a debug log the key is recorded. Otherwise nothing changes. |
| AppData.DebugLog | src/app/data.rs:71-75 | With a debug log the message is recorded. Otherwise nothing changes. |
| AppData.SetGroupsCursor | src/app/data.rs:77-79 | The cursor is stored, nothing else changes, and consistency is neither gained nor lost. |
| AppData.CreateSession | src/app/data.rs:81-83 | One session id is added and nothing else changes. |
| AppModel.New | src/app.rs:61-72 | A new application has focus on the shell, no pane focus, and is not running. It keeps the given configuration and data. It is steady exactly when the data is consistent, and ready exactly when, in addition, the list lengths and the search buffer fit in `i32`. |
| AppModel.StartupReady | src/app.rs:61-72 | The application built from the start-up data, with profiles numbered in insertion order and fewer than `i32::MAX` of them, is ready and not running. |
| Handlers.HeaderHandleKey | src/app/header/handler.rs:11-22 | Header keys never spawn tasks or fail. They keep the data consistent and leave the shell, the running flag and the configuration unchanged. |
| Handlers.HeaderHandleKeySpec | src/app/header/handler.rs:11-30 | Every character, `q` included, is appended. BackSpace deletes, and Left/Right move by −1/+1. Enter sends `Search(query)` and returns focus to the shell without clearing the text. Other keys change nothing. |
| Handlers.ShellHandleKey | src/app/shell/handler.rs:16-28 | Shell keys never spawn tasks or fail, and keep the state within bounds. |
| Handlers.ShellHandleKeySpec | src/app/shell/handler.rs:16-28 | The quit key is tested first and only stops the application. Up/k and Down/j step backwards and forwards, Esc clears focus and `/` focuses the header. Other keys change nothing. |
| Handlers.DefaultQuitKey | src/app/shell/handler.rs:31-34 | Under the default configuration, `q` stops the application. |
| Handlers.ShellOnEnter | src/app/shell/handler.rs:36-47 | Enter sends at most one action. |
| Handlers.ShellOnEnterSpec | src/app/shell/handler.rs:36-47 | Unfocused, Enter sets focus. Focused, it sends the action `execute_item` yields, if any. |
| Handlers.OnQuerySpec | src/app/shell/handler.rs:67-87 | The search applies to the selected pane only. It sets the presets' or profiles' query, or on Groups with a selected profile sends `RequestLogGroups(profile, anonymous preset with the search as prefix)`. |
| Handlers.OnRequestLogGroups | src/app/shell/handler.rs:89-121 | A request keeps the data consistent. |
| Handlers.OnRequestLogGroupsSpec | src/app/shell/handler.rs:89-121 | The request is logged first. A client error is returned with no cursor and no task. Otherwise a fresh cursor for the preset's request (the default one without a preset) is stored, and one fetch task uses it. |
| Handlers.FetchTaskActionSpec | src/app/shell/handler.rs:104-113 | The task sends the cursor's request. A page becomes `ReceiveLogGroups(page)`, a transport failure `Error("rusoto error. cause:…")` and a bad page `Error("parse error")`. |
| Handlers.FetchTaskExhausted | src/app/shell/handler.rs:104-113 | An exhausted cursor gives `ReceiveLogGroups([])`. |
| Handlers.OnReceiveLogGroups | src/app/shell/handler.rs:123-130 | Receiving keeps the data consistent. |
| Handlers.OnReceiveLogGroupsSpec | src/app/shell/handler.rs:123-130 | The group store is replaced wholesale by the received groups, deduplicated by ARN. Its length is the number of distinct ARNs, and the presets, profiles and shell are unchanged. |
| Handlers.OnError | src/app/shell/handler.rs:132-135 | Logging an error keeps the data consistent. |
| Handlers.OnErrorSpec | src/app/shell/handler.rs:132-135 | The message is logged and nothing else changes. |
| Handlers.ShellHandleAction | src/app/shell/handler.rs:55-64 | Every action keeps the data consistent and changes nothing outside the data. |
| Handlers.HandleAction | src/app/handler.rs:29-36 | Under any focus, an action keeps the data consistent and changes nothing outside the data. |
| Handlers.HandleKeyInput | src/app/handler.rs:13-22 | Key input never spawns tasks or fails, and the application stays steady. |
| Handlers.StepsKeepReady | src/app/handler.rs:13-36 | From a ready application, one key or one action leads to a steady one, which is ready again exactly when the list lengths and the search buffer still fit in `i32`. |
| Handlers.HandleKeyInputSpec | src/app/handler.rs:13-22 | Every key is recorded in the debug log first. It then goes to the shell or the header by focus, and a session view ignores it. |
| Handlers.HandleActionDropped | src/app/handler.rs:29-36 | Outside the shell, actions change nothing and return no error. |

## Left out

- The program's entry point, with its tokio tasks, channels, redraw loop and lock handling. The
  terminal, the tick timer and the key-event stream. All rendering, theming and table formatting.
  These are concurrency, I/O and presentation.
- The AWS client, credentials and HTTP calls. The listing call is a function argument of the
  cursors, and the client factory is a function argument of the reducers.
- Opening the profile file and finding the home directory (`from_shared_file`). `FromLines` takes
  the line-read results, so `NoHomeDirectory` is never produced. The `expect` on a failed load in
  the `AppData` constructors is not modelled; they take the loaded store.
- Time zones and the clocks. Timestamps are integer milliseconds, and the log time is an argument.
- Mapper.MapUnixEpochMillisSpec: chrono's `timestamp_millis` panics for counts outside its
  supported date range, about ±262,000 years or roughly ±8.27e15 milliseconds. The model accepts
  every integer count and returns the timestamp, so that panic is not modelled.
- GroupModel.TryFromSpec: a creation time outside chrono's range would panic in the source; the
  model converts it.
- StreamModel.TryFromSpec: creation, first-event, last-event and last-ingestion times outside
  chrono's range would panic in the source; the model converts them.
- EventModel.TryFromSpec: event and ingestion times outside chrono's range would panic in the
  source; the model converts them.
- Size.PreferredUnitByRange: the source picks the unit with an `f64` logarithm. The model picks by
  integer range membership instead, which is what the boundary values of the source's tests
  require. Floating-point rounding near the boundaries is not modelled.
- Store.FromSeqDeduplicates: states the key set and that every kept item is drawn from the input.
  Which of several key-equal items `FromIterator` keeps is an implementation detail of the bulk
  build. The model keeps the first.
- Mapper.AsDuration: models the release-build `u64` wrap-around of the cast and the multiplication.
  The exact value is promised only where no overflow occurs. A debug build would panic instead.
- Stateful.Select: the `i32` casts of the length and the index are excluded by a precondition that
  both fit in 31 bits. The same holds for the pane cursors in ShellState.SelectNext and
  ShellState.SelectPrevious.
- Search.MovePosition: the sum `input_pos as i32 + direction` wraps past `i32::MAX` as in a release
  build; a debug build would panic there instead. The two `as i32` casts, of the insertion point and
  of the buffer length, are kept exact by a precondition that the buffer is shorter than 2^31.
- Session.Next: `u64` overflow of the id is excluded by a precondition. The same holds for
  Session.InsertFresh and AppData.CreateSession. The debug key counter is unbounded.
- Debug.New: a capacity of 0 is excluded. For positive sizes the pane keeps exactly the requested
  number of entries, which is what Rust 1.67 and later report as the `VecDeque` capacity. Earlier
  standard libraries rounded `with_capacity(30)` up to a capacity of 31, so the pane kept 31 entries;
  `with_capacity` itself promises only "at least" the requested room.
- Handlers.StepsKeepReady: the `i32` bounds on the list lengths and the search buffer are not shown
  to persist, because received groups and typed characters can grow past them. Every other part of
  readiness is kept by each step.
- Handlers.OnRequestLogGroupsSpec: the logged message uses `{:?}` formatting. Escaping of quotes and
  backslashes inside names is not modelled.
- The request records keep only the fields the core sets (the group-name prefix and the next token).
  Every other request field is a default constant.
- `load_log_streams_action` yields no action, as in the source. The stream and event cursors are
  modelled, but no handler uses them.
- `App::create_groups_cursor` is folded into `OnRequestLogGroups`. The channel send of
  `dispatch_action` is an append to the outbox.
