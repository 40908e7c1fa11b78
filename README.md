# Artist-index parse, modelled in Dafny

This project models `IndexesParser.parse` from Audinaut, a Subsonic client.
The method reads the server's artist index, a stream of XML start tags:

- `<indexes>` or `<artists>`, which carry an optional `ignoredArticles`;
- `<index name>` headers;
- `<artist id name>`;
- `<shortcut id name>`;
- `<child>` entries;
- `<error code message>`.

From these it builds an `Indexes` value holding the shortcuts, the artists and the entries.

Artists that share a display name are merged. The first object stays in place, and each later id is appended to its id after a `;`. Every artist carries the index label that was active when its name was first seen. Shortcuts are labelled `*`.

The parser also has side effects. It reports the artist count to a progress listener. It writes the last container's `ignoredArticles` to the preferences. It returns `null` when no container element was present.

Three files:

- `wrappers.dfy` — `Option`, which stands for a Java reference that may be null.
- `indexes_model.dfy` (module `IndexesModel`) — the parse stated on values.
  - `Step` is one turn of the loop's switch.
  - `Accumulate` folds `Step` over the events.
  - `Run` adds the abort at the first `<error>`, the `validate()` verdict, the preference write, the `null` return and the final progress report.
  - The second half of the module describes the same state directly from the events, without the fold. `IdsFor`, `FirstSeen`, `Label`, `ShortcutsOf`, `EntriesOf`, `LastIgnored` and `ProgressOf` do this.
  - Lemmas prove that the fold agrees with those descriptions.
- `indexes_parser.dfy` (module `IndexesParser`) — the imperative parse.
  - `Artist` is a class. Its `id` is updated in place through the `artistList` map, which aliases the objects in the artist list.
  - The `Parse` method runs the loop over the event sequence.
  - `Parse` is proved against `Run`: the objects it returns denote exactly the records `Run` computes.

## Progress after a merge

Progress is not tied to newly added artists. The `artists.size() % 10 == 0` test on line 93 runs after both branches of the merge. A repeat sighting, while the list holds a multiple of ten artists, therefore reports that count again, although the list did not grow.

That reads as unintended, but it is harmless, and the model follows the code. `RepeatSightingReports` states this behaviour.

## Model

| member | source | states |
|---|---|---|
| IndexesModel.Position | app/src/main/java/net/nullsum/audinaut/service/parser/IndexesParser.java:85-86 | the `artistList` lookup by display name: the first position holding that name, and None exactly when no listed artist has the name |
| IndexesModel.Merge | app/src/main/java/net/nullsum/audinaut/service/parser/IndexesParser.java:79-91 | an `<artist>` adds its name to the set of listed names. A new name is appended with the active index label. A known name keeps the list length, and only that artist changes, its id becoming `old;new`. Distinct names stay distinct |
| IndexesModel.Initial | app/src/main/java/net/nullsum/audinaut/service/parser/IndexesParser.java:55-62 | the locals before the first event: empty artist, shortcut and entry lists, the label `#`, no ignored articles, `changed` false, and no progress reports yet |
| IndexesModel.Step | app/src/main/java/net/nullsum/audinaut/service/parser/IndexesParser.java:66-112 | one turn of the tag switch. A container sets `changed` and stores its `ignoredArticles`, and an `<index>` sets the active label. An `<artist>` is merged by name, then reports the list size when it is a multiple of ten. A `<shortcut>` appends a `*` record, and a `<child>` appends its entry. Any other event changes nothing. Its field-by-field effect is `StepFields`, and the lemmas below are proved about it |
| IndexesModel.Accumulate | app/src/main/java/net/nullsum/audinaut/service/parser/IndexesParser.java:64-114 | the `do … while` loop: `Step` applied to each event in stream order, starting from `Initial`. It describes the source on error-free prefixes, which are the only ones `Run` folds |
| IndexesModel.Run | app/src/main/java/net/nullsum/audinaut/service/parser/IndexesParser.java:51-135 | the whole method. At the first `<error>`, it fails with that code and message, writes no preference, and keeps only the reports made before it. Otherwise a failed `validate()` fails, and the last `ignoredArticles` is written. No container gives `null`. Otherwise it returns the folded shortcuts, artists and entries, with a final report of the artist count |
| IndexesModel.FirstError | app/src/main/java/net/nullsum/audinaut/service/parser/IndexesParser.java:109-111 | the position where `handleError()` aborts: an `<error>` with no `<error>` before it, and None exactly when the stream has no `<error>` |
| IndexesModel.FirstSeen | app/src/main/java/net/nullsum/audinaut/service/parser/IndexesParser.java:85-90 | the position of the `<artist>` element that created a name's entry: an `<artist>` element carrying that name |
| IndexesModel.FirstSeenIsFirst | app/src/main/java/net/nullsum/audinaut/service/parser/IndexesParser.java:85-90 | no `<artist>` element before `FirstSeen` carries the name, so later sightings only merge |
| IndexesModel.AccumulateIndex | app/src/main/java/net/nullsum/audinaut/service/parser/IndexesParser.java:74-77 | the active label is the name of the last `<index>`, or `#` before any |
| IndexesModel.SightedIffIds | app/src/main/java/net/nullsum/audinaut/service/parser/IndexesParser.java:78-81 | a name was seen on an `<artist>` exactly when some id was seen for it |
| IndexesModel.AccumulateNames | app/src/main/java/net/nullsum/audinaut/service/parser/IndexesParser.java:85-91 | the artist list has no two entries with the same display name, and its names are exactly the names of all `<artist>` elements |
| IndexesModel.AccumulateIds | app/src/main/java/net/nullsum/audinaut/service/parser/IndexesParser.java:84-87 | each artist's id is the ids of every `<artist>` with its name, joined by `;` in stream order |
| IndexesModel.AccumulateFirstLabel | app/src/main/java/net/nullsum/audinaut/service/parser/IndexesParser.java:82-90 | each artist carries the label in force at its first sighting; later sightings under other headers do not relabel it |
| IndexesModel.AccumulateOrder | app/src/main/java/net/nullsum/audinaut/service/parser/IndexesParser.java:88-90 | the artist list is in first-sighting order: every listed name was sighted, and earlier entries were first seen earlier |
| IndexesModel.AccumulateShortcutsEntries | app/src/main/java/net/nullsum/audinaut/service/parser/IndexesParser.java:98-108 | the shortcuts are one `*`-labelled record per `<shortcut>` in stream order. The entries are those of the `<child>` elements in stream order |
| IndexesModel.AccumulateContainer | app/src/main/java/net/nullsum/audinaut/service/parser/IndexesParser.java:69-73 | `changed` holds exactly when a container element was seen. `ignoredArticles` is the last container's attribute, and it is set only if a container was seen |
| IndexesModel.DistinctCount | app/src/main/java/net/nullsum/audinaut/service/parser/IndexesParser.java:85-91 | a list with distinct names has as many entries as names |
| IndexesModel.AccumulateCount | app/src/main/java/net/nullsum/audinaut/service/parser/IndexesParser.java:93 | `artists.size()` is the number of distinct names sighted |
| IndexesModel.AccumulateProgress | app/src/main/java/net/nullsum/audinaut/service/parser/IndexesParser.java:93-96 | a report after every `<artist>` at which the count of distinct names is a multiple of ten, carrying that count |
| IndexesModel.RepeatSightingReports | app/src/main/java/net/nullsum/audinaut/service/parser/IndexesParser.java:85-96 | a repeat sighting leaves the list size unchanged yet reports again when that size is a multiple of ten |
| IndexesModel.ErrorAborts | app/src/main/java/net/nullsum/audinaut/service/parser/IndexesParser.java:109-111 | the first `<error>` decides the result whatever follows and whatever `validate()` says. There is no preference write, and only earlier progress reports stand |
| IndexesModel.FirstErrorAt | app/src/main/java/net/nullsum/audinaut/service/parser/IndexesParser.java:109-111 | an `<error>` with none before it is where the parse aborts |
| IndexesModel.NoChangeIffNoContainer | app/src/main/java/net/nullsum/audinaut/service/parser/IndexesParser.java:116-126 | after a valid stream, `null` is returned exactly when there was no `<error>` and no container element, and then nothing is written to the preferences |
| IndexesModel.ParsedResult | app/src/main/java/net/nullsum/audinaut/service/parser/IndexesParser.java:116-134 | a valid stream with a container and no `<error>` returns its shortcuts, merged artists and entries, stores the last `ignoredArticles`, and finishes with a report of the distinct-name count |
| IndexesModel.PreferenceWrite | app/src/main/java/net/nullsum/audinaut/service/parser/IndexesParser.java:116-122 | the value written to the preference is the last container's `ignoredArticles` when the stream had no `<error>` and passed `validate()`, and nothing otherwise; a write implies an `Indexes` is returned |
| IndexesModel.InertInAccumulate | app/src/main/java/net/nullsum/audinaut/service/parser/IndexesParser.java:66-112 | inserting an unrecognised tag, end tag or text event leaves the loop state unchanged |
| IndexesModel.FirstErrorInsert | app/src/main/java/net/nullsum/audinaut/service/parser/IndexesParser.java:66-112 | inserting such an event only shifts the position of the first `<error>` |
| IndexesModel.OtherEventIsInert | app/src/main/java/net/nullsum/audinaut/service/parser/IndexesParser.java:64-135 | inserting such an event anywhere leaves the whole result unchanged, including the effects |
| IndexesModel.InertBefore | app/src/main/java/net/nullsum/audinaut/service/parser/IndexesParser.java:64-114 | after such an insertion, the event at a shifted position and the fold before it are unchanged |
| IndexesModel.AccumulateSnoc | app/src/main/java/net/nullsum/audinaut/service/parser/IndexesParser.java:64-114 | the fold over a stream extended by one event is one more turn of the loop |
| IndexesModel.MergeExample | app/src/main/java/net/nullsum/audinaut/service/parser/IndexesParser.java:51-135 | container, index `h`, artist `n` under ids `a` and `b`, then a shortcut: one artist `(a;b, n, h)`, the shortcut labelled `*`, the preference written, and one final report of `1` |
| IndexesParser.Artist.constructor | app/src/main/java/net/nullsum/audinaut/service/parser/IndexesParser.java:79-82 | a new artist with the given id, name and index |
| IndexesParser.SightArtist | app/src/main/java/net/nullsum/audinaut/service/parser/IndexesParser.java:79-91 | on the objects, the `<artist>` branch does what `Merge` does on records: the map stays the index of the list, names stay distinct, shortcuts are untouched, and any new object is fresh |
| IndexesParser.ExtendId | app/src/main/java/net/nullsum/audinaut/service/parser/IndexesParser.java:85-87 | updating the mapped object's id in place updates the list entry it aliases, exactly as `Merge` does; the map and the shortcuts are unaffected |
| IndexesParser.AppendArtist | app/src/main/java/net/nullsum/audinaut/service/parser/IndexesParser.java:88-90 | the new object is appended to the list and put in the map, as `Merge` appends the record |
| IndexesParser.ConsumeArtist | app/src/main/java/net/nullsum/audinaut/service/parser/IndexesParser.java:78-97 | the `<artist>` case, including the progress test, keeps the loop state mirroring one `Step` |
| IndexesParser.ConsumeShortcut | app/src/main/java/net/nullsum/audinaut/service/parser/IndexesParser.java:98-104 | the `<shortcut>` case appends a new `*` object and keeps the mirror |
| IndexesParser.Consume | app/src/main/java/net/nullsum/audinaut/service/parser/IndexesParser.java:66-112 | one turn of the switch keeps the loop state mirroring `Step`; the artist objects are old ones or fresh |
| IndexesParser.DistinctObjects | app/src/main/java/net/nullsum/audinaut/service/parser/IndexesParser.java:85-91 | because the map merges by name, artist objects holding distinct names are distinct objects |
| IndexesParser.Parse | app/src/main/java/net/nullsum/audinaut/service/parser/IndexesParser.java:51-135 | the progress reports and the preference write are those of `Run`. An `<error>` or a failed `validate()` gives that failure, and no container gives `null`. Otherwise the returned objects denote `Run`'s shortcuts and artists, with its entries. No object appears twice in either list, and no artist object is also a shortcut |

## Left out

- The XML pull parser (`init`, `nextParseEvent`, `getElementName`, `get`) is not modelled. The input is the sequence of start-tag events it would produce. Every other event is `OtherEvent`, and the end of the sequence stands for `END_DOCUMENT`.
- Attribute values are strings. The model does not represent a missing `id` or `name`, which would be a Java `null` and would print as `"null"` when concatenated. Only `ignoredArticles` is optional, because the code tests it for `null`.
- `parseEntry` (the `<child>` decoder in `MusicDirectoryEntryParser`) is not part of this model. The entry type is a type parameter, and each `<child>` event carries its already-decoded entry.
- `handleError` is modelled as an immediate failure carrying the element's code and message. The mapping of codes to exception classes is not modelled.
- `validate()` is not modelled. Its verdict is the `validateOk` parameter, and a failed verdict becomes `StructuralError`.
- The preference write (`SharedPreferences`, `CACHE_KEY_IGNORE`) is returned as a value instead of being performed.
- The progress listener is modelled as the sequence of reported artist counts. The localised message text (`R.string.parser_artist_count`) is not modelled.
- The timing and the debug log (`System.currentTimeMillis`, `Log.d`) are left out: they do not affect the result.
- An exception thrown by the stream reader (I/O) is not modelled.
