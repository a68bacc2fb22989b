# nebula-api autocomplete and request configuration, in Dafny

A model of the core of the Nebula API service (Go, Gin, MongoDB), with
proofs of its properties.

The model covers four pieces of that service:

- **The `/autocomplete/dag` handler.** A ten-stage aggregation runs
  against the `courses` collection:
  - `$lookup` of the course's sections, then `$unwind` keeping courses without sections;
  - `$lookup` of each section's professors, then `$unwind` keeping sections without professors;
  - a `$project` into flat join rows;
  - four `$group` stages that fold the rows into a subject → course → session → section → professors tree;
  - a final `$project`.

  The handler wraps the result in a `{status, message, data}` envelope.
  Each stage is a pure function over in-memory collections (`autocomplete.dfy`).
  The `$group` fold is a generic first-encounter grouping (`grouping.dfy`).
- **`GetOptionLimit`.** Removes `offset` from a filter, takes the page size
  from the environment and parses the `offset` query parameter into a skip
  count (`setup.dfy`).
- **The environment readers.** `GetPortString`, `GetEnvMongoURI`,
  `GetEnvLogin` and `GetEnvLimit` (`env.dfy`). The process environment is a
  map. A call that logs and calls `os.Exit(1)` becomes a `Failure` carrying
  the message and the status.
- **`FilterQuery`.** Decodes the request's query parameters into a filter
  record, encodes the record back, and keeps the first value of each name
  the record gave back (`filter.dfy`). The reflection-based decoder and
  encoder are parameters: arbitrary functions that may fail.

Go's `strconv.ParseInt(s, 10, 64)`, which both the limit and the offset go
through, is written out in `strconv.dfy`. This includes its sign handling,
its syntax and range errors, and the range error `ParseUint` reports as
soon as the accumulator would pass 2^64 − 1.

The main results:

- The finished tree is a lossless regrouping of the join rows. Read back
  level by level, it is a permutation of each stage's input, and of the rows
  themselves (`TreeRoundTrip`).
- Every level of the tree has pairwise distinct keys.
- Each section's professor list is exactly the professors of the rows with
  its key, in row order, duplicates kept.
- The professor entries in the response number exactly the rows after the
  second `$unwind`.
- Every course of the collection appears in the response, even one with no
  sections or no professors.
- A worked example of four rows produces the expected two-subject tree
  (`AutocompleteScenario.ScenarioTree`).

Two modelling choices:

- A failed `cursor.All` makes the handler panic; it does not answer with
  the error envelope.
- `$group` output order is undefined in the database; the model uses
  first-encounter order as a modelling choice.

## Model

| member | source | states |
|---|---|---|
| Autocomplete.Lookup | api/controllers/autocomplete.go:36-45 | a `$lookup` on `_id` yields the foreign documents whose id the local array lists, and only those, each as often as the foreign collection holds it (once for a collection of distinct documents), however often the local array repeats its id; an empty local array matches nothing |
| Autocomplete.Unwind | api/controllers/autocomplete.go:47-54 | `$unwind` with `preserveNullAndEmptyArrays` gives one document per array element, each keeping the parent document; it gives the parent alone, without the field, exactly when the array is empty; the elements read back in their original order |
| Autocomplete.LookupSections | api/controllers/autocomplete.go:36-45 | each course, in order, is paired with exactly the sections whose `_id` its `sections` array lists, each as often as the collection holds it |
| Autocomplete.LookupProfessors | api/controllers/autocomplete.go:56-65 | each row is paired with exactly the professors its section's `professors` array lists, each as often as the collection holds it; a row without a section matches no professor |
| Autocomplete.AutocompleteDAG | api/controllers/autocomplete.go:193-206 | a failed aggregate answers 500, "error" and the error text; a failed cursor read panics; otherwise it answers 200, "success" and the pipeline's documents; status 200, message "success" and a document list always go together |
| AutocompleteProofs.UnwindAllLength | api/controllers/autocomplete.go:47-54 | an unwound stream has one row per matched element plus one per document that matched nothing |
| AutocompleteProofs.UnwindAllKeeps | api/controllers/autocomplete.go:47-54 | no document is dropped by `$unwind`: every matched element appears with its document, and a document with nothing matched appears without the field |
| AutocompleteProofs.UnwindAllSources | api/controllers/autocomplete.go:47-54 | `$unwind` invents nothing: each row is an input document with one of its own matched elements, or with none exactly when it matched nothing |
| AutocompleteProofs.UnwindAllEmpty | api/controllers/autocomplete.go:67-74 | an unwound stream is empty exactly when its input is |
| AutocompleteProofs.SectionJoinRows | api/controllers/autocomplete.go:36-54 | a course with no matching section gives exactly one row without a section; otherwise its rows carry exactly the sections its array lists |
| AutocompleteProofs.ProfessorJoinRows | api/controllers/autocomplete.go:56-74 | a row whose section lists no known professor, or that has no section, gives exactly one row without a professor; otherwise its rows carry exactly the listed professors |
| AutocompleteProofs.CoursesReachJoinRows | api/controllers/autocomplete.go:35-91 | every course reaches the flat rows with its subject and number, whatever its sections and professors |
| AutocompleteProofs.UnmatchedCourseRow | api/controllers/autocomplete.go:76-91 | a course whose section ids match no section reaches the flat rows with its subject and number, and session, section number and both professor names absent |
| AutocompleteProofs.UnmatchedProfessorRow | api/controllers/autocomplete.go:76-91 | a matched section that names no known professor gives a flat row with the section's session and number and both professor names absent |
| AutocompleteProofs.MatchedProfessorRow | api/controllers/autocomplete.go:76-91 | a matched section and one of its listed professors give a flat row with the session, the section number and the professor's first and last names |
| AutocompleteProofs.JoinRowShape | api/controllers/autocomplete.go:76-91 | every flat row carries the subject and number of some course; it has a session exactly when it has a section number, and a row without a section has no professor names |
| AutocompleteProofs.JoinRowsCount | api/controllers/autocomplete.go:35-91 | the flat rows number one per match at each join, counting a document that matched nothing once; there are none exactly when there are no courses |
| AutocompleteProofs.GroupSectionsSpec | api/controllers/autocomplete.go:93-111 | the first `$group` has one document per distinct (subject, course, session, section) and no two alike; each row lands in the document with its key; that document's `professor` list is the professors of exactly the rows with its key, in row order with duplicates, so its length is their count |
| AutocompleteProofs.GroupSessionsSpec | api/controllers/autocomplete.go:113-135 | the second `$group` has one document per distinct (subject, course, session) and no two alike, each holding exactly the sections with its key, in order |
| AutocompleteProofs.GroupCoursesSpec | api/controllers/autocomplete.go:137-158 | the third `$group` has one document per distinct (subject, course) and no two alike, each holding exactly the sessions with its key, in order |
| AutocompleteProofs.GroupSubjectsSpec | api/controllers/autocomplete.go:160-180 | the fourth `$group` has one document per distinct subject and no two alike, each holding exactly the courses of that subject, in order |
| AutocompleteProofs.ProjectSubjectsSpec | api/controllers/autocomplete.go:182-190 | the final `$project` keeps only the subject and its course list, one output document per group, with no subject repeated |
| AutocompleteProofs.SubjectStageAsOne | api/controllers/autocomplete.go:160-190 | the last `$group` followed by the `$project` is one grouping whose documents carry the subject and its courses |
| AutocompleteProofs.SectionRowsUndo | api/controllers/autocomplete.go:93-111 | a section document read back under its key gives back exactly the rows it was built from |
| AutocompleteProofs.SessionSectionsUndo | api/controllers/autocomplete.go:113-135 | a session document read back under its key gives back exactly the section documents it was built from |
| AutocompleteProofs.CourseSessionsUndo | api/controllers/autocomplete.go:137-158 | a course document read back under its key gives back exactly the session documents it was built from |
| AutocompleteProofs.SubjectCoursesUndo | api/controllers/autocomplete.go:160-190 | a subject document read back under its subject gives back exactly the course documents it was built from |
| AutocompleteProofs.TreeRoundTrip | api/controllers/autocomplete.go:93-190 | each level of the response, read back, is a permutation of the corresponding `$group` output, and the whole tree read back is a permutation of the flat rows: nothing lost, duplicated or invented |
| AutocompleteProofs.EntriesAreRows | api/controllers/autocomplete.go:182-190 | the professor entries of any response tree, counted level by level, number the rows that tree unfolds into |
| AutocompleteProofs.TreeConservation | api/controllers/autocomplete.go:93-190 | the professor entries in the tree number exactly the rows entering the first `$group` |
| AutocompleteProofs.PipelineConservation | api/controllers/autocomplete.go:35-190 | the professor entries in the response number exactly the rows after the second `$unwind` |
| AutocompleteProofs.TreeKeysDistinct | api/controllers/autocomplete.go:93-190 | no subject appears twice in the response, and no (subject, course), (subject, course, session) or full section key appears twice in the tree |
| AutocompleteProofs.LeavesAreSectionBuckets | api/controllers/autocomplete.go:93-190 | the tree's leaves are exactly the documents of the first `$group`, as many of them |
| AutocompleteProofs.SectionBucketFacts | api/controllers/autocomplete.go:93-111 | each first-stage document lists the professors of the rows with its key and is never empty; every row's key has a document; there are as many documents as distinct keys |
| AutocompleteProofs.LeafContents | api/controllers/autocomplete.go:93-190 | every section in the response lists the professor of each row with its key, in row order, duplicates kept, never empty; every row's section key is in the response; there are exactly as many sections as distinct keys |
| AutocompleteProofs.TreeEmpty | api/controllers/autocomplete.go:93-190 | the tree is empty exactly when there are no rows |
| AutocompleteProofs.PipelineEmpty | api/controllers/autocomplete.go:35-191 | the result list is empty exactly when the `courses` collection is |
| AutocompleteProofs.UngroupedRowPlace | api/controllers/autocomplete.go:160-190 | any row a tree unfolds into sits under a subject document and a course entry with its subject and course number |
| AutocompleteProofs.RowsReachTree | api/controllers/autocomplete.go:93-190 | every row's subject and course appear as a course entry under that subject's document |
| AutocompleteProofs.EveryCourseListed | api/controllers/autocomplete.go:35-190 | every course of the collection is listed in the response under its subject, whether or not any section or professor matched it |
| AutocompleteScenario.SectionStage | api/controllers/autocomplete.go:93-111 | on the four example rows, the first `$group` merges the two Fall24 section 001 rows into one document listing both professors in order |
| AutocompleteScenario.SessionStage | api/controllers/autocomplete.go:113-135 | on the example, the second `$group` keeps the three sessions apart |
| AutocompleteScenario.CourseStage | api/controllers/autocomplete.go:137-158 | on the example, the third `$group` merges CS 1337's two sessions into one course document |
| AutocompleteScenario.SubjectStage | api/controllers/autocomplete.go:160-190 | on the example, the last `$group` and `$project` give CS then MATH |
| AutocompleteScenario.ScenarioTree | api/controllers/autocomplete.go:93-190 | the four example rows give two subjects; CS 1337 has Fall24 section 001 with Smith then Doe, and Spring25 section 002 with one empty professor entry; MATH 2417 has Fall24 section 901 with Lee |
| AutocompleteScenario.SingleRowTree | api/controllers/autocomplete.go:93-190 | a single row gives a single chain from subject down to one professor entry |
| AutocompleteScenario.LookupNone | api/controllers/autocomplete.go:36-45 | a `$lookup` whose local array lists none of the foreign ids matches nothing |
| AutocompleteScenario.LoneCourse | api/controllers/autocomplete.go:35-190 | a course none of whose sections exist still appears, as one chain with no session, no section number and one empty professor entry |
| Grouping.GroupByIsReference | api/controllers/autocomplete.go:93-111 | the one-pass `$group` fold equals the reference grouping: one group per distinct key in first-seen order, holding exactly the elements with that key, in order |
| Grouping.GroupByGroups | api/controllers/autocomplete.go:93-111 | the groups' keys are distinct, each group is non-empty and uniform in its key, and every element's key has a group |
| Grouping.GroupByMerges | api/controllers/autocomplete.go:93-111 | two elements with equal keys land in the same group |
| Grouping.GroupByKeepsApart | api/controllers/autocomplete.go:93-111 | two elements with different keys never share a group |
| Grouping.GroupByPermutes | api/controllers/autocomplete.go:93-111 | the groups' lists together are a permutation of the input |
| Grouping.GroupCount | api/controllers/autocomplete.go:93-111 | there are exactly as many groups as distinct keys in the input |
| Grouping.StageRoundTrip | api/controllers/autocomplete.go:93-190 | a `$group` stage whose documents can be read back into their members loses and invents nothing |
| Env.GetPortString | api/configs/env.go:17-27 | the listen address is a colon followed by the `Port` variable's value, or by 8080 when it is unset |
| Env.PortRoundTrip | api/configs/env.go:17-27 | the configured port comes back out of the listen address unchanged |
| Env.GetEnvMongoURI | api/configs/env.go:30-39 | it returns the `MONGODB_URI` value exactly when it is set; otherwise the program exits with status 1 |
| Env.GetEnvLogin | api/configs/env.go:43-57 | it returns both credentials exactly when both are set; otherwise it exits with status 1, naming `LOGIN_NETID` whenever that one is missing |
| Env.LoginReportsFirstMissing | api/configs/env.go:50-54 | with the NetID set and the password unset, it exits naming `LOGIN_PASSWORD` |
| Env.GetEnvLimit | api/configs/env.go:61-76 | the limit is an int64; it is 20 when `LIMIT` is unset or not a base-10 int64, and the parsed value otherwise, with no further bound |
| Env.LimitRoundTrip | api/configs/env.go:61-76 | any int64 written in base 10 into `LIMIT` is the limit returned |
| Env.LimitOutOfRange | api/configs/env.go:70-73 | a `LIMIT` of 2^63 or more falls back to 20 |
| StrConv.ParseUint | api/configs/env.go:70 | the unsigned digit scan accepts exactly non-empty digit strings up to 2^64 − 1, with their value; too large a value is a range error |
| StrConv.ScanDigitsSpec | api/configs/env.go:70 | the left-to-right scan with its early overflow stop computes the decimal value, and reports a range error for any all-digit string past 2^64 − 1 |
| StrConv.ParseInt | api/configs/setup.go:120 | every accepted value is an int64, and the empty string is a syntax error |
| StrConv.ParseIntAccepts | api/configs/setup.go:120 | the parser accepts exactly an optional sign followed by at least one digit with a value in the int64 range, and yields that value |
| StrConv.ParseIntRange | api/configs/setup.go:120 | digits whose magnitude passes 2^63, signed or not, are a range error rather than a syntax error |
| StrConv.ParseIntSyntax | api/configs/setup.go:120 | a non-digit after the optional sign is rejected |
| StrConv.ParseFormat | api/configs/setup.go:120 | every int64 formatted in base 10 parses back to itself |
| Setup.QueryValue | api/configs/setup.go:117 | a query parameter reads as its first value, or as the empty string when absent |
| Setup.GetOptionLimit | api/configs/setup.go:108-128 | the returned filter is the given one without `offset`, other keys and values unchanged; the limit is always the environment limit; an absent or empty offset skips 0 without error; an offset the parser rejects skips 0 and returns the very error `ParseInt` reported; any accepted offset is skipped as parsed, negative included |
| Setup.OffsetRoundTrip | api/configs/setup.go:117-127 | any int64 written in base 10 as the offset is the skip count, with no error |
| Setup.OnlyFirstOffsetCounts | api/configs/setup.go:117-120 | further `offset` values after the first change nothing |
| Setup.StripIdempotent | api/configs/setup.go:109 | removing `offset` a second time changes nothing |
| Filter.Merge | api/schema/filter.go:60-66 | the filter holds exactly the request names that the encoded record also has, each with its first request value |
| Filter.FilterQuery | api/schema/filter.go:48-68 | a decode error is returned as is; an encode error is returned as is; it yields a filter exactly when both succeed and no kept name came without values, and panics exactly when both succeed and some kept name came without values; that filter holds exactly the request names the encoded record has, each with its first value |
| Filter.MergeLoop | api/schema/filter.go:60-66 | visiting the request names one at a time, in any order, builds the same filter, and panics exactly when a kept name has no values |
| Filter.DecodeFailureSkipsEncode | api/schema/filter.go:53-59 | once decoding fails, the outcome is that error whatever the encoder would do |
| Filter.UnknownNamesDropped | api/schema/filter.go:62-66 | a request name the record does not give back never reaches the filter and causes no error |
| Filter.OnlyFirstValuesMatter | api/schema/filter.go:62-66 | two requests that agree on the first values of the kept names give the same filter |
| Filter.DecodedNeverPanics | api/schema/filter.go:49-66 | request values from URL decoding, which always have at least one element, never make the merge panic |

## Left out

- The MongoDB driver is not modelled: the client, its connection, the
  collection handles and the 30-second request timeout. Each collection is
  a sequence of documents. A failing `Aggregate` or `cursor.All` is a field
  of the modelled store.
- Decoding cursor documents into `map[string]interface{}` and the JSON
  encoding of the response are not modelled. Documents are typed records.
  The response's `academic_session` is the embedded document
  `{name: …}`, or `{}` for a row without a section. The model writes it as
  `Option<string>`, a one-to-one encoding, so nothing is lost.
- Gin routing, middleware, CORS and logging are not modelled. The handler
  returns the envelope it would write, and the envelope's `status` stands
  for the HTTP status too.
- The database does not define the output order of `$group`. The model
  emits groups in the order their keys are first met.
- The database does not define the order of the documents `$lookup`
  returns. The model keeps the foreign collection's order.
- Null-valued fields in stored documents are not modelled. Every stored
  field of a course, section or professor is a plain string. `None` stands
  only for a field that `$unwind` and `$project` leave missing, and the
  pipeline never makes such a field null. The database would give a stored
  null and a missing field different `$group` keys.
- `godotenv` loading of a `.env` file is not modelled. The environment is
  given as a map, already loaded.
- The gorilla schema decoder and encoder, and the ObjectID hex encoder,
  are not modelled. Decoding and encoding are arbitrary functions that may
  fail. That the decoder ignores unknown names shows up only through the
  encoded record lacking them.
- Go's map iteration order in `FilterQuery` is not modelled. `MergeLoop`
  takes names in an arbitrary order, and its contract holds for every
  order.
- Autocomplete.AutocompleteDAG: the panic on a failed cursor read is an
  outcome value. The router installs no recovery middleware, so the panic
  reaches the HTTP server's per-connection recover. That recover logs it and
  closes the connection without a response. This is not modelled.
- StrConv.ParseInt: returns no number together with an error. Go returns
  0 for a syntax error and the nearest int64 bound for a range error. No
  caller here reads that number.
- Setup.QueryValue: a parameter present with no values reads as the
  empty string. URL decoding never produces such a parameter.
- Env.GetEnvMongoURI and Env.GetEnvLogin: the log line written before
  the exit is modelled only as the message of the exit value.
