# Pastebin paste store and create-paste pipeline, in Dafny

This project models the sequential core of a small Go pastebin:

- **`MemoryDB`**: the in-memory `Database`, a map from path to `Paste`. It has `Get`, `Store`, `Delete` and the random fresh-path generator `CreatePastePath`. store.go and memorydb.go hold two identical copies of this code. It is modelled once, in `MemoryDB`.
- **`createPastePathAndID`** (utils.go): the older generator. It inserts the new path into the global set `paths` and numbers it with the global counter `currentPathNum`. Both globals become an explicit `Utils.PathRegistry` value.
- **`pasteDuration`** (paste.go): the text codec for paste lifetimes. The zero duration is written as the `PasteNeverExpire` token. Every other duration goes through Go's `Duration.String` and `time.ParseDuration`.
- **`NewPaste`** (paste.go): a pipeline over the server state (the paste table plus the list of armed expiry timers). It validates the name and then the code, highlights, generates a path, stores, and arms a deletion timer unless the duration is zero.

Modules: `Base` (int64, durations, errors), `PasteRecord`, `PasteDuration`, `NanosecondCodec`, `PathGen` (the alphabet and the draw-until-fresh loop that both generators share), `MemoryDB`, `Utils`, `Pipeline`.

How things outside the code are modelled:

- **Randomness.** Each `rand.Intn(52)` result is an input. One attempt is a *roll*, a sequence of letter indices. `rolls` lists the attempts in order, and the caller must supply one attempt that is not taken. `PathGen.EveryFreshCandidateIsDrawable` shows that this loses none of the generator's possible results.
- **The Go standard library's duration printer and parser.** These are fields of a `PasteDuration.Codec`. `PasteDuration.Lawful` states what the codec code relies on:
  - parsing inverts printing for non-zero durations;
  - the printer never prints the `PasteNeverExpire` token;
  - a unitless number is rejected.

  `NanosecondCodec` is a concrete lawful codec: Go's `"<n>ns"` form, with `"Never"` as the token. It shows that these assumptions can all hold at once.
- **Helpers whose code is not part of this model.** `NewPaste` calls the two-argument validators and `highlightCode`. These are the function fields of `Pipeline.Collaborators`.
- **The clock.** Its two readings are `Pipeline.Clock`.
- **Store failures.** `MemoryDB.Store` never fails. The error a different `Database` backend could return is the `fault` argument.
- **Timers.** A timer is recorded, not run. `Pipeline.FireTimer` is the moment its callback runs.

Behaviour the model keeps exactly as the code has it, although a reader might expect otherwise:

- `validateName` returns a non-blank name untrimmed.
- The utils.go `validateCode` accepts every body. It has no empty or size checks.
- `NewPaste` receives an already-parsed duration. It performs no whitelist check on it.
- For the zero duration, the stored `Expire` is the clock reading, not the zero time.
- `CreatePastePath` with length 0 terminates whenever `""` is not yet a key. It only loops forever when `""` is taken, or when every candidate of the length is taken.

## Model

| member | source | states |
|---|---|---|
| Base.Increment | utils.go:52 | The deferred `currentPathNum++` adds one, and wraps from the largest int64 to the smallest |
| PasteDuration.MarshalText | paste.go:30-35 | Never fails; zero encodes as the `PasteNeverExpire` token, any other duration as the duration printer's text |
| PasteDuration.String | paste.go:24-27 | `String` is exactly the text `MarshalText` produces |
| PasteDuration.UnmarshalText | paste.go:38-50 | The token decodes to zero without error; otherwise a parser error is returned and the receiver keeps its value, and a parsed duration replaces it |
| PasteDuration.RoundTrip | paste.go:30-50 | For a lawful codec, decoding the encoding of any duration gives it back with no error, whatever the receiver held |
| PasteDuration.SentinelRoundTrip | paste.go:31-42 | The token decodes to zero and zero re-encodes to the token |
| PasteDuration.UnitlessTextRejected | paste.go:44-47 | A number without a unit (such as "1") is an error and leaves the receiver unchanged |
| NanosecondCodec.ParseShow | paste.go:44-48 | The "ns" parser reads back every duration the "ns" printer writes, including the most negative int64 |
| NanosecondCodec.NanosecondCodecIsLawful | paste.go:34-44 | A concrete printer/parser pair meets every assumption the codec relies on, so those assumptions are consistent |
| PathGen.DrawFresh | store.go:68-79 | The generation loop returns the first attempt's candidate that is not taken; it has the requested length, uses only alphabet letters, and every earlier attempt collided |
| PathGen.EveryFreshCandidateIsDrawable | store.go:69-73 | Every untaken string of alphabet letters of the requested length is what some attempt spells |
| PathGen.SaturatedTableAdmitsNoDraw | store.go:68-79 | When every candidate of the length is taken, no attempt can end the loop |
| PathGen.ZeroLengthDrawsTheEmptyPath | store.go:69-77 | With length 0 every attempt spells "", and the loop ends iff "" is not taken |
| MemoryDB.Get | store.go:43-49 | No error exactly when the name is stored; then the stored paste, else the zero paste and `ErrDatabaseNotFound` |
| MemoryDB.Store | store.go:52-55 | Never fails; afterwards `Get(name)` is the value, every other name reads as before, and the keys grow by at most `name` |
| MemoryDB.Delete | store.go:58-60 | Afterwards `name` is not found; every other name reads as before |
| MemoryDB.CreatePastePath | store.go:65-82 | The path has the requested length, uses only alphabet letters, and is not found in the table at return; the table is not changed |
| MemoryDB.DeleteIdempotent | memorydb.go:28-30 | Deleting twice equals deleting once |
| MemoryDB.DeleteAbsentIsNoOp | memorydb.go:28-30 | Deleting a name that is not found leaves the table unchanged |
| MemoryDB.StoreOverwrites | memorydb.go:22-25 | A second store to a name replaces the first; storing the current value is a no-op |
| MemoryDB.DeleteUndoesFreshStore | memorydb.go:22-30 | Deleting a newly inserted name restores the table |
| MemoryDB.GeneratedPathIsNotReserved | memorydb.go:35-52 | Generation reserves nothing: a path one call can return, a second call on the same table can return too, and the later store replaces the earlier paste |
| Utils.TrimLeftSpace | utils.go:35 | Removes exactly the leading white space: the result is a suffix whose dropped prefix is all white space and which starts with a non-space |
| Utils.TrimRightSpace | utils.go:35 | Removes exactly the trailing white space: the result is a prefix whose dropped suffix is all white space and which ends with a non-space |
| Utils.TrimSpaceEmptyIffBlank | utils.go:35 | `strings.TrimSpace` yields "" exactly when every character is white space |
| Utils.ValidateName | utils.go:34-39 | A blank or white-space-only name becomes the default name; any other name is returned unchanged, not trimmed |
| Utils.ValidateNameIdempotent | utils.go:34-39 | Validating a validated name changes nothing |
| Utils.ValidateCode | utils.go:41-43 | Every code body is accepted unchanged |
| Utils.CreatePastePathAndID | utils.go:51-69 | The path is a candidate of the configured length that was not in `paths` before and is now; `paths` gains only it; the id is the counter before the call, and the counter moves up by one |
| Utils.ReservedPathIsNeverReturnedAgain | utils.go:54-66 | Once a call has added its path to `paths`, no attempt spelling that path can end the loop of any later call |
| Pipeline.NewPaste | paste.go:53-93 | A validation failure returns that error with "" and changes nothing; a store failure likewise; on success the fresh path holds a record with that path, the validated name and source, and the highlighter's output, no other path changes, and a timer for the record is armed iff the duration is non-zero |
| Pipeline.FireTimer | paste.go:87-89 | A firing timer deletes its paste's path, leaves every other path alone, and is removed from the armed list |
| Pipeline.CreateKeepsTimersConsistent | paste.go:66-90 | `NewPaste` keeps the invariant: pastes stored under their own path, each timer non-zero and holding its path's current paste, and no two timers sharing a path |
| Pipeline.FireKeepsTimersConsistent | paste.go:86-90 | Firing a timer keeps that invariant |
| Pipeline.TimerDeletesOnlyItsOwnPaste | paste.go:86-90 | Under the invariant, a timer's path holds exactly the paste that armed it until it fires; afterwards that path is not found and has no timer |
| Pipeline.StepKeepsTimersConsistent | paste.go:53-93 | Any single `NewPaste` call or timer firing keeps the invariant |
| Pipeline.RunKeepsTimersConsistent | paste.go:53-93 | Any interleaving of whole `NewPaste` calls and timer firings keeps the invariant |
| Pipeline.StepSparesUnscheduled | paste.go:85-90 | A stored paste with no timer is unchanged by any single event and still has no timer afterwards |
| Pipeline.UnscheduledPasteSurvivesRun | paste.go:85-90 | A stored paste with no timer reads the same after any later run of creations and firings |
| Pipeline.NeverExpiringPasteIsUnscheduled | paste.go:85-86 | A paste created with the zero duration is stored with no timer for its path |
| Pipeline.ExpiringPasteIsGoneAfterItsTimer | paste.go:86-90 | A paste created with a non-zero duration gets exactly one timer, and once it fires the path is not found |
| Pipeline.CreateWithUtilsValidators | paste.go:55-80 | With those validators `NewPaste` always succeeds, stores the source verbatim, and stores the default name exactly when the given name is blank |
| Pipeline.StaleTimerCanDeleteANewerPaste | paste.go:86-90 | If a path is deleted outside the timers and reused, the old timer deletes the new paste, even one created never to expire |
| Pipeline.RacingCreatorsShareAPath | paste.go:66-90 | Two overlapping creators that both generate a path before either stores are both told that path; the second record replaces the first, the invariant breaks, and the first timer deletes the second paste |
| Pipeline.InitialServerConsistent | server.go:14-20 | The start state (an empty table, no timers) satisfies the invariant and finds no path |

## Left out

- HTTP handlers, routing, templates and JSON: `main.go`, `handler.go`, `api.go`, `server.go`. The form handler in handler.go repeats the `NewPaste` pipeline.
- `highlightCode`: a wrapper over the chroma highlighting library. It is the `highlight` function of `Pipeline.Collaborators`, with no contract.
- The two-argument `validateName` and `validateCode`, and `validateExpire`: their code is not part of this model. They are the arbitrary, possibly failing functions of `Pipeline.Collaborators`.
- Go's `Duration.String` and `time.ParseDuration` in full, with units from "ns" to "h" and fractions. They are abstracted by `PasteDuration.Codec`. `NanosecondCodec` covers only the "ns" form.
- `PasteNeverExpire`: its definition is not part of this model. It is the codec's `neverExpire` field.
- Pipeline.RunKeepsTimersConsistent: each `NewPaste` is one atomic step, so the two-creator race (paste.go:66 → paste.go:80) is not among the runs. `Pipeline.RacingCreatorsShareAPath` shows that race breaks the invariant.
- Timer firing time, goroutines, and concurrent map access. Timers are a list. Firing is an explicit event that any interleaving may contain. Real concurrency is not modelled: `MemoryDB` is an unsynchronised Go map.
- `time.Now` and `Time.Add`: instants are integers, and `Expire` is the second reading plus the duration. Go's monotonic-clock reading and `Time.Add` overflow are not modelled.
- The distribution of `math/rand` and the collision probability. Attempts are a finite input, and `PathGen.SomeRollFresh` requires one of them to be fresh. The Go loop runs forever exactly when no candidate of the length is fresh (`PathGen.SaturatedTableAdmitsNoDraw`, `PathGen.ZeroLengthDrawsTheEmptyPath`), and those runs are outside the model.
- UTF-8 decoding: strings are sequences of code points. The handling of invalid UTF-8 bytes by `strings.TrimSpace` and by `string([]rune)` is not modelled.
- Nil pointers and negative lengths: these panic in Go. `NewPaste`'s duration argument is a value, not a pointer, and lengths are natural numbers.
- Backends other than `MemoryDB`: their `Store` is modelled only as returning `fault`. A failing `Store` is assumed to leave the table unchanged.
- The log output for collisions and failed stores.
- File and configuration I/O: `assets.go`, `handlePackrFile`, `readConfig`. The `TestDB` double and the API test scaffolding are also left out.
- The count of how many candidates the alphabet allows (52 to the power of the length). It is not proved, so no lemma ties termination to how full the table is.
