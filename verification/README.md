# logdeb message filtering, in Dafny

A model of the message-filtering engine of logdeb, a Go logging library (`logdeb.go`). A logger holds
a global rule (severity threshold and debug-level threshold, 0 meaning "unset") and a set of writers,
each with its own rule and optional per-function rules keyed by a tag prefix. The model covers:

- severity and debug-level codes, and the display letter of a severity;
- `sBaseRule.get` (inheritance of unset fields) and `eval` (the accept test);
- `MustWrite`, the per-writer decision with longest-prefix function-rule lookup;
- the `maxSeverity`/`maxDebLev` caches and the producer-side pre-filter in `logw` and `Debl`;
- the writer registry (`CreateWriter`) and logger construction (`NewLogDeb`). The panics modelled are
  explicit `Panic(reason)` outcomes: a nil or duplicate factory, a negative channel buffer, a JSON
  null "main" section, an unknown writer, a writer section that is not an object, a mistyped rule
  value, and a configuration without writers;
- reading write rules out of a decoded configuration (`extract`, `getWriteRules`), with
  case-insensitive keys;
- delivery: the channel is an append-only sequence, and a writer receives the channel filtered by
  `MustWrite`.

The central result is that the producer-side pre-filter is invisible to writers. A run of logging
calls leaves each writer with exactly the messages of those calls that it accepts, in call order
(`Delivery.EmitAllInvisible`). This holds for every call except `Debl` while function rules are on:
there, the source drops messages that a writer's function rule accepts (see Findings).

Modules: `Common` (Maybe, Outcome, panic reasons), `Levels`, `Rules`, `Config` (reading write rules),
`Registry`, `LogDeb` (the logger state and the section loop), `TopLevel` (the top-level object and its
repeated keys), `Ordering` (the loop does not depend on the map's visiting order), `Construction`
(`NewLogDeb`), `Delivery` (`MustWrite`, the producer calls and what each writer receives), and
`Scenarios` (concrete configurations, in the shape of the console tests, as lemmas).

Decoded JSON objects are sequences of entries in the order Go's `range` visits them. A decoded Go map never repeats an exact key, so the entries of an object are read as having distinct keys; distinct keys may still fold to the same word, as "Severity" and "severity" do. When two keys
fold to the same word, the last one visited wins, exactly as the source loop does for that order.

The top-level configuration is decoded into a Go map (`map[string]json.RawMessage`), so a key repeated
in the document keeps only its last value. `NewLogDeb` takes the top-level members in document order
and first collapses them the same way (`TopLevel.Collapse`). Earlier copies of a key leave no trace:
they cannot panic, set a cache or bind a writer.

## Model

| member | source | states |
|---|---|---|
| Levels.SeverityString | logdeb.go:362-377 | codes 1..5 display as one letter, F E W I D in code order; every other code displays as "Unknown severity: " followed by the character with that code (U+FFFD for a negative code) |
| Levels.RuneString | logdeb.go:375 | Go's `string(int8)` is one character, the code point itself for non-negative values and U+FFFD for negative ones |
| Levels.SeverityStringRoundTrip | logdeb.go:362-377 | every non-negative code is read back from its display string |
| Levels.SeverityStringInjective | logdeb.go:362-377 | distinct non-negative codes display differently |
| Levels.NegativeSeveritiesCollide | logdeb.go:374-375 | all negative codes display the same string |
| Rules.Get | logdeb.go:255-263 | each unset field is taken from the parent; each set field is kept |
| Rules.GetSpecified | logdeb.go:255-263 | a rule with both fields set is returned unchanged |
| Rules.GetIdempotent | logdeb.go:255-263 | resolving twice against the same parent is the same as resolving once |
| Rules.GetAgainstSpecified | logdeb.go:255-263 | resolving against a fully set parent yields a fully set rule |
| Rules.EvalMonotone | logdeb.go:267-270 | a message accepted at some severity is also accepted at every more severe code |
| Rules.DebugThreshold | logdeb.go:269 | when the effective severity is Debug, a Debug message passes iff its level is at most the effective debug level |
| Rules.NoDebugBelowDebugSeverity | logdeb.go:269 | when the effective severity is not Debug, no Debug message passes |
| Rules.Accepts | logdeb.go:267-270 | the literal accept test of a resolved rule; what it accepts is stated by Rules.EvalMonotone, Rules.DebugThreshold, Rules.NoDebugBelowDebugSeverity and Rules.AcceptsMatchesIntent |
| Rules.Eval | logdeb.go:267-270 | `eval`: resolve the rule against its parent, then apply the accept test; its properties are stated by the lemmas above |
| Rules.AcceptsMatchesIntent | logdeb.go:267-270 | the literal test, which lacks a `sev == Debug` guard, agrees with the intended test for every severity up to Debug; the intent is read from the debug-level constants (logdeb.go:37-44) and from the wrappers, where only `Deb` and `Debl` give a message a level (logdeb.go:317-343) |
| Rules.MatchLength | logdeb.go:277-285 | the result is the length of the longest non-empty prefix of the tag that is a rule key, or 0 when there is none; the prefix need not end at a separator |
| Rules.FncLookup | logdeb.go:277-285 | no rule is found iff no non-empty prefix of the tag is a key; a found rule is the rule of a prefix that is a key and no longer prefix is a key |
| Config.ExtractOk | logdeb.go:241-252 | extraction panics iff some key folding to "severity" or "debuglevel" holds a non-number |
| Config.ExtractSettles | logdeb.go:241-252 | each field ends as the number under the last key folding to its name, or keeps its initial value when there is no such key |
| Config.AddFncRulesOk | logdeb.go:126-132 | the inner loop panics iff some function-rule entry is not an object whose rule extracts |
| Config.AddFncRulesContents | logdeb.go:126-132 | the map gains exactly the entries' keys and keeps every other key; each key is bound to the rule of its last entry |
| Config.FoldFncRulesOk | logdeb.go:122-134 | the outer loop panics iff some key folding to "fncrules" holds no object of well-formed rules |
| Config.FoldFncRulesContents | logdeb.go:122-134 | the base rule is untouched; the function rules are those of the last "fncrules" section, or unchanged when there is none |
| Config.GetWriteRulesSpec | logdeb.go:118-137 | reading a writer's rules panics exactly on a bad severity, debug level or "fncrules" value; otherwise the base fields settle from zero and the function rules are those of the last "fncrules" section, with its keys |
| Config.Extract | logdeb.go:241-252 | the loop of `extract` over the entries in range order; its contract is Config.ExtractOk and Config.ExtractSettles |
| Config.AddFncRules | logdeb.go:126-132 | the inner loop of `getWriteRules` over one "fncrules" object; its contract is Config.AddFncRulesOk and Config.AddFncRulesContents |
| Config.FoldFncRules | logdeb.go:122-134 | the outer loop of `getWriteRules` over the keys folding to "fncrules"; its contract is Config.FoldFncRulesOk and Config.FoldFncRulesContents |
| Config.GetWriteRules | logdeb.go:118-137 | `getWriteRules`: the base rule by `extract`, then the function rules; its contract is Config.GetWriteRulesSpec |
| Registry.CreateWriter | logdeb.go:198-207 | panics iff the factory is nil or the name is taken, naming the reason; otherwise exactly that entry is added and all others are kept |
| Registry.RegisterAll | logdeb.go:198-207 | registering a list succeeds iff every factory is non-nil, no name is already registered and no name repeats; the result holds exactly the old and new names, old entries are kept, and each new name is bound to its factory |
| Registry.CreateWriterCommutes | logdeb.go:198-207 | two registrations under distinct names succeed in either order or in neither, with the same registry |
| LogDeb.SetMaxSeverity | logdeb.go:214-219 | the severity cache becomes the larger of its old value and the argument; nothing else changes |
| LogDeb.SetMaxDebugLevel | logdeb.go:226-232 | the debug-level cache becomes the larger of its old value and the argument; nothing else changes |
| LogDeb.SetSeverity | logdeb.go:221-224 | sets the global severity; the cache becomes the larger of its old value and the new severity; nothing else changes |
| LogDeb.SetDebugLevel | logdeb.go:234-238 | sets the global debug level; the cache becomes the larger of its old value and the new level; nothing else changes |
| LogDeb.ApplyMain | logdeb.go:163-175 | each field the "main" section gives is set, with an explicit 0 replaced by the default (Error, base level); the caches only grow and cover the global rule; writers and channel are unchanged |
| LogDeb.AddWriter | logdeb.go:177-188 | an unregistered name panics, and so does a name registered with a nil factory, which the source calls; otherwise it succeeds iff the section is an object whose rules read; the writer is bound to those rules, other writers are kept, and the caches grow to cover its thresholds, whatever they held before |
| LogDeb.InstallWriter | logdeb.go:183-185 | binds the writer and raises each cache to the larger of its old value and the writer's threshold |
| LogDeb.Configure | logdeb.go:162-190 | the section loop succeeds iff every section is acceptable (a "main" section that is not null; a registered writer with an object of well-typed rules); its writers are exactly the old ones plus the named ones; the caches only grow and keep covering every threshold |
| LogDeb.ConfigureKeepsWriters | logdeb.go:162-190 | writers not named in the sections keep their rules |
| LogDeb.ConfigureBindsFirst | logdeb.go:183 | a writer section that is not repeated later determines that writer's rules |
| LogDeb.ConfigureBindsWriters | logdeb.go:162-190 | each named writer is bound to the rules read from its last section |
| LogDeb.ConfigureLeavesMain | logdeb.go:162-175 | without a "main" section setting them, the global rule and the function-rule flag keep their values |
| LogDeb.ConfigureLastMain | logdeb.go:163-175 | when the first section is the only "main" one, its explicit fields hold at the end |
| LogDeb.ConfigureMain | logdeb.go:162-175 | the explicit fields of the last "main" section hold at the end |
| LogDeb.ConfigureCachesTight | logdeb.go:162-190 | the caches never exceed a bound that covers every threshold the sections set |
| TopLevel.Collapse | logdeb.go:154-158 | decoding the top-level object into a Go map; its contract is TopLevel.CollapseSpec |
| TopLevel.CollapseKeys | logdeb.go:154-158 | the collapsed list has the same keys as the document, each exactly once |
| TopLevel.CollapseLast | logdeb.go:154-158 | every collapsed section is the last section of its key in the document, and every such last section is kept |
| TopLevel.CollapseSpec | logdeb.go:154-158 | the two lemmas above together: same keys, each once, exactly the last copies |
| TopLevel.CollapseDistinct | logdeb.go:154-158 | a document without repeated keys is left as it is |
| TopLevel.CollapseOk | logdeb.go:154-190 | the loop over the collapsed sections accepts all of them iff the last copy of every key is acceptable; the writer names are unchanged |
| TopLevel.CollapseKeepsLast | logdeb.go:154-158 | the last copy of a key appears in the collapsed list as the only section of that key |
| TopLevel.CollapseMainWasLast | logdeb.go:154-158 | a "main" section in the collapsed list is the last "main" section of the document |
| TopLevel.LastIndex | logdeb.go:154-158 | the position of the last section with a given key, at or after a given one |
| TopLevel.UnknownWriterPanics | logdeb.go:177-189 | a writer name that is not registered, or registered with a nil factory, in any copy, makes the last copy of that key unacceptable |
| Construction.NewLogDeb | logdeb.go:142-195 | construction succeeds iff the buffer size is not negative, the last copy of every key is acceptable and at least one writer is named; a negative buffer panics first; no writer panics with "no writer"; an unregistered writer name, a writer registered with a nil factory or a null last "main" panics; the result has exactly the named writers, an empty channel, a fully set global rule, and caches covering every threshold |
| Construction.NewLogDebWriters | logdeb.go:176-186 | in a constructed logger, each writer holds the rules read from the last section of its name |
| Construction.NewLogDebMain | logdeb.go:163-175 | in a constructed logger, the explicit fields of the last "main" section hold |
| Construction.NewLogDebDefaults | logdeb.go:144-146 | in a constructed logger, each field the last "main" section leaves out has its default: Error, base level, function rules off |
| Construction.NewLogDebGlobal | logdeb.go:144-175 | given the last "main" section, the global rule is exactly its severity and debug level, each with an absent or zero field replaced by the default, and the flag is its value or off |
| Construction.NewLogDebIsLoop | logdeb.go:148-194 | with a valid buffer size, construction is the section loop over the collapsed top-level keys starting from Error and base level, and it fails exactly when that loop fails or names no writer |
| Construction.NewLogDebAnyOrder | logdeb.go:154-194 | the logger does not depend on the order in which `range` visits the decoded map: every arrangement of the collapsed keys is accepted alike and builds the same logger |
| Ordering.ConfigureOrderFree | logdeb.go:162-190 | the loop over sections with distinct keys succeeds for one arrangement iff for any other, with the same logger |
| Ordering.ConfigureOkPermutation | logdeb.go:162-190 | whether the loop panics depends only on which sections it visits, not on their order |
| Ordering.ConfigureOkMembers | logdeb.go:162-190 | the loop succeeds iff every section it visits is acceptable |
| Ordering.ConfigureCons | logdeb.go:162-190 | an acceptable first section is one step of the loop, followed by the loop over the rest |
| Ordering.MoveToFront | logdeb.go:162-190 | an acceptable section may be visited first instead of after acceptable sections with other keys, without changing the loop's result, panics included |
| Ordering.SwapFront | logdeb.go:162-190 | two acceptable sections with different keys at the front of the list may be visited in either order, with the same result |
| Ordering.StepsCommute | logdeb.go:162-190 | two acceptable sections with different keys have the same effect in either order |
| Ordering.WriterThenWriter | logdeb.go:177-185 | two writer sections with different names have the same effect in either order |
| Ordering.MainThenWriter | logdeb.go:163-185 | the "main" section and a writer section have the same effect in either order |
| Ordering.ApplyMainShape | logdeb.go:164-174 | a "main" section replaces the global rule and the function-rule flag and raises each cache to the new threshold; the writers and channel are unchanged |
| Ordering.InstallWriterShape | logdeb.go:183-185 | installing a writer binds only that name and raises each cache to the writer's threshold; the global rule and the flag are unchanged |
| Construction.NewLogDebNoMain | logdeb.go:144-146 | without a "main" section, the global rule is Error at the base level and function rules are off |
| Construction.NewLogDebRules | logdeb.go:142-195 | in a constructed logger, each writer holds the rules of the last section of its name; each field the last "main" section sets takes effect; each field it leaves out, or every field when there is no "main" section, has its default: Error, base level, function rules off |
| Construction.NewLogDebCachesTight | logdeb.go:142-195 | in a constructed logger, the caches are no larger than the defaults and every threshold the last copy of each key sets, so each is their maximum |
| Delivery.MustWrite | logdeb.go:272-291 | the per-writer decision; its contract is Delivery.MustWriteWithoutFncRules and Delivery.MustWriteWithFncRules, and Delivery.MustWriteLoop shows the source's loop computes it |
| Delivery.MustWriteLoop | logdeb.go:272-291 | the source's loop, which drops one character per miss, computes the longest-prefix decision |
| Delivery.MustWriteWithoutFncRules | logdeb.go:286-288 | with function rules off or none configured, the decision is the writer's rule resolved against the global rule; an unknown writer uses the global rule alone |
| Delivery.MustWriteWithFncRules | logdeb.go:274-285 | with function rules in play, a tag with no configured prefix is refused; otherwise the longest prefix's rule decides, resolved against the writer's rule resolved against the global one |
| Delivery.Logw | logdeb.go:304-315 | only the channel changes; the message is appended or nothing happens; it is dropped iff function rules are off and its severity exceeds the severity cache |
| Delivery.Fatal | logdeb.go:317-319 | only the channel changes, by this Fatal message with level 0 or not at all; it is sent iff the severity cache reaches Fatal or function rules are on |
| Delivery.Err | logdeb.go:321-323 | only the channel changes, by this Error message with level 0 or not at all; it is sent iff the severity cache reaches Error or function rules are on |
| Delivery.Warn | logdeb.go:325-327 | only the channel changes, by this Warn message with level 0 or not at all; it is sent iff the severity cache reaches Warn or function rules are on |
| Delivery.Info | logdeb.go:329-331 | only the channel changes, by this Info message with level 0 or not at all; it is sent iff the severity cache reaches Info or function rules are on |
| Delivery.Deb | logdeb.go:334-336 | only the channel changes, by this Debug message at the base level or not at all; it is sent iff the severity cache reaches Debug or function rules are on; there is no debug-level gate |
| Delivery.Debl | logdeb.go:339-343 | only the channel changes, by this Debug message or not at all; it is sent iff its level is within the debug-level cache and either function rules are on or the severity cache reaches Debug; a level above the cache is dropped even when function rules are on |
| Delivery.DeblFixed | logdeb.go:339-343 | only the channel changes, by this Debug message or not at all; with function rules on it is always sent; with them off it behaves exactly as `Debl` |
| Delivery.Delivered | logdeb.go:293-302 | a writer delivers exactly the channel messages that `MustWrite` admits, never more messages than were sent |
| Delivery.Received | logdeb.go:293-302 | a writer has received exactly the channel messages its `MustWrite` admits |
| Delivery.DeliveredAppend | logdeb.go:293-302 | delivery is FIFO: what is delivered from a concatenation is the concatenation of what is delivered from each part |
| Delivery.DeliveredSameRules | logdeb.go:272-291 | delivery depends only on the rules, not on the caches or the channel |
| Delivery.PreFilterSound | logdeb.go:304-310 | with function rules off, a message that some writer accepts is within the severity cache, so `logw` keeps it |
| Delivery.DebugLevelFilterSound | logdeb.go:339-343 | with function rules off, a Debug message that some writer accepts is within the debug-level cache, so `Debl` keeps it |
| Delivery.LogwInvisible | logdeb.go:304-315 | after `logw`, each writer has received what it had before, plus the message exactly when it accepts it |
| Delivery.EmitKeepsRules | logdeb.go:317-343 | a logging call changes only the channel |
| Delivery.Emit | logdeb.go:317-343 | a call changes only the channel, by its own message or not at all; a message beyond the severity cache is dropped when function rules are off |
| Delivery.EmitFixed | logdeb.go:317-343 | only the channel changes, by the call's message or not at all; with function rules on the message is always sent, and with them off the call is exactly the source's `Emit` |
| Delivery.EmitInvisible | logdeb.go:317-343 | every call is invisible to every writer in the same sense, except `Debl` while function rules are on |
| Delivery.EmitFixedInvisible | logdeb.go:339-343 | with `DeblFixed` in place of `Debl`, every call is invisible to every writer |
| Delivery.EmitAll | logdeb.go:317-343 | a run of calls leaves the rules and caches unchanged |
| Delivery.EmitAllInvisible | logdeb.go:304-343 | after a run of calls, each writer has received exactly the messages of those calls it accepts, in call order |
| Delivery.EmitThenDeliver | logdeb.go:304-343 | one call followed by the delivery of later messages leaves a writer with what it would have received had the call's message been delivered first, unfiltered |
| Scenarios.FncLookupExample | logdeb.go:277-285 | with rules {"A.B"}, the tags "A.B" and "A.B.C" find the rule and "Z" finds none |
| Scenarios.ErrorOnlyConsole | logdeb.go:118-137 | {"Severity":2} reads as severity Error, debug level unset, no function rules |
| Scenarios.WarnBelowErrorNotWritten | logdeb.go:325-327 | a console configured at Error builds, and receives nothing from a Warn call |
| Scenarios.ErrorOnlyBuilds | logdeb.go:142-195 | that configuration builds a logger whose console is at Error without function rules |
| Scenarios.NegativeBufferPanics | logdeb.go:148 | a negative buffer size panics |
| Scenarios.NullMainPanics | logdeb.go:164-165 | a null "main" section panics |
| Scenarios.OverriddenCopyIgnored | logdeb.go:154-158 | with two "console" sections, only the second is read: the console is at Error and the severity cache stays at Error |
| Scenarios.EarlierMalformedCopyIgnored | logdeb.go:154-158 | a malformed "console" section followed by a good one does not panic |
| Scenarios.TwoMainsOk | logdeb.go:142-195 | a configuration with two "main" sections and a console builds |
| Scenarios.TwoMainsLastWins | logdeb.go:154-175 | only the second "main" section is read: its debug level 3 holds and the severity stays at the default Error, although the first one set Info |
| Scenarios.FooBarRule | logdeb.go:241-252 | {"Severity":5,"DebugLevel":2} extracts to Debug at level 2 |
| Scenarios.FooBarSection | logdeb.go:126-132 | the "FncRules" object of the example holds exactly the rule for "Foo.bar" |
| Scenarios.WithFncRulesConsole | logdeb.go:118-137 | the example console section reads as Error with that one function rule |
| Scenarios.WithFncRulesOk | logdeb.go:142-195 | the example configuration builds a logger |
| Scenarios.WithFncRulesSettings | logdeb.go:162-190 | that logger has function rules on, global rule Error at base level, and the console's rules |
| Scenarios.WithFncRulesCache | logdeb.go:184-185 | its debug-level cache stays at the base level, because function-rule levels are not folded in |
| Scenarios.WithFncRulesBuilds | logdeb.go:142-195 | the complete state of that logger |
| Scenarios.FncLookupExampleFooBar | logdeb.go:277-285 | "Foo.bar.baz" matches the 7-character prefix "Foo.bar"; "Qux" matches nothing |
| Scenarios.FncRulesDecide | logdeb.go:274-285 | the console accepts a level-2 Debug message tagged "Foo.bar.baz" and refuses one tagged "Qux" |
| Scenarios.DeblDropsAcceptedMessage | logdeb.go:339-343 | as written, `Debl` at level 2 from "Foo.bar.baz" never reaches the console, although the console accepts it |
| Scenarios.DeblFixedDeliversAcceptedMessage | logdeb.go:339-343 | with the corrected gate, the console receives that message |

## Left out

- Concurrency: the goroutine, mutex, `sync.WaitGroup` and channel buffering of `NewLogDeb`, `StartWriter`, `Flush` and `Destroy` (logdeb.go:89-91, 150-151, 293-302, 345-360). The channel is an unbounded append-only sequence, and dispatch is the filter applied by each writer.
- JSON decoding (logdeb.go:155-158, 164, 180). A configuration is given already decoded. Each top-level section carries both its struct decoding (`MainConfig`) and its generic tree; the tree also tells a JSON null. A malformed JSON document, which panics at logdeb.go:157, is not modelled.
- Construction.NewLogDeb: only a negative buffer size panics in the model. `make` also panics for a buffer too large to allocate, a platform-dependent bound that is not modelled.
- The float64-to-int8 conversion in `extract` (logdeb.go:246, 249). Numbers in a decoded tree are already `int8`.
- The writers' `Init`, `Write`, `Flush` and `Destroy` I/O. `file.go` is not part of this model beyond its `MustWrite` gate (file.go:114). The error returned by `Init` is ignored by the source (logdeb.go:182) and is not modelled.
- `console.go` and the console tests: that code does not compile against `logdeb.go`.
- `GetTsStr`, `SetSessionId` and `prDeb`: clock and diagnostics only.
- Config.ExtractSettles: `strings.ToLower` is modelled only as far as comparison with an ASCII word needs. It maps A-Z, U+0130 and U+212A; every other character is left unchanged, because its lower-case form is never ASCII.
- Rules.MatchLength: tags are character sequences, whereas Go truncates bytes. Rule keys come from JSON and are valid UTF-8, so for valid UTF-8 tags the longest matching prefix is the same.
- Go map iteration order inside a section is unspecified. Each decoded section object is one fixed visiting order, so a property that holds "for every order" is stated for every sequence. For the top-level map, `Construction.NewLogDebAnyOrder` proves that the order does not matter. The two `range` loops of `getWriteRules` over the same section, the one in `extract` (logdeb.go:121 via 242) and the "fncrules" loop (logdeb.go:122), are modelled with one visiting order. That is sound: `extract` skips every "fncrules" key and the "fncrules" loop skips every other key, so neither the result nor the panic condition depends on how the two orders relate.
- Config.Extract: an object with a repeated exact key has no Go counterpart, because the decoded map keeps only the last value. The model does not exclude such objects; on them it reads every copy, so an earlier mistyped copy panics where Go would never see it.
- Delivery.PreFilterSound: requires a severity of at most Debug. `logw` is private and only ever called with codes 1..5.

## Findings

| source | as written | input that shows it | evidently intended | confidence | as-written member | corrected member |
|---|---|---|---|---|---|---|
| logdeb.go:339-343 | `Debl` drops a message whose level is above `maxDebLev`, also when function rules are on. Function-rule debug levels are never folded into `maxDebLev` (logdeb.go:122-133, 184-185). | `{"main":{"UseFncRules":true},"console":{"Severity":2,"FncRules":{"Foo.bar":{"Severity":5,"DebugLevel":2}}}}`, then `Debl("Foo.bar.baz", msg, 2)`. The console's `MustWrite` accepts the message, but `maxDebLev` is 1, so nothing is sent. | Like `logw`, bypass the cache while function rules are on, so that the pre-filter never drops a message some writer accepts. `logw` already skips the severity cache while function rules are on (logdeb.go:307), because function-rule thresholds are never folded into the caches. | not executed | Scenarios.DeblDropsAcceptedMessage | Delivery.EmitFixedInvisible |

The model follows the code: `Delivery.Debl` and `Delivery.Emit` are the source's behaviour. `Delivery.DeblFixed` and `Delivery.EmitFixed` are the corrected gate, and `Scenarios.DeblFixedDeliversAcceptedMessage` shows the example message arriving. The intended behaviour, where the writer receives the message, is the one `logw` already implements for the severity cache (logdeb.go:307).
