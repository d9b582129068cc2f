# GAMPSkills core, modelled in Dafny

GAMPSkills is a set of JavaScript skills that turn an LLM agent's prompts into files and
backlog entries. This project models the deterministic core of those skills and proves
what they promise. The LLM, the file system and `JSON.parse` appear as parameters.

| file | module | models |
|---|---|---|
| `backlog_io.dfy` | `BacklogIO` | `src/BacklogManager/backlogIO.mjs`: parsing and rendering the markdown backlog ledger, numbered items, slicing and merging sections |
| `backlog_grammar.dfy` | `BacklogGrammar` | what `parse` makes of any text: section bounds, key order, the section under each key, numbering, continuation lines |
| `backlog_roundtrip.dfy` | `BacklogRoundTrip` | the rendered ledger viewed as a list of lines, and `parse(render(s)) == s` |
| `backlog_domain.dfy` | `BacklogDomain` | `src/BacklogManager/backlogDomain.mjs`: the change queue and its stable sort by task reference |
| `backlog_manager.dfy` | `BacklogManager` | `src/BacklogManager/BacklogManager.mjs`: the section operations as a store over backlog files, and the approved-change dispatch |
| `backlog_skill.dfy` | `BacklogSkill` | `src/.AchillesSkills/backlog-io/index.mjs`: key/value parameters, the command line, operation dispatch |
| `options_parser.dfy` | `OptionsParser` | `src/utils/optionsParser.mjs`: `dependsOn` stripping, the key/value tokenizer and parser, the multiline fallback |
| `context_options.dfy`, `context_parser.dfy` | `ContextOptions`, `ContextParser` | the two copies of the context-loader `parser.mjs`: option defaults and input parsing |
| `context_files.dfy`, `context_layout.dfy` | `ContextFiles`, `ContextLayout` | the two copies of the context-loader `context.mjs`: the file-reading policy and the context text layout |
| `listing.dfy` | `Listing` | `src/skills/cskills/context-loader/src/listing.mjs`: glob matching, exclusions, the directory walk over a tree |
| `prompts.dfy`, `json.dfy` | `Prompts`, `Json` | `src/.AchillesSkills/context-loader/prompts.mjs`: the constraints section and the LLM response normalisation |
| `arguments.dfy` | `Arguments` | `src/ArgumentResolver.mjs`: the deterministic argument-resolution branches |
| `create_specs.dfy` | `CreateSrcSpecs` | `src/.AchillesSkills/create-src-specs/index.mjs`: file markers, path sanitising, the action's checks |
| `parse_markers.dfy` | `ParseFileMarkers` | `src/.AchillesSkills/parse-file-markers/index.mjs`: the marker-extraction loop |
| `quality_expert.dfy` | `QualityExpert` | both quality-expert skills: profile selection, input parsing, the result rule |
| `wrappers.dfy`, `text.dfy`, `seqs.dfy`, `ordered_map.dfy`, `keywords.dfy` | helpers | `Option`/`Result`, JavaScript string operations (`trim`, `split`, `\s`), filters, insertion-ordered objects, the `word\s*:` marker search |

Strings are sequences of Unicode scalar values. Whitespace is JavaScript's `\s` set, written
out. Integers are unbounded.

## Model

| member | source | states |
|---|---|---|
| Arguments.ArrayParts | src/ArgumentResolver.mjs:19 | an array prompt gives one part per element: the empty text for a null or undefined element, the element's text otherwise |
| Arguments.ArrayArgumentsJoin | src/ArgumentResolver.mjs:18-33 | an array with at least as many parts as slots gives one argument per slot (the parts themselves with no schema), and nothing is lost: the arguments joined by spaces are the parts joined by spaces |
| Arguments.FirstCaptureIsFirst | src/ArgumentResolver.mjs:42-51 | the captures come from the first pattern whose match has a capture per slot; there are none exactly when no pattern has |
| Arguments.SpaceSplit | src/ArgumentResolver.mjs:71 | splitting at whitespace gives at least one piece, and no piece holds whitespace |
| Arguments.WordsEntries | src/ArgumentResolver.mjs:71 | the whitespace words of the text are non-empty and hold no whitespace |
| Arguments.PickFacts | src/ArgumentResolver.mjs:63-67 | for two slots a list of more than two parts becomes the first part and the rest joined, so nothing is lost; otherwise the arguments are the first parts, one per slot |
| Arguments.NothingToResolve | src/ArgumentResolver.mjs:20-22 | an empty array prompt and a blank text prompt resolve to no arguments |
| Arguments.RegexWins | src/ArgumentResolver.mjs:42-51 | when a pattern gives a capture per slot, the first such pattern decides and its captures are the arguments, each trimmed |
| Arguments.SingleSlotKeepsText | src/ArgumentResolver.mjs:53-56 | with at most one slot and no pattern hit, the argument is the trimmed prompt, whole |
| Arguments.CommaHeuristic | src/ArgumentResolver.mjs:59-69 | when the text has more than one comma part and they are all numeric or cover the slots, the arguments are those parts: all of them joined back for two slots, the first ones otherwise |
| Arguments.WordHeuristic | src/ArgumentResolver.mjs:71-78 | otherwise, with a word per slot, there is one argument per slot: the words, all of them joined back for two slots |
| Arguments.LlmFallback | src/ArgumentResolver.mjs:84-92 | when no rule applies, the arguments are the model's array, or else the prompt's own text |
| BacklogDomain.RefLeqReflexive | src/BacklogManager/backlogDomain.mjs:12 | the order used to compare task references puts every reference at or before itself |
| BacklogDomain.RefLeqTotal | src/BacklogManager/backlogDomain.mjs:12 | any two task references are comparable |
| BacklogDomain.RefLeqAntisymmetric | src/BacklogManager/backlogDomain.mjs:12 | two references each at or before the other are equal |
| BacklogDomain.RefLeqTransitive | src/BacklogManager/backlogDomain.mjs:12 | the order on task references is transitive |
| BacklogDomain.Insert | src/BacklogManager/backlogDomain.mjs:12 | inserting an entry into the queue's order adds exactly that entry (multiset) |
| BacklogDomain.SortedByRef | src/BacklogManager/backlogDomain.mjs:12 | sorting by task reference is a permutation of the queue |
| BacklogDomain.InsertSorted | src/BacklogManager/backlogDomain.mjs:12 | inserting into a sorted queue keeps it sorted |
| BacklogDomain.InsertStable | src/BacklogManager/backlogDomain.mjs:12 | insertion places the new entry after every entry with the same reference and leaves their order alone |
| BacklogDomain.SortIsSorted | src/BacklogManager/backlogDomain.mjs:10-12 | the drained order is ascending by task reference |
| BacklogDomain.SortIsStable | src/BacklogManager/backlogDomain.mjs:10-12 | entries with the same task reference keep their enqueue order (the sort is stable) |
| BacklogDomain.SortKeepsSorted | src/BacklogManager/backlogDomain.mjs:10-12 | a queue already in reference order is drained unchanged |
| BacklogDomain.ChangeQueue.constructor | src/BacklogManager/backlogDomain.mjs:2-4 | a new queue is empty |
| BacklogDomain.ChangeQueue.Enqueue | src/BacklogManager/backlogDomain.mjs:6-8 | the pair of task reference and change is appended at the end |
| BacklogDomain.ChangeQueue.Drain | src/BacklogManager/backlogDomain.mjs:10-16 | the result is the old queue sorted by reference, a permutation of it, and the queue is empty afterwards |
| BacklogDomain.ChangeQueue.Clear | src/BacklogManager/backlogDomain.mjs:18-20 | the queue is empty afterwards |
| BacklogDomain.DrainTwice | tests/BacklogManager/backlogDomain.test.mjs:5-13 | two enqueues in reference order drain in that order, and a second drain gives nothing |
| BacklogIO.DigitRun | src/BacklogManager/backlogIO.mjs:52 | the length of the run of digits that opens a line: every character before it is a digit and the next one is not |
| BacklogIO.ItemTitleIsRegexMatch | src/BacklogManager/backlogIO.mjs:84-86 | the item title is the capture of the item expression: it starts at the last position the greedy whitespace run admits, and there is no title exactly when no position is admitted |
| BacklogIO.RegexMatchNotBlank | src/BacklogManager/backlogIO.mjs:84-86 | with a non-space character after the number, the title starts at the first one |
| BacklogIO.NoCaptureAfter | src/BacklogManager/backlogIO.mjs:84 | the whitespace run of the item expression cannot pass a non-space character |
| BacklogIO.NoCaptureUpTo | src/BacklogManager/backlogIO.mjs:84 | a line terminator in the rest of the line defeats every capture that starts at or before it |
| BacklogIO.ItemTitleOfBlank | src/BacklogManager/backlogIO.mjs:84-86 | after a number and only whitespace, the title is the last character when that is not a line terminator, and there is none otherwise |
| BacklogIO.RegexMatchBlank | src/BacklogManager/backlogIO.mjs:84-86 | after a number and only whitespace, the capture found is the greedy expression's match |
| BacklogIO.BlankEndingInTerminator | src/BacklogManager/backlogIO.mjs:84 | a blank rest ending in a line terminator leaves the title group nothing to match |
| BacklogIO.BlankCapturesLast | src/BacklogManager/backlogIO.mjs:84 | a blank rest ending in another character captures that last character |
| BacklogIO.DetailRun | src/BacklogManager/backlogIO.mjs:89-97 | the detail lines after an item are the maximal run of lines starting with three spaces or a tab |
| BacklogIO.DetailsFrom | src/BacklogManager/backlogIO.mjs:89-97 | the detail loop stops inside the line list, at or after where it starts |
| BacklogIO.NumberedItemAt | src/BacklogManager/backlogIO.mjs:82-99 | an item consumes its own line and at most the lines that follow it |
| BacklogIO.BareNumberGivesEmptyItem | src/BacklogManager/backlogIO.mjs:85 | a line the item expression rejects gives an item with empty title and details that consumes one line |
| BacklogIO.BareOneIsRejected | src/BacklogManager/backlogIO.mjs:82-85 | a bare `1.` passes the item-line test of the parser but fails the item expression, so an empty item is added |
| BacklogIO.CollectDetails | src/BacklogManager/backlogIO.mjs:87-97 | the detail loop computes the details text and the stop index of the specification |
| BacklogIO.ParseNumberedItem | src/BacklogManager/backlogIO.mjs:82-99 | the numbered-item reader returns the title, the trimmed details and the lines consumed, as specified |
| BacklogIO.NewItem | src/BacklogManager/backlogIO.mjs:54-58 | a new item is numbered one past the items already in its list and has an empty status |
| BacklogIO.BodyStep | src/BacklogManager/backlogIO.mjs:38-65 | one step of the section loop always moves forward and stays inside the lines |
| BacklogIO.ContentStep | src/BacklogManager/backlogIO.mjs:52-65 | the branches after the field markers always move forward and stay inside the lines |
| BacklogIO.ParseBody | src/BacklogManager/backlogIO.mjs:37-66 | a section's body runs until the next header line or the end of the text |
| BacklogIO.ParseFrom | src/BacklogManager/backlogIO.mjs:23-78 | the sections read so far form a well-formed keyed table |
| BacklogIO.Parsed | src/BacklogManager/backlogIO.mjs:19-80 | the parse of any text is a well-formed keyed table; what is under each key is stated by `BacklogGrammar.ParsedShape` |
| BacklogIO.ParseBodyLine | src/BacklogManager/backlogIO.mjs:38-65 | one iteration of the section loop computes the specified step, and the item counters stay one past the number of items |
| BacklogIO.ParseContentLine | src/BacklogManager/backlogIO.mjs:52-64 | the branches after the marker tests compute the specified step and keep the item counters in step with the lists |
| BacklogIO.Parse | src/BacklogManager/backlogIO.mjs:19-80 | the parser computes the specified table of sections |
| BacklogIO.RenderBlock | src/BacklogManager/backlogIO.mjs:107-126 | the issues or options block is written as specified: nothing for an empty list, else the marker, the items and a blank line |
| BacklogIO.RenderSection | src/BacklogManager/backlogIO.mjs:104-127 | one iteration of the render loop appends the specified text of the section |
| BacklogIO.RenderEntries | src/BacklogManager/backlogIO.mjs:102-128 | the render loop writes every section in entry order |
| BacklogIO.Render | src/BacklogManager/backlogIO.mjs:101-130 | the renderer returns the text of every section, trimmed as a whole |
| BacklogIO.RenderEmpty | src/BacklogManager/backlogIO.mjs:101-130 | an empty table renders to the empty text |
| BacklogIO.Pieces | src/BacklogManager/backlogIO.mjs:133 | splitting at header lines gives at least one piece |
| BacklogIO.JoinPieces | src/BacklogManager/backlogIO.mjs:145 | the split loses nothing: the pieces joined by the header text are the text again |
| BacklogIO.FirstMatch | src/BacklogManager/backlogIO.mjs:134-140 | the search finds the first piece whose first line trims to the key, or reports that none does |
| BacklogIO.Sliced | src/BacklogManager/backlogIO.mjs:132-142 | the slice is the first matching section, header restored and trimmed, or the empty text when none matches |
| BacklogIO.SliceToSection | src/BacklogManager/backlogIO.mjs:132-142 | the search loop returns that slice, and the empty text exactly when no section matches |
| BacklogIO.StripHeader | src/BacklogManager/backlogIO.mjs:152 | only a header at the very start of the section text is removed |
| BacklogIO.MergeSection | src/BacklogManager/backlogIO.mjs:144-159 | the merge loop computes the specified text |
| BacklogIO.MergedUntouched | src/BacklogManager/backlogIO.mjs:148-156 | pieces that all fail the key test are joined back as they were split |
| BacklogIO.MergeWithoutMatch | src/BacklogManager/backlogIO.mjs:144-159 | with no section for the key, the merge returns the text unchanged |
| BacklogIO.MergeDropsHeader | src/BacklogManager/backlogIO.mjs:151-152 | merging a section's own slice back removes its header: the section of `a` becomes a plain line with no section at all |
| BacklogIO.MergedFixedOwnText | src/BacklogManager/backlogIO.mjs:148-156 | with the header kept, putting a section's own text back leaves the pieces as they were |
| BacklogIO.MergeFixedRestores | src/BacklogManager/backlogIO.mjs:144-159 | with the header kept, merging every matching section's own text gives the whole text back |
| BacklogIO.MergeAsWrittenDoesNotRestore | src/BacklogManager/backlogIO.mjs:151-152 | on the smallest text with one section, the merge with the header kept restores it and the merge as written does not |
| BacklogManager.ParseType | src/BacklogManager/BacklogManager.mjs:7-9 | only `specs` and `docs` are backlog types; any other name fails with `Invalid type: <name>` |
| BacklogManager.ParseTypeName | src/BacklogManager/BacklogManager.mjs:7-9 | each backlog type's name is accepted as that type |
| BacklogManager.ReadBacklog | src/BacklogManager/backlogIO.mjs:3-9 | reading a backlog file succeeds exactly when the file exists, with its content; a failure is reported as `Failed to read backlog: ...` |
| BacklogManager.Load | src/BacklogManager/BacklogManager.mjs:6-16 | loading succeeds exactly for a valid type whose file exists, and gives the parse of that file; an invalid type fails with its message |
| BacklogManager.AppendNumbered | src/BacklogManager/BacklogManager.mjs:27-40 | appending keeps the earlier items, gives the new one the id one past the old length, and keeps a list numbered 1, 2, 3, ... numbered |
| BacklogManager.AddIssue | src/BacklogManager/BacklogManager.mjs:27-29 | a recorded issue is appended to the issues with the next id, and no other field changes |
| BacklogManager.AddOption | src/BacklogManager/BacklogManager.mjs:38-40 | a proposed fix is appended to the options with the next id, and no other field changes |
| BacklogManager.Approve | src/BacklogManager/BacklogManager.mjs:49-53 | the resolution is always set; the status becomes `ok` exactly when the resolution is not blank; nothing else changes |
| BacklogManager.Assign | src/BacklogManager/BacklogManager.mjs:137 | every field named in the update takes its new value and every other field keeps its old one |
| BacklogManager.AssignNothing | src/BacklogManager/BacklogManager.mjs:137 | an empty update leaves the section unchanged |
| BacklogManager.AssignStatus | src/BacklogManager/BacklogManager.mjs:137 | an update naming only the status changes only the status |
| BacklogManager.NewSection | src/BacklogManager/BacklogManager.mjs:145-152 | a new section has the key as its name, the initial content as description, status `needs_work`, empty lists and an empty resolution |
| BacklogManager.Edited | src/BacklogManager/BacklogManager.mjs:25-29 | editing a present key replaces only that section and keeps the key order; an absent key leaves the table unchanged |
| BacklogManager.Appended | src/BacklogManager/BacklogManager.mjs:144-153 | a new key is added at the end with a fresh section; a present key leaves the table unchanged; other keys are untouched |
| BacklogManager.FirstEndingWith | src/BacklogManager/BacklogManager.mjs:105-110 | the search finds the first key ending with the file name, or reports that none does |
| BacklogManager.KeysWhere | src/BacklogManager/BacklogManager.mjs:94-121 | the query loop collects, in key order, exactly the keys that pass the test |
| BacklogManager.KeyEndingWith | src/BacklogManager/BacklogManager.mjs:105-110 | the loop returns the first key ending with the file name, and nothing exactly when no key does |
| BacklogManager.FirstIsLeast | src/BacklogManager/BacklogManager.mjs:105-110 | the first key ending with the name is the one the search finds |
| BacklogManager.NoHookIsCalled | src/BacklogManager/BacklogManager.mjs:66-79 | as written, no hook is ever called: the drained entries carry no type of their own |
| BacklogManager.FixedHookCalls | src/BacklogManager/BacklogManager.mjs:67-79 | dispatching on each item's own type calls at most one hook per change |
| BacklogManager.FixedHooksReachItems | src/BacklogManager/BacklogManager.mjs:67-79 | with that dispatch every issue reaches the spec-fix hook and every option the doc-fix hook when present, and no other call is made |
| BacklogManager.SameRefKeepsOrder | src/BacklogManager/BacklogManager.mjs:62-66 | the items queued under one key are drained in the order they were given |
| BacklogManager.Enqueued | src/BacklogManager/BacklogManager.mjs:63-65 | one queue entry per approved item, under the section's key, in order |
| BacklogManager.QueueAndDrain | src/BacklogManager/BacklogManager.mjs:62-66 | the queue filled and drained gives the approved items in their given order |
| BacklogManager.Dispatch | src/BacklogManager/BacklogManager.mjs:67-79 | the dispatch loop makes the hook calls of the specification |
| BacklogManager.BacklogStore.constructor | src/BacklogManager/BacklogManager.mjs:10 | the store starts from the given backlog files |
| BacklogManager.BacklogStore.LoadBacklog | src/BacklogManager/BacklogManager.mjs:6-16 | loading gives the type check's error or the parsed file |
| BacklogManager.BacklogStore.SaveBacklog | src/BacklogManager/BacklogManager.mjs:86-90 | the type's backlog file is replaced by the rendered sections and no other file changes |
| BacklogManager.BacklogStore.GetSection | src/BacklogManager/BacklogManager.mjs:18-21 | the section under the key, or nothing when it is absent |
| BacklogManager.BacklogStore.RecordIssue | src/BacklogManager/BacklogManager.mjs:23-32 | an absent key gives null and nothing is written; otherwise the issue is appended with the next id and the backlog is saved with only that section changed |
| BacklogManager.BacklogStore.ProposeFix | src/BacklogManager/BacklogManager.mjs:34-43 | an absent key gives null and nothing is written; otherwise the option is appended with the next id and the backlog is saved with only that section changed |
| BacklogManager.BacklogStore.ApproveResolution | src/BacklogManager/BacklogManager.mjs:45-56 | an absent key gives null and nothing is written; otherwise the resolution (and the status for a non-blank one) is saved |
| BacklogManager.BacklogStore.ApplyChanges | src/BacklogManager/BacklogManager.mjs:58-84 | an absent key gives null and nothing is written; otherwise the changes come back in the given order, no hook is called, and the section is saved with status `ok` |
| BacklogManager.BacklogStore.FindSectionsByPrefix | src/BacklogManager/BacklogManager.mjs:92-101 | the keys starting with the prefix, in entry order |
| BacklogManager.BacklogStore.FindSectionByFileName | src/BacklogManager/BacklogManager.mjs:103-111 | the first key ending with the file name, or null |
| BacklogManager.BacklogStore.FindSectionsByStatus | src/BacklogManager/BacklogManager.mjs:113-122 | the keys whose status is exactly the given one, in entry order |
| BacklogManager.BacklogStore.SetStatus | src/BacklogManager/BacklogManager.mjs:124-131 | only the named section's status changes; an unknown key changes no section; the backlog is saved either way |
| BacklogManager.BacklogStore.UpdateSection | src/BacklogManager/BacklogManager.mjs:133-140 | only the named section's updated fields change; an unknown key changes no section; the backlog is saved either way |
| BacklogManager.BacklogStore.AppendSection | src/BacklogManager/BacklogManager.mjs:142-155 | a fresh section is added only for an absent key, an existing one is untouched, and the backlog is saved |
| BacklogSkill.KeyAt | src/.AchillesSkills/backlog-io/index.mjs:86 | a key is recognised at a position exactly when its word-bounded marker (key, optional whitespace, colon) starts there |
| BacklogSkill.FindKey | src/.AchillesSkills/backlog-io/index.mjs:86-87 | the next key marker from a position is the first one, or there is none from there on |
| BacklogSkill.KeyMatches | src/.AchillesSkills/backlog-io/index.mjs:86-87 | the markers found are in text order and do not overlap |
| BacklogSkill.MatchIsKey | src/.AchillesSkills/backlog-io/index.mjs:86-95 | each match is a recognised key at its start, and its value starts after the colon and the whitespace behind it |
| BacklogSkill.MatchedKeysIn | src/.AchillesSkills/backlog-io/index.mjs:86 | only the seven recognised keys are matched |
| BacklogSkill.NoKeyBeforeFirst | src/.AchillesSkills/backlog-io/index.mjs:86-87 | no key marker starts before the first match |
| BacklogSkill.NoKeyInGap | src/.AchillesSkills/backlog-io/index.mjs:86-87 | no key marker starts between one match's end and the next match |
| BacklogSkill.NoKeyAfterLast | src/.AchillesSkills/backlog-io/index.mjs:86-87 | no key marker starts after the last match |
| BacklogSkill.ParseKeyValueParams | src/.AchillesSkills/backlog-io/index.mjs:80-113 | the parameter loop computes the specified map of keys to values |
| BacklogSkill.StoreValues | src/.AchillesSkills/backlog-io/index.mjs:92-110 | the loop over the matches stores each value as specified, later keys overwriting earlier ones |
| BacklogSkill.ParamsAfterKeys | src/.AchillesSkills/backlog-io/index.mjs:92-110 | the stored keys are exactly the matched keys |
| BacklogSkill.ParamsAfterLastWins | src/.AchillesSkills/backlog-io/index.mjs:100-110 | a key matched more than once keeps the value of its last match |
| BacklogSkill.ParamsFacts | src/.AchillesSkills/backlog-io/index.mjs:82-110 | no marker gives the empty map; otherwise the keys are exactly the matched ones, all recognised |
| BacklogSkill.ValueHoldsNoMarker | src/.AchillesSkills/backlog-io/index.mjs:96-98 | a value never reaches past the next recognised marker |
| BacklogSkill.ParseMaybeJsonFacts | src/.AchillesSkills/backlog-io/index.mjs:115-128 | a value is read as JSON only when it starts with a brace or bracket and parses; otherwise the text is kept |
| BacklogSkill.WordEnd | src/.AchillesSkills/backlog-io/index.mjs:23 | a word runs up to the first whitespace character or the end |
| BacklogSkill.WordEndIs | src/.AchillesSkills/backlog-io/index.mjs:23 | the end of a word is where the first whitespace after it is |
| BacklogSkill.SkipSpacesIs | src/.AchillesSkills/backlog-io/index.mjs:23 | skipping whitespace stops at the first other character |
| BacklogSkill.WordThenSpace | src/.AchillesSkills/backlog-io/index.mjs:23 | a word followed by whitespace or the end ends there |
| BacklogSkill.GapThenText | src/.AchillesSkills/backlog-io/index.mjs:23 | a whitespace gap followed by text ends at the text |
| BacklogSkill.ParseCommandLineAt | src/.AchillesSkills/backlog-io/index.mjs:23-34 | a line of a word, a gap, a word, a gap and the rest splits into the operation, the type and the parameter text |
| BacklogSkill.ParseCommandLineOfParts | src/.AchillesSkills/backlog-io/index.mjs:21-34 | joining an operation, a type and a parameter text with whitespace and splitting again gives the three back |
| BacklogSkill.ExecuteDispatches | src/.AchillesSkills/backlog-io/index.mjs:130-173 | every allowed operation calls the backlog function of the same name with the request's type (only `addOptionsFromText` discards its result); a missing or unknown operation throws |
| BacklogSkill.ActionWithoutLlm | src/.AchillesSkills/backlog-io/index.mjs:43-77 | without a completing agent, an operation outside the allowlist or a type other than `specs`/`docs` throws `Unknown operation: <op>`; otherwise the named operation is called |
| BacklogSkill.ActionWithLlm | src/.AchillesSkills/backlog-io/index.mjs:50-77 | with a completing agent, a rejected request is replaced by the LLM's arguments without a second check: the first word of its operation selects the call, or it throws when that is not an allowed operation, and its type, trimmed and lower-cased, is the kind the call receives |
| ContextFiles.Gathered | src/.AchillesSkills/cskills/context-loader/context.mjs:16-45 | the map after the reader loop is a well-formed ordered map |
| ContextFiles.ReadFiles.constructor | src/.AchillesSkills/cskills/context-loader/context.mjs:9 | the reader starts from the given map |
| ContextFiles.ReadFiles.ReadRequested | src/.AchillesSkills/cskills/context-loader/context.mjs:12-46 | the loop over the requested paths leaves the map the specification gathers: it stops once the map is full, skips present keys and paths whose file name fails the filter, and stores each file's content or its skip or error message |
| ContextFiles.ReadFiles.ReadInclude | src/.AchillesSkills/cskills/context-loader/context.mjs:55-80 | a non-array include list leaves the map alone; otherwise the paths are gathered with no filter and no cap, keeping the size rule |
| ContextFiles.GatheredKeysPrefix | src/.AchillesSkills/cskills/context-loader/context.mjs:16-45 | the readers only add: the keys already present keep their places at the front |
| ContextFiles.GatheredKeepsOld | src/.AchillesSkills/cskills/context-loader/context.mjs:20 | an existing key is never overwritten |
| ContextFiles.GatheredFromPaths | src/.AchillesSkills/cskills/context-loader/context.mjs:16-45 | every new key is one of the given paths |
| ContextFiles.GatheredEntries | src/.AchillesSkills/cskills/context-loader/context.mjs:22-44 | every new entry's file name passes the filter, and it holds the file content, the skip message for an oversized file or the read error message |
| ContextFiles.GatheredCapped | src/.AchillesSkills/cskills/context-loader/context.mjs:18 | with a cap, the map either keeps its size or ends with at most the cap's number of entries |
| ContextFiles.FullGathersNothing | src/.AchillesSkills/cskills/context-loader/context.mjs:18 | a map already at the cap is left alone |
| ContextFiles.GatheredIdempotent | src/.AchillesSkills/cskills/context-loader/context.mjs:20 | reading the same paths a second time adds nothing |
| ContextFiles.GatheredCovers | src/.AchillesSkills/cskills/context-loader/context.mjs:16-45 | without a cap, every path whose file name passes the filter ends up in the map |
| ContextFiles.AllSeen | src/.AchillesSkills/cskills/context-loader/context.mjs:20-26 | once every path is present or fails the filter, the loop adds nothing |
| ContextLayout.DropTrailingSlashes | src/.AchillesSkills/cskills/context-loader/context.mjs:89 | the path without its trailing slashes is a prefix of it that does not end in a slash |
| ContextLayout.BaseName | src/.AchillesSkills/cskills/context-loader/context.mjs:89 | the base name of a path holds no slash |
| ContextLayout.LastDot | src/.AchillesSkills/cskills/context-loader/context.mjs:90 | the last dot of a name, or no dot at all |
| ContextLayout.ExtName | src/.AchillesSkills/cskills/context-loader/context.mjs:90 | the extension is a suffix of the name and, when there is one, starts with a dot |
| ContextLayout.Collapse | src/.AchillesSkills/cskills/context-loader/context.mjs:93 | after each run of characters other than ASCII letters and digits becomes one underscore, only letters, digits and underscores remain |
| ContextLayout.SkipOthers | src/.AchillesSkills/cskills/context-loader/context.mjs:93 | a suffix of the text that starts with a letter or digit, or is empty |
| ContextLayout.TrimUnderscores | src/.AchillesSkills/cskills/context-loader/context.mjs:94 | the result neither starts nor ends with an underscore and holds only characters of the text |
| ContextLayout.Normalized | src/.AchillesSkills/cskills/context-loader/context.mjs:92-94 | the normalised name holds only letters, digits and underscores |
| ContextLayout.SafeBaseNameIsIdentifier | src/.AchillesSkills/cskills/context-loader/context.mjs:88-98 | the part after `spec_` is an identifier: it starts with a letter and holds only letters, digits and underscores |
| ContextLayout.SafeIsIdentifier | src/.AchillesSkills/cskills/context-loader/context.mjs:95-96 | `file` for an empty name and `F_` in front of a name not starting with a letter make an identifier of any normalised name |
| ContextLayout.CollapseAlnum | src/.AchillesSkills/cskills/context-loader/context.mjs:93 | a name of letters and digits passes through the collapse unchanged |
| ContextLayout.SafeBaseNameOfPlainFile | src/.AchillesSkills/cskills/context-loader/context.mjs:88-98 | the name for `dir/stem.ext`, with a stem of letters and digits starting with a letter and an extension of letters and digits, is `spec_stem` |
| ContextLayout.NormalizedAlnum | src/.AchillesSkills/cskills/context-loader/context.mjs:92-94 | a name of letters and digits is its own normalisation |
| ContextLayout.BaseNameOfPlain | src/.AchillesSkills/cskills/context-loader/context.mjs:89 | the base name of `dir/name` for a name without slashes is the name |
| ContextLayout.WithoutExtOfPlain | src/.AchillesSkills/cskills/context-loader/context.mjs:90-91 | removing the extension of `stem.ext` gives the stem |
| ContextLayout.NoSlashIsLastSegment | src/.AchillesSkills/cskills/context-loader/context.mjs:24 | the last slash-separated segment of `dir/name` is the name |
| ContextLayout.LastSegmentOfSlash | src/.AchillesSkills/cskills/context-loader/context.mjs:24 | a path with a slash has at least two segments |
| ContextLayout.LastDotAfter | src/.AchillesSkills/cskills/context-loader/context.mjs:90 | the last dot of `stem.ext`, for an extension without dots, is the one before the extension |
| ContextLayout.Token | src/.AchillesSkills/cskills/context-loader/context.mjs:102-106 | the token is the base for counter 0 and the base, a dash and the counter after that |
| ContextLayout.FarCounterIsFree | src/.AchillesSkills/cskills/context-loader/context.mjs:104 | a counter with more digits than the content has characters never clashes, so the token search terminates |
| ContextLayout.FreeCounterIsLeast | src/.AchillesSkills/cskills/context-loader/context.mjs:104-107 | the counter the search stops at is the least one from the start whose delimiter lines do not occur in the content |
| ContextLayout.HereDocToken | src/.AchillesSkills/cskills/context-loader/context.mjs:100-109 | the token loop returns the token of that least free counter |
| ContextLayout.HereDocTokenIsLeast | src/.AchillesSkills/cskills/context-loader/context.mjs:100-109 | the token is the base or base-k for the least k whose begin and end lines do not occur in the content |
| ContextLayout.NamedBlockSafe | src/.AchillesSkills/cskills/context-loader/context.mjs:117-128 | every block assigns the path to a safe identifier and encloses the content (when not empty) between begin and end lines of one token, neither of which occurs in the content |
| ContextLayout.EntryBlock | src/.AchillesSkills/cskills/context-loader/context.mjs:119-127 | the lines pushed for one entry are the specified block with the token the search finds |
| ContextLayout.NamedLinesOf | src/.AchillesSkills/cskills/context-loader/context.mjs:117-128 | the entry loop pushes one block per entry, in insertion order |
| ContextLayout.BuildNamedAssignString | src/.AchillesSkills/cskills/context-loader/context.mjs:111-131 | the lines joined by newlines; the empty text exactly for an empty map |
| ContextLayout.PlainLinesOf | src/.AchillesSkills/context-loader/context.mjs:94-103 | the entry loop pushes, per entry in insertion order, the path assign line, the begin line, the content when not empty, and the end line with the same random token |
| ContextLayout.BuildPlainAssignString | src/.AchillesSkills/context-loader/context.mjs:88-106 | the lines joined by newlines; the empty text exactly for an empty map |
| ContextLayout.JoinNonEmpty | src/.AchillesSkills/cskills/context-loader/context.mjs:130 | lines whose last one is not empty join to a non-empty text |
| ContextOptions.Defaults | src/.AchillesSkills/cskills/context-loader/src/parser.mjs:39-49 | the baseline options: directory `.`, depth 2, every other option unset |
| ContextOptions.TextOption | src/.AchillesSkills/cskills/context-loader/src/parser.mjs:54-59 | a text option is taken exactly when it is a string that is not blank, and then trimmed |
| ContextOptions.PositiveOption | src/.AchillesSkills/cskills/context-loader/src/parser.mjs:60-74 | a numeric option is taken exactly when its number is finite and positive |
| ContextOptions.NonBlankStrings | src/.AchillesSkills/cskills/context-loader/src/parser.mjs:77 | the kept include entries are the non-blank strings |
| ContextOptions.NonBlankStringsMembers | src/.AchillesSkills/cskills/context-loader/src/parser.mjs:77 | an entry is kept exactly when it is a non-blank string of the array |
| ContextOptions.TrimEach | src/.AchillesSkills/cskills/context-loader/src/parser.mjs:80 | each entry trimmed, one per entry |
| ContextOptions.TrimEachTrimmed | src/.AchillesSkills/cskills/context-loader/src/parser.mjs:80 | trimming entries that are already trimmed changes nothing |
| ContextOptions.CommaListEntries | src/.AchillesSkills/cskills/context-loader/src/parser.mjs:80 | the comma list holds trimmed, non-empty entries without commas |
| ContextOptions.CommaListOfJoin | src/.AchillesSkills/cskills/context-loader/src/parser.mjs:80 | trimmed non-empty entries without commas, joined by commas and split again, come back unchanged |
| ContextOptions.IncludeOptionEntries | src/.AchillesSkills/cskills/context-loader/src/parser.mjs:75-82 | the include list holds no blank entry; from an array it keeps only the array's own strings, from a string it holds trimmed comma-free parts |
| ContextOptions.AppliedValid | src/.AchillesSkills/cskills/context-loader/src/parser.mjs:51-85 | the defaults and every applied option record are valid: a trimmed non-empty directory, a positive depth, trimmed non-empty texts, positive numbers, non-blank includes |
| ContextOptions.AppliedNothing | src/.AchillesSkills/cskills/context-loader/src/parser.mjs:51-85 | options that name no known key leave the defaults |
| ContextOptions.ApplyDefaults | src/.AchillesSkills/cskills/context-loader/src/parser.mjs:51-85 | the field-by-field updates compute the specified options record |
| ContextParser.SplitAtOptionsFacts | src/.AchillesSkills/cskills/context-loader/src/parser.mjs:19-26 | the prompt is trimmed and holds no options marker; there is an options part exactly when the text has a marker, and it is trimmed |
| ContextParser.SplitInputPrompt | src/.AchillesSkills/cskills/context-loader/src/parser.mjs:13-26 | the prompt never holds an options or a depends-on marker and is trimmed |
| ContextParser.SplitInputReparse | src/.AchillesSkills/cskills/context-loader/src/parser.mjs:13-26 | splitting the prompt again gives it back with no options part |
| ContextParser.ParseInputFacts | src/.AchillesSkills/cskills/context-loader/src/parser.mjs:13-37 | the options are always valid; a parse error comes with the defaults and a non-empty options text; the prompt is trimmed and free of markers |
| ContextParser.ParseInputWithoutOptions | src/.AchillesSkills/cskills/context-loader/src/parser.mjs:18-23 | a text without markers gives its trimmed self as prompt, the defaults, no options text and no error |
| ContextParser.ParseInputReparse | src/.AchillesSkills/cskills/context-loader/src/parser.mjs:13-37 | parsing the prompt again gives it back with the defaults |
| ContextParser.ParseJsonInputFacts | src/.AchillesSkills/context-loader/parser.mjs:10-36 | the options are valid and the prompt trimmed and free of markers; with no options part, no braces or invalid JSON, the options are the defaults |
| ContextParser.SamePrompt | src/.AchillesSkills/context-loader/parser.mjs:10-23 | both copies of the parser cut the same prompt from a text |
| Json.JsonStrings | src/.AchillesSkills/context-loader/prompts.mjs:150-151 | one string value per text, in order |
| Json.LastIndexOf | src/.AchillesSkills/context-loader/prompts.mjs:135 | the last occurrence of the character, or none when it does not occur |
| Json.BraceSpan | src/.AchillesSkills/context-loader/prompts.mjs:135 | a brace span exists exactly when an opening brace comes before some closing brace, and it runs from the first opening brace to the last closing brace |
| Json.BraceSpanEnds | src/.AchillesSkills/context-loader/prompts.mjs:135 | the span starts with an opening and ends with a closing brace |
| Json.UnsignedDecimal | src/.AchillesSkills/cskills/context-loader/src/parser.mjs:61 | a decimal numeral without sign has a non-negative value |
| Json.NumberOfNatString | src/.AchillesSkills/cskills/context-loader/src/parser.mjs:61 | the number of a decimal numeral is its value |
| Json.NumberIgnoresPadding | src/.AchillesSkills/cskills/context-loader/src/parser.mjs:61 | whitespace around a numeral does not change its number |
| Prompts.RuleLines | src/.AchillesSkills/context-loader/prompts.mjs:24-41 | one constraint line per active rule |
| Prompts.OrderStep | src/.AchillesSkills/context-loader/prompts.mjs:26-40 | the constraint lines are built rule by rule in the fixed order |
| Prompts.ActiveRuleLines | src/.AchillesSkills/context-loader/prompts.mjs:26-40 | the lines are those of filter, exclude, maxFiles, include and dir, in that order, each present exactly when its rule is active |
| Prompts.NoActiveRules | src/.AchillesSkills/context-loader/prompts.mjs:42 | there are no lines exactly when no rule is active |
| Prompts.PushIf | src/.AchillesSkills/context-loader/prompts.mjs:26-27 | a rule's line is pushed exactly when the rule applies, after the lines already there |
| Prompts.BuildConstraintsSection | src/.AchillesSkills/context-loader/prompts.mjs:23-44 | the section is the heading, the lines joined by newlines and a final newline; it is the empty text exactly when no rule is active |
| Prompts.DefaultsHaveNoConstraints | src/.AchillesSkills/context-loader/prompts.mjs:23-44 | the default options give no constraints section |
| Prompts.NormalizeResponse | src/.AchillesSkills/context-loader/prompts.mjs:147-155 | the normalised files are all non-blank |
| Prompts.NonBlankStringsKeep | src/.AchillesSkills/context-loader/prompts.mjs:151 | non-blank strings pass the file filter unchanged |
| Prompts.NormalizeResponseObject | src/.AchillesSkills/context-loader/prompts.mjs:147-155 | a normalised response written back as an object normalises to itself |
| Prompts.ParseResponseFacts | src/.AchillesSkills/context-loader/prompts.mjs:126-145 | the files are always non-blank; a response that is not an object or a string, a string without braces, or braces that do not parse give the fallback response |
| Prompts.ParseResponseOfText | src/.AchillesSkills/context-loader/prompts.mjs:133-139 | a string whose brace span parses is read like the parsed object |
| Prompts.ParseResponseRoundTrip | src/.AchillesSkills/context-loader/prompts.mjs:126-155 | a normalised response given back as an object parses to itself |
| Prompts.AskLLMForFilesAnswer | src/.AchillesSkills/context-loader/prompts.mjs:5-16 | whatever the LLM answers, the files returned are non-blank; when the prompt chosen (the follow-up one exactly when the current context is truthy) is answered with the object form of a normalised response, that response is returned; a null, boolean or number answer gives the fallback response |
| Listing.LiteralMatch | src/skills/cskills/context-loader/src/listing.mjs:63-68 | a pattern without `*` and `?` matches exactly the name equal to it: every other character is literal and the whole name must match |
| Listing.StarMatch | src/skills/cskills/context-loader/src/listing.mjs:65 | `*` matches every name without a line terminator, the empty one included |
| Listing.StarSuffixMatch | src/skills/cskills/context-loader/src/listing.mjs:63-68 | `*` followed by a literal matches exactly the names ending in it whose rest has no line terminator |
| Listing.NoLineTerminatorCons | src/skills/cskills/context-loader/src/listing.mjs:65 | a text has no line terminator exactly when neither its first character nor its rest has one |
| Listing.Slashes | src/skills/cskills/context-loader/src/listing.mjs:77 | every backslash becomes a slash and every other character stays |
| Listing.ExclusionsOfJoined | src/skills/cskills/context-loader/src/listing.mjs:76-79 | exclusions apply to a path of plain segments exactly when none of its segments is an excluded directory |
| Listing.NoneExcludedNonEmpty | src/skills/cskills/context-loader/src/listing.mjs:77-78 | dropping the empty segments does not change the exclusion test |
| Listing.SegmentsOfJoin | src/skills/cskills/context-loader/src/listing.mjs:77 | the segments of plain names joined by slashes are those names, empty ones dropped |
| Listing.JoinNoBackslash | src/skills/cskills/context-loader/src/listing.mjs:77 | names without backslashes joined by slashes hold no backslash |
| Listing.SlashesOfPlain | src/skills/cskills/context-loader/src/listing.mjs:77 | a path without backslashes is unchanged by the slash conversion |
| Listing.ExclusionsIgnoreBackslashes | src/skills/cskills/context-loader/src/listing.mjs:76-79 | a backslash counts as a slash in the exclusion test |
| Listing.Lister.constructor | src/skills/cskills/context-loader/src/listing.mjs:19 | the listing starts empty |
| Listing.Lister.Walk | src/skills/cskills/context-loader/src/listing.mjs:23-48 | a walk appends exactly the paths the specification lists for the directory at that depth |
| Listing.Lister.WalkEntries | src/skills/cskills/context-loader/src/listing.mjs:30-47 | the loop over the entries appends their listed paths, in order |
| Listing.Lister.VisitEntry | src/skills/cskills/context-loader/src/listing.mjs:31-46 | one entry appends its listed paths: a kept directory before its contents, a kept file alone |
| Listing.EntriesStep | src/skills/cskills/context-loader/src/listing.mjs:30-47 | the paths of the first k+1 entries are those of the first k followed by those of entry k |
| Listing.PathsAppend | src/skills/cskills/context-loader/src/listing.mjs:40-45 | the paths of two listings are the paths of each, in order |
| Listing.List | src/skills/cskills/context-loader/src/listing.mjs:13-52 | listing a directory returns the specified paths |
| Listing.ChildPathSegments | src/skills/cskills/context-loader/src/listing.mjs:34 | a child path has the parent's segments followed by the child's name |
| Listing.WithinChild | src/skills/cskills/context-loader/src/listing.mjs:34-41 | a kept directory's child path is one level deeper and made of kept directory names |
| Listing.WalkedOk | src/skills/cskills/context-loader/src/listing.mjs:23-48 | every listed path has at most the depth limit of segments, ends with its entry's name, passes the exclusion, hidden-directory, exclude and filter rules, and lies under kept directories |
| Listing.EntriesOk | src/skills/cskills/context-loader/src/listing.mjs:30-47 | every path listed from a list of entries satisfies those rules |
| Listing.VisitOk | src/skills/cskills/context-loader/src/listing.mjs:31-46 | every path listed from one entry satisfies those rules |
| Listing.ListedPaths | src/skills/cskills/context-loader/src/listing.mjs:24-50 | every path of a listing has between one and the depth limit of segments and satisfies the filtering rules |
| Listing.ParentOfChild | src/skills/cskills/context-loader/src/listing.mjs:34 | the parent path of a child path is the directory's path |
| Listing.ParentsFirstAppend | src/skills/cskills/context-loader/src/listing.mjs:40-41 | two listings that each list parents first still do so when joined |
| Listing.ParentsFirstUnder | src/skills/cskills/context-loader/src/listing.mjs:40-41 | a directory listed before its contents keeps the parents-first order |
| Listing.WalkedParentsFirst | src/skills/cskills/context-loader/src/listing.mjs:39-41 | a walk lists every directory before its contents |
| Listing.EntriesParentsFirst | src/skills/cskills/context-loader/src/listing.mjs:30-47 | a list of entries lists every directory before its contents |
| Listing.VisitParentsFirst | src/skills/cskills/context-loader/src/listing.mjs:39-46 | one entry lists a directory before its contents |
| Listing.ListedParentsFirst | src/skills/cskills/context-loader/src/listing.mjs:39-50 | in a listing every path's parent is the root or a directory listed earlier |
| Listing.FilterOnlyFiles | src/skills/cskills/context-loader/src/listing.mjs:43-44 | the filter drops only files: a walk with the filter is the walk without it, minus the files whose name fails it |
| Listing.EntriesOnlyFiles | src/skills/cskills/context-loader/src/listing.mjs:43-44 | the same holds for a list of entries |
| Listing.VisitOnlyFiles | src/skills/cskills/context-loader/src/listing.mjs:43-44 | the same holds for one entry |
| OptionsParser.StripDependsOn | src/utils/optionsParser.mjs:1-8 | the result is a prefix of the input holding no word-bounded, case-insensitive `dependsOn:` marker: the input itself when there is none, and otherwise exactly the text before the first marker with its trailing whitespace removed |
| OptionsParser.StripDependsOnIdempotent | src/utils/optionsParser.mjs:1-8 | stripping twice is stripping once |
| OptionsParser.Unescape | src/utils/optionsParser.mjs:36-44 | `\n`, `\r` and `\t` stand for the line feed, carriage return and tab; any other escaped character stands for itself |
| OptionsParser.ReadQuoted | src/utils/optionsParser.mjs:23-58 | a quoted token ends just after a closing quote of the same kind; the only errors are the invalid-escape and unterminated-string messages |
| OptionsParser.Escape | src/utils/optionsParser.mjs:36-44 | how a character is written inside quotes: one or two characters, a backslash first when two |
| OptionsParser.ReadBackslash | src/utils/optionsParser.mjs:36-44 | a backslash and the character after it are read as the unescaped character |
| OptionsParser.ReadPlain | src/utils/optionsParser.mjs:46-49 | a character that is neither a backslash nor the closing quote is read as itself |
| OptionsParser.EscapeStep | src/utils/optionsParser.mjs:23-58 | the escape of a character is read back as that character, and reading goes on after it |
| OptionsParser.EscapedHead | src/utils/optionsParser.mjs:23-58 | the first character of an escaped value is read back, and the escapes of the rest follow it |
| OptionsParser.ReadEscaped | src/utils/optionsParser.mjs:23-58 | an escaped value is read back character by character, whatever follows it |
| OptionsParser.QuotedRoundTrip | src/utils/optionsParser.mjs:23-58 | a value written with its escapes and closed by its quote is read back exactly, ending just after the quote |
| OptionsParser.QuotedTrailingBackslash | src/utils/optionsParser.mjs:36-38 | a backslash as the last character is the invalid-escape error |
| OptionsParser.QuotedUnterminated | src/utils/optionsParser.mjs:23-58 | a value never closed by its quote is the unterminated-string error |
| OptionsParser.TokensOfQuoted | src/utils/optionsParser.mjs:10-72 | any value, quoted with its escapes, tokenizes back to itself as the only token |
| OptionsParser.PrefixedTwice | src/utils/optionsParser.mjs:44-53 | adding characters to a token value in two steps is adding them at once |
| OptionsParser.BareEnd | src/utils/optionsParser.mjs:63-67 | an unquoted token runs up to the next whitespace character or the end, and holds no whitespace |
| OptionsParser.NextToken | src/utils/optionsParser.mjs:23-68 | every token read moves the cursor strictly forward, so the tokenizer terminates |
| OptionsParser.PrependTwice | src/utils/optionsParser.mjs:59-68 | pushing tokens in two steps is pushing them at once |
| OptionsParser.SkipWhitespace | src/utils/optionsParser.mjs:16-18 | the whitespace loop stops at the first other character |
| OptionsParser.ScanQuoted | src/utils/optionsParser.mjs:24-58 | the quoted-token loop computes the specified value, end and errors |
| OptionsParser.ScanBare | src/utils/optionsParser.mjs:63-67 | the unquoted-token loop reads the run of non-whitespace characters |
| OptionsParser.Tokenize | src/utils/optionsParser.mjs:10-72 | the tokenizer loop computes the specified tokens or error |
| OptionsParser.KeyOf | src/utils/optionsParser.mjs:92-98 | a key is a token ending in a colon whose rest, trimmed, is not empty |
| OptionsParser.PairsFromKeys | src/utils/optionsParser.mjs:90-116 | every pair found has a trimmed non-empty key, allowed when there is an allowlist |
| OptionsParser.KeyOfKey | src/utils/optionsParser.mjs:92-95 | a trimmed non-empty key followed by a colon is read back as that key |
| OptionsParser.PairsStep | src/utils/optionsParser.mjs:90-116 | a token that is not a key is skipped; an unknown key fails with its message; a key at the end fails with the missing-value message; otherwise the next token is its value, consumed even if it ends in a colon |
| OptionsParser.CollectSnoc | src/utils/optionsParser.mjs:107-114 | pairs are stored one after the other |
| OptionsParser.CollectValues | src/utils/optionsParser.mjs:107-114 | a repeatable key collects all its values in order; any other key keeps its last value; a key without pairs is absent |
| OptionsParser.CollectOptions | src/utils/optionsParser.mjs:89-122 | the pair loop computes the specified options, failing when no pair is found |
| OptionsParser.ParseKeyValueOptions | src/utils/optionsParser.mjs:74-123 | blank input gives no options; otherwise the tokens are read into the specified options or error |
| OptionsParser.PairTokens | src/utils/optionsParser.mjs:90-116 | two tokens per pair |
| OptionsParser.TokensAfterSpace | src/utils/optionsParser.mjs:16-18 | whitespace before a token is skipped |
| OptionsParser.TokensBareStep | src/utils/optionsParser.mjs:63-68 | an unquoted token is followed by the tokens after it |
| OptionsParser.TokensWordThenRest | src/utils/optionsParser.mjs:63-68 | a word followed by whitespace and more tokens is read as that word and those tokens |
| OptionsParser.TokensLastWord | src/utils/optionsParser.mjs:63-68 | a word at the end is the last token |
| OptionsParser.BareWordAt | src/utils/optionsParser.mjs:63-67 | a bare word in the text starts with a character that is not a quote and holds no whitespace |
| OptionsParser.WordsJoined | src/utils/optionsParser.mjs:10-72 | a text of words joined by spaces holds the first word, then a space and the rest |
| OptionsParser.WordsLayout | src/utils/optionsParser.mjs:10-72 | the same layout seen by the tokenizer: a bare first word, then whitespace and the rest |
| OptionsParser.TokensOfWords | src/utils/optionsParser.mjs:10-72 | bare words joined by spaces tokenize back to those words |
| OptionsParser.BareEndOver | src/utils/optionsParser.mjs:64-67 | a run of non-whitespace characters ends where the whitespace starts |
| OptionsParser.PairsOfPairTokens | src/utils/optionsParser.mjs:90-116 | the tokens of pairs with trimmed, non-empty, allowed keys are read back as those pairs |
| OptionsParser.PairsFromShift | src/utils/optionsParser.mjs:90-116 | reading pairs from a position is reading them from the tokens that remain |
| OptionsParser.OptionsRoundTrip | src/utils/optionsParser.mjs:74-123 | pairs of bare keys and values, written `key: value` separated by spaces, parse back to the options those pairs make |
| OptionsParser.PairTokensBare | src/utils/optionsParser.mjs:10-72 | the tokens of pairs of bare words are bare words |
| OptionsParser.JoinBareTrimmed | src/utils/optionsParser.mjs:75 | bare words joined by spaces make a trimmed text |
| OptionsParser.KeyRunEnd | src/utils/optionsParser.mjs:134 | the key of the fallback runs over letters, digits, `_` and `-` up to the first other character |
| OptionsParser.KeyPrefix | src/utils/optionsParser.mjs:134 | the `key:` prefix the fallback expression matches: a non-empty run of key characters not followed by another one, then a colon with only whitespace around it, and the value starting at the first other character; no prefix exactly when the text does not start that way |
| OptionsParser.ParsedWithMultiline | src/utils/optionsParser.mjs:125-161 | a strict success is returned as is; a strict error is returned as is unless the text starts with a `key:` prefix of an allowed multiline key, in which case the result is that key with the rest of the trimmed text as its value, or the missing-value error when nothing follows |
| OptionsParser.MultilineFallback | src/utils/optionsParser.mjs:125-161 | when the strict parse fails on `key: value` for an allowed multiline key, the result is that key with the value verbatim |
| OptionsParser.MarkerLayout | src/utils/optionsParser.mjs:134-154 | in `key: value` the fallback finds the key, the colon and the value where they are |
| OptionsParser.KeyRunEndAt | src/utils/optionsParser.mjs:134 | the key run ends at the first character that cannot be in a key |
| OptionsParser.KeyRunEndFrom | src/utils/optionsParser.mjs:134 | the same from any position inside the run |
| CreateSrcSpecs.DropCR | src/.AchillesSkills/create-src-specs/index.mjs:35 | at most one carriage return is dropped, and only at the end |
| CreateSrcSpecs.SplitLines | src/.AchillesSkills/create-src-specs/index.mjs:35 | there is one line per `\n`-separated piece |
| CreateSrcSpecs.JoinCRLF | src/.AchillesSkills/create-src-specs/index.mjs:35 | lines joined by `\r\n` are the same text as the lines with `\r` added, joined by `\n` |
| CreateSrcSpecs.SplitLinesCRLF | src/.AchillesSkills/create-src-specs/index.mjs:35 | lines joined by `\r\n` split back into those lines |
| CreateSrcSpecs.SplitLinesLF | src/.AchillesSkills/create-src-specs/index.mjs:35 | lines joined by `\n`, none but the last ending in `\r`, split back into those lines |
| CreateSrcSpecs.TailPath | src/.AchillesSkills/create-src-specs/index.mjs:4 | a path read from a marker is trimmed and holds no line break |
| CreateSrcSpecs.MarkerPath | src/.AchillesSkills/create-src-specs/index.mjs:40-45 | the same for a whole marker line |
| CreateSrcSpecs.MarkerPathFraming | src/.AchillesSkills/create-src-specs/index.mjs:4 | only a whole line that starts with `<!--` and ends with `-->` is a marker |
| CreateSrcSpecs.MarkerTailOf | src/.AchillesSkills/create-src-specs/index.mjs:4 | the text after `<!--`, spaces and `FILE:` up to the closing `-->` is the marker's tail |
| CreateSrcSpecs.MarkerPathOfMarker | src/.AchillesSkills/create-src-specs/index.mjs:4 | `<!-- FILE: path -->` with any spacing gives back the trimmed, non-empty path |
| CreateSrcSpecs.Classify | src/.AchillesSkills/create-src-specs/index.mjs:40-49 | a line that is not a marker is kept as text; a marker carries a trimmed path |
| CreateSrcSpecs.ClassifyAll | src/.AchillesSkills/create-src-specs/index.mjs:39-40 | each line is classified on its own |
| CreateSrcSpecs.ClassifyAppend | src/.AchillesSkills/create-src-specs/index.mjs:39-40 | classifying two runs of lines is classifying them together |
| CreateSrcSpecs.ParseFilesFromMarkdown | src/.AchillesSkills/create-src-specs/index.mjs:33-57 | the line loop computes the specified files |
| CreateSrcSpecs.RunSkipsPreamble | src/.AchillesSkills/create-src-specs/index.mjs:47-49 | text lines before the first marker leave the scan unchanged |
| CreateSrcSpecs.PreambleDropped | src/.AchillesSkills/create-src-specs/index.mjs:47-49 | lines before the first marker add nothing to the files |
| CreateSrcSpecs.NoMarkerNoFiles | src/.AchillesSkills/create-src-specs/index.mjs:39-56 | text without marker lines gives no files |
| CreateSrcSpecs.RunCollectsTexts | src/.AchillesSkills/create-src-specs/index.mjs:47-48 | text lines after a marker are collected in order |
| CreateSrcSpecs.RunShift | src/.AchillesSkills/create-src-specs/index.mjs:43 | files already found do not affect the rest of the scan |
| CreateSrcSpecs.RunClosesFile | src/.AchillesSkills/create-src-specs/index.mjs:41-53 | a file ends at the next marker or at the end of the text |
| CreateSrcSpecs.RunChunk | src/.AchillesSkills/create-src-specs/index.mjs:39-54 | a marker and the text lines after it make one file, followed by the files of the rest |
| CreateSrcSpecs.MarkerChunk | src/.AchillesSkills/create-src-specs/index.mjs:39-54 | a marker line followed by non-marker lines gives, in marker order, the file with its trimmed path and its lines joined by `\n` and trimmed (none when the path is empty), then the files of the rest |
| CreateSrcSpecs.FlushKeepsGood | src/.AchillesSkills/create-src-specs/index.mjs:42-53 | closing a file keeps every path trimmed and non-empty and every content trimmed |
| CreateSrcSpecs.StepKeepsGood | src/.AchillesSkills/create-src-specs/index.mjs:40-49 | one line keeps that invariant |
| CreateSrcSpecs.RunKeepsGood | src/.AchillesSkills/create-src-specs/index.mjs:39-50 | the whole loop keeps it |
| CreateSrcSpecs.FilesWellFormed | src/.AchillesSkills/create-src-specs/index.mjs:33-57 | every file parsed from any text has a trimmed, non-empty, single-line path and trimmed content |
| CreateSrcSpecs.StripLeadingSlashes | src/.AchillesSkills/create-src-specs/index.mjs:138 | exactly the leading run of `/` and `\` is removed |
| CreateSrcSpecs.RemoveDotDot | src/.AchillesSkills/create-src-specs/index.mjs:138 | removing `..` never makes the text longer and keeps a first character that is not a dot |
| CreateSrcSpecs.RemoveDotDotLeavesNone | src/.AchillesSkills/create-src-specs/index.mjs:138 | no `..` is left after the removal |
| CreateSrcSpecs.RemoveDotDotKeepsOthers | src/.AchillesSkills/create-src-specs/index.mjs:138 | only dots are removed: every other character stays, in order |
| CreateSrcSpecs.RemoveDotDotClean | src/.AchillesSkills/create-src-specs/index.mjs:138 | a text without `..` is unchanged |
| CreateSrcSpecs.SanitizePath | src/.AchillesSkills/create-src-specs/index.mjs:138 | the sanitised path is never longer |
| CreateSrcSpecs.SanitizePathFacts | src/.AchillesSkills/create-src-specs/index.mjs:138 | a sanitised path holds no `..`, and a path without a leading slash and without `..` is unchanged |
| CreateSrcSpecs.SanitizedPathCanLeadWithSlash | src/.AchillesSkills/create-src-specs/index.mjs:138 | `../rest` becomes `/` followed by the cleaned rest, so the result can start with a slash again |
| CreateSrcSpecs.WrittenPaths | src/.AchillesSkills/create-src-specs/index.mjs:144-147 | one written path per file, in order |
| CreateSrcSpecs.Action | src/.AchillesSkills/create-src-specs/index.mjs:96-148 | a missing, non-string or empty prompt fails with the prompt error; an agent without `executePrompt` fails with the agent error; a blank answer fails with the empty-response error; an answer without files fails with the no-files error; otherwise one write per parsed file, in order, at its sanitised path, and the summary of those paths |
| CreateSrcSpecs.WriteFiles | src/.AchillesSkills/create-src-specs/index.mjs:137-145 | the write loop makes one write per file, in order, at the sanitised path with the file's content |
| ParseFileMarkers.IndexOf | src/.AchillesSkills/parse-file-markers/index.mjs:3 | the first occurrence at or after a position, or none |
| ParseFileMarkers.ContentOf | src/.AchillesSkills/parse-file-markers/index.mjs:3-5 | without `content:` followed by at least one character the format error is returned; otherwise the trimmed text after the first `content:` |
| ParseFileMarkers.ContentOfText | src/.AchillesSkills/parse-file-markers/index.mjs:3-5 | the text after the first `content:`, trimmed, is the content |
| ParseFileMarkers.LineEnd | src/.AchillesSkills/parse-file-markers/index.mjs:7 | a line ends at the first line terminator or at the end |
| ParseFileMarkers.LineMarkers | src/.AchillesSkills/parse-file-markers/index.mjs:7-12 | the marker matches the global, multi-line regex finds lie inside the content |
| ParseFileMarkers.LineMarkerIsMarkerLine | src/.AchillesSkills/parse-file-markers/index.mjs:7 | every match is a whole line, between line terminators, that reads as a marker |
| ParseFileMarkers.LaterMarkerIsMarkerLine | src/.AchillesSkills/parse-file-markers/index.mjs:7 | the same for the matches after the first line |
| ParseFileMarkers.LineMarkersShift | src/.AchillesSkills/parse-file-markers/index.mjs:7 | the matches after the first line are the matches from the next line |
| ParseFileMarkers.MarkerLineAt | src/.AchillesSkills/parse-file-markers/index.mjs:7 | a marker at the start of a line is the first match |
| ParseFileMarkers.LineMarkersOrdered | src/.AchillesSkills/parse-file-markers/index.mjs:7-9 | the matches come in order and do not overlap |
| ParseFileMarkers.Slice | src/.AchillesSkills/parse-file-markers/index.mjs:14 | `slice` of a range in bounds is that part, and empty for a reversed range |
| ParseFileMarkers.MarkerLoop | src/.AchillesSkills/parse-file-markers/index.mjs:9-15 | the loop over the regex's `lastIndex` computes the specified outcome within the given number of rounds |
| ParseFileMarkers.Action | src/.AchillesSkills/parse-file-markers/index.mjs:1-17 | a prompt without content fails with the format error; otherwise the loop runs over the marker lines of the trimmed content |
| ParseFileMarkers.IteratePairs | src/.AchillesSkills/parse-file-markers/index.mjs:9-15 | each round consumes two markers, so an even number of markers ends with one entry per pair |
| ParseFileMarkers.AllPairsDone | src/.AchillesSkills/parse-file-markers/index.mjs:9 | once every marker is consumed the next search fails and the loop returns its entries |
| ParseFileMarkers.PairStep | src/.AchillesSkills/parse-file-markers/index.mjs:9-14 | one round stores the entry of markers 2i+1 and 2i+2 and moves past both |
| ParseFileMarkers.EvenMarkersPair | src/.AchillesSkills/parse-file-markers/index.mjs:9-16 | with 2n markers the loop stops with the entries of the n pairs |
| ParseFileMarkers.PairsKeys | src/.AchillesSkills/parse-file-markers/index.mjs:10-14 | the keys are exactly the paths of markers 1, 3, …, 2n−1 |
| ParseFileMarkers.PairsLastWins | src/.AchillesSkills/parse-file-markers/index.mjs:14 | the entry of a path is the text after its last odd-numbered marker up to the next marker, trimmed |
| ParseFileMarkers.NoMarkersNoFiles | src/.AchillesSkills/parse-file-markers/index.mjs:9-16 | content without markers gives no entries |
| ParseFileMarkers.OddMarkersKeepGoing | src/.AchillesSkills/parse-file-markers/index.mjs:9-12 | with an odd number of markers, a round that starts at an even position never reaches the end |
| ParseFileMarkers.OddMarkersNeverStop | src/.AchillesSkills/parse-file-markers/index.mjs:9-12 | with an odd number of markers the loop never terminates, however many rounds it is given |
| ParseFileMarkers.OneLineMarker | src/.AchillesSkills/parse-file-markers/index.mjs:7 | a content that is one marker line has exactly that match |
| ParseFileMarkers.LineEndWhole | src/.AchillesSkills/parse-file-markers/index.mjs:7 | text without line terminators is one line |
| ParseFileMarkers.IntendedFilesComplete | src/.AchillesSkills/parse-file-markers/index.mjs:9-15 | in the corrected loop every marker's path is a key, and the last marker for a path gives its text up to the next marker, trimmed |
| ParseFileMarkers.IntendedFilesKeys | src/.AchillesSkills/parse-file-markers/index.mjs:9-15 | in the corrected loop every key is the path of some marker |
| ParseFileMarkers.IntendedLoop | src/.AchillesSkills/parse-file-markers/index.mjs:9-15 | the corrected loop, which takes the next marker without consuming it, computes the corrected entries |
| ParseFileMarkers.IntendedAction | src/.AchillesSkills/parse-file-markers/index.mjs:1-17 | the corrected action: the format error, or the corrected entries of the marker lines |
| ParseFileMarkers.SecondFileDropped | src/.AchillesSkills/parse-file-markers/index.mjs:9-15 | with two markers the loop keeps only the first file, while the corrected loop keeps both |
| QualityExpert.ProfileOf | src/skills/cskills/quality-expert/src/index.mjs:20-33 | `ds` and `fds` select their profiles whatever the surrounding whitespace and ASCII case; `docs` and `code` fail with the unsupported-profile message, anything else with the unknown-profile message, both quoting the profile as given |
| QualityExpert.ProfileIgnoresSpelling | src/.AchillesSkills/quality-expert/index.mjs:25-37 | spellings that agree up to whitespace and case select the same profile |
| QualityExpert.NextField | src/skills/cskills/quality-expert/src/index.mjs:41 | the first `word:` marker at or after a position, with the spaces after it, and none before it |
| QualityExpert.MatchFields | src/skills/cskills/quality-expert/src/index.mjs:41-48 | the three fields of a match are trimmed |
| QualityExpert.ParseInput | src/skills/cskills/quality-expert/src/index.mjs:35-60 | blank input fails with the missing-input message; a success has a non-empty file content and profile (and, in the second copy, a non-empty context), all trimmed; the only errors are the missing-input, format, missing-file-content, missing-profile and missing-context messages |
| QualityExpert.LowerLetter | src/.AchillesSkills/quality-expert/index.mjs:44 | lower-casing keeps an ASCII letter a letter |
| QualityExpert.WordLetter | src/.AchillesSkills/quality-expert/index.mjs:44 | a marker word spelt in the text consists of letters |
| QualityExpert.MarkerBeforeBreak | src/skills/cskills/quality-expert/src/index.mjs:41 | a marker before a line break followed by a letter is found in the text up to the break |
| QualityExpert.WordBeforeBreak | src/skills/cskills/quality-expert/src/index.mjs:41 | a marker word does not run over a line break |
| QualityExpert.MarkerInFront | src/skills/cskills/quality-expert/src/index.mjs:41 | a marker inside a slice is found in the slice |
| QualityExpert.WordInFront | src/skills/cskills/quality-expert/src/index.mjs:41 | a word inside a slice is found in the slice |
| QualityExpert.SkipSpacesBefore | src/skills/cskills/quality-expert/src/index.mjs:41 | skipping spaces in a slice ends where it does in the whole text, or at the slice's end |
| QualityExpert.NoMarkerUpToBreak | src/skills/cskills/quality-expert/src/index.mjs:41 | a field with no marker in it has none up to the line break either |
| QualityExpert.SkipSpacesOver | src/skills/cskills/quality-expert/src/index.mjs:41 | the spaces after a colon are skipped up to the first other character |
| QualityExpert.SpelledMarker | src/skills/cskills/quality-expert/src/index.mjs:41 | a word, a colon and spaces make a marker that ends after the spaces |
| QualityExpert.LeadingMarker | src/skills/cskills/quality-expert/src/index.mjs:41 | a marker at the start is the first field marker |
| QualityExpert.MarkerAfterBreak | src/skills/cskills/quality-expert/src/index.mjs:41 | a marker at the start of a line, after a field without one, is the next field marker |
| QualityExpert.SpelledIsLetter | src/.AchillesSkills/quality-expert/index.mjs:44 | a marker word begins with a letter, never a space or a colon |
| QualityExpert.FirstMatch | src/skills/cskills/quality-expert/src/index.mjs:41 | the first marker position is the one found |
| QualityExpert.TrimBeforeBreak | src/skills/cskills/quality-expert/src/index.mjs:50 | a trimmed field followed by a line break trims to itself |
| QualityExpert.MatchLaidOut | src/skills/cskills/quality-expert/src/index.mjs:41-50 | three markers laid out on separate lines give the three trimmed fields between them |
| QualityExpert.MatchWithAt | src/skills/cskills/quality-expert/src/index.mjs:41-50 | the fields are the trimmed texts between the markers found one after the other |
| QualityExpert.LayoutSlices | src/skills/cskills/quality-expert/src/index.mjs:41 | where each marker and field lies in the laid-out text |
| QualityExpert.ParseLaidOut | src/skills/cskills/quality-expert/src/index.mjs:35-60 | `fileContent: …`, `profile: …` and `context: …` on three lines, with any spaces after the colons, parse back to the trimmed, non-empty fields, except that the second copy rejects an empty context with its own message |
| QualityExpert.MatchOfLayout | src/.AchillesSkills/quality-expert/index.mjs:39-61 | the same for the match, in either spelling of the marker words |
| QualityExpert.LaidOutIsTrimmed | src/skills/cskills/quality-expert/src/index.mjs:36 | the laid-out text is already trimmed |
| QualityExpert.Review | src/skills/cskills/quality-expert/src/index.mjs:82-104 | a success needs a response that parses to a string `content`, and is that content or the original file content; the first copy keeps the file only when the content is empty, the second also when it is blank; no response is an error |
| QualityExpert.NoChangeKeepsFile | src/skills/cskills/quality-expert/src/index.mjs:88-103 | an empty `content` gives back the original file content |
| QualityExpert.BlankContentDiffers | src/.AchillesSkills/quality-expert/index.mjs:86-89 | a blank but non-empty `content` is kept by the first copy and replaced by the file content in the second |
| QualityExpert.Execute | src/skills/cskills/quality-expert/src/index.mjs:82-104 | input errors come first, then profile errors; a success is the review of the parsed file content |
| QualityExpert.Action | src/skills/cskills/quality-expert/src/index.mjs:106-113 | without an agent or a non-empty prompt the action fails with the missing-agent message; a success is the review of the prompt without its dependency annotations |
| BacklogRoundTrip.AppendItemIsLines | src/BacklogManager/backlogIO.mjs:110-113 | an item adds its numbered line and, when it has details, one indented detail line |
| BacklogRoundTrip.AppendItemsIsLines | src/BacklogManager/backlogIO.mjs:109-114 | the items of a block add their lines in order |
| BacklogRoundTrip.AppendBlockIsLines | src/BacklogManager/backlogIO.mjs:107-116 | a non-empty block adds its marker line, its item lines and a blank line; an empty block adds nothing |
| BacklogRoundTrip.LineAndBlank | src/BacklogManager/backlogIO.mjs:104-106 | each of the header, description and status writes adds its line and a blank line |
| BacklogRoundTrip.AppendSectionIsLines | src/BacklogManager/backlogIO.mjs:104-127 | one section adds the header, description, status, issue, option and resolution lines, each field line followed by a blank line |
| BacklogRoundTrip.RawTextStep | src/BacklogManager/backlogIO.mjs:103-128 | each round of the render loop adds the lines of one section |
| BacklogRoundTrip.RawTextIsLines | src/BacklogManager/backlogIO.mjs:101-128 | the untrimmed text is the lines of all sections, in key order |
| BacklogRoundTrip.BlankLineSkipped | src/BacklogManager/backlogIO.mjs:37-65 | a blank line inside a section changes nothing |
| BacklogRoundTrip.DescriptionLineSets | src/BacklogManager/backlogIO.mjs:39-41 | a written description line sets the description and its field |
| BacklogRoundTrip.StatusLineSets | src/BacklogManager/backlogIO.mjs:42-44 | a written status line sets the status and its field |
| BacklogRoundTrip.ResolutionLineSets | src/BacklogManager/backlogIO.mjs:49-51 | a written resolution line, with or without the space the final trim removes, sets the resolution and its field |
| BacklogRoundTrip.DigitRunOfDigits | src/BacklogManager/backlogIO.mjs:52 | the digit run of a written number followed by a non-digit is the number |
| BacklogRoundTrip.ItemLineTitle | src/BacklogManager/backlogIO.mjs:84-86 | a written item line passes the item-line test and gives back its title |
| BacklogRoundTrip.ItemLineIsNoMarker | src/BacklogManager/backlogIO.mjs:37-51 | a written item line is neither a header nor a field marker |
| BacklogRoundTrip.DetailsOfItem | src/BacklogManager/backlogIO.mjs:89-98 | the detail loop after a written item reads its one detail line, if any, and stops at the next line |
| BacklogRoundTrip.ItemRead | src/BacklogManager/backlogIO.mjs:82-99 | `parseNumberedItem` on a written item gives back its title and details and consumes exactly its lines |
| BacklogRoundTrip.PlainLineStep | src/BacklogManager/backlogIO.mjs:52-65 | a line that is neither a header nor a field marker goes to the content branches |
| BacklogRoundTrip.ItemContentStep | src/BacklogManager/backlogIO.mjs:52-59 | an item line under its block's field adds the item `parseNumberedItem` reads, numbered one past the list |
| BacklogRoundTrip.ItemsStep | src/BacklogManager/backlogIO.mjs:52-59 | the item lines of a block are read as the items written, in order, when they are numbered on from the list |
| BacklogRoundTrip.CanonicalNumbered | src/BacklogManager/backlogIO.mjs:54-58 | a list numbered 1, 2, 3, ... is numbered on from every position |
| BacklogRoundTrip.MarkerSets | src/BacklogManager/backlogIO.mjs:45-48 | a written block marker switches to its list's field |
| BacklogRoundTrip.HeadReads | src/BacklogManager/backlogIO.mjs:38-44 | the lines after a header give back the description and the status |
| BacklogRoundTrip.BlockReads | src/BacklogManager/backlogIO.mjs:107-126 | a written issues or options block is read back as its list |
| BacklogRoundTrip.TailReads | src/BacklogManager/backlogIO.mjs:127 | the written resolution line, and the blank line after it, end the section with its resolution |
| BacklogRoundTrip.MiddleReads | src/BacklogManager/backlogIO.mjs:104-126 | the lines between a header and its resolution give back the description, status, issues and options |
| BacklogRoundTrip.BodyReads | src/BacklogManager/backlogIO.mjs:37-66 | the body of a written section is read back as the final draft of that section, ending at the next header or the end |
| BacklogRoundTrip.HeaderKeyOf | src/BacklogManager/backlogIO.mjs:25-26 | a header written for a trimmed one-line key gives the key back |
| BacklogRoundTrip.FinishFinal | src/BacklogManager/backlogIO.mjs:67-74 | the section stored from the final draft is the one written |
| BacklogRoundTrip.SectionParses | src/BacklogManager/backlogIO.mjs:23-78 | the outer loop reads one written section and stores it under its key |
| BacklogRoundTrip.ParseSections | src/BacklogManager/backlogIO.mjs:23-78 | parsing the lines of the sections from any one on adds them in key order |
| BacklogRoundTrip.LinesFromNoNewlines | src/BacklogManager/backlogIO.mjs:21 | no written line holds the newline the split cuts at |
| BacklogRoundTrip.RawTextIsJoin | src/BacklogManager/backlogIO.mjs:101-128 | the untrimmed text is the written lines, each with a newline, then the last resolution line and the padding the final trim removes |
| BacklogRoundTrip.JoinedTrimmed | src/BacklogManager/backlogIO.mjs:129 | lines starting with `#` and ending in a non-space character, joined, are already trimmed |
| BacklogRoundTrip.RenderedIsJoin | src/BacklogManager/backlogIO.mjs:101-130 | `render` writes the rendered lines joined by newlines |
| BacklogRoundTrip.RoundTrip | src/BacklogManager/backlogIO.mjs:19-130 | parsing what `render` writes gives back the same sections, when every key and text field is one trimmed line, every title is non-empty, every section is named by its key and every list is numbered 1, 2, 3, ... with an empty item status |
| BacklogGrammar.NextHeader | src/BacklogManager/backlogIO.mjs:37 | the first header line at or after a position, or the end: no line before it is a header |
| BacklogGrammar.NextHeaderSkip | src/BacklogManager/backlogIO.mjs:37 | skipping lines that are not headers does not change the next header |
| BacklogGrammar.DetailNotHeader | src/BacklogManager/backlogIO.mjs:91 | an indented detail line never opens a section |
| BacklogGrammar.BodyStepNoHeader | src/BacklogManager/backlogIO.mjs:37-65 | one step of the section loop reads no header line |
| BacklogGrammar.BodyEndsAtNextHeader | src/BacklogManager/backlogIO.mjs:37-66 | the body of a section ends at the next header line, or at the end of the text |
| BacklogGrammar.PreambleIgnored | src/BacklogManager/backlogIO.mjs:23-77 | lines before the first header belong to no section |
| BacklogGrammar.NoHeaderNoSections | src/BacklogManager/backlogIO.mjs:19-80 | a text without a header line parses to no sections |
| BacklogGrammar.AddKeys | src/BacklogManager/backlogIO.mjs:67 | keys added to an object keep the old keys first and hold exactly the old and the new ones |
| BacklogGrammar.HeaderKeysSkip | src/BacklogManager/backlogIO.mjs:75-77 | lines that are not headers add no key |
| BacklogGrammar.ParsedKeys | src/BacklogManager/backlogIO.mjs:23-78 | the keys of the parse are the trimmed header remainders in order of first appearance |
| BacklogGrammar.LastSectionSkip | src/BacklogManager/backlogIO.mjs:75-77 | lines that are not headers add no section |
| BacklogGrammar.ParsedValues | src/BacklogManager/backlogIO.mjs:23-78 | each key holds the section of its last header line, and a key without a header keeps what it had |
| BacklogGrammar.ParseBodyNumbered | src/BacklogManager/backlogIO.mjs:54-58 | a section's items are numbered from 1 in the order read, whatever numbers the text gives them, with an empty status |
| BacklogGrammar.PutAsParsed | src/BacklogManager/backlogIO.mjs:67-74 | storing a section named by its key with numbered lists keeps that shape for every key |
| BacklogGrammar.ParseFromAsParsed | src/BacklogManager/backlogIO.mjs:23-78 | every section the parse stores is named by its key and has numbered lists |
| BacklogGrammar.ParsedShape | src/BacklogManager/backlogIO.mjs:19-80 | for any text: the keys in order of first appearance, the section of the last header under each, named by its key with numbered lists |
| BacklogGrammar.ContinuationCons | src/BacklogManager/backlogIO.mjs:60-63 | a blank line adds nothing to a continuation, any other line a space and its trimmed text |
| BacklogGrammar.PlainStep | src/BacklogManager/backlogIO.mjs:60-65 | a plain line continues a description or a resolution and leaves the status alone |
| BacklogGrammar.DescriptionContinues | src/BacklogManager/backlogIO.mjs:60-61 | under the description, plain lines are joined to it with a space |
| BacklogGrammar.ResolutionContinues | src/BacklogManager/backlogIO.mjs:62-63 | under the resolution, plain lines are joined to it with a space |
| BacklogGrammar.StatusKeepsItsLine | src/BacklogManager/backlogIO.mjs:42-44 | under the status, plain lines change nothing |
| BacklogGrammar.PrefixesClash | src/BacklogManager/backlogIO.mjs:39-51 | a line starts with at most one of two markers that differ at a position both cover |
| BacklogGrammar.DescriptionOfSection | src/BacklogManager/backlogIO.mjs:39-41 | a description is the trimmed text after its marker joined with the continuation lines up to the next header |
| BacklogGrammar.StatusOfSection | src/BacklogManager/backlogIO.mjs:42-44 | a status is the trimmed text after its marker, whatever plain lines follow it |

## Left out

- Reading and writing files, directory entries and `stat`: the backlog files are a map from kind to text, the listing walks a tree value, and the files written by `create-src-specs` are returned as a list of writes.
- The LLM calls (`executePrompt`, `extractArgumentsWithLLM`): their answers are parameters.
- `JSON.parse` is an oracle parameter; only its outcome classes (invalid, null, object with or without a string field) are modelled.
- `path.basename`, `path.relative`, `path.resolve` and `randomUUID` are parameters or left out; `options.dir` is read but never used by the modelled code.
- Prompt templates (`buildInitialPrompt`, `buildFollowUpPrompt`, `buildReviewPrompt`, `buildLLMPrompt`) and the profile prompt texts are plain text assembly and are not modelled.
- `readGlobalSpecs` in `src/.AchillesSkills/create-src-specs/index.mjs` reads the `docs/specs` directory; it only feeds the prompt template.
- Debug logging, `agent.currentSession` and the `mode` option passed to `executePrompt` have no effect on results.
- `src/utils/ArgumentResolver.mjs` and `src/BacklogManager.mjs` are not part of this model. `stripDependsOn` imported from the former is taken to be the same as the one in `src/utils/optionsParser.mjs`; the hook targets of the latter are abstract.
- Strings are sequences of Unicode scalar values, not UTF-16 code units; `toLowerCase` is ASCII lower-casing, which is exact for the keywords it is compared against.
- `Number`/`parseFloat` are modelled for decimal integers and decimal fractions; exponent and hexadecimal forms are left out.
- `normalizeIssue` is a parameter of the issue operations.
- Array elements of an LLM answer that are not strings, response fields that are not strings, and `undefined` regex captures are folded into "absent".
- Markers spread over several lines in `parse-file-markers`: the `\s*` runs of its marker expression (after `<!--`, after `FILE:` and before `-->`) can cross line terminators, so `<!--` and `FILE: a -->` on two lines are one marker; the model only recognises a marker written on one line.
- ParseFileMarkers.MarkerLoop: the loop is bounded by a `fuel` count, so non-termination is stated as "never finishes within any bound" (`OddMarkersNeverStop`).
- ParseFileMarkers.LineMarkers: the marker test and the trimming of bodies are parameters, instantiated by `Action`.
- QualityExpert.ParseLaidOut: the round trip covers the three fields laid out one per line; other layouts are covered only by `ParseInput`'s contract.
- The action of `src/.AchillesSkills/quality-expert/index.mjs` has no guard and only hands the stripped prompt to `executeQualityReview`, which `Execute` models.
- BacklogDomain.RefLeq: `localeCompare` is modelled as lexicographic order on characters.
- OrderedMaps.OrderedMap: the sections object is a plain JavaScript `{}`, modelled as a map that holds exactly the keys stored in it. The model therefore does not capture the following. JavaScript enumerates integer-like keys first, in numeric order, while the model keeps insertion order. Keys inherited from `Object.prototype` (`toString`, `constructor`, ...) are present before anything is stored. So `appendSection` on such a key (BacklogManager.mjs:144) finds it present and adds nothing, and `getSection`, `recordIssue` and `proposeFix` (BacklogManager.mjs:20, 25, 36) find an inherited function instead of null. Storing a section under `__proto__` (backlogIO.mjs:67) sets the prototype and loses the section. The escape table of the options tokenizer is looked up with one character, which no inherited key equals.
- OptionsParser.CollectOptions: the options are a map, so the order of keys in the result object is not modelled.
- BacklogRoundTrip.RoundTrip: `parse(render(s)) == s` is proved only for sections in the form `parse` produces (`Canonical`); others, such as multi-line fields or lists not numbered from 1, do not come back unchanged.

## Findings

| source | as written | input that shows it | evidently intended | confidence | as-written member | corrected member |
|---|---|---|---|---|---|---|
| src/BacklogManager/backlogIO.mjs:152 | `mergeSection` strips `### File: ` from the section text it puts back, and the split removed the header of the piece it replaces, so the merged section has no header | `mergeSection("### File: a", "### File: a", "a")` gives `a` | the header stays, so merging a section's own text restores the ledger | not executed | BacklogIO.MergeAsWrittenDoesNotRestore | BacklogIO.MergeFixedRestores |
| src/BacklogManager/BacklogManager.mjs:69-78 | `applyChanges` dispatches on `change.type` of the drained `{taskRef, change}` records, which have no `type`, so no hook is ever called | any approved issue with `applySpecFix` present | dispatch on the item's own type, so issues reach `applySpecFix` and options `applyDocFix` | not executed | BacklogManager.NoHookIsCalled | BacklogManager.FixedHooksReachItems |
| src/.AchillesSkills/parse-file-markers/index.mjs:9-15 | each round calls `exec` twice, so the second marker of each pair is consumed without its file; with an odd number of markers the failing second `exec` resets `lastIndex` and the loop restarts forever | `content: <!-- FILE: a -->\nA\n<!-- FILE: b -->\nB` drops `b`; a single marker never terminates | one entry per marker, with the text up to the next marker | not executed | ParseFileMarkers.SecondFileDropped | ParseFileMarkers.IntendedFilesComplete |
