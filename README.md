# EduDocAI core, modelled in Dafny

EduDocAI answers questions about school documents: timetables, student lists,
syllabi, exam schedules and advisor assignments. A language model does the
reading and the answering. Around it sits deterministic text processing, and
that is what this project models and proves things about:

- **Agent tools** (`src/agents/tools.py`):
  - `calculator`: the character allow-list in front of `eval`, and the error strings.
  - `detect_schedule_conflicts`: schedule entries from the lines that mention a teacher, pairs of entries on the same day and start time, deduplicated descriptions, and the numbered report.
  - `export_to_csv`: the file-name sanitiser and the choice between copying the data and building an Item/Value table.
- **Query router** (`src/chains/routing_chain.py`):
  - `_parse_routing_response`: the line-by-line parse of a `Type:` / `Reasoning:` / `Filter:` reply.
  - `_map_query_type`: the keyword mapping.
  - `_parse_filter_string`: the filter parser.
  - `_heuristic_route`: the keyword heuristic.
  - `route_query`: the fallback when the chain fails.
- **Metadata tagging** (`src/document_processing/metadata.py`):
  - The document type, from the file name or by content scores.
  - The grade levels and sections, sorted and without repeats.
  - The academic year, from the first pattern that matches.
  - `extract_metadata`, and `enrich_documents`, which merges the tags into every chunk.
- **Session memory** (`src/memory/conversation_memory.py`):
  - `SessionMemoryManager`, buffer memory only: the per-session message log, as the class `Memory.SessionMemory`.
  - `MultiSessionMemoryManager`: the registry of sessions, as the class `Memory.SessionRegistry`.
- **Prompts** (`src/agents/prompts.py`): the instruction lookup and the assembly of the agent prompt.

Each module follows the shape of its source:
- Loops that append, overwrite or accumulate are methods with loop invariants. Each is proved equal to a specification function.
- The facts the source promises are lemmas about those functions.

What the model takes as parameters instead of computing:
- The language model's reply is a parameter: `Routing.LlmReply`, either `Ok(text)` or `Failure`.
- What `json.loads` makes of a text is a parameter: `Routing.JsonValue`.
- Python's `eval` is a parameter: `Calculator.EvalOutcome`.
- The regular-expression engine used by the metadata extractor is a parameter: `Metadata.Engine`, the list of matches `re.finditer` would give. `re.search` is the first of them and `len(re.findall(..))` is their count.
- The two regular expressions of the conflict detector are written out as exact matchers in `Patterns`. These are the time pattern and the class-label patterns.

Modules and files:

| file | module |
|---|---|
| text.dfy | `Text`: the Python string operations the sources use (`lower`, `upper`, `capitalize`, `strip`, `split`, `in`, `startswith`, `join`, `sorted`) |
| calculator.dfy | `Calculator` |
| patterns.dfy | `Patterns` |
| conflicts.dfy | `Conflicts` |
| csv_export.dfy | `CsvExport` |
| routing.dfy | `Routing` |
| prompts.dfy | `Prompts` |
| metadata.dfy | `Metadata` |
| memory.dfy | `Memory` |

## Model

| member | source | states |
|---|---|---|
| Calculator.Calculate | src/agents/tools.py:47-68 | `calculator(expression)`: a stripped expression with a character outside the allow-list gives the invalid-characters error; an allowed one that evaluates gives its rendered value; every other outcome is an "Error: " string |
| Calculator.Error | src/agents/tools.py:62-68 | every error answer is "Error: " followed by its message, and the message can be read back after the prefix |
| Calculator.RejectionIgnoresEvaluator | src/agents/tools.py:49-54 | when any character of the stripped expression is outside the allow-list, the answer is the invalid-characters error whatever `eval` would do, so nothing is evaluated |
| Calculator.FailureMessages | src/agents/tools.py:62-68 | division by zero gives "Error: Division by zero"; a syntax error gives the invalid-expression error quoting the stripped text; any other exception gives the could-not-evaluate error with its message |
| Calculator.FailureIsErrorString | src/agents/tools.py:47-68 | a rejected expression and every evaluation failure are answered with a string starting "Error: " (the tool never raises) |
| Calculator.AllowedAnswersWithValue | src/agents/tools.py:56-60 | an allow-listed expression that evaluates is answered by the rendered value |
| Calculator.FifteenPlusSevenAccepted | test_phase3.py:38-40 | "15 + 7" is unchanged by strip and passes the allow-list, so it is answered by what `eval` gives for it |
| Patterns.RunEnd | src/agents/tools.py:103 | the end of the longest run of characters of a class from a position: every character before it is in the class, the one at it is not |
| Patterns.RunEndUnique | src/agents/tools.py:103 | any maximal run from a position ends where `RunEnd` says, so a greedy quantifier has one way to match |
| Patterns.ClockAt | src/agents/tools.py:103 | `\d{1,2}:\d{2}` at a position: the end it returns is a clock text, and it is the only end that gives one |
| Patterns.MeridiemAt | src/agents/tools.py:103 | `\s+[AP]M` at a position: the end it returns gives a spaces-then-AM/PM text, and it is the only such end |
| Patterns.MeridiemShape | src/agents/tools.py:103 | a spaces-then-AM/PM text has its space run end two characters before its end, at 'A' or 'P' followed by 'M' |
| Patterns.StartTimeAt | src/agents/tools.py:103 | group 2 of the time pattern at a position is a start time: clock, spaces, AM or PM |
| Patterns.TimeAt | src/agents/tools.py:103 | a time match at a position captures a non-empty word as the day and a start time that occurs in the line; the end time is matched and dropped |
| Patterns.TimeMatchFacts | src/agents/tools.py:103 | the day is the word starting at the match position and the start time lies inside the line |
| Patterns.LevelAt | src/agents/tools.py:119 | `O-?Level`, `A-?Level` or `Level-?[IVX]+` at a position, ignoring case: it starts with o, a or l and ends after the position |
| Patterns.VerboseLabelAt | src/agents/tools.py:119 | a verbose label match is text of the line at the position, at least two characters long, starting with a level letter and ending in a letter |
| Patterns.CompactLabelAt | src/agents/tools.py:121 | a compact match is the three characters at the position: O or A, a digit, an upper-case letter, with no word character on either side |
| Patterns.SearchFrom | src/agents/tools.py:113-121 | `re.search`: nothing exactly when the pattern matches at no position; otherwise the match at the leftmost matching position |
| Patterns.SearchHit | src/agents/tools.py:113-121 | a successful search matches at some position of the line |
| Patterns.ClassLabel | src/agents/tools.py:119-123 | the class label is never empty and ends in a letter |
| Patterns.ClassLabelPrecedence | src/agents/tools.py:119-123 | a verbose match wins even when a compact code is present; else the compact code; "Unknown Class" appears exactly when neither pattern matches anywhere in the line |
| Patterns.VerboseIsNotSentinel | src/agents/tools.py:119-123 | a verbose label is never "Unknown Class" |
| Conflicts.EntryOf | src/agents/tools.py:109-130 | a line gives an entry exactly when it mentions the teacher (case-insensitive substring) and the time pattern matches; the entry holds the captured day word, the start time only, the class label and the stripped line |
| Conflicts.EntriesFromLines | src/agents/tools.py:106-130 | an entry is in the schedule exactly when some line of the context gives it |
| Conflicts.CollectSchedule | src/agents/tools.py:106-130 | the loop over the lines builds exactly the schedule, in line order |
| Conflicts.RowMatchesMembers | src/agents/tools.py:138-143 | the inner loop over later entries yields a description exactly for the later entries that the pair test accepts |
| Conflicts.PairMatchesSound | src/agents/tools.py:137-143 | every description visited comes from an accepted pair a < b |
| Conflicts.PairMatchesComplete | src/agents/tools.py:137-143 | every accepted pair a < b is visited |
| Conflicts.PairMatchesMembers | src/agents/tools.py:137-143 | the nested loops visit exactly the descriptions of the accepted pairs a < b |
| Conflicts.Dedup | src/agents/tools.py:144-145 | the `not in` test keeps the same texts, each once |
| Conflicts.DedupSnoc | src/agents/tools.py:144-145 | one more description is appended exactly when it is not already listed |
| Conflicts.DedupDistinct | src/agents/tools.py:144-145 | a list without repeats is left as it is |
| Conflicts.OverlapsAreSharedSlots | src/agents/tools.py:136-145 | a description is reported exactly when two entries a < b share day and start time (class labels are not compared); the list has no repeats |
| Conflicts.NoOverlapsIff | src/agents/tools.py:147-155 | there is nothing to report exactly when no two entries share day and start time |
| Conflicts.DedupRowStep | src/agents/tools.py:139-145 | one inner-loop step appends the pair's description exactly when the pair shares a slot and the description is new |
| Conflicts.VisitedStep | src/agents/tools.py:137-138 | entry i's row of pairs follows the rows of the entries before it |
| Conflicts.ScanRow | src/agents/tools.py:138-145 | the inner loop leaves the deduplicated descriptions of the pairs visited so far plus entry i's row |
| Conflicts.FindConflicts | src/agents/tools.py:136-145 | the nested loops give the deduplicated descriptions of all same-slot pairs, in the order first met |
| Conflicts.Header | src/agents/tools.py:148 | the header is non-empty and starts with 'F' |
| Conflicts.Item | src/agents/tools.py:150 | a numbered item ends where its conflict ends |
| Conflicts.Items | src/agents/tools.py:149-150 | one numbered item per conflict |
| Conflicts.ListingStep | src/agents/tools.py:149-150 | appending the next "i. conflict" line to the text built so far gives the text for one more conflict |
| Conflicts.AppendListing | src/agents/tools.py:149-150 | the numbering loop appends "i. conflict" and a line break for each conflict, numbered from 1, after the text it starts from |
| Conflicts.ListConflicts | src/agents/tools.py:148-150 | the built text is the header followed by the numbered lines |
| Conflicts.ItemsSnoc | src/agents/tools.py:149-150 | numbering one more conflict adds its item at the end |
| Conflicts.ListingIsJoin | src/agents/tools.py:149-150 | the appended lines are the numbered items joined by line breaks, plus a final line break |
| Conflicts.ScheduleLabels | src/agents/tools.py:119-128 | every entry's class label is non-empty and ends in a letter |
| Conflicts.DescribeEnd | src/agents/tools.py:140-143 | a description ends where the second class label ends |
| Conflicts.LastOverlapEndsInLetter | src/agents/tools.py:140-145 | the last reported conflict ends in a letter |
| Conflicts.NumberedEnd | src/agents/tools.py:149-152 | the numbered block ends in a non-space character |
| Conflicts.StripListing | src/agents/tools.py:148-152 | stripping the header and listing only drops the final line break |
| Conflicts.StripBeforeNewline | src/agents/tools.py:152 | `strip` removes only a final line break after a text with no padding at either end |
| Conflicts.ReportBeforeStrip | src/agents/tools.py:132-152 | when conflicts exist the answer is the stripped header and listing |
| Conflicts.FoundReport | src/agents/tools.py:147-152 | when conflicts exist the answer is "Found n scheduling conflict(s) for teacher:" and the items "1. …" to "n. …", one per line, where n is the number of distinct conflicts |
| Conflicts.AnswersDiffer | src/agents/tools.py:132-155 | the no-schedule, no-conflicts and found answers are told apart by their text |
| Conflicts.ConflictReport | src/agents/tools.py:81-155 | what `detect_schedule_conflicts` answers: "No schedule information found for teacher" when no line gives an entry, "No scheduling conflicts found for teacher" when entries exist and no two share day and start time; the found report is stated by `Conflicts.FoundReport` |
| Conflicts.DetectScheduleConflicts | src/agents/tools.py:81-155 | the tool's answer: no entries gives "No schedule information found for teacher", entries without a shared slot give "No scheduling conflicts found for teacher", otherwise the stripped report |
| CsvExport.SanitizeFilename | src/agents/tools.py:194 | the sanitised name has the input's length and only `[A-Za-z0-9_-]` characters |
| CsvExport.SanitizeKeepsSafe | src/agents/tools.py:194 | a name is unchanged exactly when it is already safe; each other character becomes '_' in its place |
| CsvExport.SanitizeIdempotent | src/agents/tools.py:194 | sanitising twice is sanitising once |
| CsvExport.PathStaysInDirectory | src/agents/tools.py:190-195 | the path is `data/exports/<name>.csv` and the name holds no '/' and no '.' |
| CsvExport.NonBlankLines | src/agents/tools.py:199 | the list comprehension over `data.split('\n')`: every kept line is non-empty and starts and ends with a non-space character |
| CsvExport.NonBlankLinesMembers | src/agents/tools.py:199 | the kept lines are exactly the stripped non-blank pieces of the data, none blank or padded |
| CsvExport.RowOf | src/agents/tools.py:216-223 | one table row: a line with neither colon nor dash is the item with an empty value, and a non-empty value only comes from a line with a delimiter |
| CsvExport.RowOfDelimiters | src/agents/tools.py:216-223 | the colon is tried before the dash: the item has no colon, and with no colon in the line it has no dash; a line with neither is the item with an empty value |
| CsvExport.RowOfParts | src/agents/tools.py:216-221 | a line with a delimiter is exactly item, delimiter and value, each part stripped in the row |
| CsvExport.BuildRows | src/agents/tools.py:214-223 | the row loop gives one row per kept line, in order |
| CsvExport.Export | src/agents/tools.py:190-226 | what `export_to_csv` writes: when something is written the path is `data/exports/<name>.csv`; a verbatim copy is the data itself; a table is the "Item", "Value" header row and one row per kept line |
| CsvExport.ExportToCsv | src/agents/tools.py:172-226 | the outcome and answer are those of the specification: no data, the data copied, or the table, and the success message naming the path |
| CsvExport.NoDataIff | src/agents/tools.py:199-202 | "Error: No data to export" is the answer exactly when every line of the data is blank |
| CsvExport.WrittenContent | src/agents/tools.py:204-226 | the data is copied unchanged exactly when the first kept line has a comma; otherwise the table has the "Item", "Value" header and one row per kept line, in order; the answer names the file |
| CsvExport.MessagesDiffer | src/agents/tools.py:202-226 | the no-data answer and the success answer are told apart by their first character |
| Routing.MapQueryType | src/chains/routing_chain.py:210-231 | `_map_query_type`: no text or empty text is simple; otherwise, on the lowercased, stripped text, cross-document exactly when "cross" or "multi" occurs, aggregation exactly when neither does and "aggregation" or "count" does, complex exactly when none of those does and "complex" does, and simple exactly when no cue occurs |
| Routing.ParseFilterString | src/chains/routing_chain.py:233-261 | `_parse_filter_string`: an unusable filter only comes from a brace text that parses as JSON of another shape; when the pair syntax decides, a filter needs a colon |
| Routing.Unquote | src/chains/routing_chain.py:255-256 | an unquoted text neither starts nor ends with a quote character |
| Routing.ParseFilterPairs | src/chains/routing_chain.py:242-261 | without a brace, or with a brace but invalid JSON (the decode error is swallowed): no colon gives no filter; otherwise a single pair split at the first colon, key and value stripped then unquoted |
| Routing.ParseFilterJson | src/chains/routing_chain.py:242-249 | with a brace and valid JSON the parsed value decides: a string mapping is the filter, null is no filter, any other shape is kept and later fails validation |
| Routing.ParseRouting | src/chains/routing_chain.py:162-208 | `_parse_routing_response`: the route always has a reason, and a filter in the route is the one the line scan parsed |
| Routing.Finish | src/chains/routing_chain.py:190-208 | building the route from the parsed values: the reason is never empty; when the filter passes validation the type is the mapped type text; the route's filter is exactly the parsed string mapping |
| Routing.ScanLines | src/chains/routing_chain.py:178-188 | the loop over the reply's lines ends in the state the fold of `Step` gives |
| Routing.ParseRoutingResponse | src/chains/routing_chain.py:162-208 | the parse is the final scan state turned into a route, a function of reply and query alone |
| Routing.MapQueryTypeIgnoresCase | src/chains/routing_chain.py:219-222 | the type text is read without regard to case |
| Routing.MapQueryTypeRoundTrip | src/chains/routing_chain.py:219-231 | every query type's own value maps back to that type |
| Routing.LowerStripFixed | src/chains/routing_chain.py:24-27 | the enum values are already lower case and stripped |
| Routing.SimpleHasNoCue | src/chains/routing_chain.py:224-231 | "simple" holds none of the cues, so it maps to simple |
| Routing.CrossDocumentCue | src/chains/routing_chain.py:224-225 | "cross_document" maps to cross-document |
| Routing.AggregationCues | src/chains/routing_chain.py:224-227 | "aggregation" has no cross or multi cue and maps to aggregation |
| Routing.ComplexCues | src/chains/routing_chain.py:224-229 | "complex" has none of the earlier cues and maps to complex |
| Routing.NotContains | src/chains/routing_chain.py:224-229 | a text is absent when no position starting with its first character begins with it |
| Routing.HeuristicRoute | src/chains/routing_chain.py:263-303 | `_heuristic_route`: never a filter, always a reason, and simple exactly when no aggregation, breadth or tool cue occurs in the lowercased query |
| Routing.HeuristicPrecedence | src/chains/routing_chain.py:272-303 | the heuristic never sets a filter and always gives a reason; each type is chosen exactly when its cues occur in the lowercased query and no earlier-checked cue does (aggregation, then breadth, then tools, else simple) |
| Routing.DirectivesExclusive | src/chains/routing_chain.py:180-185 | no line fits two of the `type:`, `reasoning:` and `filter:` prefixes |
| Routing.ScanSkipsIgnorable | src/chains/routing_chain.py:178-188 | a line with no directive, or a filter line whose value is empty or "none", can be dropped from anywhere in the reply without changing the parse |
| Routing.LastTypeLineWins | src/chains/routing_chain.py:180-181 | the last type line decides the type text, lowercased |
| Routing.StepTypeEffect | src/chains/routing_chain.py:180-181 | a type line sets the type text; any other line keeps it |
| Routing.NoTypeLine | src/chains/routing_chain.py:174-181 | without a type line there is no type text |
| Routing.LastReasoningLineWins | src/chains/routing_chain.py:182-183 | the last reasoning line decides the reasoning text |
| Routing.StepReasoningEffect | src/chains/routing_chain.py:182-183 | a reasoning line sets the reasoning; any other line keeps it |
| Routing.NoReasoningLine | src/chains/routing_chain.py:175-183 | without a reasoning line there is no reasoning text |
| Routing.LastFilterLineWins | src/chains/routing_chain.py:184-188 | the last filter line with a value other than empty or "none" (any case) decides the filter |
| Routing.FilterWrittenBy | src/chains/routing_chain.py:184-188 | such a line sets the filter to the parse of its value |
| Routing.FilterKeptAfter | src/chains/routing_chain.py:184-188 | lines that do not set the filter keep it |
| Routing.StepFilterEffect | src/chains/routing_chain.py:184-188 | a filter line with a value sets the filter; any other line keeps it |
| Routing.NoFilterLine | src/chains/routing_chain.py:176-188 | without such a line the route has no filter |
| Routing.RouteQuery | src/chains/routing_chain.py:137-160 | `route_query`: the route always has a reason; a failing chain gives simple, "Fallback due to routing error" and no filter |
| Routing.RouteQueryReasoning | src/chains/routing_chain.py:137-160 | the route always has a reason; a failing chain gives simple, "Fallback due to routing error" and no filter; a missing or empty reasoning becomes "Classified as <type> query" |
| Routing.FinishReasoning | src/chains/routing_chain.py:190-201 | the finished route's reasoning is never empty, and a missing one is the default text for the mapped type |
| Routing.HeuristicOnlyForUnusableFilter | src/chains/routing_chain.py:197-208 | a filter that is not a string mapping fails validation and the heuristic decides; otherwise the type is the mapped type text |
| Prompts.GetInstruction | src/agents/prompts.py:100-118 | `get_instruction_for_query_type`: always one of the four instructions, and the simple one for an unknown key |
| Prompts.EveryTypeHasInstruction | src/agents/prompts.py:109-116 | every query type's value is a key of the table and finds that type's own instruction |
| Prompts.GetInstructionIgnoresCase | src/agents/prompts.py:116 | the key is lowercased first, so upper- and lower-case spellings give the same instruction |
| Prompts.UnknownKeyIsSimple | src/agents/prompts.py:116 | an unknown key gives the simple instruction |
| Prompts.BuildAgentPrompt | src/agents/prompts.py:121-143 | `build_agent_prompt`: the prompt starts with the agent system prompt and is longer than the system prompt, type and question together |
| Prompts.AssembleParts | src/agents/prompts.py:133-141 | the assembled prompt starts with the system text and contains the query type, the instruction and the question |
| Prompts.Interleaved | src/agents/prompts.py:133-141 | texts placed between fixed labels occur in the whole |
| Prompts.BuildAgentPromptParts | src/agents/prompts.py:121-141 | the agent prompt starts with the agent system prompt and contains the query type as given, the instruction looked up for it and the question |
| Metadata.FirstHit | src/document_processing/metadata.py:218-223 | the first pattern in list order that matches; nothing exactly when none matches |
| Metadata.FirstMatchingEntry | src/document_processing/metadata.py:124-129 | the first table entry in table order with a matching pattern; nothing exactly when none has one |
| Metadata.ScoreZeroIff | src/document_processing/metadata.py:133-139 | a type scores zero exactly when none of its patterns is found, so only found types enter `type_scores` |
| Metadata.Scores | src/document_processing/metadata.py:133-137 | one score per table entry, each the total match count of its patterns |
| Metadata.FirstMax | src/document_processing/metadata.py:143 | `max` with a key: an item with the greatest score, and no earlier item has as great a score |
| Metadata.Best | src/document_processing/metadata.py:132-145 | the reference winner: the first greatest score, provided it is positive; nothing when every score is zero |
| Metadata.TypeScoresFollowBest | src/document_processing/metadata.py:132-145 | the dictionary-and-max computation picks the same type and score as the reference winner, and is empty exactly when the reference finds nothing |
| Metadata.ContentTypeWinner | src/document_processing/metadata.py:132-145 | the content pass gives the type with the highest total match count, ties to the earlier table entry, and nothing exactly when no pattern of any type is found |
| Metadata.DocumentType | src/document_processing/metadata.py:111-145 | `_extract_document_type`: a type found is the tag of some table entry; no type only when no pattern of any entry is found in the content |
| Metadata.FilenameWins | src/document_processing/metadata.py:124-129 | with a non-empty file name in which some pattern is found, the first type in table order wins and the content plays no part |
| Metadata.ContentDecidesOtherwise | src/document_processing/metadata.py:123-145 | without a file name, or when nothing is found in it, the content pass decides |
| Metadata.ScorePatterns | src/document_processing/metadata.py:134-137 | the scoring loop adds up the match counts of a type's patterns |
| Metadata.ScoreContent | src/document_processing/metadata.py:132-145 | the loop builds `type_scores` and returns the key of its maximal item, or nothing |
| Metadata.ExtractDocumentType | src/document_processing/metadata.py:111-145 | the method gives the specified document type: the file-name pass first, then the content pass |
| Metadata.GradeLevels | src/document_processing/metadata.py:147-164 | `_extract_grade_levels`: strictly ascending, and a label is listed exactly when it is among those found |
| Metadata.GradesFoundMembers | src/document_processing/metadata.py:156-162 | a grade is found exactly when one of its patterns matches, ignoring case |
| Metadata.GradeLevelsCharacterised | src/document_processing/metadata.py:156-164 | the grade levels are strictly ascending, so free of repeats, and a label is listed exactly when one of its patterns matches |
| Metadata.GradeLevelsAreLabels | src/document_processing/metadata.py:49-64 | every grade level is one of the five labels O-Level, A-Level, Level-I, Level-II, Level-III |
| Metadata.SearchAny | src/document_processing/metadata.py:159-162 | the inner loop stops at the first matching pattern and reports whether any pattern matches |
| Metadata.ExtractGradeLevels | src/document_processing/metadata.py:147-164 | the set-then-sorted loop gives the specified grade levels |
| Metadata.Sections | src/document_processing/metadata.py:166-199 | `_extract_sections`: strictly ascending, and a section is listed exactly when some capture gives that letter |
| Metadata.SectionLetter | src/document_processing/metadata.py:180-182 | a capture names a section exactly when it is a single letter; the section is that letter upper-cased |
| Metadata.SectionsCharacterised | src/document_processing/metadata.py:175-199 | the sections are strictly ascending, each a single upper-case letter, and a letter is listed exactly when some capture of either pattern family is that letter in either case |
| Metadata.AddSections | src/document_processing/metadata.py:179-182 | the match loop adds to the set exactly the section letters of the captures |
| Metadata.GatherStep | src/document_processing/metadata.py:192-197 | adding the letters of one more pattern's captures gathers the letters of the longer capture list |
| Metadata.CapturesStep | src/document_processing/metadata.py:192-197 | the captures of one more pattern follow those of the patterns before it |
| Metadata.ExtractSections | src/document_processing/metadata.py:166-199 | the two loops and the final sort give the specified sections |
| Metadata.AcademicYear | src/document_processing/metadata.py:201-223 | `_extract_academic_year`: a year only when some pattern matches, and none when no pattern matches |
| Metadata.AcademicYearFirstMatch | src/document_processing/metadata.py:218-221 | the first pattern that matches decides, giving its group 1, whatever later patterns would give |
| Metadata.AcademicYearNone | src/document_processing/metadata.py:218-223 | no year when no pattern matches |
| Metadata.Tags | src/document_processing/metadata.py:84-106 | a key is present exactly when its answer is non-empty, there are no other keys, and lists are joined with "," |
| Metadata.AssembleTags | src/document_processing/metadata.py:82-106 | filling the dictionary key by key gives exactly those tags |
| Metadata.Metadata | src/document_processing/metadata.py:69-109 | `extract_metadata` as a value: only the four tag keys occur, and a document type is the tag of some entry of the type table |
| Metadata.ExtractMetadata | src/document_processing/metadata.py:69-109 | the four extractors run over the lower-cased page content and give the specified tags |
| Metadata.Enriched | src/document_processing/metadata.py:248-258 | an enriched chunk keeps its text; extracted tags override its own; its other keys stay; `source` is the file name when one is given |
| Metadata.MergeTags | src/document_processing/metadata.py:245-258 | the merge loop gives one enriched chunk per chunk, same length and order |
| Metadata.EnrichDocuments | src/document_processing/metadata.py:225-263 | empty input comes back unchanged; otherwise every chunk is merged, in order, with the tags extracted from the first chunk |
| Metadata.TagsComeFromFirstChunk | src/document_processing/metadata.py:240-248 | every chunk gets the first chunk's tag values, whatever its own text says |
| Memory.History | src/memory/conversation_memory.py:91-108 | `get_history`: one turn per message, in order, keeping the content; the role is "user" exactly for human messages |
| Memory.Context | src/memory/conversation_memory.py:110-121 | `get_context`: empty for no messages, otherwise it starts with the first message's line; `Memory.ContextLines` gives every line |
| Memory.TurnOf | src/memory/conversation_memory.py:99-107 | the content is kept; the role is "user" exactly when the type is "human", else "assistant" |
| Memory.ContextLineOfMessage | src/memory/conversation_memory.py:118-120 | a human message renders as "User: text", any other as "Assistant: text" |
| Memory.ContextLines | src/memory/conversation_memory.py:110-121 | the context is one line per message, in order, each "User: …" or "Assistant: …", joined by "\n" |
| Memory.SessionMemory.constructor | src/memory/conversation_memory.py:22-56 | a new session stores its id, memory type and token limit and has no messages |
| Memory.SessionMemory.AddUserMessage | src/memory/conversation_memory.py:63-70 | appends one human message and changes nothing else |
| Memory.SessionMemory.AddAiMessage | src/memory/conversation_memory.py:72-79 | appends one AI message and changes nothing else |
| Memory.SessionMemory.AddExchange | src/memory/conversation_memory.py:81-89 | appends the user's message, then the reply; the count grows by exactly 2 |
| Memory.SessionMemory.GetHistory | src/memory/conversation_memory.py:91-108 | one turn per message, same order and content; role "user" exactly for human messages, else "assistant" |
| Memory.SessionMemory.GetContext | src/memory/conversation_memory.py:110-121 | the context of the current messages |
| Memory.SessionMemory.Clear | src/memory/conversation_memory.py:123-126 | the log is empty |
| Memory.SessionMemory.GetMessageCount | src/memory/conversation_memory.py:128-134 | the number of stored messages |
| Memory.SessionMemory.GetStats | src/memory/conversation_memory.py:136-148 | id, memory type, current message count and token limit |
| Memory.Without | src/memory/conversation_memory.py:204-205 | removing an id from the creation order keeps every other id, in order, and keeps them distinct |
| Memory.WithoutAbsent | src/memory/conversation_memory.py:204-208 | removing an absent id changes nothing |
| Memory.DistinctCardinality | src/memory/conversation_memory.py:216-222 | ids without repeats are as many as the set of ids |
| Memory.SessionRegistry.constructor | src/memory/conversation_memory.py:154-157 | the registry starts empty and valid |
| Memory.SessionRegistry.GetOrCreate | src/memory/conversation_memory.py:159-182 | on a miss a fresh, empty session with the given type and limit is stored under the id; on a hit the stored session comes back and nothing changes, so the type and limit given are ignored; the registry stays valid |
| Memory.SessionRegistry.GetSession | src/memory/conversation_memory.py:184-193 | the stored session, or nothing for an unknown id, and nothing is created |
| Memory.SessionRegistry.Delete | src/memory/conversation_memory.py:195-208 | true exactly when the id was present; only that id is removed |
| Memory.SessionRegistry.ClearAll | src/memory/conversation_memory.py:210-214 | no sessions remain |
| Memory.SessionRegistry.Count | src/memory/conversation_memory.py:216-222 | the number of stored sessions, which equals the number of ids in creation order |
| Memory.SessionRegistry.GetAllStats | src/memory/conversation_memory.py:224-230 | the stats of every session, one per id, in creation order |

## Left out

- Character classes are ASCII.
  - Python's `lower`, `upper`, `capitalize`, `isalpha`, `strip()`, `\w`, `\d` and `\s` also cover Unicode. The model's versions cover ASCII letters, digits and the ten characters of ASCII that Python counts as whitespace (space, tab, line feed, carriage return, vertical tab, form feed and the separators U+001C to U+001F).
- Calculate: Python's `eval` is not modelled.
  - Its outcome on an allow-listed text is a parameter: a rendered value, a division by zero, a syntax error or another exception.
  - So the model does not say that "15 + 7" evaluates to "22", or that "100 / 4" gives "25.0".
- The regular-expression engine is not modelled for the metadata patterns.
  - `Metadata.Engine` gives the matches, and the proofs hold for any engine.
  - The pattern texts are kept verbatim as constants.
  - Consequence: the model does not show that the timetable pattern `\d+:\d+\s*[AP]M` can never match the lower-cased content it is applied to.
- Metadata.EitherGroup, Metadata.FirstGroup: a group that took no part reads as an empty text, which names no section.
  - Python would raise on `.upper()` of `None` instead.
  - With the patterns used, a match always has the group it reads.
- The CSV file itself is not modelled.
  - Left out: creating the directory (which the source does before the empty-data check), opening and writing the file, and the quoting done by `csv.writer`.
  - The model gives the path and the content (the data, or the rows) that would be written.
- The `except` branches of `calculator`, `detect_schedule_conflicts` and `export_to_csv` are left out.
  - For the conflict detector the branch cannot be reached with string inputs.
  - For the exporter it is reached through file-system errors, which the model does not have.
- The document-search tool is left out: it wraps the vector store, which this model does not include.
- `QueryRouter.__init__` and the language-model chain are left out. The chain's answer is the `LlmReply` parameter.
- Routing.Finish: a JSON filter is accepted only when it is a mapping from strings to strings, null means no filter, and any other value fails validation.
  - This assumes the route's validation does not coerce other JSON values to strings.
- The agent's reasoning loop is left out.
  - It is the library's ReAct executor.
  - The iteration limit the agent stores is never passed to it, so there is no bound to model.
- Summary memory is left out. It calls a language model to summarise, so only buffer memory is modelled.
- The `created_at` timestamp is left out. It comes from the clock, so `GetStats` reports the other four fields.
- `max_token_limit` is stored and reported, and the buffer memory never uses it.
- Memory.SessionRegistry: the dictionary's insertion order is kept as the `ids` sequence.
- The global `get_memory_manager` singleton is left out.
- Chunk metadata (`Metadata.Document`): its values are modelled as strings. The extractor only writes strings, and a chunk's other values (such as a loader's integer page number) are passed through unchanged, so their type matters to no contract.
- Default arguments: Dafny has none, so callers pass every argument. The source's defaults are the constants `CsvExport.DEFAULT_FILENAME` ("export"), `Prompts.DEFAULT_QUERY_TYPE` ("simple"), `Memory.DEFAULT_MEMORY_TYPE` ("buffer") and `Memory.DEFAULT_TOKEN_LIMIT` (2000).
- Logging is left out throughout.
- Patterns: the time and class-label patterns are written as matchers for these patterns specifically, not as a general regular-expression engine.
