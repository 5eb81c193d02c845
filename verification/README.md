# Claude session analyzers, modelled in Dafny

The repository analyses the JSON Lines session logs that Claude Code writes,
together with the todo files it keeps beside them. It has two analyzer
families that share the same ideas:

- **claude-cli-analyzer.** A `FieldExtractor` walks every record and keeps a
  registry of `FieldInfo` entries, one per key path such as
  `message.content[0].text` or `message.content[]`. Each entry holds:
  - the occurrence and null counts;
  - a merged type label from a small lattice (`_merge_data_types`);
  - capped, de-duplicated and truncated examples;
  - the distinct scalar values;
  - string-shape tags (UUID, ISO_DATETIME, URL, …).

  After the walk, fields whose few distinct values qualify are flagged as
  enums, and paths that differ only in a numeric index (`[0]`, `[1]`, …) are
  folded into one `[*]` entry. The report lists one specification per field,
  with a description taken from an ordered table of path fragments. The
  "smart field list" regroups the saved registry by index pattern and sums
  each group. `run_with_merge.py` truncates the examples of the output.
- **claude-code-analyzer.** A task pipeline with eight tasks, `T01`–`T08`.
  `task_scheduler.py` orders the tasks by their dependencies (Kahn's
  algorithm) and runs them, refusing a task whose dependencies have not
  completed and stopping at the first failure. The tasks modelled here are:
  - `T01` extracts fields with its own rules;
  - `T02` files every object it meets under a structure signature and counts
    each signature;
  - `T03` indexes each session by the signatures it contains and picks, with a
    greedy set cover, a small set of sessions that together show every
    signature;
  - `T05` links sessions to the `<session>-agent-<agent>.json` todo files and
    to their agents.

  `shared/` holds the utilities and the bookkeeping base class.

The model is one Dafny module per source file, plus four generic helper
modules:

| module | content |
|---|---|
| `JsonModel` | the JSON value, with the insertion order of object keys kept |
| `Text` | string helpers |
| `Ordering` | stable sorting by a total preorder, distinctness, counting |
| `Patterns` | the `[n]` → `[*]` normaliser and the anchored string patterns |

- **Pure code** becomes functions with lemmas.
- **Classes that update their fields in place** become Dafny classes:
  `FieldExtractor` (both variants), `ObjectType`, `ObjectTypeAnalyzer`,
  `MinimalSessionCoverAnalyzer`, `SessionTodosRelationshipAnalyzer`,
  `TaskScheduler` and `FileBasedAnalyzer`. Each method is proved to leave
  exactly the state that a specification function computes from the old
  state. The properties are then proved about those functions: invariants
  kept, counts, idempotence, order independence and cover completeness.

Where the T01 extractor departs from the rules the CLI extractor follows, the
model follows T01's code:

- a non-empty list is typed bare `array`;
- two list labels merge to `mixed`;
- the enum flag is decided on every sighting, not once after the walk;
- its two regular expressions are written with doubled backslashes inside raw
  strings. They are modelled as written, so ISO timestamps are typed
  `string` there (`IsoTimestampIsPlainString`) and the index merge never
  groups a path without a backslash (`T01MergeNoopWithoutBackslash`).

## Model

Functions that only compute a value have no row of their own, for example
`SessionTodos.ParseTodosName`, `SessionTodos.SessionDetails`,
`SharedUtils.CommonPatterns`, `SharedUtils.MostCommon`, `Patterns.IsUuid`,
`SharedUtils.IsTimestamp`, `TaskScheduling.DependencyOrder`,
`TaskScheduling.TaskRun` and `TaskScheduling.Attempt`. Each is listed through
the lemmas that state what it means and the methods proved to compute it.

| member | source | states |
|---|---|---|
| Ordering.SortByStable | src/claude-code-analyzer/tasks/T05_session_todos_relationship/relationship_analyzer.py:199 | the sort is stable, as Python's `sorted` and `list.sort` are: two results whose keys tie come from positions of the input in the same order |
| ValueTruncation.Shorten | src/claude-cli-analyzer/run_with_merge.py:19-20 | a string over the limit becomes exactly its first `max_length` characters followed by "...", so limit + 3 long |
| ValueTruncation.TruncateForOutput | src/claude-cli-analyzer/run_with_merge.py:17-26 | dicts and lists always come out as strings; any other value keeps its kind (a string stays a string, a number a number) |
| ValueTruncation.TruncateForOutputShape | src/claude-cli-analyzer/src/core/field_extractor.py:49-59 | every string result is within the limit or is limit + "..."; short strings and non-container scalars are returned unchanged; a cut string keeps its prefix; the first `max_length` characters of a container's text are those of its printed form. The copies in run_with_merge.py and in T01's field_extractor.py are the same function and get the same guarantees |
| ValueTruncation.TruncateForOutputIdempotent | src/claude-cli-analyzer/run_with_merge.py:17-26 | truncating an already truncated value changes nothing |
| ValueTruncation.TruncatedFormFixed | src/claude-cli-analyzer/run_with_merge.py:19-22 | a string already within the limit, or already limit + "...", is its own truncation |
| ValueTruncation.TruncateExamplesList | src/claude-cli-analyzer/run_with_merge.py:28-30 | same length as the input, and element i is the truncation of example i |
| ValueTruncation.TruncateExamplesListIdempotent | src/claude-cli-analyzer/run_with_merge.py:28-30 | truncating an example list twice is truncating it once |
| ValueTruncation.TruncateStructureKeepsSkeleton | src/claude-code-analyzer/shared/base_analyzer.py:86-95 | structure-preserving truncation keeps every key, key order, list length and value kind |
| ValueTruncation.TruncateStructureBounded | src/claude-code-analyzer/shared/base_analyzer.py:86-95 | afterwards every string leaf is at most limit + 3 long |
| ValueTruncation.TruncateStructureShortUnchanged | src/claude-code-analyzer/tasks/T02_message_structure_type/type_analyzer.py:48-60 | a value whose strings all fit the limit is returned as it is |
| ValueTruncation.TruncateStructureIdempotent | src/claude-code-analyzer/tasks/T02_message_structure_type/type_analyzer.py:48-60 | truncating twice is truncating once |
| Patterns.DigitRun | src/claude-code-analyzer/shared/utils.py:24 | the run of `\d+` at the head of a string: all digits, and followed by a non-digit or the end |
| Patterns.NormalizeIdempotent | src/claude-code-analyzer/shared/utils.py:15-25 | normalising a normalised path changes nothing |
| Patterns.NormalizeChangesIffIndices | src/claude-cli-analyzer/generate_smart_field_list.py:18-28 | `normalize_field_pattern` changes a path exactly when `extract_array_indices` finds an index in it |
| Patterns.NormalizeChangedHasWildcard | src/claude-cli-analyzer/src/core/field_extractor.py:314-316 | a path the rewrite changed contains `[*]`, so the merge's extra `[*]` test excludes nothing |
| Patterns.NormalizeClosesIndex | src/claude-code-analyzer/shared/utils.py:24 | normalising never creates or destroys a digits-then-`]` prefix, which is why a second pass finds nothing |
| Patterns.T01NormalizeNoBackslash | src/claude-code-analyzer/tasks/T01_deep_field_extraction/field_extractor.py:179 | the over-escaped rewrite leaves every path without a backslash unchanged |
| Patterns.T01DatetimeNeedsBackslash | src/claude-code-analyzer/tasks/T01_deep_field_extraction/field_extractor.py:137 | the over-escaped datetime pattern never matches a string without a backslash |
| CliFieldTypes.InferDataTypeKinds | src/claude-cli-analyzer/src/core/field_extractor.py:144-178 | each label identifies the kind of value it came from (boolean never integer, string-family labels only for strings, `array…` only for lists), in both directions |
| CliFieldTypes.InferDataTypeSample | src/claude-cli-analyzer/src/core/field_extractor.py:159-170 | a list's label depends only on its first ten elements |
| CliFieldTypes.MergeCommutative | src/claude-cli-analyzer/src/core/field_extractor.py:180-205 | merging labels is commutative |
| CliFieldTypes.MergeIdentityAndAbsorption | src/claude-cli-analyzer/src/core/field_extractor.py:180-205 | merging is idempotent, "null" is an identity and "mixed" absorbs every non-null label |
| CliFieldTypes.MergeByFamily | src/claude-cli-analyzer/src/core/field_extractor.py:180-205 | two different non-null labels merge to the top of their shared family ("number", "string", "array[mixed]"), otherwise to "mixed" |
| CliFieldTypes.MergeAssociative | src/claude-cli-analyzer/src/core/field_extractor.py:180-205 | merging is associative, so the final label does not depend on how sightings are grouped |
| CliFieldTypes.PlainLabelsNotArray | src/claude-cli-analyzer/src/core/field_extractor.py:200-202 | no scalar, string-family or fallback label starts with "array", so the list rule only joins list labels |
| CliFieldTypes.ExtractStringPatternAgreesWithLabel | src/claude-cli-analyzer/src/core/field_extractor.py:221-242 | a string gets no tag exactly when it has none of the recognised shapes; the UUID, ISO_DATETIME and URL tags and the three id tags agree with the type label of the same string |
| CliFieldExtractor.WithExample | src/claude-cli-analyzer/src/core/field_extractor.py:127-130 | the field is unchanged, or the truncated value is appended because there was room and it was new |
| CliFieldExtractor.WithUnique | src/claude-cli-analyzer/src/core/field_extractor.py:133-136 | unchanged, or a scalar added while fewer than `max_unique_values` are held |
| CliFieldExtractor.WithPattern | src/claude-cli-analyzer/src/core/field_extractor.py:139-142 | unchanged, or the string's tag appended because it was not yet recorded |
| CliFieldExtractor.Updated | src/claude-cli-analyzer/src/core/field_extractor.py:104-142 | a sighting adds exactly one occurrence; a null adds a null and touches nothing else; otherwise the label is merged; unique values never shrink and never exceed the cap |
| CliFieldExtractor.UpdatedKeepsFieldOk | src/claude-cli-analyzer/src/core/field_extractor.py:104-142 | recording keeps the field invariant: examples capped, distinct and in truncated form; patterns distinct; nulls never above occurrences |
| CliFieldExtractor.RecordedFrame | src/claude-cli-analyzer/src/core/field_extractor.py:104-120 | `_record_field` keeps the registry invariant, appends a new path at the end, counts the sighting (and a null) at that path and leaves every other field as it was |
| CliFieldExtractor.RecordedAllCounts | src/claude-cli-analyzer/src/core/field_extractor.py:104-120 | after a batch of sightings each path's occurrence and null counts have grown by exactly its number of sightings and null sightings, and the registry holds exactly the old and the sighted paths |
| CliFieldExtractor.ContainerKeysSeenTwice | src/claude-cli-analyzer/src/core/field_extractor.py:72-77 | a key holding an object or list is recorded twice per occurrence (by its parent and by itself); a scalar key once |
| CliFieldExtractor.SightingsIgnoreLongTail | src/claude-cli-analyzer/src/core/field_extractor.py:84-99 | list elements after the tenth produce no sightings |
| CliFieldExtractor.EnumChecked | src/claude-cli-analyzer/src/core/field_extractor.py:248-260 | the flag becomes set exactly when it was set or the field qualifies (≥ 5 non-null sightings, few enough distinct values, an enumerable label); a qualifying field gets its sorted values; nothing else changes |
| CliFieldExtractor.EnumCheckedValues | src/claude-cli-analyzer/src/core/field_extractor.py:259-260 | a flagged field's enum values are sorted, distinct and exactly its distinct values |
| CliFieldExtractor.EnumsAnalyzedProperties | src/claude-cli-analyzer/src/core/field_extractor.py:244-260 | enum analysis keeps the invariant, paths and order; it never clears a flag; a second pass changes nothing |
| CliFieldExtractor.GroupKeys | src/claude-cli-analyzer/src/core/field_extractor.py:310-318 | the group keys are distinct and are exactly the normalised forms of the indexed paths |
| CliFieldExtractor.GroupMembers | src/claude-cli-analyzer/src/core/field_extractor.py:310-318 | a group holds exactly the indexed paths normalising to its key, each once |
| CliFieldExtractor.MergedTypeMeaning | src/claude-cli-analyzer/src/core/field_extractor.py:358-362 | a merged label other than "mixed" is every member's label, and members that agree keep their label |
| CliFieldExtractor.DedupPrintedProperties | src/claude-cli-analyzer/src/core/field_extractor.py:364-375 | merged examples number at most `max_examples`, print pairwise differently, and each is the truncation of some member's example |
| CliFieldExtractor.MergedFieldOk | src/claude-cli-analyzer/src/core/field_extractor.py:337-381 | a merged field satisfies the field invariant |
| CliFieldExtractor.MergedGroupKeys | src/claude-cli-analyzer/src/core/field_extractor.py:321-381 | a group of two or more loses its members' paths and gains its pattern; a group of one is left alone |
| CliFieldExtractor.MergedGroupsOk | src/claude-cli-analyzer/src/core/field_extractor.py:321-381 | the fold over all groups keeps the registry invariant |
| CliFieldExtractor.MergedGroupsKeys | src/claude-cli-analyzer/src/core/field_extractor.py:321-381 | the fold removes exactly the members of groups of two or more and adds exactly those groups' patterns |
| CliFieldExtractor.MergedGroupsFrame | src/claude-cli-analyzer/src/core/field_extractor.py:321-381 | fields outside the merged groups are left as they were |
| CliFieldExtractor.MergedGroupsValues | src/claude-cli-analyzer/src/core/field_extractor.py:337-381 | each group of two or more is stored as the merge of its members' original fields |
| CliFieldExtractor.MergedGroupsNoop | src/claude-cli-analyzer/src/core/field_extractor.py:322-323 | when no group has two members, the merge changes nothing |
| CliFieldExtractor.ArrayIndexMergedEffect | src/claude-cli-analyzer/src/core/field_extractor.py:304-381 | on the whole registry: the invariant is kept, each group of two or more indexed paths is replaced by one field at its pattern holding their merge, and every other field is unchanged |
| CliFieldExtractor.SurvivorWasAlone | src/claude-cli-analyzer/src/core/field_extractor.py:304-381 | an indexed path that survives the merge was the only member of its group |
| CliFieldExtractor.MergedLeavesSingletons | src/claude-cli-analyzer/src/core/field_extractor.py:304-381 | after one merge no two indexed paths share a pattern |
| CliFieldExtractor.ArrayIndexMergedIdempotent | src/claude-cli-analyzer/src/core/field_extractor.py:304-381 | merging a merged registry changes nothing |
| CliFieldExtractor.TypeCountsMeaning | src/claude-cli-analyzer/src/core/field_extractor.py:392-396 | the type distribution counts each label once per path carrying it and lists only labels that occur |
| CliFieldExtractor.EnumFieldsMeaning | src/claude-cli-analyzer/src/core/field_extractor.py:397-399 | the enum table holds exactly the flagged fields, each with its values |
| CliFieldExtractor.SummaryFieldCount | src/claude-cli-analyzer/src/core/field_extractor.py:401-405 | the reported field count is the number of registered paths |
| CliExtractorObject.GroupIndexedPaths | src/claude-cli-analyzer/src/core/field_extractor.py:310-318 | the grouping loop yields the pattern keys in order of first appearance and, for each, its indexed paths in registry order |
| CliExtractorObject.GroupPath | src/claude-cli-analyzer/src/core/field_extractor.py:312-318 | one path of the grouping loop opens or extends its pattern's group |
| CliExtractorObject.DedupExamples | src/claude-cli-analyzer/src/core/field_extractor.py:364-375 | the example loop computes the de-duplication function |
| CliExtractorObject.AddTotals | src/claude-cli-analyzer/src/core/field_extractor.py:343-353 | one member's counters, label, examples, patterns and values added to the running totals |
| CliExtractorObject.FieldExtractor.constructor | src/claude-cli-analyzer/src/core/field_extractor.py:43-47 | an empty registry with the three caps |
| CliExtractorObject.FieldExtractor.CountSighting | src/claude-cli-analyzer/src/core/field_extractor.py:114-142 | the in-place updates of one sighting compute `Updated` |
| CliExtractorObject.FieldExtractor.AddExample | src/claude-cli-analyzer/src/core/field_extractor.py:127-130 | computes `WithExample` |
| CliExtractorObject.FieldExtractor.AddUniqueValue | src/claude-cli-analyzer/src/core/field_extractor.py:133-136 | computes `WithUnique` |
| CliExtractorObject.FieldExtractor.AddPattern | src/claude-cli-analyzer/src/core/field_extractor.py:139-142 | computes `WithPattern` |
| CliExtractorObject.FieldExtractor.RecordField | src/claude-cli-analyzer/src/core/field_extractor.py:104-142 | the registry afterwards is `Recorded` of the old one, and the invariant is kept |
| CliExtractorObject.FieldExtractor.ExtractFieldsFromValue | src/claude-cli-analyzer/src/core/field_extractor.py:61-102 | the registry afterwards is the old one with every sighting of the walk recorded in walk order, and the invariant is kept |
| CliExtractorObject.FieldExtractor.ExtractMembers | src/claude-cli-analyzer/src/core/field_extractor.py:67-77 | the loop over an object's keys records each key's sightings in key order |
| CliExtractorObject.FieldExtractor.ExtractElements | src/claude-cli-analyzer/src/core/field_extractor.py:79-99 | the loop over a list records the sightings of its first ten elements |
| CliExtractorObject.FieldExtractor.ExtractElement | src/claude-cli-analyzer/src/core/field_extractor.py:86-99 | a container element is walked at `path[i]` (the first also at `path[]`); a scalar is recorded at `path[]` |
| CliExtractorObject.FieldExtractor.AnalyzeEnums | src/claude-cli-analyzer/src/core/field_extractor.py:244-260 | the registry afterwards is `EnumsAnalyzed` of the old one |
| CliExtractorObject.FieldExtractor.CheckEnum | src/claude-cli-analyzer/src/core/field_extractor.py:248-260 | computes `EnumChecked` |
| CliExtractorObject.FieldExtractor.MergeGroup | src/claude-cli-analyzer/src/core/field_extractor.py:325-381 | one group of two or more becomes `MergedGroup` of the registry |
| CliExtractorObject.FieldExtractor.RemoveMembers | src/claude-cli-analyzer/src/core/field_extractor.py:337-356 | the member loop returns the sums and unions of the members' fields and deletes exactly those members |
| CliExtractorObject.FieldExtractor.TakeField | src/claude-cli-analyzer/src/core/field_extractor.py:338-356 | reads one member's field and deletes it, nothing else |
| CliExtractorObject.FieldExtractor.MergeArrayIndexFields | src/claude-cli-analyzer/src/core/field_extractor.py:304-381 | the registry afterwards is `ArrayIndexMerged` of the old one |
| CliExtractorObject.FieldExtractor.GenerateExtractionResult | src/claude-cli-analyzer/src/core/field_extractor.py:383-407 | enums, then the merge, then the summary of the resulting registry |
| CliExtractorObject.FieldExtractor.Summarize | src/claude-cli-analyzer/src/core/field_extractor.py:390-407 | the summary loop computes `Summary` |
| T01FieldExtractor.T01GetType | src/claude-code-analyzer/tasks/T01_deep_field_extraction/field_extractor.py:114-131 | booleans, and only booleans, are "boolean"; lists, and only lists, are "array" or "array[empty]", bare "array" exactly when non-empty |
| T01FieldExtractor.T01MergeTypesProperties | src/claude-code-analyzer/tasks/T01_deep_field_extraction/field_extractor.py:146-158 | commutative with "null" as identity; "array" with "array[empty]" gives "mixed"; different labels give "number", "string" or "mixed"; two string-family labels give "string" |
| T01FieldExtractor.T01MergeAgreesWithCliOffLists | src/claude-code-analyzer/tasks/T01_deep_field_extraction/field_extractor.py:146-158 | T01's merge equals the CLI merge on any pair that is not two different list labels |
| T01FieldExtractor.T01DatetimeLeadingBackslash | src/claude-code-analyzer/tasks/T01_deep_field_extraction/field_extractor.py:137 | any string the over-escaped datetime pattern matches starts with a backslash |
| T01FieldExtractor.IsoTimestampIsPlainString | src/claude-code-analyzer/tasks/T01_deep_field_extraction/field_extractor.py:133-144 | `2025-07-31T17:02:24Z` is "datetime" for the CLI extractor but plain "string" for T01 |
| T01FieldExtractor.T01WithExample | src/claude-code-analyzer/tasks/T01_deep_field_extraction/field_extractor.py:97-101 | unchanged, or the truncated value appended because there was room and it was new |
| T01FieldExtractor.T01WithUnique | src/claude-code-analyzer/tasks/T01_deep_field_extraction/field_extractor.py:103-105 | unchanged, or a scalar added while fewer than fifty are held |
| T01FieldExtractor.T01EnumChecked | src/claude-code-analyzer/tasks/T01_deep_field_extraction/field_extractor.py:107-112 | the flag becomes set exactly when it was set or the field qualifies (five or more sightings counting nulls, at most fifty and at most 80% as many distinct values, an enumerable label); a qualifying field gets its distinct values sorted, even when it was flagged before; a field that does not qualify is unchanged |
| T01FieldExtractor.T01Sighted | src/claude-code-analyzer/tasks/T01_deep_field_extraction/field_extractor.py:86-105 | a non-null sighting before the enum test: one more count, no more nulls, the label merged with the value's label, the flag and enum values untouched, the value kept among the distinct values when it is a scalar and fewer than fifty are held, and nothing else added; its truncated form added to the examples exactly when fewer than the cap are held and it is not among them |
| T01FieldExtractor.T01Added | src/claude-code-analyzer/tasks/T01_deep_field_extraction/field_extractor.py:76-112 | every sighting adds one to `count`; a null adds one null and changes nothing else; otherwise the label is merged, and the enum test runs on the field after the example and value steps: the flag is set exactly when it was set or that field qualifies, a qualifying field gets its sorted distinct values, and nothing else changes |
| T01FieldExtractor.T01AddedKeepsOk | src/claude-code-analyzer/tasks/T01_deep_field_extraction/field_extractor.py:76-112 | adding keeps the field invariant, and newly set enum values are exactly the distinct values |
| T01FieldExtractor.T01AddedAtFrame | src/claude-code-analyzer/tasks/T01_deep_field_extraction/field_extractor.py:78-87 | adding keeps the registry invariant, appends a new path and leaves every other field alone |
| T01FieldExtractor.T01AddedAllCounts | src/claude-code-analyzer/tasks/T01_deep_field_extraction/field_extractor.py:86-91 | after a batch each path's count and null count have grown by its sightings and null sightings |
| T01FieldExtractor.T01ContainerKeysSeenTwice | src/claude-code-analyzer/tasks/T01_deep_field_extraction/field_extractor.py:46-57 | a key holding an object or list is added twice per occurrence, a scalar key once |
| T01FieldExtractor.T01ScalarElementsAtStar | src/claude-code-analyzer/tasks/T01_deep_field_extraction/field_extractor.py:59-74 | the elements of a list of scalars are all added at `path[*]`, at most ten of them |
| T01FieldExtractor.T01GroupKeys | src/claude-code-analyzer/tasks/T01_deep_field_extraction/field_extractor.py:175-181 | the group keys are distinct and are exactly the rewrites of the paths the rewrite groups |
| T01FieldExtractor.T01GroupMembers | src/claude-code-analyzer/tasks/T01_deep_field_extraction/field_extractor.py:175-181 | a group holds exactly the grouped paths rewriting to its key, each once |
| T01FieldExtractor.T01NormalizeIdempotent | src/claude-code-analyzer/tasks/T01_deep_field_extraction/field_extractor.py:179 | the over-escaped rewrite is idempotent |
| T01FieldExtractor.T01MergeNoopWithoutBackslash | src/claude-code-analyzer/tasks/T01_deep_field_extraction/field_extractor.py:171-225 | `merge_array_fields` leaves a registry of backslash-free paths unchanged: `content[0].title` and `content[1].title` stay separate |
| T01ExtractorObject.GroupT01Paths | src/claude-code-analyzer/tasks/T01_deep_field_extraction/field_extractor.py:175-181 | the grouping loop yields the group keys and members |
| T01ExtractorObject.GroupPath | src/claude-code-analyzer/tasks/T01_deep_field_extraction/field_extractor.py:177-181 | one path of the grouping loop opens or extends its group |
| T01ExtractorObject.T01DedupExamples | src/claude-code-analyzer/tasks/T01_deep_field_extraction/field_extractor.py:212-220 | the example loop computes T01's de-duplication by printed form, capped at `max_examples` |
| T01ExtractorObject.AddTotals | src/claude-code-analyzer/tasks/T01_deep_field_extraction/field_extractor.py:200-206 | one member added to the running sums and unions |
| T01ExtractorObject.FieldExtractor.constructor | src/claude-code-analyzer/tasks/T01_deep_field_extraction/field_extractor.py:28-34 | an empty registry, no records counted |
| T01ExtractorObject.FieldExtractor.ExtractFromRecord | src/claude-code-analyzer/tasks/T01_deep_field_extraction/field_extractor.py:36-39 | one record more is counted and every sighting of its walk from the root is added |
| T01ExtractorObject.FieldExtractor.CountSighting | src/claude-code-analyzer/tasks/T01_deep_field_extraction/field_extractor.py:86-112 | the in-place updates of one sighting compute `T01Added` |
| T01ExtractorObject.FieldExtractor.AddExample | src/claude-code-analyzer/tasks/T01_deep_field_extraction/field_extractor.py:97-101 | computes `T01WithExample` |
| T01ExtractorObject.FieldExtractor.AddUniqueValue | src/claude-code-analyzer/tasks/T01_deep_field_extraction/field_extractor.py:103-105 | computes `T01WithUnique` |
| T01ExtractorObject.FieldExtractor.CheckEnum | src/claude-code-analyzer/tasks/T01_deep_field_extraction/field_extractor.py:107-112 | computes `T01EnumChecked` |
| T01ExtractorObject.FieldExtractor.AddField | src/claude-code-analyzer/tasks/T01_deep_field_extraction/field_extractor.py:76-112 | the registry afterwards is `T01AddedAt` of the old one |
| T01ExtractorObject.FieldExtractor.ExtractRecursive | src/claude-code-analyzer/tasks/T01_deep_field_extraction/field_extractor.py:41-74 | every sighting of the walk is added in walk order |
| T01ExtractorObject.FieldExtractor.ExtractMembers | src/claude-code-analyzer/tasks/T01_deep_field_extraction/field_extractor.py:46-57 | the loop over a dict's items |
| T01ExtractorObject.FieldExtractor.ExtractElements | src/claude-code-analyzer/tasks/T01_deep_field_extraction/field_extractor.py:59-74 | the loop over a list's first ten elements |
| T01ExtractorObject.FieldExtractor.ExtractElement | src/claude-code-analyzer/tasks/T01_deep_field_extraction/field_extractor.py:61-74 | a container element is walked at `path[i]` (the first also at `path[*]`); anything else is added at `path[*]` |
| T01ExtractorObject.FieldExtractor.MergeGroup | src/claude-code-analyzer/tasks/T01_deep_field_extraction/field_extractor.py:184-223 | one group becomes `T01MergedGroup` of the registry |
| T01ExtractorObject.FieldExtractor.RemoveMembers | src/claude-code-analyzer/tasks/T01_deep_field_extraction/field_extractor.py:200-207 | returns the members' sums and unions and deletes exactly the members |
| T01ExtractorObject.FieldExtractor.TakeField | src/claude-code-analyzer/tasks/T01_deep_field_extraction/field_extractor.py:201-207 | reads one member's field and deletes it |
| T01ExtractorObject.FieldExtractor.MergeArrayFields | src/claude-code-analyzer/tasks/T01_deep_field_extraction/field_extractor.py:171-225 | the registry afterwards is `T01ArrayMerged` of the old one |
| StructureTypes.Signature | src/claude-code-analyzer/tasks/T02_message_structure_type/type_analyzer.py:66-102 | a signature is never shorter than four characters (the shortest is "null") |
| StructureTypes.SignatureKinds | src/claude-code-analyzer/tasks/T02_message_structure_type/type_analyzer.py:68-80 | the signature identifies the value's kind, booleans apart from integers, and "array[]" and "object{}" are exactly the empty containers |
| StructureTypes.ListSignature | src/claude-code-analyzer/tasks/T02_message_structure_type/type_analyzer.py:78-91 | a list's signature is the sorted, comma-joined set of its element signatures in `array[…]` |
| StructureTypes.UniformListSignature | src/claude-code-analyzer/tasks/T02_message_structure_type/type_analyzer.py:86-87 | a list whose sampled elements share one signature is that signature in brackets |
| StructureTypes.SignatureSample | src/claude-code-analyzer/tasks/T02_message_structure_type/type_analyzer.py:83 | only the first ten elements of a list matter |
| StructureTypes.ListSignatureShape | src/claude-code-analyzer/tasks/T02_message_structure_type/type_analyzer.py:78-91 | a list's signature starts "array[" and is "array[]" exactly for the empty list |
| StructureTypes.ObjectSignatureShape | src/claude-code-analyzer/tasks/T02_message_structure_type/type_analyzer.py:92-100 | an object's signature starts "object{" and is "object{}" exactly for the empty object |
| StructureTypes.SignatureReordered | src/claude-code-analyzer/tasks/T02_message_structure_type/type_analyzer.py:92-100 | signatures do not depend on the order object keys were inserted in, at any depth |
| StructureTypes.PermutedMembers | src/claude-code-analyzer/tasks/T02_message_structure_type/type_analyzer.py:97 | a dict with distinct keys whose entries are a permutation of another's has the same signature |
| StructureTypes.ComplexityOfKinds | src/claude-code-analyzer/tasks/T02_message_structure_type/type_analyzer.py:303-304 | complexity is 0 exactly for scalars |
| StructureTypes.ObjectComplexity | src/claude-code-analyzer/tasks/T02_message_structure_type/type_analyzer.py:303-304 | an object's complexity is at least its number of keys plus one |
| StructureTypes.UniformListComplexity | src/claude-code-analyzer/tasks/T02_message_structure_type/type_analyzer.py:303-304 | wrapping a uniform list adds exactly one to its elements' complexity |
| StructureTypes.Bucket | src/claude-code-analyzer/tasks/T02_message_structure_type/type_analyzer.py:306-316 | positive counts land in exactly one of 1, 2-5, 6-10, 11-50 and over 50 |
| StructureTypes.BucketMonotone | src/claude-code-analyzer/tasks/T02_message_structure_type/type_analyzer.py:306-316 | more occurrences never land in a lower bucket |
| StructureTypes.BucketTotals | src/claude-code-analyzer/tasks/T02_message_structure_type/type_analyzer.py:306-316 | the bucket tallies add up to the number of types tallied |
| StructureTypes.WithExamplesKeepsFirst | src/claude-code-analyzer/tasks/T02_message_structure_type/type_analyzer.py:31-35 | adding objects one by one counts all of them and keeps exactly the first ones up to the cap |
| StructureTypes.WithExampleKeepsOk | src/claude-code-analyzer/tasks/T02_message_structure_type/type_analyzer.py:31-35 | adding an object of the type's own signature to a fresh or valid record keeps the record valid: its examples capped and of that signature |
| StructureTypes.Analyzed | src/claude-code-analyzer/tasks/T02_message_structure_type/type_analyzer.py:104-121 | a non-object leaves the table unchanged; an object raises the total by one and files its signature |
| StructureTypes.AnalyzedCount | src/claude-code-analyzer/tasks/T02_message_structure_type/type_analyzer.py:104-121 | exactly one count goes up, the one of the object's signature |
| StructureTypes.AnalyzedKeepsOk | src/claude-code-analyzer/tasks/T02_message_structure_type/type_analyzer.py:104-121 | the table invariant is kept: each signature listed once, each type seen at least once with capped examples of its own signature, and the total equal to the sum of the counts |
| StructureTypes.AnalyzedAllKeepsOk | src/claude-code-analyzer/tasks/T02_message_structure_type/type_analyzer.py:104-121 | analysing any sequence of objects keeps the table invariant |
| StructureTypes.AnalyzedAllCounts | src/claude-code-analyzer/tasks/T02_message_structure_type/type_analyzer.py:104-121 | analysing objects raises the total by their number and each count by the number of them with that signature |
| StructureTypes.VisitedAreObjects | src/claude-code-analyzer/tasks/T02_message_structure_type/type_analyzer.py:127-143 | the walk hands only objects to `analyze_object`, so each of them is counted |
| StructureTypes.VisitedWithinDepth | src/claude-code-analyzer/tasks/T02_message_structure_type/type_analyzer.py:127-143 | within the depth bound the walk finds every nested object, in every list element |
| StructureTypes.RecordAnalyzed | src/claude-code-analyzer/tasks/T02_message_structure_type/type_analyzer.py:123-125 | walking a record keeps the invariant, raises the total by the objects found and each count by those of its signature |
| StructureTypes.OccurrenceSummaryTotal | src/claude-code-analyzer/tasks/T02_message_structure_type/type_analyzer.py:306-316 | the occurrence counter of `get_type_summary` adds up to the number of types |
| StructureTypesObject.ObjectType.constructor | src/claude-code-analyzer/tasks/T02_message_structure_type/type_analyzer.py:25-29 | a type with its signature, count 0 and no examples |
| StructureTypesObject.ObjectType.AddExample | src/claude-code-analyzer/tasks/T02_message_structure_type/type_analyzer.py:31-35 | the record afterwards is `WithExample` of the old one |
| StructureTypesObject.ObjectTypeAnalyzer.constructor | src/claude-code-analyzer/tasks/T02_message_structure_type/type_analyzer.py:41-46 | an empty table |
| StructureTypesObject.ObjectTypeAnalyzer.AnalyzeObject | src/claude-code-analyzer/tasks/T02_message_structure_type/type_analyzer.py:104-121 | the table afterwards is `Analyzed` of the old one, and the invariant is kept |
| StructureTypesObject.ObjectTypeAnalyzer.NewType | src/claude-code-analyzer/tasks/T02_message_structure_type/type_analyzer.py:115-118 | a fresh, empty type filed under a new signature at the end of the order |
| StructureTypesObject.ObjectTypeAnalyzer.CountUnder | src/claude-code-analyzer/tasks/T02_message_structure_type/type_analyzer.py:121 | only that signature's type changes, by `WithExample` |
| StructureTypesObject.ObjectTypeAnalyzer.AnalyzeRecursive | src/claude-code-analyzer/tasks/T02_message_structure_type/type_analyzer.py:127-143 | every object the walk visits is analysed, in walk order |
| StructureTypesObject.ObjectTypeAnalyzer.AnalyzeChildren | src/claude-code-analyzer/tasks/T02_message_structure_type/type_analyzer.py:132-138 | the loop over a dict's values |
| StructureTypesObject.ObjectTypeAnalyzer.AnalyzeElements | src/claude-code-analyzer/tasks/T02_message_structure_type/type_analyzer.py:140-143 | the loop over all of a list's elements |
| StructureTypesObject.ObjectTypeAnalyzer.AnalyzeRecord | src/claude-code-analyzer/tasks/T02_message_structure_type/type_analyzer.py:123-125 | the table afterwards is `RecordAnalyzed` of the old one |
| StructureTypesObject.ObjectTypeAnalyzer.TypeSummary | src/claude-code-analyzer/tasks/T02_message_structure_type/type_analyzer.py:295-316 | the two counters are the tallies of the types' complexities and occurrence buckets |
| SessionCover.RecordAnalyzedKeys | src/claude-code-analyzer/tasks/T03_minimal_set_cover/set_cover_analyzer.py:94-101 | walking one record adds exactly the signatures of the objects it visits |
| SessionCover.FileSignaturesSeen | src/claude-code-analyzer/tasks/T03_minimal_set_cover/set_cover_analyzer.py:86-108 | a session's types are exactly the signatures of the objects met in walking its records |
| SessionCover.Recorded | src/claude-code-analyzer/tasks/T03_minimal_set_cover/set_cover_analyzer.py:62-79 | a session with no types is not recorded; otherwise its set is stored under its id; `all_types` gains its types |
| SessionCover.Limited | src/claude-code-analyzer/tasks/T03_minimal_set_cover/set_cover_analyzer.py:46-47 | the files analysed are a prefix: all of them for no limit, the first `max_sessions` for a positive one, and all but the last ones for a negative one, as a slice does |
| SessionCover.RecordedKeepsOk | src/claude-code-analyzer/tasks/T03_minimal_set_cover/set_cover_analyzer.py:62-68 | recording keeps the index invariant: order, recorded sets non-empty and within `all_types`, inverse entries sound |
| SessionCover.RecordedNewKeepsExact | src/claude-code-analyzer/tasks/T03_minimal_set_cover/set_cover_analyzer.py:62-68 | recording a session whose id is new keeps the inverse index exact |
| SessionCover.RecordedAllOk | src/claude-code-analyzer/tasks/T03_minimal_set_cover/set_cover_analyzer.py:53-79 | the record loop keeps the index invariant |
| SessionCover.RecordedAllInverse | src/claude-code-analyzer/tasks/T03_minimal_set_cover/set_cover_analyzer.py:62-68 | every type of a recorded session lists that session in the inverse index |
| SessionCover.RecordedAllExact | src/claude-code-analyzer/tasks/T03_minimal_set_cover/set_cover_analyzer.py:62-68 | with distinct, unseen session ids the inverse index is exact in both directions |
| SessionCover.RepeatedIdLeavesStaleTypes | src/claude-code-analyzer/tasks/T03_minimal_set_cover/set_cover_analyzer.py:63-68 | a repeated session id replaces the session's set but leaves the old types in `all_types` and in the inverse index, so the index is no longer exact |
| SessionCover.ExactUnion | src/claude-code-analyzer/tasks/T03_minimal_set_cover/set_cover_analyzer.py:62-68 | with an exact index `all_types` is the union of the recorded sets |
| SessionCover.LeaderIsBest | src/claude-code-analyzer/tasks/T03_minimal_set_cover/set_cover_analyzer.py:128-139 | the session the scan keeps is the round's best choice: unselected, of largest gain, first in insertion order among equals |
| SessionCover.BestChoiceUnique | src/claude-code-analyzer/tasks/T03_minimal_set_cover/set_cover_analyzer.py:136 | the strict comparison makes a round's pick unique |
| SessionCover.GreedyRunSnoc | src/claude-code-analyzer/tasks/T03_minimal_set_cover/set_cover_analyzer.py:144-146 | taking a round's best choice extends a greedy run |
| SessionCover.CoverStep | src/claude-code-analyzer/tasks/T03_minimal_set_cover/set_cover_analyzer.py:133-146 | a selection removes exactly its newly covered types from the uncovered set, which shrinks when it gains anything |
| SessionCover.GreedyRunBounds | src/claude-code-analyzer/tasks/T03_minimal_set_cover/set_cover_analyzer.py:120-146 | a greedy run never picks a session twice, picks only recorded sessions, and has at most as many rounds as there are types and as sessions |
| SessionCover.FullCover | src/claude-code-analyzer/tasks/T03_minimal_set_cover/set_cover_analyzer.py:141-142 | when no session gains anything, every type some session holds is covered |
| SessionCover.TypeCovered | src/claude-code-analyzer/tasks/T03_minimal_set_cover/set_cover_analyzer.py:116-146 | a type held by some session is covered by the selection at the end |
| SessionCover.CumulativeGrows | src/claude-code-analyzer/tasks/T03_minimal_set_cover/set_cover_analyzer.py:183-194 | cumulative coverage never goes down along the ranks, and each session adds exactly its new types |
| SessionCover.ContributionsSum | src/claude-code-analyzer/tasks/T03_minimal_set_cover/set_cover_analyzer.py:181-202 | the contributions of the first n ranks add up to the types those sessions cover |
| SessionCover.Frequency | src/claude-code-analyzer/tasks/T03_minimal_set_cover/set_cover_analyzer.py:206-209 | a type's count never exceeds the number of sessions counted |
| SessionCover.FrequencySnoc | src/claude-code-analyzer/tasks/T03_minimal_set_cover/set_cover_analyzer.py:207-209 | counting one more session adds its types to the counter's keys and one to each of their counts |
| SessionCover.FrequencyHeld | src/claude-code-analyzer/tasks/T03_minimal_set_cover/set_cover_analyzer.py:206-209 | a type is a key of the counter exactly when its count is positive |
| SessionCover.FrequencyCountsSessions | src/claude-code-analyzer/tasks/T03_minimal_set_cover/set_cover_analyzer.py:206-209 | with each session counted once, a type's count is the number of sessions holding it |
| SessionCover.FrequencyIsInverseSize | src/claude-code-analyzer/tasks/T03_minimal_set_cover/set_cover_analyzer.py:206-209 | with an exact index, a type's count is the number of sessions its inverse index entry lists |
| SessionCover.FrequencyAnalysisBounds | src/claude-code-analyzer/tasks/T03_minimal_set_cover/set_cover_analyzer.py:211-215 | no more types in ten or more sessions than in five or more; the rare and the common types are different types, so together they number at most the types held |
| SessionCover.GreedyContributes | src/claude-code-analyzer/tasks/T03_minimal_set_cover/set_cover_analyzer.py:124-139 | along a greedy run every selected session contributes at least one new type |
| SessionCoverObject.MinimalSessionCoverAnalyzer.constructor | src/claude-code-analyzer/tasks/T03_minimal_set_cover/set_cover_analyzer.py:27-32 | an empty, exact index |
| SessionCoverObject.MinimalSessionCoverAnalyzer.IndexSession | src/claude-code-analyzer/tasks/T03_minimal_set_cover/set_cover_analyzer.py:67-68 | the session joins the inverse entry of each of its types, nothing else changes |
| SessionCoverObject.MinimalSessionCoverAnalyzer.RecordSession | src/claude-code-analyzer/tasks/T03_minimal_set_cover/set_cover_analyzer.py:62-79 | the index afterwards is `Recorded` of the old one |
| SessionCoverObject.MinimalSessionCoverAnalyzer.AnalyzeSessionTypes | src/claude-code-analyzer/tasks/T03_minimal_set_cover/set_cover_analyzer.py:34-84 | the index afterwards records the limited files in order; the invariant is kept; it stays exact when the ids are fresh |
| SessionCoverObject.MinimalSessionCoverAnalyzer.FindBest | src/claude-code-analyzer/tasks/T03_minimal_set_cover/set_cover_analyzer.py:124-139 | one scan returns the round's best choice and its new types, or reports that no session gains anything |
| SessionCoverObject.MinimalSessionCoverAnalyzer.GreedySetCover | src/claude-code-analyzer/tasks/T03_minimal_set_cover/set_cover_analyzer.py:110-162 | the selection is a greedy run that ends covering every type or with no session gaining; with every type held by a session it covers all of them |
| SessionCoverObject.MinimalSessionCoverAnalyzer.TypeFrequencies | src/claude-code-analyzer/tasks/T03_minimal_set_cover/set_cover_analyzer.py:205-215 | the three figures are the numbers of types held by exactly one session, by five or more and by ten or more |
| SessionCoverObject.CountSessionTypes | src/claude-code-analyzer/tasks/T03_minimal_set_cover/set_cover_analyzer.py:208-209 | adds one to the count of every type of the session and leaves the other counts alone |
| SessionCoverObject.CountFrequencies | src/claude-code-analyzer/tasks/T03_minimal_set_cover/set_cover_analyzer.py:206-209 | the counter holds exactly the types some session holds, each with the number of sessions holding it |
| SessionCoverObject.TallyFrequencies | src/claude-code-analyzer/tasks/T03_minimal_set_cover/set_cover_analyzer.py:211-215 | the three sums over the counter's values count the types of each frequency class |
| SessionCoverObject.MinimalSessionCoverAnalyzer.CoverageDetails | src/claude-code-analyzer/tasks/T03_minimal_set_cover/set_cover_analyzer.py:181-202 | the per-session figures are each rank's new and cumulative coverage, and the covered count is the size of the selection's union |
| SharedUtils.UtilSignatureKinds | src/claude-code-analyzer/shared/utils.py:28-53 | the first letter of a shared signature tells the kind of the value |
| SharedUtils.UtilSignatureFirstElement | src/claude-code-analyzer/shared/utils.py:45-48 | a list's shared signature is decided by its first element alone |
| SharedUtils.UnknownOnlyForEmpty | src/claude-code-analyzer/shared/utils.py:45-48 | only the empty list is `array<unknown>` |
| SharedUtils.UtilSignatureReordered | src/claude-code-analyzer/shared/utils.py:38-44 | the shared signature does not depend on key insertion order either |
| SharedUtils.GetDataTypeHeadsSignature | src/claude-code-analyzer/shared/utils.py:56-81 | the friendly name is the head of the T02 signature, and all of it for a scalar |
| SharedUtils.GetDataTypeIgnoresElements | src/claude-code-analyzer/shared/utils.py:76-77 | every list is plain "array" whatever it holds |
| SharedUtils.TruncateString | src/claude-code-analyzer/shared/utils.py:84-98 | a text that fits is returned as it is; a longer one ends with the suffix |
| SharedUtils.TruncateStringFits | src/claude-code-analyzer/shared/utils.py:84-98 | with room for the suffix, a long text becomes exactly `max_length` long: its prefix, then the suffix |
| SharedUtils.TruncateStringIdempotent | src/claude-code-analyzer/shared/utils.py:84-98 | with room for the suffix, truncating again changes nothing |
| SharedUtils.TruncateStringShortLimit | src/claude-code-analyzer/shared/utils.py:97-98 | a limit shorter than the suffix can make the result longer than both the limit and the text: `abcd` with limit 2 and suffix `...` becomes `abc...` |
| SharedUtils.UuidLength | src/claude-code-analyzer/shared/utils.py:101-112 | a UUID is 36 characters, or 37 with the one final newline the anchor lets through |
| SharedUtils.UuidLowerExample | src/claude-code-analyzer/shared/utils.py:101-112 | the canonical form of section 3 of RFC 4122 is accepted in lower case |
| SharedUtils.UuidUpperExample | src/claude-code-analyzer/shared/utils.py:101-112 | and in upper case |
| SharedUtils.UuidNeedsDashes | src/claude-code-analyzer/shared/utils.py:101-112 | the same digits without dashes are rejected |
| SharedUtils.TimestampLength | src/claude-code-analyzer/shared/utils.py:115-134 | a timestamp is 19 to 24 characters, plus the one final newline the anchor allows |
| SharedUtils.IsoTimestampExample | src/claude-code-analyzer/shared/utils.py:126-128 | `2025-07-31T17:02:24Z` is a timestamp |
| SharedUtils.IsoMillisTimestampExample | src/claude-code-analyzer/shared/utils.py:126-128 | `2025-07-31T17:02:24.123Z` is a timestamp |
| SharedUtils.SpacedTimestampExample | src/claude-code-analyzer/shared/utils.py:126-128 | `2025-07-31 17:02:24.123` is a timestamp |
| SharedUtils.NonTimestampExamples | src/claude-code-analyzer/shared/utils.py:126-134 | the spaced form takes no zone letter, and a bare date is no timestamp |
| SharedUtils.FollowAppend | src/claude-code-analyzer/shared/utils.py:186-194 | following a joined key path is following the first part and then the rest, stopping at the first miss |
| SharedUtils.SafeGet | src/claude-code-analyzer/shared/utils.py:174-196 | the value reached by following the dotted keys through nested objects, or the default as soon as a step is missing or not an object |
| SharedUtils.SafeGetJoinedPath | src/claude-code-analyzer/shared/utils.py:186 | a dotted path built from dot-free keys finds what following those keys finds |
| SharedUtils.MostCommonCounts | src/claude-code-analyzer/shared/utils.py:250 | every item `most_common` returns is the true count of a length that occurs |
| SharedUtils.MostCommonOrdered | src/claude-code-analyzer/shared/utils.py:250-255 | it lists each length at most once, largest count first, and lengths of equal count in the order they were first counted |
| SharedUtils.MostCommonLeftOut | src/claude-code-analyzer/shared/utils.py:250 | a length left out occurs no more often than the last one kept, and then all n places are filled |
| SharedUtils.FindCommonPatterns | src/claude-code-analyzer/shared/utils.py:228-259 | the loop computes the reported patterns: UUID, Timestamp, then the most common lengths |
| SharedUtils.AppendLengthPatterns | src/claude-code-analyzer/shared/utils.py:250-257 | the loop over the top lengths appends those meeting the minimum |
| SharedUtils.CommonPatternsFacts | src/claude-code-analyzer/shared/utils.py:228-259 | at most five patterns, each meeting the minimum; the UUID entry appears exactly when its count meets it, and then first; the Timestamp entry appears exactly when its count meets it, and then right after the UUID entry, or first without one |
| SharedUtils.LengthPatternsFacts | src/claude-code-analyzer/shared/utils.py:250-257 | at most one length pattern per top length, each meeting the minimum |
| SmartFieldList.PatternOrder | src/claude-cli-analyzer/generate_smart_field_list.py:50-58 | the patterns are distinct, no more than the fields, and exactly the patterns of the fields |
| SmartFieldList.Group | src/claude-cli-analyzer/generate_smart_field_list.py:50-58 | a group's fields all normalise to its pattern, and it is non-empty exactly for a pattern that occurs |
| SmartFieldList.GroupByPattern | src/claude-cli-analyzer/generate_smart_field_list.py:50-58 | the grouping loop computes the pattern order and each pattern's group |
| SmartFieldList.Dedup | src/claude-cli-analyzer/generate_smart_field_list.py:99-107 | at most five examples are kept |
| SmartFieldList.DedupFacts | src/claude-cli-analyzer/generate_smart_field_list.py:99-107 | the kept examples come from the candidates and print differently; a candidate left out prints like a kept one unless five are kept |
| SmartFieldList.MergeEnums | src/claude-cli-analyzer/generate_smart_field_list.py:91-96 | the enum loop computes whether any field is an enum with values, and the union of those values |
| SmartFieldList.MergeExamples | src/claude-cli-analyzer/generate_smart_field_list.py:99-107 | the example loop computes the de-duplication of every field's first two examples |
| SmartFieldList.KeepExamples | src/claude-cli-analyzer/generate_smart_field_list.py:102-107 | the inner loop over one field's examples |
| SmartFieldList.MergePatterns | src/claude-cli-analyzer/generate_smart_field_list.py:110-112 | the pattern loop computes the union of the value patterns |
| SmartFieldList.MergeGroup | src/claude-cli-analyzer/generate_smart_field_list.py:63-129 | the body of the group loop computes the merged entry |
| SmartFieldList.GenerateSmartFields | src/claude-cli-analyzer/generate_smart_field_list.py:50-132 | grouping, merging and sorting compute the report's entries |
| SmartFieldList.MergeAll | src/claude-cli-analyzer/generate_smart_field_list.py:60-129 | the loop over the groups appends each merged entry in group order |
| SmartFieldList.AnyEnumIff | src/claude-cli-analyzer/generate_smart_field_list.py:91-96 | the `any(...)` is true exactly when some field is an enum with values |
| SmartFieldList.ArrayIndicesFacts | src/claude-cli-analyzer/generate_smart_field_list.py:125 | a pattern's array indices are sorted and distinct, and are exactly the indices its fields hold |
| SmartFieldList.MergedCounts | src/claude-cli-analyzer/generate_smart_field_list.py:83-84 | a merged entry's occurrences and nulls are sums over its fields, its instance count the group size, its depth that of the pattern |
| SmartFieldList.MergedNullsBounded | src/claude-cli-analyzer/generate_smart_field_list.py:83-84 | fields whose nulls are among their occurrences merge into such an entry |
| SmartFieldList.MergedEnum | src/claude-cli-analyzer/generate_smart_field_list.py:91-96 | a multi-field entry is an enum exactly when a field is an enum with values, then with all their values each once, in the scalar order (Python's `sorted` order when the values are of one kind); a single field keeps its own flag and values |
| SmartFieldList.MergedPatterns | src/claude-cli-analyzer/generate_smart_field_list.py:110-123 | a multi-field entry lists every value pattern of its fields, sorted, each once |
| SmartFieldList.MergedTypeCommon | src/claude-cli-analyzer/generate_smart_field_list.py:87-88 | fields that agree on their type merge into that type |
| SmartFieldList.MergedTypeMixed | src/claude-cli-analyzer/generate_smart_field_list.py:88 | fields of different types merge into a type starting `mixed(` |
| SmartFieldList.MergedExamples | src/claude-cli-analyzer/generate_smart_field_list.py:99-122 | a multi-field entry has at most three examples, each among the first two of one of its fields, no two printing alike |
| SmartFieldList.MergedSingleExamples | src/claude-cli-analyzer/generate_smart_field_list.py:64-80 | a single-field entry keeps its first three examples, its patterns and its type |
| SmartFieldList.Partition | src/claude-cli-analyzer/generate_smart_field_list.py:50-58 | the groups partition the fields: a sum over the groups is a sum over every field once |
| SmartFieldList.SmartFieldsTotals | src/claude-cli-analyzer/generate_smart_field_list.py:114-127 | every field is an instance of exactly one entry, and the entries' occurrences add up to the fields' |
| SmartFieldList.SmartFieldsTies | src/claude-cli-analyzer/generate_smart_field_list.py:132 | entries of equal depth and equal occurrences keep the order of the pattern groups |
| SmartFieldList.SmartFieldsShape | src/claude-cli-analyzer/generate_smart_field_list.py:132 | one entry per pattern, no more than the fields, each the merge of its pattern's group, sorted by depth and then by descending occurrences |
| SmartFieldList.MergedPathsNormalise | src/claude-cli-analyzer/generate_smart_field_list.py:52-58 | every original path of an entry normalises to its pattern, which is already normal |
| SmartFieldList.IndexRangeFacts | src/claude-cli-analyzer/generate_smart_field_list.py:251-259 | the range is `-` exactly when there are no indices; otherwise it is bracketed and holds a dash exactly when the indices differ |
| SmartFieldList.IndexRangeReadsBack | src/claude-cli-analyzer/generate_smart_field_list.py:251-259 | reading the range back gives the smallest and the largest index |
| TaskScheduling.OrderDistinct | src/claude-code-analyzer/task_scheduler.py:156-182 | each task is emitted at most once, and only known tasks are emitted |
| TaskScheduling.DegreeFacts | src/claude-code-analyzer/task_scheduler.py:159-180 | the in-degree a task loses as emitted tasks are released never exceeds the in-degree it starts with, and equals it exactly when it names no known task twice and all its known dependencies have been emitted |
| TaskScheduling.OrderDepsFirst | src/claude-code-analyzer/task_scheduler.py:156-182 | every emitted task comes after all of its dependencies that are known tasks |
| TaskScheduling.OrderMembers | src/claude-code-analyzer/task_scheduler.py:156-182 | a task is emitted exactly when it is known, names no known task twice and all its known dependencies are emitted |
| TaskScheduling.RepeatedDependencyNeverRuns | src/claude-code-analyzer/task_scheduler.py:162-165 | a task listing a known task twice is never emitted: its in-degree counts the entry twice but loses it once |
| TaskScheduling.DownstreamNeverRuns | src/claude-code-analyzer/task_scheduler.py:171-180 | a task depending on a known task that is never emitted is not emitted either |
| TaskScheduling.ClosedGroupNeverRuns | src/claude-code-analyzer/task_scheduler.py:171-180 | no task of a group where each depends on another of the group is emitted |
| TaskScheduling.CycleNeverRuns | src/claude-code-analyzer/task_scheduler.py:171-180 | two known tasks that depend on each other are both left out |
| TaskScheduling.RankedAllRun | src/claude-code-analyzer/task_scheduler.py:156-182 | without cycles and repeated entries every task is emitted |
| TaskScheduling.BuiltInWellFormed | src/claude-code-analyzer/task_scheduler.py:64-154 | the eight built-in tasks have distinct ids, and each has exactly one dependency list |
| TaskScheduling.BuiltInOrder | src/claude-code-analyzer/task_scheduler.py:64-182 | the built-in tasks run in the order T06, T01, T02, T04, T05, T03, T07, T08 |
| TaskScheduling.FirstUnfinished | src/claude-code-analyzer/task_scheduler.py:197-201 | the position of the first dependency without a completed result, every earlier one being completed |
| TaskScheduling.TaskRunGate | src/claude-code-analyzer/task_scheduler.py:184-201 | a task completes exactly when it is known, every listed dependency has completed and its script succeeds; an unknown id is the only unknown-task failure; a dependency failure names a listed, unfinished dependency |
| TaskScheduling.MissingDependencyFails | src/claude-code-analyzer/task_scheduler.py:197-201 | a task listing a dependency with no completed result fails, known task or not |
| TaskScheduling.TasksToRun | src/claude-code-analyzer/task_scheduler.py:277-280 | a run attempts exactly the ordered tasks in the filter (all of them without one), adding no dependency |
| TaskScheduling.TasksToRunDistinct | src/claude-code-analyzer/task_scheduler.py:277-280 | no task is attempted twice |
| TaskScheduling.Attempted | src/claude-code-analyzer/task_scheduler.py:287-293 | a run over a non-empty list attempts at least one task and never more than the list holds |
| TaskScheduling.AttemptKeys | src/claude-code-analyzer/task_scheduler.py:287-289 | the results hold exactly the earlier results and the attempted tasks; earlier results of tasks not attempted are kept |
| TaskScheduling.AttemptStatus | src/claude-code-analyzer/task_scheduler.py:287-293 | every attempted task but the last completed, and a run that stops early stops at a failure |
| TaskScheduling.AttemptOutsideDependencyFails | src/claude-code-analyzer/task_scheduler.py:287-293 | a task whose dependency is neither run before it nor already completed fails |
| TaskScheduling.FilteredDependencyFails | src/claude-code-analyzer/task_scheduler.py:277-293 | in a filtered run a task whose dependency is left out of the filter, or names no task, fails unless that dependency already completed |
| TaskScheduling.AttemptAllComplete | src/claude-code-analyzer/task_scheduler.py:287-293 | when every task comes after what it lists and every script succeeds, all tasks are attempted and complete |
| TaskScheduling.FullRunCompletes | src/claude-code-analyzer/task_scheduler.py:271-301 | a full run from nothing, with known dependencies and succeeding scripts, completes every task of the order |
| TaskSchedulerObject.CountKnown | src/claude-code-analyzer/task_scheduler.py:163-165 | one task's in-degree counting loop adds one per entry naming a known task |
| TaskSchedulerObject.CountDegrees | src/claude-code-analyzer/task_scheduler.py:159-165 | the in-degree loops compute the initial degrees |
| TaskSchedulerObject.Release | src/claude-code-analyzer/task_scheduler.py:176-180 | the inner loop after a task is dequeued computes one pass |
| TaskSchedulerObject.TaskScheduler.constructor | src/claude-code-analyzer/task_scheduler.py:51-62 | the built-in tasks and no results |
| TaskSchedulerObject.TaskScheduler.GetTaskDependencyOrder | src/claude-code-analyzer/task_scheduler.py:156-182 | Kahn's loop with a first-in first-out queue computes `DependencyOrder` |
| TaskSchedulerObject.TaskScheduler.RunTask | src/claude-code-analyzer/task_scheduler.py:184-255 | the result is `TaskRun` of the recorded results |
| TaskSchedulerObject.TaskScheduler.RunAllTasks | src/claude-code-analyzer/task_scheduler.py:271-301 | the recorded results afterwards are `Attempt` over the tasks to run, and they are returned |
| SessionTodos.HexDashRun | src/claude-code-analyzer/tasks/T05_session_todos_relationship/relationship_analyzer.py:30 | the longest prefix made of `[a-f0-9-]`: all in the class, then a character outside it or the end |
| SessionTodos.ParseTodosNameSound | src/claude-code-analyzer/tasks/T05_session_todos_relationship/relationship_analyzer.py:30 | a name the parser accepts fits the pattern with the groups it returns |
| SessionTodos.ParseTodosNameComplete | src/claude-code-analyzer/tasks/T05_session_todos_relationship/relationship_analyzer.py:62-66 | a name that fits the pattern is parsed into exactly those groups, so the match is unique |
| SessionTodos.FitsLayout | src/claude-code-analyzer/tasks/T05_session_todos_relationship/relationship_analyzer.py:30 | where the session id, the `-agent-` marker, the agent id and `.json` lie in a fitting name |
| SessionTodos.AddTodosFileOk | src/claude-code-analyzer/tasks/T05_session_todos_relationship/relationship_analyzer.py:69-77 | adding one todos file keeps the two maps consistent: an agent's sessions are exactly those with an entry by that agent |
| SessionTodos.AddTodosFilesOk | src/claude-code-analyzer/tasks/T05_session_todos_relationship/relationship_analyzer.py:62-77 | the todos loop keeps the maps consistent |
| SessionTodos.AddTodosFileCount | src/claude-code-analyzer/tasks/T05_session_todos_relationship/relationship_analyzer.py:69-72 | a matching file adds one entry, any other none |
| SessionTodos.EntriesMatchFiles | src/claude-code-analyzer/tasks/T05_session_todos_relationship/relationship_analyzer.py:62-77 | the entries of all sessions together number the matching files |
| SessionTodos.AddTodosFileAgents | src/claude-code-analyzer/tasks/T05_session_todos_relationship/relationship_analyzer.py:75-77 | one file adds its session to its agent's set and nothing else |
| SessionTodos.AgentSessionsNamed | src/claude-code-analyzer/tasks/T05_session_todos_relationship/relationship_analyzer.py:62-77 | from empty maps, an agent's set holds exactly the sessions a matching file names with that agent |
| SessionTodos.SessionsWithNoTodosCounts | src/claude-code-analyzer/tasks/T05_session_todos_relationship/relationship_analyzer.py:130 | when every session with todos has a session file, the figure counts the session files without todos |
| SessionTodos.SessionsWithNoTodosNegative | src/claude-code-analyzer/tasks/T05_session_todos_relationship/relationship_analyzer.py:130 | a todos file whose session has no session file makes the figure negative |
| SessionTodos.BucketRanges | src/claude-code-analyzer/tasks/T05_session_todos_relationship/relationship_analyzer.py:141-150 | the four relationship types split the positive counts into 1, 2-5, 6-10 and over 10 (a count of 0, which no session has, would fall in 2-5) |
| SessionTodos.MaxCount | src/claude-code-analyzer/tasks/T05_session_todos_relationship/relationship_analyzer.py:152 | the largest count, 0 when there is none |
| SessionTodos.DistributionTypes | src/claude-code-analyzer/tasks/T05_session_todos_relationship/relationship_analyzer.py:127-153 | each type is reported with the number of sessions in its range, and only types some session has |
| SessionTodos.ReusedAgentsCount | src/claude-code-analyzer/tasks/T05_session_todos_relationship/relationship_analyzer.py:155-175 | `reused_agents` is the number of agents with more than one session, at most the number of agents |
| SessionTodos.MaxSessionsPerAgent | src/claude-code-analyzer/tasks/T05_session_todos_relationship/relationship_analyzer.py:155-175 | the maximum is the largest session set, and some agent is reused exactly when it exceeds 1 |
| SessionTodos.CountAboveMax | src/claude-code-analyzer/tasks/T05_session_todos_relationship/relationship_analyzer.py:164-172 | some count exceeds k exactly when the largest does |
| SessionTodos.AgentPatternCases | src/claude-code-analyzer/tasks/T05_session_todos_relationship/relationship_analyzer.py:213-220 | one id, possibly repeated, is "single_agent"; all different is "unique_agents"; a repeat among two or more ids is "mixed_agents" |
| SessionTodos.DetailsOf | src/claude-code-analyzer/tasks/T05_session_todos_relationship/relationship_analyzer.py:104-121 | each detail belongs to a session with a session file and enough todos, and is built from that session's entries |
| SessionTodos.DetailsOfComplete | src/claude-code-analyzer/tasks/T05_session_todos_relationship/relationship_analyzer.py:104-121 | every such session has its detail |
| SessionTodos.ComplexRelationships | src/claude-code-analyzer/tasks/T05_session_todos_relationship/relationship_analyzer.py:177-199 | at most ten sessions |
| SessionTodos.DetailsOfOrder | src/claude-code-analyzer/tasks/T05_session_todos_relationship/relationship_analyzer.py:104-121 | the details follow the order of their sessions |
| SessionTodos.SessionDetailsTies | src/claude-code-analyzer/tasks/T05_session_todos_relationship/relationship_analyzer.py:123 | sessions with equal todo counts keep their first-seen order |
| SessionTodos.ComplexRelationshipsTies | src/claude-code-analyzer/tasks/T05_session_todos_relationship/relationship_analyzer.py:177-199 | sessions with equal todo counts keep their first-seen order |
| SessionTodos.ComplexRelationshipsTop | src/claude-code-analyzer/tasks/T05_session_todos_relationship/relationship_analyzer.py:177-199 | sorted by descending todo count, each with a session file and more than one todos file; a qualifying session left out has no more todos than any reported one |
| SessionTodos.OfType | src/claude-code-analyzer/tasks/T05_session_todos_relationship/relationship_analyzer.py:47-48 | a file is listed exactly when it is in the scan and of that type |
| SessionTodos.OfTypeCounts | src/claude-code-analyzer/tasks/T05_session_todos_relationship/relationship_analyzer.py:47-48 | each file of that type is listed as often as the scan holds it, and no other file is listed |
| SessionTodos.OfTypeOrder | src/claude-code-analyzer/tasks/T05_session_todos_relationship/relationship_analyzer.py:47-48 | the listed files keep the order of the scan |
| SessionTodos.SessionIndex | src/claude-code-analyzer/tasks/T05_session_todos_relationship/relationship_analyzer.py:55-57 | the index holds the old ids and the session files' ids, each mapped to a file with that id |
| SessionTodos.SessionIndexLast | src/claude-code-analyzer/tasks/T05_session_todos_relationship/relationship_analyzer.py:55-57 | a later file with the same id replaces an earlier one |
| SessionTodos.AgentsBelowEntries | src/claude-code-analyzer/tasks/T05_session_todos_relationship/relationship_analyzer.py:91-96 | there are no more agents than todo entries, since every agent is named by one |
| SessionTodos.SummaryBounds | src/claude-code-analyzer/tasks/T05_session_todos_relationship/relationship_analyzer.py:91-96 | sessions with todos and unique agents are each at most the number of todos files |
| SessionTodosObject.SessionTodosRelationshipAnalyzer.constructor | src/claude-code-analyzer/tasks/T05_session_todos_relationship/relationship_analyzer.py:27-33 | empty maps and file lists |
| SessionTodosObject.SessionTodosRelationshipAnalyzer.AnalyzeRelationshipPatterns | src/claude-code-analyzer/tasks/T05_session_todos_relationship/relationship_analyzer.py:35-80 | the ".json" files become the todos files, the ".jsonl" files join the session index, the matching todos files join the maps (kept consistent), and the report is built from the result |
| SessionTodosObject.SessionTodosRelationshipAnalyzer.IndexSessionFiles | src/claude-code-analyzer/tasks/T05_session_todos_relationship/relationship_analyzer.py:55-57 | the session index loop computes `SessionIndex` and touches nothing else |
| SessionTodosObject.SessionTodosRelationshipAnalyzer.LinkTodosFiles | src/claude-code-analyzer/tasks/T05_session_todos_relationship/relationship_analyzer.py:62-77 | the todos loop computes `AddTodosFiles` |
| SessionTodosObject.SessionTodosRelationshipAnalyzer.LinkTodosFile | src/claude-code-analyzer/tasks/T05_session_todos_relationship/relationship_analyzer.py:62-77 | one todos file computes `AddTodosFile` |
| SessionTodosObject.SessionTodosRelationshipAnalyzer.GenerateRelationshipAnalysis | src/claude-code-analyzer/tasks/T05_session_todos_relationship/relationship_analyzer.py:82-124 | the report is `Report` of the current state |
| SessionTodosObject.SessionTodosRelationshipAnalyzer.AnalyzeRelationshipDistribution | src/claude-code-analyzer/tasks/T05_session_todos_relationship/relationship_analyzer.py:127-153 | the loop computes `DistributionOf` |
| SessionTodosObject.SessionTodosRelationshipAnalyzer.AnalyzeAgentReuse | src/claude-code-analyzer/tasks/T05_session_todos_relationship/relationship_analyzer.py:155-175 | the loop computes `AgentReuseOf` |
| SessionTodosObject.SessionTodosRelationshipAnalyzer.CollectSessionDetails | src/claude-code-analyzer/tasks/T05_session_todos_relationship/relationship_analyzer.py:104-121 | the loop computes `DetailsOf` in first-seen order |
| SessionTodosObject.SessionTodosRelationshipAnalyzer.FindComplexRelationships | src/claude-code-analyzer/tasks/T05_session_todos_relationship/relationship_analyzer.py:177-199 | computes `ComplexRelationships` |
| FieldDescriptions.Describe | src/claude-cli-analyzer/src/analyzers/main_analyzer.py:138-177 | the description of the first table key that occurs in the path; with no key in the path, the first of "tool_use", "content" and "usage" that occurs decides; failing those, an enum lists its values and any other field names its type |
| FieldDescriptions.FirstMatch | src/claude-cli-analyzer/src/analyzers/main_analyzer.py:163-165 | the first table key contained in the path, with no earlier key contained; none exactly when no key is |
| FieldDescriptions.ShadowedEntry | src/claude-cli-analyzer/src/analyzers/main_analyzer.py:163-165 | an entry whose key contains an earlier entry's key is never the first match |
| FieldDescriptions.MessageTypeShadowed | src/claude-cli-analyzer/src/analyzers/main_analyzer.py:146-151 | "type" comes before "message.type", so the "message.type" entry is never used and such paths read "记录类型" |
| FieldDescriptions.Spec | src/claude-cli-analyzer/src/analyzers/main_analyzer.py:88-108 | a row names its field and carries its occurrence count |
| FieldDescriptions.Specs | src/claude-cli-analyzer/src/analyzers/main_analyzer.py:88-108 | one row per registered path, in registry order |
| FieldDescriptions.FieldSpecificationsRows | src/claude-cli-analyzer/src/analyzers/main_analyzer.py:88-111 | one row per field, from most to fewest occurrences, each describing its own field |
| FieldDescriptions.FieldSpecificationsTies | src/claude-cli-analyzer/src/analyzers/main_analyzer.py:111 | fields with equal occurrences keep the registry's order |
| FieldDescriptions.FieldSpecificationsOnePerField | src/claude-cli-analyzer/src/analyzers/main_analyzer.py:88-111 | every registered field has exactly one row |
| BaseAnalysis.Characters | src/claude-code-analyzer/shared/base_analyzer.py:139 | iterating a string yields one one-character string per character, in order |
| BaseAnalysis.LoadJson | src/claude-code-analyzer/shared/base_analyzer.py:56-69 | a JSON Lines file gives its values, a JSON object one record, a JSON list its elements, a string its characters, a failed load an empty list; any other value is returned as it is and cannot be iterated |
| BaseAnalysis.FileErrors | src/claude-code-analyzer/shared/base_analyzer.py:133-146 | a file logs at most one error, and one exactly when its load failed or the loaded value cannot be iterated; the entry names the file |
| BaseAnalysis.FileRecordCount | src/claude-code-analyzer/shared/base_analyzer.py:133-146 | the count `process_file` returns: zero for a failed load or a value that cannot be iterated, one for an object, the length of a string |
| BaseAnalysis.ProgressGaps | src/claude-code-analyzer/shared/base_analyzer.py:157-161 | progress is shown for the last item, and at most ten items apart |
| BaseAnalysis.FileBasedAnalyzer.constructor | src/claude-code-analyzer/shared/base_analyzer.py:19-26 | the name and version, zero counters and no errors |
| BaseAnalysis.FileBasedAnalyzer.LogError | src/claude-code-analyzer/shared/base_analyzer.py:46-54 | one error entry more, the counters unchanged |
| BaseAnalysis.FileBasedAnalyzer.LoadJsonFile | src/claude-code-analyzer/shared/base_analyzer.py:56-69 | the value `LoadJson` describes is returned; a failed load appends its error entry and nothing else changes |
| BaseAnalysis.FileBasedAnalyzer.ProcessFile | src/claude-code-analyzer/shared/base_analyzer.py:133-146 | one file more whatever the outcome; the count is `FileRecordCount` and the record counter grows by it; the error list grows by exactly the entries of `FileErrors`, earlier entries kept |

## Left out

- Reading files is not modelled: JSON Lines parsing, scan-result files, `Path` walking and saving results. A file's contents are a parameter: the records, or a load outcome. This covers:
  - the CLI extractor's `process_jsonl_file` and `process_json_file`;
  - T01's and T02's `process_scan_result`, `_process_file`, `get_result`, `get_results` and `get_compact_results`;
  - T02's `truncate_example_object`;
  - T03's `extract_selected_sessions`;
  - `save_json_result`.
- Logging, printing and report text are not modelled: `print_field_summary`, `setup_logging`, the Markdown report except its index range, and the scheduler's execution report and `main`.
- The clock is not modelled. This covers time stamps and durations (`start_analysis`, `finish_analysis`, `generate_summary`), the scheduler's timing and its transient RUNNING status, and T05's `_calculate_time_span`. The time stamp of an error entry is a parameter.
- The subprocess a task runs, its timeout and `_verify_outputs` are not modelled. Whether a task's script succeeds is a parameter.
- Floating-point figures are not modelled: percentages, averages, coverage and reduction ratios, and the field table's frequency percentage. T03 keeps the preconditions those divisions impose.
- Abstract hooks are not modelled: `process_record`, `analyze` and `get_output_paths` belong to subclasses. An exception raised by `process_record` would also reach the error branch of `process_file`; the model takes the hook to return normally.
- `calculate_file_hash`, `format_bytes`, `create_output_structure` and `merge_analysis_results` in `shared/utils.py` are not part of this model: they are I/O or report formatting.
- The other tasks and drivers are not part of this model: T04, T06 and T08, the session scanner, the complete field list and the run, demo and test scripts.
- Python's `str()` and `repr()` are modelled by a simplified printer: single quotes, no escaping, floats by their text. De-duplication "by printed form" is exact only as far as this printer matches Python's.
- `SmartFieldList.MergedEnum`: the merged enum values are sorted by a total order that ranks booleans before integers before strings. Python's `sorted` agrees when the union holds one kind only, which is the case whenever the group's fields share one label. When the union mixes strings with integers or booleans, Python raises `TypeError` and the script stops; the model returns a list. When it mixes booleans with integers, Python orders them by numeric value (`False` as 0, `True` as 1), while the model puts the booleans first.
- JSON objects are sequences of members, and nothing excludes a repeated key. A dict decoded by Python has distinct keys: a repeated key keeps its first position and its last value, while `Lookup` takes the first value. The lemmas that depend on distinct keys require `DistinctKeys`.
- Python's cross-type equality (`1 == 1.0 == True`) is not modelled. Values are compared structurally, so a set may hold `1` and `True` apart.
- The `0.8 × n` enum threshold is modelled with integers as `5u ≤ 4n`, which is the exact value of the float comparison.
- Set iteration order is modelled as sorted order or as a set. This covers `list(set(...))` of merged patterns, the joined `mixed(...)` label and the type taken from a one-element set. Python's order is arbitrary there.
- `\d` in Python matches every Unicode decimal digit, but the model takes ASCII digits only. This covers the index token `[\d+]` (`Patterns.DigitRun`, the normalisers and the smart field list's index extraction), the digits of the timestamp tests `IsIsoDatetime`, `IsSpacedTimestamp` and the shared `IsTimestamp` (their `DigitsAt` helper), and `IsNumericString`. For example, "٢٠٢٤-01-01T00:00:00" is a timestamp to Python but not to the model.
- `SessionCoverObject.MinimalSessionCoverAnalyzer.AnalyzeSessionTypes`: exactness of the inverse index is promised only when the session ids are fresh. `SessionCover.RepeatedIdLeavesStaleTypes` shows it fails otherwise. The method also requires at least one recorded session, because the closing average divides by that number.
- `SessionCoverObject.MinimalSessionCoverAnalyzer.GreedySetCover`: requires at least one type, because the coverage figure it logs divides by the number of types.
- `SessionCoverObject.MinimalSessionCoverAnalyzer.CoverageDetails`: requires recorded sessions and types, because the ratios it reports divide by both.
- `StructureTypesObject.ObjectTypeAnalyzer`: each `ObjectType` belongs to one table entry and is never shared, so aliasing between analyzers is not modelled.
