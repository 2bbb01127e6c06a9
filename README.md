# Botfront migrations: the in-memory transformations

This project models the data transformations inside Botfront's database
migrations (`botfront/server/migrations.js`). It covers the logic each
migration applies to the records it has read, before it writes anything
back.

- **Migration 3, `migrateResponses`** (module `ResponseMigration`, with
  `Templates`, `KeyOrder` and `UtterCount`). For every project that has
  `templates`, the migration does the following:
  - It sorts them by key with lodash's stable `sortBy`.
  - It deletes `match` and `followUp` and stamps each one with the
    project's id.
  - It splits them into templates whose key is unique and templates whose
    key repeats (a neighbour in sorted order has the same key).
  - It walks the repeated ones run by run. From each run it keeps the
    first template whose values contain the fewest matches of `/utter_/g`.

  The model follows the code's own steps, with the same loops and
  counters. Each step is proved against specification functions:
  - `SplitDuplicates` is the `forEach` of lines 70-81.
  - `MeasureRun` is the inner `while` of lines 84-87.
  - `KeepOfRun` covers lines 88-95.
  - `KeepFewestUtters` and `KeepNextRun` are the outer `while`.

  The model proves three things:
  - The three `assert`s of lines 89, 102 and 103 always hold, so they
    never send the migration into its `catch`.
  - The migration writes exactly one response per key of a project.
  - That response is the project's first template of that key with the
    fewest `utter_` occurrences, stamped.
- **Migration 5's `processSequence`** (module `SequenceMerge`). This is the
  fold that merges the parsed parts of a response sequence. Each step
  builds a fresh object, so:
  - text survives only from the maximal suffix of parts that all have
    text, joined with blank lines;
  - buttons survive only from the maximal suffix of parts that all have
    buttons;
  - no other field survives.
- **Migration 7** (module `StoryGroupMigration`). It does the following:
  - It collects each group's story ids, in story order, and the ids of the
    projects that have stories, in first-appearance order.
  - It sorts the groups intro-first, when every group has a boolean
    `introStory`. The sort is stable, and the model proves that a stable
    sort has exactly the result modelled.
  - It computes the `isExpanded`/`children` update of each group and the
    `storyGroups` list of each project that has stories.
- **Migration 1** (module `InstanceMigration`). It gives every instance
  without a `type` the type `['nlu']`.

Every function here is a Dafny function or method over values. The reads
and writes of the collections are replaced by the records read (parameters)
and the records that would be written (results).

## Model

| member | source | states |
|---|---|---|
| UtterCount.CountMatches | botfront/server/migrations.js:58-60 | The global `/utter_/g` scan finds at most one match per six characters of the serialisation. |
| UtterCount.UtterAtIsPrefix | botfront/server/migrations.js:59 | A match starts at a position exactly when the six characters there are `utter_`. |
| UtterCount.NoOccurrenceInsideMatch | botfront/server/migrations.js:59 | No occurrence of `utter_` can start inside a match, because none of `tter_` is a `u`. |
| UtterCount.CountMatchesIsOccurrences | botfront/server/migrations.js:59-60 | The left-to-right non-overlapping match count equals the number of positions where `utter_` occurs. |
| UtterCount.CountUtterMatches | botfront/server/migrations.js:58-61 | `countUtterMatches`: an `undefined` serialisation counts as `''` and so 0. `CountUtterMatchesIsOccurrences` states the count for a serialisation. |
| UtterCount.CountUtterMatchesIsOccurrences | botfront/server/migrations.js:58-61 | For every serialisation, `countUtterMatches` is the number of occurrences of `utter_` in it. |
| UtterCount.CountUtterMatchesBounds | botfront/server/migrations.js:60 | An `undefined` serialisation counts 0, as does a serialisation shorter than `utter_`; one starting with `utter_` counts at least 1. |
| KeyOrder.KeyLeReflexive | botfront/server/migrations.js:67 | The string order that `sortBy` applies to keys is reflexive. |
| KeyOrder.KeyLeTotal | botfront/server/migrations.js:67 | The key order is total: any two keys compare. |
| KeyOrder.KeyLeAntisymmetric | botfront/server/migrations.js:67 | Keys that compare both ways are equal. |
| KeyOrder.KeyLeTransitive | botfront/server/migrations.js:67 | The key order is transitive. |
| Templates.SortByKey | botfront/server/migrations.js:67 | `sortBy(p.templates, 'key')` is ordered by key and is a permutation of its input. It is stable: for every key, the templates of that key keep their order. |
| Templates.Insert | botfront/server/migrations.js:67 | One insertion step of the sort adds exactly the inserted template (multiset) and nothing else. |
| Templates.InsertSorted | botfront/server/migrations.js:67 | An insertion step keeps a key-sorted list sorted. |
| Templates.InsertStable | botfront/server/migrations.js:67 | An insertion step places the template before every template of its key already placed, and leaves every other key's templates alone. |
| Templates.Stamp | botfront/server/migrations.js:72-74 | A stamped template keeps its key and values, has no `match` or `followUp`, and carries the project's id. |
| Templates.StampAll | botfront/server/migrations.js:70-74 | Every template is stamped (no `match` or `followUp`, `projectId` set) and keeps its position. |
| Templates.FilterKeyStampAll | botfront/server/migrations.js:72-74 | Stamping does not change which templates carry a key, or their order. |
| Templates.KeySetCount | botfront/server/migrations.js:100 | A key is among the distinct keys exactly when some template carries it. |
| ResponseMigration.SplitDuplicates | botfront/server/migrations.js:70-81 | The in-place pass leaves every template stamped. `newTemplates` and `duplicates` are exactly the split by the neighbour test of line 76, in sorted order. |
| ResponseMigration.IsDup | botfront/server/migrations.js:76 | The neighbour test of line 76. It has no contract of its own: `DupIffRepeated` proves it holds exactly for keys that occur more than once. |
| ResponseMigration.Partition | botfront/server/migrations.js:76-80 | After `n` steps the two lists hold `n` templates between them. `PartitionMultiset` proves that each of them went to exactly one list. |
| ResponseMigration.PartitionMultiset | botfront/server/migrations.js:76-80 | Each of the first `n` templates lands in exactly one of the two lists, and nothing else does: together they are a permutation of the templates read. |
| ResponseMigration.DupIffRepeated | botfront/server/migrations.js:76 | In key-sorted templates, the neighbour test holds exactly when the template's key occurs at least twice. |
| ResponseMigration.PartitionByKey | botfront/server/migrations.js:76-80 | Consider the templates of one key. If the key occurs once, its template is in `newTemplates` and not in `duplicates`. If it repeats, all its templates are in `duplicates`, in order, and none is in `newTemplates`. |
| ResponseMigration.PartitionSorted | botfront/server/migrations.js:77 | `duplicates` is key-sorted. |
| ResponseMigration.PartitionMembers | botfront/server/migrations.js:77-79 | Both lists hold only templates of the sorted list. |
| ResponseMigration.MeasureRun | botfront/server/migrations.js:84-87 | The inner loop measures the run length at `i`. |
| ResponseMigration.RunLength | botfront/server/migrations.js:84-87 | The run starting at `i` has at least one entry and does not pass the end of `duplicates`; `RunLengthMaximal` proves it is the maximal block of one key. |
| ResponseMigration.RunLengthMaximal | botfront/server/migrations.js:85 | A run is a maximal block of equal keys: every entry of the run has the first entry's key, and the entry after the run, if any, has another key. |
| ResponseMigration.RunHoldsWholeKey | botfront/server/migrations.js:83-96 | In sorted `duplicates`, a run holds every template of its key: no later entry has that key. |
| ResponseMigration.RunHasOneKey | botfront/server/migrations.js:89 | The assertion of line 89 holds: the set of a run's keys has exactly one element. |
| ResponseMigration.MinOf | botfront/server/migrations.js:93 | `Math.min(...utters)`. It has no contract of its own: `MinOfIsMinimum` proves it is a member of the list and no larger than any member. |
| ResponseMigration.MinOfIsMinimum | botfront/server/migrations.js:93 | `Math.min(...utters)` is a member of `utters` and no larger than any of them. |
| ResponseMigration.IndexOf | botfront/server/migrations.js:93 | `indexOf` returns -1 or a position of the list; `IndexOfIsFirst` proves -1 means absent and otherwise the first position holding the value. |
| ResponseMigration.IndexOfIsFirst | botfront/server/migrations.js:93 | `indexOf` returns -1 exactly when the value is absent; otherwise it returns the first position holding it. |
| ResponseMigration.Utters | botfront/server/migrations.js:91 | There is one `utter_` count per template of the run. `UttersAt` states which count is at each position. |
| ResponseMigration.UttersAt | botfront/server/migrations.js:91 | Position `i` holds the `utter_` count of the run's template `i`, as the `map` of line 91 gives. |
| ResponseMigration.KeptIndex | botfront/server/migrations.js:93 | `utters.indexOf(Math.min(...utters))` is always a position of the run: the minimum is one of the counts, so `indexOf` never returns -1. |
| ResponseMigration.KeptIndexIsFirstMinimum | botfront/server/migrations.js:91-93 | The kept position has the smallest `utter_` count of the run, and every earlier position has a strictly larger count. |
| ResponseMigration.Kept | botfront/server/migrations.js:91-95 | The template a run keeps. It has no contract of its own: `KeptIsFirstFewest` and `KeptIndexIsFirstMinimum` prove it is the first template with the fewest `utter_` matches, the one `indexOf(Math.min(...))` picks. |
| ResponseMigration.KeptIsFirstFewest | botfront/server/migrations.js:91-95 | The template at `indexOf(min)` is the one `Kept` picks, preferring fewer `utter_` occurrences and, on a tie, the earlier template; its count is the minimum. |
| ResponseMigration.KeepOfRun | botfront/server/migrations.js:88-95 | The template pushed for a run is the run's first template with the fewest `utter_` occurrences. |
| ResponseMigration.KeepNextRun | botfront/server/migrations.js:84-96 | One turn of the outer loop advances `i` by exactly the length of the run that starts there, and the result of the walk stays the same. |
| ResponseMigration.KeepRunsStep | botfront/server/migrations.js:95-96 | Pushing a run's kept template and stepping past the run continues the same walk. |
| ResponseMigration.KeepFewestUtters | botfront/server/migrations.js:82-97 | The outer loop pushes, run by run, the kept template of each run of `duplicates`. |
| ResponseMigration.KeptKey | botfront/server/migrations.js:95 | The template kept from a run is one of `duplicates` and carries the run's key. |
| ResponseMigration.KeepRuns | botfront/server/migrations.js:82-97 | What the outer loop pushes. It has no contract of its own: `KeepRunsByKey`, `KeepRunsLength` and `KeepRunsMembers` prove it pushes `Kept` of each key's run, one per key, taken from `duplicates`. |
| ResponseMigration.KeepRunsByKey | botfront/server/migrations.js:83-97 | For every key, the walk over sorted `duplicates` pushes exactly one template of that key (the kept one of all its templates), or none if the key is absent. |
| ResponseMigration.KeepRunsLength | botfront/server/migrations.js:83-97 | The walk pushes one template per distinct key of `duplicates`. |
| ResponseMigration.KeepRunsMembers | botfront/server/migrations.js:95 | Everything pushed by the walk comes from `duplicates`. |
| ResponseMigration.KeptStampAll | botfront/server/migrations.js:91-95 | Stamping does not change which template a run keeps, because the values are untouched. |
| ResponseMigration.Deduplicate | botfront/server/migrations.js:68-97 | `newTemplates` of one project. It has no contract of its own: `DeduplicateByKey` proves it holds exactly one template per key, the one `Kept` picks. |
| ResponseMigration.DeduplicateByKey | botfront/server/migrations.js:70-97 | For each key of sorted templates, `newTemplates` holds exactly one template: the first with the fewest `utter_` occurrences. It holds none for an absent key. |
| ResponseMigration.SortedTemplatesAreDeduplicatedCounts | botfront/server/migrations.js:100-103 | The length identity of line 102 holds, and no two responses share a key. |
| ResponseMigration.SortedTemplatesAreDeduplicated | botfront/server/migrations.js:100-103 | Both integrity assertions hold for the stamped templates: the length identity of line 102, and line 103's "no response appears twice". |
| ResponseMigration.DeduplicateStamped | botfront/server/migrations.js:72-74 | Every response written carries the project's id and has no `match` or `followUp`. |
| ResponseMigration.MigrationKeepsOnePerKey | botfront/server/migrations.js:66-97 | End to end: for each key of a project's templates, exactly one response is written. It is that key's first template (project order) with the fewest `utter_` occurrences, stamped. No response is written for other keys. |
| ResponseMigration.ProjectOutcome | botfront/server/migrations.js:66-110 | A project is skipped exactly when it has no `templates`; `MigrateProjectResponses` states what is written otherwise. |
| ResponseMigration.MigrateProjectResponses | botfront/server/migrations.js:66-110 | A project without `templates` is skipped. Otherwise the responses written are stamped, and there is one per key, as above. |
| ResponseMigration.AllOutcomes | botfront/server/migrations.js:63-111 | The writes of all projects in order. Its contract only bounds the number of cleared projects by the number of projects read; which projects are cleared is stated by `ClearedAreTheMigrated`. |
| ResponseMigration.ClearedAreTheMigrated | botfront/server/migrations.js:109 | The projects whose `templates` are unset are exactly those that had `templates`. |
| ResponseMigration.MigrateResponses | botfront/server/migrations.js:63-111 | The loop over projects writes each project's responses in turn. It unsets `templates` exactly on the projects that had them. |
| SequenceMerge.Step | botfront/server/migrations.js:136-141 | The reducer builds a fresh object: it has text exactly when the current part has truthy text, buttons exactly when the current part has buttons, and no other field. `MergeLast` states the values. |
| SequenceMerge.Merge | botfront/server/migrations.js:134-142 | An empty sequence yields `{}`. The result never has a field other than `text` and `buttons`, and a text it keeps is non-empty. |
| SequenceMerge.MergeLast | botfront/server/migrations.js:137-140 | `text` survives only if the last part has text. It is that text alone when the fold so far had none, and is otherwise joined after a blank line. `buttons` survive only if the last part has buttons, appended to the buttons so far. |
| SequenceMerge.MergeText | botfront/server/migrations.js:137-139 | The merged text is present exactly when the last part has text. It is then the texts of the maximal suffix of parts with text, joined with `"\n\n"`. |
| SequenceMerge.MergeButtons | botfront/server/migrations.js:140 | The merged buttons are present exactly when the last part has buttons. They are then the buttons of the maximal suffix of parts with buttons, in order. |
| SequenceMerge.JoinSnoc | botfront/server/migrations.js:139 | Joining one more text appends a blank line and that text. |
| StoryGroupMigration.ChildrenOf | botfront/server/migrations.js:200 | A group's list has at most one id per story; `ChildrenOfMembers` and `ChildrenOfAppend` prove it holds exactly the ids of the group's stories, in story order. |
| StoryGroupMigration.ProjectsInOrder | botfront/server/migrations.js:201 | At most one id per story; `ProjectsInOrderMembers` proves the ids are distinct and are exactly the projects of the stories. |
| StoryGroupMigration.CollectChildren | botfront/server/migrations.js:198-202 | The loop builds, for exactly the groups that have stories, the ids of their stories in story order. It collects the project ids of the stories once each, in first-appearance order. |
| StoryGroupMigration.ChildrenOfMembers | botfront/server/migrations.js:200 | A group's list holds exactly the ids of the stories whose `storyGroupId` is that group. |
| StoryGroupMigration.ChildrenOfAppend | botfront/server/migrations.js:200 | Each group's list follows story order: for stories `a` then `b`, it is `a`'s ids followed by `b`'s. |
| StoryGroupMigration.ProjectsInOrderMembers | botfront/server/migrations.js:201 | The collected project ids are distinct. An id is collected exactly when some story has it. |
| StoryGroupMigration.Compare | botfront/server/migrations.js:205 | The comparator, with `introStory` a boolean: it is positive exactly when only `b` is an intro group and negative exactly when only `a` is, so it puts intro groups first. |
| StoryGroupMigration.IntroFirst | botfront/server/migrations.js:205 | The sorted groups are as many as the groups read. |
| StoryGroupMigration.IntroFirstOrdered | botfront/server/migrations.js:205 | The sorted groups are in the order of the comparator `b.introStory - a.introStory`: intro groups come first. |
| StoryGroupMigration.IntroFirstPermutation | botfront/server/migrations.js:205 | Sorting loses no group and adds none (multiset equality). |
| StoryGroupMigration.IntroFirstStable | botfront/server/migrations.js:205 | Sorting is stable: intro groups keep their relative order, and so do the others. |
| StoryGroupMigration.StableSortIsIntroFirst | botfront/server/migrations.js:205 | Any stable arrangement in the comparator's order is the one modelled. |
| StoryGroupMigration.MigrateStoryGroups | botfront/server/migrations.js:193-224 | There is one group update per group, in sorted order, and one project update per project with stories, in first-appearance order. Each project update lists that project's group ids in sorted order. |
| StoryGroupMigration.UpdateOf | botfront/server/migrations.js:207-215 | The update is for the group's own id, and `children` is never an empty list: a group without stories gets `undefined`. |
| StoryGroupMigration.GroupUpdateMeaning | botfront/server/migrations.js:207-215 | `isExpanded` is set exactly for intro groups. `children` is absent exactly for groups without stories; otherwise it holds exactly the ids of the group's stories. |
| StoryGroupMigration.GroupIdsOf | botfront/server/migrations.js:219-221 | The filter and map of lines 219-221 give at most one id per group; `GroupIdsOfAppend` and `ProjectGroupsIntroFirst` fix their order. |
| StoryGroupMigration.GroupIdsOfAppend | botfront/server/migrations.js:219-221 | Filtering a concatenation gives the concatenation of the filtered parts, so the project's list follows the sorted order. |
| StoryGroupMigration.ProjectGroupsIntroFirst | botfront/server/migrations.js:219-221 | A project's `storyGroups` lists its intro groups first, then its other groups, each in the order read. |
| InstanceMigration.SetDefaultType | botfront/server/migrations.js:22 | After the update the instance has a type. An instance that had one is unchanged; one without gets `['nlu']`. Its id is kept. |
| InstanceMigration.MigrateInstances | botfront/server/migrations.js:18-23 | Every instance has a type afterwards. Instances that had one are unchanged, and the others get `['nlu']`. |
| InstanceMigration.MigrateInstancesIdempotent | botfront/server/migrations.js:18-23 | Running migration 1 twice writes nothing new. |

## Left out

- Database access is not modelled: the `find`/`fetch` reads, `update`, `updateOne` with `upsert`, the `$unset` of `templates`, and `.exec()`. The model takes the records read as parameters and returns the records that would be written. The options `setDefaultsOnInsert` and the collection schemas are out of scope.
- `JSON.stringify` is not modelled. A template's serialised values are an input (`None` for `undefined`). The template's other fields, besides `key`, `match`, `followUp` and `projectId`, are not modelled.
- The `catch` of lines 112-114 is not modelled. The model proves that the three assertions never fail; database errors are outside it.
- `Math.min(...utters)` is modelled without the engine's limit on spread arguments.
- Keys are compared by Unicode code point. JavaScript compares UTF-16 code units, which differ only for characters outside the Basic Multilingual Plane. Keys are taken to be strings.
- Partition: its own contract gives only the total length of the two lists. The split itself is proved beside it, by `PartitionMultiset` (each template lands in exactly one list) and `PartitionByKey` (which list, key by key). This keeps the multiset out of every proof that unfolds `Partition`.
- Line 66 skips a project whose `templates` is falsy. `None` stands for every falsy value (missing, `null`, `0`, `""`, `false`). A truthy `templates` that is not a list is not modelled.
- Line 103 compares objects by identity. The model proves the stronger fact that no two written responses share a key.
- In migration 5, the YAML `safeLoad`/`safeDump` calls, the deep-equality check and the update are not modelled. A part's `text` is taken to be a string and its `buttons` an array: other YAML types for these fields are not modelled. A part whose content parses to `null` or `undefined` (empty content, for instance) is not modelled either: line 138 then throws a `TypeError`, which ends migration 5's `forEach` for every later response.
- In migration 7, `introStory` is a boolean. A missing `introStory` makes the comparator return `NaN`, which `Array.prototype.sort` treats as 0, and that case is not modelled. So intro-first, `IntroFirstOrdered`, `StableSortIsIntroFirst` and `ProjectGroupsIntroFirst` hold only when every group has a boolean `introStory`. When groups lack the field, every comparison with them is 0: the sort can keep an intro group read after such a group behind it, and the project's `storyGroups` then does not start with its intro groups. Group and story ids are ordinary strings: keys that clash with `Object.prototype` members are not modelled.
- The in-place `storyGroups.sort` is modelled by its result. A stable sort has only one possible result, which `StableSortIsIntroFirst` proves. Stability comes from the engine (`Array.prototype.sort` is stable since ECMAScript 2019), not from the comparator, which ties every pair of intro groups and every pair of other groups.
- Migration 1's `console.log` is not modelled. An instance's `type` is a list of strings or absent; other values are not modelled. A falsy one (`null`, `""`, `0`, `false`) behaves as absent and gets `['nlu']`; a truthy non-list one is kept.
- Migrations 2, 4, 6, 8 and 9 are not modelled. They consist of environment and asset I/O, driver-specific id conversion and calls to `aggregateEvents`, `indexBotResponse` and `indexStory`, and the source of those functions is not part of this model.
- `Meteor.startup` and the `Migrations` runner are not modelled.
