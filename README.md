# vixen, modelled in Dafny

vixen keeps a *project* of media files: a tree of directories and files under
a root, one `Media` record per file keyed by its relative path, and a schema of
user-defined tags (`TagInfo`: name, type, default) that every record carries.
A project is searched with whoosh-style queries over the tags and the common
attributes. Tags are imported from CSV files. *Processors* (factories) turn
media into jobs: a shell command, a Python function, or a tagger command whose
`key: value` output becomes tags. A `Processor` runs the jobs, records errors
and can be stopped, paused or resumed. The user interface pages through search
results with a `Pager`. For camera-trap videos, a `FilteredView` groups media
by grid and camera, and `process_file`/`Video` read those tags off the
`date/grid/camera/video` directory layout.

This project models that core. Each file holds one module.

| file | module | what it models |
|---|---|---|
| `wrappers.dfy` | `Wrappers` | `Option` and `Result` |
| `pystr.dfy` | `PyStr` | the `str` methods the core calls: `lower`, `in`, `replace`, `strip`, `split(':', 1)`, `join` |
| `pypath.dfy` | `PyPath` | `posixpath`: `split`, `basename`, `dirname`, `join`, `splitext` |
| `values.dfy` | `Values` | Python values stored in tags; the four tag types, their defaults and the text conversions of `import_csv` and the tagger |
| `media.dfy` | `MediaModel` | `find_type` and the `Media` record (vixen/media.py) |
| `directory.dfy` | `DirectoryModel` | `Directory` and `File` with relative paths derived through parent links (vixen/directory.py) |
| `schema.dfy` | `Schema` | `TagInfo`, `sanitize_name`, `get_non_existing_filename` and the schema diff of `update_tags` (vixen/project.py) |
| `query.dfy` | `Query` | the parsed query tree, `_cleanup_query`, the leaf checks and `_search_media` (vixen/project.py) |
| `project.dfy` | `ProjectModel` | the `Project` class: `update_tags`, `add_tags`, `import_csv`, `scan`, `search` |
| `processor.dfy` | `JobModel` | `Job` and `Processor` (vixen/processor.py) |
| `factories.dfy` | `Factories` | the command, Python-function and tagger factories, `dump` and `load` (vixen/processor.py) |
| `pager.dfy` | `PagerModel` | `Pager` (vixen/vixen.py) |
| `filtered_view.dfy` | `FilteredViewModel` | `FilteredView` (vixen/filtered_view.py) |
| `camera_files.dfy` | `CameraFiles` | `_parse_path` and `process_file` (vixen/process_file.py) |
| `video.dfy` | `VideoModel` | `Video` (vixen/video.py) |

State that the source changes in place is modelled imperatively.
`Media`, `Directory`, `File`, `Project`, `Job`, `Processor`, the factories,
`Pager`, `FilteredView` and `Video` are classes, and their methods state the
new state. The pure parts are functions: the query evaluator, the schema diff,
the path and string helpers, and `find_type`. Lemmas relate these functions to
what the source and its tests promise.

Some conventions of the model:

- The source is Python 2 code. Integer division rounds down. `long()` of a
  float truncates toward zero. Values of different kinds are ordered: `None`,
  then numbers, then strings.
- A dictionary whose iteration order matters is given that order as a sequence.
- Traits change handlers run only when the assigned value differs from the old
  one.
- An exception raised inside a handler ends that handler. The assignment that
  triggered it stands.
- Where Python raises, the model returns `None` or a `Failure`.
- Behaviours of the code a reader may not expect, which the model keeps:
  - `COMMON_TAGS` types `ctime` and `mtime` as strings, not dates (vixen/project.py:94-97).
  - A tagger command with a non-zero exit code does not fail its job. It leaves
    the tags and `_done` unchanged (vixen/processor.py:317).
  - A tagger value that fails to convert is not caught. The `ValueError`
    escapes, so the job fails and no tag of that run is applied
    (vixen/processor.py:324-330).
  - A query literal whose field has no type is a `KeyError`, which ends the
    search (vixen/project.py:105). It is not skipped.

## Model

| member | source | states |
|---|---|---|
| Values.ParseTypeName | vixen/project.py:62 | the `Enum` trait accepts exactly the four type names, each for its own type |
| Values.Default | vixen/project.py:68-70 | a tag's default has the tag's type and is its zero: `""`, `0`, `0.0` or `False` |
| Values.DefaultDeterminesType | vixen/project.py:68-70 | two types share a default exactly when they are the same type |
| Values.AsNumber | vixen/project.py:118-132 | ints, floats and bools are numbers in comparisons (bool is a subclass of int); strings and None are not |
| Values.Truncate | vixen/video.py:72 | `long()` of a float truncates toward zero: the result is the integer within one of the value on the zero side |
| Values.PyEqIsEquivalence | vixen/project.py:118 | Python `==` on tag values is reflexive, symmetric and transitive |
| Values.Coerce | vixen/project.py:320-326 | every conversion gives a value of the tag's type; strings pass through; bool is true exactly for `1/t/true/y/yes` after lower-casing; int and float raise ValueError exactly where parsing fails, and otherwise give the parsed number |
| Values.BoolCoercionIgnoresCase | vixen/tests/test_project.py:401-422 | `YES`, `True` and `t` convert to True |
| Values.BoolCoercionOtherText | vixen/project.py:320-322 | `no`, `0` and the empty string convert to False |
| Values.BoolCoercionCaseInsensitive | vixen/project.py:322 | two spellings that differ only in case convert to the same bool |
| Schema.NewTag | vixen/project.py:60-70 | a `TagInfo` made with a name and a type has as default the zero of that type |
| Schema.ProjectDefaultTags | vixen/project.py:486-487 | a new project has exactly one tag, `completed` of type bool with default False |
| Schema.Names | vixen/project.py:221 | the set of tag names holds the name of every tag |
| Schema.NameOfSomeTag | vixen/project.py:221 | every member of the set of tag names is the name of some tag |
| Schema.CollapseSpace | vixen/project.py:82 | after `re.sub(r'\s+', '_', ...)` no whitespace is left |
| Schema.KeepWordChars | vixen/project.py:83 | after `re.sub(r'\W+', '', ...)` only word characters are left, never more than before, and text of word characters only is unchanged |
| Schema.KeepWordCharsNoUpper | vixen/project.py:83 | dropping characters adds no capital letter |
| Schema.CollapseSpaceNoUpper | vixen/project.py:82 | replacing whitespace runs by `_` adds no capital letter |
| Schema.SanitizeName | vixen/project.py:80-83 | the sanitized name holds only lower-case word characters and no whitespace |
| Schema.SanitizeNameIdempotent | vixen/project.py:80-83 | sanitizing a sanitized name changes nothing |
| Schema.CollapseSpaceFreePrefix | vixen/project.py:82 | text without whitespace in front passes through the whitespace replacement unchanged |
| Schema.CollapseSingleSpace | vixen/project.py:82 | one space between two words without whitespace becomes one `_` |
| Schema.SanitizeTwoWords | vixen/tests/test_project.py:349-352 | two lower-case words with one space between them, such as `new name`, become `new_name` |
| Schema.NonExistingFilename | vixen/project.py:86-91 | a file that does not exist keeps its name |
| Schema.DirnameOfJoin | vixen/project.py:89 | the directory part of `dir/name` is `dir` |
| Schema.NonExistingFilenameOfExisting | vixen/project.py:86-89 | an existing `dir/base.ext` becomes `dir/base_a.ext` |
| Schema.TypesByName | vixen/project.py:222 | `tag_info` maps every old tag's name to a type, and the last tag of a name decides it |
| Schema.TypesByNameUnique | vixen/project.py:222 | with unique names each tag's own type is the one recorded for its name |
| Schema.AddedTags | vixen/project.py:224-230 | `added` holds exactly the new tags whose name is new or whose type changed |
| Schema.Retyped | vixen/project.py:228-229 | the first part of `removed` holds exactly the new tags whose name is old and whose type changed |
| Schema.Dropped | vixen/project.py:231-233 | the second part of `removed` holds exactly the old tags whose name is not in the new schema |
| Schema.DiffByName | vixen/project.py:219-233 | a name is removed exactly when it is gone from the new schema or its type changed, and added exactly when it is new or its type changed |
| Schema.RemovedByName | vixen/project.py:223-233 | a name is removed exactly when it is gone from the new schema or its type changed |
| Schema.AddedByName | vixen/project.py:224-230 | a name is added exactly when it is in the new schema and is new or retyped |
| Schema.DiffOfSameSchemaIsEmpty | vixen/project.py:225-233 | `update_tags` with the current schema adds and removes nothing |
| Schema.DeleteAll | vixen/project.py:237-238 | the `del` loop removes exactly the removed names and keeps every other value; with unique removed names that are all present it does not raise |
| Schema.SetDefaults | vixen/project.py:239-240 | the assignment loop adds the added names and keeps every other entry |
| Schema.SetDefaultsValue | vixen/project.py:239-240 | an added name holds the default of an added tag of that name |
| Schema.RetypedNames | vixen/project.py:228-229 | the retyped tags have unique names, all in both schemas |
| Schema.RetypedNamesBound | vixen/project.py:228-229 | every retyped tag is named in both schemas |
| Schema.RetypedUnique | vixen/project.py:228-229 | with unique new names the retyped tags have unique names |
| Schema.DroppedNames | vixen/project.py:231-233 | the dropped tags have unique names, all old and none new |
| Schema.RemovedNames | vixen/project.py:223-233 | `removed` names each old tag at most once |
| Schema.RetagSpec | vixen/project.py:236-240 | for a media holding the old schema, retagging does not raise; the keys become the media's non-schema keys plus the new schema names; a tag with the same name and type keeps its value; a key outside both schemas keeps its value; a new or retyped tag gets its type's default |
| Schema.RetagHoldsNewSchema | vixen/project.py:236-240 | a media holding the old schema holds the new schema afterwards |
| Schema.RetagSameSchema | vixen/tests/test_project.py:303-329 | retagging with the current schema changes no media's tags |
| MediaModel.MimeKind | vixen/media.py:43-53 | the MIME fallback gives text, video, audio or image when the guessed type starts with that word, and unknown exactly when it starts with none of them |
| MediaModel.ListedKind | vixen/media.py:10-17 | each of the six fixed extension lists names its own kind; the lists are disjoint, so the order of the tests cannot change the answer |
| MediaModel.FindType | vixen/media.py:27-53 | the answer is always one of the seven kinds; a listed lower-cased extension decides it, and only an unlisted one falls back to the MIME type |
| MediaModel.ExtensionOfName | vixen/media.py:28 | for a file name `stem + ext` whose only dot starts `ext`, the extension compared is `ext` lower-cased |
| MediaModel.FindTypeOfName | vixen/media.py:27-53 | the kind of such a file name depends only on its lower-cased extension and, when that is unlisted, on the MIME type |
| MediaModel.FindTypeUpperCaseHtml | vixen/tests/test_media.py:26 | `test.HTML` is html whatever MIME type is guessed |
| MediaModel.FindTypeMarkdown | vixen/tests/test_media.py:27 | `test.md` is text from the fixed list, whatever MIME type is guessed |
| MediaModel.FindTypeUnknown | vixen/tests/test_media.py:30 | `test.xxx` with no MIME type guessed is unknown |
| MediaModel.GetMediaData | vixen/media.py:56-73 | no record exactly when the file does not exist; otherwise the record keeps the path and relpath, names the file by its basename, takes the size, the formatted `ctime` and `mtime` and both time stamps from the stat result, and its kind from `find_type` |
| MediaModel.MergeTags | vixen/media.py:146-147 | `dict.update`: the keys of both maps, the new value winning for every new key and the old value kept for every other key |
| MediaModel.MergeTagsIdempotent | vixen/media.py:146-147 | updating with the same tags a second time changes nothing |
| MediaModel.Media.Empty | vixen/media.py:76-113 | a new `Media` has every trait at its default: empty strings, zero size and times, no tags |
| MediaModel.Media.Update | vixen/media.py:132-147 | the record used is the one given or else the one read from the file; when there is one, path, times, size, relpath and type are copied from it, otherwise they stay; tags given are merged into the existing map, never replacing it |
| MediaModel.Media.FromPath | vixen/media.py:115-120 | a media built from a path holds the file's record when the file exists, with `file_name` its basename; otherwise path and relpath are set and kind, size, both time strings and both stamps keep their defaults; its tags are empty |
| MediaModel.Media.FromData | vixen/media.py:122-127 | a media built from a record holds that record, and its tags are the ones given |
| MediaModel.Media.FileName | vixen/media.py:149-150 | `file_name` is a suffix of the path with no `/` in it |
| MediaModel.FileNameOfJoin | vixen/media.py:149-150 | the `file_name` of a media whose path is `join(dir, name)` is `name` |
| DirectoryModel.NamesOf | vixen/directory.py:43-48 | the names the listing loop keeps for one kind are never more than the entries listed |
| DirectoryModel.NamesOfPartition | vixen/directory.py:43-48 | a name is kept for a kind exactly when the listing has an entry of that name and kind, and every entry lands in exactly one of directories, files and neither |
| DirectoryModel.Directory.Root | vixen/directory.py:54-56 | a directory made without a parent is a root of the parent chain, with empty lists |
| DirectoryModel.Directory.Child | vixen/directory.py:46 | a directory made with a parent keeps that parent and is still rooted through it |
| DirectoryModel.Directory.Name | vixen/directory.py:60-61 | `name` is a suffix of the path with no `/` in it |
| DirectoryModel.Directory.RelPath | vixen/directory.py:54-58 | `relpath` is empty at the root, and below it ends with the directory's own name |
| DirectoryModel.Directory.PathChanged | vixen/directory.py:36-52 | the directories and the files of the listing, in listing order, become the two lists, each child new, with this directory as parent and path `join(path, name)`; a listing that fails raises OSError, which `except IOError` does not catch, so the error is passed on and both lists keep their old values |
| DirectoryModel.Directory.Children | vixen/directory.py:40-50 | the listing loop: one new child per directory entry and per file entry, in order, each with this directory as parent |
| DirectoryModel.File.constructor | vixen/directory.py:7-13 | a file keeps the path and parent it is made with |
| DirectoryModel.File.RelPath | vixen/directory.py:18-19 | a file's `relpath` ends with its name, and in the root directory it is just the name |
| DirectoryModel.ChildRelPath | vixen/directory.py:44-58 | a sub-directory made from listing entry `name` is named `name` and has relpath `join(parent.relpath, name)` |
| DirectoryModel.FileRelPath | vixen/directory.py:18-22 | a file made from listing entry `name` is named `name` and has relpath `join(parent.relpath, name)` |
| DirectoryModel.SubDirRelPath | vixen/tests/test_directory.py:56-59 | the root has relpath `''` and its sub-directory `sub` has relpath `sub` |
| DirectoryModel.SubFileRelPath | vixen/tests/test_directory.py:60-63 | the file `sub.txt` in `sub` has relpath `sub/sub.txt` |
| DirectoryModel.RootFileRelPath | vixen/tests/test_directory.py:46-49 | the root's file `hello.py` has relpath `hello.py` |
| Query.Rank | vixen/project.py:125-132 | Python 2 orders `None` first, then numbers, then strings; a value ranks among the numbers exactly when it has a numeric reading |
| Query.StrLessTrichotomy | vixen/project.py:125-132 | of two strings exactly one is smaller, or they are equal |
| Query.StrLessTransitive | vixen/project.py:125-132 | string order is transitive |
| Query.PyOrderIsTotal | vixen/project.py:125-132 | the comparisons of `_check_range` form a total order whose equivalence is `==`: exactly one of `a < b`, `a == b`, `b < a`, and `<` is transitive |
| Query.CheckValue | vixen/project.py:114-118 | a string expression matches exactly when it is a substring of the lower-cased value, and raises when the value is not a string; any other expression matches exactly when it equals the value |
| Query.CheckRange | vixen/project.py:121-133 | the value matches exactly when it is above the start (strictly when `startexcl`) and below the end (strictly when `endexcl`), a missing bound always holding |
| Query.RangeExclusiveWithinInclusive | vixen/project.py:121-133 | an exclusive range selects no more than a half-open one, which selects no more than the inclusive one; a range without bounds selects everything |
| Query.RangeExamples | vixen/tests/test_project.py:579-611 | `{0 TO 2}` selects only 1, `{0 TO 2]` selects 1 and 2, `>=1` rejects 0, `<1` accepts 0, and a float tag compares with an int bound |
| Query.CheckDateRange | vixen/project.py:136-142 | a date range is inclusive at both ends and a missing end always holds |
| Query.GetTag | vixen/project.py:145-149 | a `COMMON_TAGS` name reads the media's own attribute, of that attribute's type; any other name reads the tag, or `None` when it is absent |
| Query.CommonAttributeShadowsTag | vixen/project.py:146-147 | a tag named like a common attribute is never what a query reads |
| Query.TagTypes | vixen/project.py:522-525 | the types known to a search are `COMMON_TAGS` plus the schema names; a schema tag overrides a common one and, with unique names, each tag's own type is recorded |
| Query.EvalAndFrom | vixen/project.py:171-177 | from child `i` on, the `And` loop gives true exactly when every later child is true, and otherwise the first child that is not true |
| Query.EvalOrFrom | vixen/project.py:178-184 | from child `i` on, the `Or` loop gives false exactly when every later child is false, and otherwise the first child that is not false |
| Query.EvalAndIsConjunction | vixen/project.py:171-177 | `And` is true exactly when all children are true (the empty `And` is true); otherwise the first child that is not true decides, so a false child hides an exception in a later one |
| Query.EvalOrIsDisjunction | vixen/project.py:178-184 | `Or` is false exactly when all children are false (the empty `Or` is false); otherwise the first child that is not false decides |
| Query.EvalAndWithoutErrors | vixen/project.py:171-177 | when no child raises, `And` is the conjunction of its children |
| Query.EvalOrWithoutErrors | vixen/project.py:178-184 | when no child raises, `Or` is the disjunction of its children |
| Query.FirstOther | vixen/project.py:173-183 | there is a first child whose outcome breaks the loop when some child does |
| Query.EvalNotAndOther | vixen/project.py:185-190 | `Not` negates its child and passes its exception on, so a double negation changes nothing; any other node matches nothing |
| Query.EvalDateRange | vixen/project.py:161-163 | a date range ignores its exclusivity flags and reads `_ctime` for the field `ctime` and `_mtime` for every other field |
| Query.LowerAll | vixen/project.py:111 | each phrase word is lower-cased, in order |
| Query.CleanupAll | vixen/project.py:102 | the children are cleaned one by one: on success each cleaned child is the cleanup of the child at that position; a failure comes from some child |
| Query.CleanupIdempotent | vixen/project.py:100-111 | cleaning a cleaned query changes nothing |
| Query.CleanupChildrenIdempotent | vixen/project.py:102-111 | the cleaned children of a node are each unchanged by a second cleanup |
| Query.CleanupAllOfClean | vixen/project.py:102 | children that are already clean are left as they are |
| Query.TermIgnoresCase | vixen/project.py:109-116 | after cleanup a term on a string field matches a string value without regard to case |
| ProjectModel.DefaultTagMap | vixen/project.py:422 | the default tags of a new media hold exactly the schema names |
| ProjectModel.DefaultTagMapValues | vixen/project.py:422 | with unique names each tag starts with its own default |
| ProjectModel.IndexOf | vixen/project.py:318-319 | `header.index(x)` is the first position holding `x` |
| ProjectModel.Columns | vixen/project.py:318 | the columns are exactly the schema tags named in the header, each with the first position of its name |
| ProjectModel.ColumnsUnique | vixen/project.py:318 | with unique tag names no two columns hold the same tag name |
| ProjectModel.ApplyColumns | vixen/project.py:340-345 | storing one record keeps every tag outside the columns, adds no other key, and completes exactly when every column index is inside the record |
| ProjectModel.ApplyColumnsStores | vixen/project.py:340-345 | a column's tag holds the converted text when the conversion succeeds, and keeps its old value when it raises ValueError |
| ProjectModel.RecordStep | vixen/project.py:333-345 | a record always counts towards `total`, counts towards `count` at most once, and changes nothing else when its path is not a media key; a row too short for the path column raises |
| ProjectModel.ImportRecords | vixen/project.py:328-345 | `count` never exceeds `total`, every media keeps its keys, and a loop that does not raise reads every record |
| ProjectModel.ImportStep | vixen/project.py:333-345 | the loop from record `i` is that record's step followed by the loop from `i + 1`, unless the step raises |
| ProjectModel.Hits | vixen/project.py:464-467 | `search` yields at most one pair per key |
| ProjectModel.HitsSpec | vixen/project.py:464-467 | `search` yields exactly the pairs `(basename(key), key)` of the keys whose media satisfy the query, and raises exactly when the query raises for some media |
| ProjectModel.HitsRaises | vixen/project.py:464-467 | the search raises exactly when the query raises on the media of some key |
| ProjectModel.HitsContents | vixen/project.py:464-467 | a search that does not raise yields a key exactly when its media satisfy the query |
| ProjectModel.HitsPrefixNone | vixen/project.py:464-467 | once the query raises on a prefix of the keys, the whole search raises |
| ProjectModel.LastWith | vixen/project.py:425-429 | the file a relpath's new media is made from has that relpath |
| ProjectModel.RetagMedia | vixen/project.py:237-240 | one media's tags lose the removed names and then gain the added defaults |
| ProjectModel.DeleteTags | vixen/project.py:237-238 | the `del` loop leaves the tags `DeleteAll` computes |
| ProjectModel.SetDefaultsStep | vixen/project.py:239-240 | one more added tag is one more assignment of its default |
| ProjectModel.SetTagDefaults | vixen/project.py:239-240 | the assignment loop leaves the tags `SetDefaults` computes |
| ProjectModel.RetagMap | vixen/project.py:236-240 | every media of the map is retagged from the old schema to the new one and then holds the new schema |
| ProjectModel.RetagAll | vixen/project.py:236-240 | every media of the map gets the diff applied exactly once |
| ProjectModel.TagDiff | vixen/project.py:220-233 | the method computes the `removed` and `added` lists of `update_tags` |
| ProjectModel.ChangedTags | vixen/project.py:225-230 | the loop over the new tags builds the retyped tags and `added` |
| ProjectModel.DroppedTags | vixen/project.py:231-233 | the loop over the old tags builds the dropped tags |
| ProjectModel.DiffStep | vixen/project.py:225-230 | one more new tag extends `removed` and `added` as the two branches say |
| ProjectModel.DroppedStep | vixen/project.py:231-233 | one more old tag extends the dropped list exactly when its name is gone |
| ProjectModel.Project.constructor | vixen/project.py:486-487 | a new project has the single tag `completed` and no media |
| ProjectModel.Project.UpdateTags | vixen/project.py:219-240 | the schema becomes the new tags, every media is retagged as `Schema.RetagSpec` describes, and the invariant (unique names, distinct media, every media holding the schema) is kept |
| ProjectModel.Project.AddTags | vixen/project.py:215-217 | `add_tags` retags to the old schema followed by the extra tags |
| ProjectModel.Project.ImportCsv | vixen/project.py:311-355 | no header or no `path` column fails and changes no tags; otherwise the media tags become what the record loop computes, a short row raises, and the result is false exactly when no record matched and there was a record |
| ProjectModel.Project.Scan | vixen/project.py:415-449 | existing media are kept; each new relpath gets a new media made from the last file with it, holding the default tags; the schema is unchanged and `number_of_files` is updated only when there are new media |
| ProjectModel.Project.AddMedia | vixen/project.py:441-449 | the media map becomes the old map updated with the new media, and `number_of_files` its size when there are new media |
| ProjectModel.Project.Search | vixen/project.py:451-467 | nothing is yielded for a query that does not parse; a cleanup KeyError raises; otherwise the result is `Hits` of the cleaned query over the keys in dictionary order |
| ProjectModel.MergeMedia | vixen/project.py:446-448 | merging new media made with the defaults keeps the media distinct and holding the schema |
| ProjectModel.MergeKeys | vixen/project.py:446-448 | the merged map has the old keys plus the found ones, the old entries unchanged and the new entries from the new media |
| ProjectModel.NothingToAdd | vixen/project.py:441 | there are new media exactly when some found relpath is not a key yet |
| ProjectModel.NewMedia | vixen/project.py:424-435 | the new media are exactly the found relpaths that are not keys, each a fresh distinct object made from the last file with that relpath |
| ProjectModel.CreateMedia | vixen/project.py:475-478 | `_create_media` makes a fresh media from the file's path and relpath with a copy of the default tags |
| ProjectModel.RelPathsStep | vixen/project.py:425-429 | one more file adds its relpath |
| ProjectModel.LastWithStep | vixen/project.py:425-429 | one more file becomes the last one with its relpath |
| ProjectModel.ReadRecords | vixen/project.py:328-345 | the record loop leaves every media's tags, `count` and `total` as `ImportRecords` computes |
| ProjectModel.ReadRecord | vixen/project.py:333-345 | one record leaves the media tags, `count` and `total` as `RecordStep` computes |
| ProjectModel.ApplyRecord | vixen/project.py:340-345 | one matched record leaves that media's tags as `ApplyColumns` computes |
| PagerModel.TotalPages | vixen/vixen.py:279-286 | one page for no data; otherwise the fewest pages of `limit` items that hold the data: `(r - 1) * limit < size <= r * limit` |
| PagerModel.PageCounts | vixen/tests/test_pager.py:146-169 | 10 items at 2 per page make 5 pages, 11 make 6, none make 1 (Python 2 integer division) |
| PagerModel.ClampIndex | vixen/vixen.py:263 | the clamped index lies in the data when there is data and is -1 when there is none; an index already in range is kept |
| PagerModel.ClampPage | vixen/vixen.py:243 | the clamped page lies in `[1, total_pages]`, and a page already in range is kept |
| PagerModel.OnPageIff | vixen/vixen.py:247-248 | an index passes the corrected on-page test for page `p` exactly when `int(idx/limit) + 1 == p` |
| PagerModel.AsWrittenKeepsNextPageIndex | vixen/vixen.py:248 | the test as written accepts index `p * limit` for page `p`, although that index lies on page `p + 1` and the corrected test refuses it |
| PagerModel.PrevPageFromLastPage | vixen/tests/test_pager.py:108-135 | with 10 items at 2 per page, `prev_page()` from index 8 on page 5 keeps index 8 under the test as written, although 8 is not on page 4; the corrected test moves it to 6, the first index of page 4 |
| PagerModel.PageStartInData | vixen/vixen.py:247 | the first index of every page that exists lies in the data, on that page |
| PagerModel.IndexPageExists | vixen/vixen.py:266 | every index of the data lies on a page that exists |
| PagerModel.Slice | vixen/vixen.py:257 | Python slicing: in-range bounds give the plain sub-sequence, and a slice is never longer than its bounds allow |
| PagerModel.Item | vixen/vixen.py:218 | Python indexing: an index in range gives that item, and it raises IndexError exactly outside `[-len, len)` |
| PagerModel.Pager.constructor | vixen/vixen.py:270-271 | a new pager has no data, nothing selected, index -1 (the `_index` default) and page 0 |
| PagerModel.Pager.Pages | vixen/vixen.py:279-286 | `total_pages` is at least one |
| PagerModel.Pager.View | vixen/vixen.py:254-257 | `view` never holds more than `limit` items |
| PagerModel.Pager.SetIndex | vixen/vixen.py:262-268 | the index is clamped; if it changed it is stored, and the page is set to `int(idx/limit) + 1` when it differs; with data, the index stays on the current page |
| PagerModel.Pager.SetPage | vixen/vixen.py:242-249 | the page is clamped to `[1, total_pages]`; if it changed it is stored, and an index off the new page moves to the page's first index; "off the page" is the corrected test `OffPage` (see Findings), not the `>` of line 248 |
| PagerModel.Pager.Next | vixen/vixen.py:222-223 | the index becomes the clamped `index + 1`, so at the last item it stays |
| PagerModel.Pager.Prev | vixen/vixen.py:225-226 | the index becomes the clamped `index - 1`, so at 0 it stays |
| PagerModel.Pager.NextPage | vixen/vixen.py:228-229 | the page becomes the clamped `page + 1`; an index off the new page, by the corrected test `OffPage`, moves to its `start` |
| PagerModel.Pager.PrevPage | vixen/vixen.py:231-232 | the page becomes the clamped `page - 1`; an index off the new page, by the corrected test `OffPage`, moves to its `start` |
| PagerModel.Pager.SetData | vixen/vixen.py:234-237 | assigning different data clears `selected` and resets the index to 0 and the page to 1; assigning equal data changes nothing |
| PagerModel.Pager.Select | vixen/vixen.py:210-220 | with `rel` the index is first set to `(page-1)*limit + rel` through the index setter: it becomes that value clamped to the data unless that equals the old index, and the page follows it as `_set_index` moves it; without `rel` index and page stay; then `selected` is `data[index]` for the unclamped index, None for empty data, and an index out of range raises IndexError leaving `selected` as it was |
| PagerModel.ViewHoldsIndex | vixen/vixen.py:251-274 | with data, the page exists, `start` lies in the data, `view` is `data[start:start+limit]`, and `rel_index` points into `view` at the item `data[index]` |
| PagerModel.EmptyData | vixen/tests/test_pager.py:160-169 | assigning `[]` to a new pager leaves index -1, one page and nothing selected |
| JobModel.StatusOf | vixen/processor.py:47-54 | a job that returned ends with status `success`, and one that raised ends with status `error` |
| JobModel.ErrorTextShape | vixen/processor.py:50-53 | the error text always ends with the traceback; it starts with `OUTPUT: ` when the exception carries an output; after a reset and with no output it is the traceback alone |
| JobModel.Job.constructor | vixen/processor.py:18-32 | a new job has status `none`, no result and no error |
| JobModel.Job.Reset | vixen/processor.py:39-42 | `reset()` restores status `none` and an empty error, and keeps the result |
| JobModel.Job.Run | vixen/processor.py:44-55 | `_run()` stores a returned value with status `success` and the error untouched, or writes the error text with status `error` and keeps the old result |
| JobModel.Outcomes | vixen/processor.py:48 | the outcomes of a job list, one per job, in order |
| JobModel.Pending | vixen/processor.py:86 | `[job for job in jobs if job.status == 'none']`: only unstarted jobs of the list, and every unstarted job of the list |
| JobModel.AfterCall | vixen/processor.py:128-138 | while running, `stop` sets `stop`, `pause` sets `pause`, and `resume` clears a pause and leaves anything else |
| JobModel.SettleExamples | vixen/processor.py:128-138 | a pause then a resume leaves no interrupt, a resume does not undo a stop, and a pause after a stop replaces it |
| JobModel.NoHaltBelowAll | vixen/processor.py:90-113 | the recursive "no halt before job i" agrees with its quantified form |
| JobModel.Admitted | vixen/processor.py:90-113 | the number of jobs started is the first index where admission halts, because the previous job raised or a stop came, or the whole queue |
| JobModel.AdmittedIsFirstHalt | vixen/processor.py:90-113 | any index with no halt below it and a halt at it, or the end of the queue, is the number started |
| JobModel.AdmittedSpec | vixen/processor.py:104-110 | every started job but the last returned, and with no raise and no stop every job is started |
| JobModel.FirstRaiseHalts | vixen/processor.py:91-107 | the first job that raises, with no stop before it, is the last job started |
| JobModel.Admitting | vixen/processor.py:90-113 | before job `i` is checked, the previous job is in the single slot and every job before it has completed |
| JobModel.HaltedAt | vixen/processor.py:91-110 | after a halt before job `i` the slot is empty; the previous job is the errored job with status `error` if it raised, and otherwise has completed |
| JobModel.Finished | vixen/processor.py:80-126 | after `process()` nothing is running; the started jobs have completed except a last one that raised, which is the only errored job; the status is `error` exactly then and `success` otherwise; `interrupt` is what the calls left at the halt, or, when every job started, what the calls made while the last job ran left |
| JobModel.FinishedAllReturn | vixen/tests/test_processor.py:54-70 | when every job returns and no stop comes before a job, all jobs complete and the status is `success` |
| JobModel.FinishedFirstRaise | vixen/processor.py:104-126 | the first job that raises is the errored job, the jobs before it complete, and the status is `error` |
| JobModel.FinishedFirstStop | vixen/tests/test_processor.py:111-142 | a stop before job `s` leaves only the jobs before `s` completed, no errored job, and status `success` |
| JobModel.StopDuringLastJob | vixen/processor.py:115-134 | a stop while the only job runs halts nothing: the job completes, the status is `success`, and `interrupt` stays `stop` |
| JobModel.BailThenRetry | vixen/tests/test_processor.py:144-181 | with a failing job first and ten returning jobs after it, the first run starts only the failing job and ends in error with nothing completed; the second run completes all ten, starts the failing job a second time and ends in error with it the only errored job |
| JobModel.Processor.constructor | vixen/processor.py:63-78 | a new processor holds the jobs given, with empty lists, status `none` and no interrupt |
| JobModel.Processor.SetJobs | vixen/processor.py:147-148 | assigning `jobs` a different list empties `completed`; assigning the same list leaves it as it was |
| JobModel.Processor.Stop | vixen/processor.py:128-130 | `stop()` sets the interrupt to `stop` only while running |
| JobModel.Processor.Pause | vixen/processor.py:132-134 | `pause()` sets the interrupt to `pause` only while running |
| JobModel.Processor.Resume | vixen/processor.py:136-138 | `resume()` clears the interrupt only while running and paused |
| JobModel.Processor.Control | vixen/processor.py:128-138 | a sequence of these calls leaves the interrupt given by applying them in order |
| JobModel.Processor.ResetErrored | vixen/processor.py:140-142 | every errored job is back at status `none` with an empty error |
| JobModel.Processor.Process | vixen/processor.py:80-126 | the queue is the unstarted jobs followed by the previously errored jobs, reset; the jobs started are the queue's admitted prefix; the final bookkeeping is `Finished`; the started jobs have run and every other queued job is still unstarted; only the queued jobs can change, so a job that succeeded in an earlier run is left alone |
| JobModel.Processor.Launch | vixen/processor.py:80-113 | set-up then admission: the jobs started are the admitted prefix, with the bookkeeping of a halt or of a full queue; only the queued jobs can change |
| JobModel.Processor.Finish | vixen/processor.py:115-126 | the calls made while the last job runs are taken, the job left in the slot is reaped into `errored_jobs` or `completed`, and the status becomes `success` unless it is `error`; the bookkeeping is then `Finished` |
| JobModel.Processor.Prepare | vixen/processor.py:81-89 | the processor is running with nothing running, no interrupt and no errored job, and the queue is the unstarted jobs followed by the reset errored jobs |
| JobModel.Processor.Reap | vixen/processor.py:91-98 | the finished job in the slot goes to `completed`, or is returned as the error when it raised; the slot is left empty |
| JobModel.Processor.Admit | vixen/processor.py:90-113 | the admission loop starts exactly the admitted prefix of the queue and leaves the matching bookkeeping |
| JobModel.Processor.Check | vixen/processor.py:91-110 | before job `i` is admitted, admission halts exactly when the previous job raised or a stop came, with the bookkeeping of that halt |
| JobModel.Processor.Start | vixen/processor.py:112-113 | the admitted job takes the slot and runs to its outcome |
| Factories.ClassName | vixen/processor.py:348-352 | `dump` records `CommandFactory`, `PythonFunctionFactory` or `TaggerFactory`, each name standing for exactly one kind |
| Factories.ClassNameDistinguishes | vixen/processor.py:350-360 | equal class names mean the same factory kind |
| Factories.OutputExtension | vixen/processor.py:186-188 | an empty output extension stays empty; a non-empty one without a dot gets one in front; one with a dot is kept |
| Factories.OutputExtensionIdempotent | vixen/processor.py:186-188 | normalising the extension twice gives the same as once |
| Factories.OutputPath | vixen/processor.py:214-223 | with no extension the output is `join(dest, relpath)` when mirroring and `join(dest, basename(relpath))` otherwise |
| Factories.OutputPathFlat | vixen/processor.py:217-220 | without `mirror_tree`, `dir/stem.e` at any depth gives `dest/stem` plus the new extension |
| Factories.OutputPathMirror | vixen/processor.py:215-220 | with `mirror_tree`, `dir/stem.e` gives `dest/dir/stem` plus the new extension, keeping the file's place in the tree |
| Factories.CommandLineSubstitutes | vixen/processor.py:208-212 | the command line has one argument per token, in order: `$input` becomes the input path, `$output` the output path, and a token without placeholder or backslash is kept |
| Factories.SubstitutePlain | vixen/processor.py:209-210 | a token with no placeholder and no backslash passes through unchanged |
| Factories.SubstitutePlaceholders | vixen/processor.py:209-210 | the token `$input` becomes the input path and `$output` the output path, for paths with no backslash that do not themselves contain `$output` |
| Factories.EchoCommandLine | vixen/tests/test_processor.py:197-214 | `echo $input $output` becomes `["echo", input, output]` |
| Factories.TaskFor | vixen/processor.py:190-204 | a key gets a job exactly when its media passes the factory's filters and its `_done` entry is not set: for a command, the lower-cased relpath has the input extension and the file exists; for a tagger, the file exists; for a Python function, always |
| Factories.TaskForShape | vixen/processor.py:199-204 | a command job runs the substituted command on the media's path and its output file; a function job gets relpath, media and `dest`; a tagger job runs its command with the path appended; the info of command and tagger jobs is the command line joined by spaces |
| Factories.JobsForRaises | vixen/processor.py:191 | `make_jobs` raises KeyError exactly when some key is not in the project |
| Factories.Present | vixen/processor.py:204 | the jobs kept are never more than the keys |
| Factories.PresentContents | vixen/processor.py:204 | a job is in the result exactly when some key produced it |
| Factories.Options | vixen/processor.py:190-204 | one optional job per key, in key order |
| Factories.JobsForPresent | vixen/processor.py:184-206 | when every key is in the project, the jobs are those of the keys in key order |
| Factories.OptionsInit | vixen/processor.py:190 | dropping the last key drops only its result |
| Factories.JobsForAllDone | vixen/tests/test_processor.py:246-247 | once the `_done` entry of every media is set, `make_jobs` returns no job |
| Factories.JobsForStep | vixen/processor.py:190-204 | one more key appends its job, if it has one, to the jobs so far, and a missing key raises |
| Factories.LineUpdateTyped | vixen/processor.py:329-330 | one output line keeps the updates limited to known tags, each holding a value of its own type |
| Factories.ParseLinesTyped | vixen/processor.py:318-330 | after all lines only tags of the project are updated, each with a value of its own type |
| Factories.ParseLinesRaisePersists | vixen/processor.py:330 | a conversion error ends the loop: the whole run raises whatever lines follow |
| Factories.ParseLinesStep | vixen/processor.py:320 | the lines are handled one after another |
| Factories.ParseLinesSkip | vixen/processor.py:322-329 | an empty line, a line without `:` and a line naming an unknown tag change nothing |
| Factories.ParseLinesLastWins | vixen/processor.py:325-330 | a line `key:value` for a known tag sets the stripped key to the coerced stripped value, overriding earlier lines, or raises when the value does not convert |
| Factories.SplitKeyValue | vixen/processor.py:325 | `key + ":" + value` splits at its first colon into `key` and `value` |
| Factories.UnknownTagsIgnored | vixen/tests/test_processor.py:377-398 | output made only of skipped lines updates no tag |
| Factories.Factory.constructor | vixen/processor.py:151-162 | a new factory has its kind and destination, an empty `_done` and no tag types |
| Factories.Factory.Clear | vixen/processor.py:164-167 | `clear()` empties `_done` |
| Factories.Factory.MakeJobs | vixen/processor.py:184-206 | the loop returns exactly the specified jobs, or raises on a missing key; a tagger first sets its tag types from the project's tags |
| Factories.Factory.ParseOutput | vixen/processor.py:318-330 | the loop over the output lines gathers exactly the specified updates, or raises |
| Factories.Factory.RunTagger | vixen/processor.py:312-333 | it raises exactly when the exit code is 0 and a conversion fails; on exit code 0 without a raise the updates are merged into the media's tags and its path is marked done; otherwise tags and `_done` are unchanged |
| Factories.Factory.RunCommandTask | vixen/processor.py:225-243 | the command runs exactly when a lock is left or the output is missing; a failing command raises with its output and leaves `_done`; otherwise the output file is marked done |
| Factories.Factory.RunFunction | vixen/processor.py:279-281 | when the user's function returns, the media's path is marked done; when it raises, the error passes through and `_done` is unchanged |
| Factories.Factory.Dump | vixen/processor.py:348-352 | the dump is the class name and the persistent state: kind, destination and `_done` |
| Factories.Factory.Load | vixen/processor.py:355-362 | loading succeeds exactly for the class name of the state's kind, and gives a new factory whose dump is the state loaded, with no tag types |
| PyStr.ToLower | vixen/project.py:81 | a capital becomes the small letter at the same place in the alphabet, a character that is not a capital is kept, and no result is a capital |
| PyStr.Lower | vixen/project.py:81 | `str.lower()` keeps the length, leaves no capital, turns each capital into its small letter and keeps every other character |
| PyStr.LowerIsLowercase | vixen/project.py:81 | a lower-cased string holds no capital |
| PyStr.LowerOfLowercase | vixen/project.py:81 | a string without capitals is its own lower-case form |
| PyStr.LowerIdempotent | vixen/project.py:109 | lower-casing twice is lower-casing once |
| PyStr.ContainsIffOccurs | vixen/project.py:116 | the substring test `in` holds exactly when the needle occurs at some position |
| PyStr.ContainsSelfAndEmpty | vixen/project.py:116 | every string contains itself and the empty string |
| PyStr.ReplaceAbsent | vixen/processor.py:209-210 | `str.replace` of a pattern that does not occur changes nothing |
| PyStr.ReplaceWhole | vixen/processor.py:209 | a token that is exactly the pattern becomes the replacement |
| PyStr.DropLeadingSpace | vixen/processor.py:325 | `lstrip` removes a prefix, after which no space leads |
| PyStr.DropTrailingSpace | vixen/processor.py:325 | `rstrip` removes a suffix, after which no space trails |
| PyStr.Strip | vixen/processor.py:325 | `strip` leaves no white space at either end, and the result is one slice of the text outside which every character is white space |
| PyStr.StripKeepsSlice | vixen/processor.py:325 | dropping white space at the front and then at the back keeps one slice of the text, with only white space outside it |
| PyStr.Find | vixen/processor.py:325 | the first position of a character, or -1 exactly when it does not occur |
| PyStr.SplitOnce | vixen/processor.py:325 | `split(':', 1)` gives two parts exactly when the separator occurs; the first part holds no separator and the parts rebuild the line |
| PyPath.RFind | vixen/media.py:150 | the last position of a character, or -1 |
| PyPath.Basename | vixen/media.py:150 | `basename` is a suffix of the path holding no slash |
| PyPath.RStripSlashes | vixen/project.py:89 | stripping trailing slashes leaves a prefix |
| PyPath.Split | vixen/video.py:57-60 | the second half of `split` is the basename |
| PyPath.Join | vixen/directory.py:58 | `join` with an absolute second part gives that part, and with an empty first part gives the second |
| PyPath.BasenameOfJoin | vixen/directory.py:58 | the basename of `join(a, b)` is `b` when `b` is a plain name |
| PyPath.ExtStart | vixen/media.py:28 | the extension starts at the last dot after the last slash, or at the end |
| PyPath.SplitExt | vixen/media.py:28 | `splitext` splits the path into a stem and an extension that is empty or a dot followed by no dot or slash |
| PyPath.SplitExtOfStem | vixen/project.py:88 | a dotless stem followed by an extension is split back into the two |
| PyPath.SplitExtAfterSlash | vixen/process_file.py:34 | a path ending in `dir/stem.ext` splits into `dir/stem` and `.ext` |
| PyPath.JoinPrefix | vixen/directory.py:58 | `join(dir, name)` is `dir`, a slash unless `dir` already ends in one, and `name` |
| PyPath.SplitExtOfJoin | vixen/processor.py:216-220 | splitting the extension off `join(dir, stem + ext)` gives `join(dir, stem)` and `ext` |
| PyPath.JoinAppend | vixen/project.py:89 | appending to a joined path appends to its last part |
| PyPath.JoinAssoc | vixen/directory.py:58 | joining relative paths is associative |
| PyPath.SplitAtLastSlash | vixen/video.py:57-60 | `split(a + "/" + b)` with a slash-free `b` gives `(a, b)` |
| CameraFiles.SliceFrom | vixen/process_file.py:9 | `s[5:]` drops the first five characters, and is empty for a shorter string |
| CameraFiles.ComponentsOfLayout | vixen/process_file.py:4-9 | for `date/grid/camera/video` the components are the camera, grid and date directories |
| CameraFiles.ParsePathOfLayout | vixen/process_file.py:4-9 | for such a path `_parse_path` names the camera directory, the grid directory less five characters, and the date directory |
| CameraFiles.TagNames | vixen/process_file.py:46-52 | the tag dict's keys are twelve distinct names, and no name is in two of the three groups (path, counts, free text) |
| CameraFiles.Tags | vixen/process_file.py:46-52 | the tag dict has exactly those twelve keys |
| CameraFiles.TagsFromPath | vixen/process_file.py:47-48 | `poster`, `camera`, `grid` and `grid_date` hold the poster name and the parsed components |
| CameraFiles.TagsCountsZero | vixen/process_file.py:41-49 | the four animal counts are 0 |
| CameraFiles.TagsTextEmpty | vixen/process_file.py:42-51 | the four free-text fields are empty |
| CameraFiles.ProcessFile | vixen/process_file.py:27-53 | a result is returned exactly for a `.avi` or `.AVI` file of non-zero size; it has type `video`, the view is the absolute stem plus `.webm`, and the tags are built from the poster (absolute stem plus `.jpg`) and the parsed path |
| CameraFiles.AviShape | vixen/process_file.py:35 | both accepted extensions are a dot and three letters |
| CameraFiles.ProcessFileOfLayout | vixen/process_file.py:27-53 | a non-empty AVI file stored as `date/grid/camera/stem.avi` is processed and its tags name its directories |
| CameraFiles.AviGateIsCaseSensitive | vixen/process_file.py:35 | `.avi` and `.AVI` pass the gate, `.Avi` does not |
| VideoModel.Video.FromVideo | vixen/video.py:63-77 | `webm_video` and `poster` are the stem plus `.webm` and `.jpg`; camera and date are the parsed components and grid the grid component less five characters; `video_mtime` is the truncated `st_mtime` and the time and date are formatted from it |
| VideoModel.Video.Process | vixen/video.py:79-89 | the commands submitted are, in this order, the conversion when the web file is missing (`ready` is false) and the poster command when the poster is missing, each once and nothing else |
| VideoModel.DerivedNamesDiffer | vixen/video.py:66-67 | the web file and the poster are two files with the same stem, so `ready` says nothing about the poster |
| FilteredViewModel.TagsOf | vixen/filtered_view.py:27-28 | the tag maps of the manager's media, in order |
| FilteredViewModel.KeysOf | vixen/filtered_view.py:27-30 | every item has its `(int(grid), camera)` key, or the loop raises at an item whose grid does not convert |
| FilteredViewModel.KeysSnoc | vixen/filtered_view.py:27-30 | one more item extends the keys, or the loop raises |
| FilteredViewModel.GroupSnoc | vixen/filtered_view.py:31 | one more item is appended to the list of its own key and nothing else changes |
| FilteredViewModel.OrderSnoc | vixen/filtered_view.py:31 | one more item's camera is appended to its grid's key order when new |
| FilteredViewModel.GroupGrid | vixen/filtered_view.py:26-33 | a grid is in `grid_camera_map` exactly when some item has it |
| FilteredViewModel.GroupCamera | vixen/filtered_view.py:26-33 | under a grid, a camera is present exactly when some item has that grid and camera |
| FilteredViewModel.GroupBucket | vixen/filtered_view.py:26-33 | each list holds the items with that key, in input order |
| FilteredViewModel.BucketEmpty | vixen/filtered_view.py:31 | a key no item has collects nothing |
| FilteredViewModel.OrderMatchesGroup | vixen/filtered_view.py:43 | `keys()` of each inner dict lists every camera of that grid exactly once |
| FilteredViewModel.MinExists | vixen/filtered_view.py:34 | a non-empty set of grids has a least element |
| FilteredViewModel.SortedList | vixen/filtered_view.py:34 | `sorted(grids.keys())` is strictly increasing and holds exactly the grids |
| FilteredViewModel.KeysPrefixFails | vixen/filtered_view.py:27-30 | once the loop raises on a prefix it raises on the whole list |
| FilteredViewModel.GroupItems | vixen/filtered_view.py:26-33 | the loop succeeds exactly when every grid converts, and then builds the grouping of the items by key with its key order |
| FilteredViewModel.FilteredView.constructor | vixen/filtered_view.py:11-22 | grid 1, the empty camera and no media or groups |
| FilteredViewModel.FilteredView.CameraChanged | vixen/filtered_view.py:39-40 | `media` becomes the list of the current grid and camera, and stays when the lookup fails |
| FilteredViewModel.FilteredView.SetCamera | vixen/filtered_view.py:39-40 | the `Str` trait accepts only text; the handler runs only when the name changes |
| FilteredViewModel.FilteredView.AvailableCamerasChanged | vixen/filtered_view.py:46-48 | a camera not in the list moves to the first one, which selects that media; an empty list raises and changes nothing |
| FilteredViewModel.FilteredView.SetAvailableCameras | vixen/filtered_view.py:46-48 | the list is stored and its handler runs only when the list changes |
| FilteredViewModel.FilteredView.GridChanged | vixen/filtered_view.py:42-44 | a grid of the map makes its camera keys the available cameras; a missing grid raises and changes nothing |
| FilteredViewModel.FilteredView.SetGrid | vixen/filtered_view.py:42-44 | the grid is stored and its handler runs only when the grid changes |
| FilteredViewModel.FilteredView.Regrid | vixen/filtered_view.py:35-37 | a grid not in the map moves to the least grid, whose cameras become available, and the camera to the first of them; with no grids it raises and changes nothing |
| FilteredViewModel.FilteredView.ManagerChanged | vixen/filtered_view.py:25-37 | a grid that does not convert raises and changes nothing; otherwise the map is the grouping of the items, the grids are its sorted keys, and a current grid not in the map moves to the first grid with camera and media to match |

## Left out

- Threads and polling. `Processor.process` runs jobs on threads and busy-waits with `time.sleep`. The model runs the jobs one at a time in a single slot, as with `number_of_processes = 1`. What other threads do while a job runs (`stop`, `pause`, `resume`) is given as a list of calls per job.
- JobModel.Processor.Process: the error text a raising job is left with is not stated. `Job.Run` states it for a single run, but the admission loop's invariants do not carry it to the end of `process()`, because the proof that did was beyond the solver's resource limit.
- JobModel.Processor.Process: environments that leave a pause pending before a job is admitted are excluded. The source then waits forever for a `resume` from another thread. A pause left while the last job runs blocks nothing and is kept.
- A job's function is given by its outcome: the value it returns, or the traceback and `output` of what it raises. `traceback.format_exc` is part of that outcome.
- Subprocesses, lock files, `os.makedirs` and `shutil.copystat` in the factories' `_run` are parameters. The model has whether the lock and output files exist, whether the command failed, and the tagger's exit code and output lines. Of `CommandFactory._run` it keeps only the decision to run and the `_done` mark.
- `shlex.split` of the command template is a parameter.
- `compile`/`exec` of user code in `PythonFunctionFactory` is left out. What the user's `process` function does is a parameter.
- Factories.Factory.Load: `load` finds the class through `globals()[name]`. The model matches over the three factory kinds. It does not create another class, and it refuses the name of a class whose settings differ.
- Query parsing: whoosh's `QueryParser` and its plugins, and `_make_schema`. `search` takes the parsed tree, or `None` for an expression that does not parse.
- `INT.from_bytes` and `FLOAT.from_bytes` of `_cleanup_query` are parameters.
- Float tags are modelled as mathematical reals. Parsing text to `int` or `float` is a parameter: it gives a value or refuses, for `ValueError`.
- JSON and CSV I/O: `load`, `save`, `save_as`, the CSV sniffer and `export_csv`. `import_csv` takes whether the file has a header, the header and the rows.
- `os.stat`, `os.path.exists`, `os.listdir`, `isdir`/`isfile`, `guess_type`, `abspath` and `relpath` are parameters.
- `datetime` formatting of times and dates is a parameter.
- `Project._setup_root` and the directory refresh inside `scan` are left out. `scan` takes the list of files found under the root.
- `Project._name_changed`, `_save_file_default` and `get_project_dir` move the save file on disk and are not modelled. Their name logic is modelled as `sanitize_name` and `get_non_existing_filename`.
- `_process_avi` runs ffmpeg. Only the output names it returns are modelled.
- `Video.process` submits commands to an executor. The model returns the list of commands submitted.
- Python 2 dictionary iteration order is given as insertion order, or as a sequence where the caller chooses it (the keys of `search`).
- Traits `List` change detection is modelled as inequality of the whole list.
- `FilteredView`: Python treats camera keys `1`, `1.0` and `True` as the same dictionary key. The model keeps them apart.
- `FilteredView`: the `manager` is given by its media list. `MediaManager` is not part of this model.
- DirectoryModel.Directory.Child: a new sub-directory starts with empty lists. The recursive listing that assigning its `path` triggers in the source is modelled one directory at a time.
- MediaModel.MimeKind: the MIME type comes from jigna's `guess_type`, which is not part of this model. It is given as text, the empty string when nothing is guessed.
- ProjectModel.Project.UpdateTags: the new tags must have unique names. With a name given twice, the source can `del` a key twice and raise `KeyError`.
- ProjectModel.Project.AddTags: the same rule holds for the old tags followed by the extra ones.
- PagerModel.Pager.constructor: the page size must be positive. The source divides by it.
- PagerModel.Pager.SetPage: the class uses the corrected off-page test `OffPage` (an index at `base + limit` is off the page), so it does not reproduce line 248 of vixen/vixen.py as written; the same holds for `NextPage`, `PrevPage`, and `SetIndex` and `Select` through it. The test as written is `OffPageAsWritten`, and the lemmas listed under Findings show where the two differ.
- PyStr.Lower: lower-casing maps only the ASCII capitals `A`-`Z`. Python's `unicode.lower()` also maps other letters (`u"CAFÉ"` becomes `u"café"`), so for non-ASCII text the model differs in `Query.CheckValue`, `Query.TermIgnoresCase`, the lower-casing of query words, `MediaModel.Extension`, `Schema.SanitizeName` and the input-extension test of the command factory. Unicode case tables are not part of this model.
- PyStr.ToLower: the same rule for one character: only `A`-`Z` are mapped, and every other character is kept.
- PyStr.Strip: only the ASCII white-space characters are removed. Python's `unicode.strip()` also removes other white space, such as U+00A0 and U+2003, so for such text the model differs in `Values.Coerce` of tagger output and in `Factories.ParseLines` and `Factories.ParseLinesLastWins`.
- The UI classes (`ProjectEditor`, `ProjectViewer`, `VixenUI`, `Vixen`) are not part of this model, nor are the command-line tool, `media_manager`, `video_manager`, `command_executor` and `media_processor`.

## Findings

| source | as written | input that shows it | evidently intended | confidence | as-written member | corrected member |
|---|---|---|---|---|---|---|
| vixen/vixen.py:248 | the `page` setter moves the index only when `index > base + limit`, but `base + limit` is already the first index of the next page | 10 items, page size 2, index 8 (page 5); `prev_page()` sets page 4 with base 6, the index stays 8 and is not shown on page 4 | `index >= base + limit`, so that the index stays on the page shown | not executed | PagerModel.OffPageAsWritten, PagerModel.AsWrittenKeepsNextPageIndex, PagerModel.PrevPageFromLastPage | PagerModel.OffPage, PagerModel.Pager.SetPage, PagerModel.Pager.NextPage, PagerModel.Pager.PrevPage, PagerModel.ViewHoldsIndex |
