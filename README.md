# PROJECT_ARK system-profile pipeline and knowledge-base maintenance, in Dafny

PROJECT_ARK is a local assistant. It answers questions about the machine it runs
on from a vector store (ChromaDB). This project models the hand-written code
around that store.

- **`acquire_data.py`** runs `lscpu`, `free -h`, `lspci` and a few other commands. It parses their output into a system-profile JSON document (module `AcquireData`).
- **`ingest.py`** flattens that profile into one store record, `system_profile_doc_01`, with a summary document and flat metadata. It adds the record to the collection `ark_system_knowledge` (module `Ingest`).
- **`tools.py`** provides the agent's tools:
  - `get_system_spec` projects chosen keys out of the stored profile metadata, with defaults and a `"Not available"` filler;
  - `list_running_processes` picks a command and splits its output into lines;
  - `create_kicad_project` writes a project file and a schematic (module `Tools`).
- **`delete_from_ark.py`** deletes every chunk whose `source` metadata lies under a directory. It filters all metadata in store order, then deletes the selected ids in batches of 500 (module `DeleteFromArk`).
- **`common.py`** normalises user-supplied paths. A case-insensitive, trimmed table of friendly names (`desktop`, `documents`, …) comes first, then `expanduser` and `abspath` (module `Common`).
- **`rag_utils.py`** raises an error when the requested collection is missing. It also renders query results as `--- CONTEXT FROM: <source> ---` blocks joined by blank lines (module `RagUtils`).

Shared modules:

- **`PyStr`** holds the Python string operations the scripts rely on: `split`, `join`, `strip`, `lower`, `str.split()` on whitespace, `splitlines` and `startswith`.
- **`PyDict`** models a Python dict as an insertion-ordered association list. Assigning to a present key overwrites in place; assigning a new key appends. `PyDict` also defines the `Json` value type and `str()` of those values.
- **`VectorStore`** models the store. It is a `Store` class whose `collections` map is changed in place by `GetOrCreate`, `Add` and `Delete`.

Where the code mutates, the model does too:

- **Loops are methods with `while` loops**, each proved equal to a specification function: `SelectIds`, `DeleteInBatches`, `ParseLscpu`, `GpuModels`, `CreateKicadProject` and `RetrieveContext`.
- **Store updates go through the `Store` class**: `DeleteSource` and `Ingest` change the store through its methods.
- **Everything else is functions and lemmas.**

An uncaught Python exception is a `Failure` or `Crashed` value carrying the message Python prints, such as `'NoneType' object has no attribute 'get'`.

The environment is passed in as parameters:

- `home` is `$HOME` and `cwd` is the working directory;
- `dbExists` is the result of `os.path.exists("db")`;
- each command's output is a string parameter, and so is the outcome of a file write;
- a `LoadedProfile` stands for the profile file as read.

The repository's own description speaks of a hand-written agent loop. In the code, that loop is handed to LangChain's `initialize_agent`, so it is not modelled here.

## Model

| member | source | states |
|---|---|---|
| DeleteFromArk.DirPrefix | src/delete_from_ark.py:39-40 | the directory prefix ends in `/` and starts with the given path; a path already ending in `/` is kept, any other path gains exactly one character |
| DeleteFromArk.DirPrefixIdempotent | src/delete_from_ark.py:39-40 | making the prefix twice gives the same prefix |
| DeleteFromArk.NoSiblingMatch | src/delete_from_ark.py:39-45 | a source matched under `/a/b` has `/` right after `/a/b`, so `/a/bc/...` is never selected |
| DeleteFromArk.SelectIds | src/delete_from_ark.py:42-46 | the filter loop returns exactly `SelectedIds`: the ids of the records in store order whose source matches, or the AttributeError of the first record whose `source` is not a string |
| DeleteFromArk.Matches | src/delete_from_ark.py:45 | a record raises iff its metadata has a `source` that is not a string; it is selected iff its `source` is a string starting with the prefix, so missing or empty metadata and a missing `source` are skipped |
| DeleteFromArk.SelectedIds | src/delete_from_ark.py:42-46 | the filter never selects more ids than there are records |
| DeleteFromArk.SelectedIdsMembers | src/delete_from_ark.py:43-46 | an id is selected iff some record with that id has non-empty metadata with a string `source` that starts with the prefix |
| DeleteFromArk.SelectedIdsFails | src/delete_from_ark.py:45 | the filter raises iff some record has a `source` that is not a string |
| DeleteFromArk.SelectedIdsPrefix | src/delete_from_ark.py:43-46 | selection keeps store order: the ids selected from a prefix of the listing are a prefix of the ids selected from the whole listing |
| DeleteFromArk.FailureStays | src/delete_from_ark.py:43-46 | once a record raises, the whole filter ends with that record's error |
| DeleteFromArk.BatchesFlatten | src/delete_from_ark.py:60-63 | the batches concatenated are exactly the selected ids, so each id is asked for once and no other id is asked for |
| DeleteFromArk.Batches | src/delete_from_ark.py:60-61 | the slices the batch loop takes: every batch holds 1 to 500 ids and every batch but the last holds exactly 500 |
| DeleteFromArk.BatchesCount | src/delete_from_ark.py:64 | there are (n + 499) / 500 batches, the total the progress line prints |
| DeleteFromArk.DeleteStep | src/delete_from_ark.py:62 | deleting the next batch from what is left equals deleting the longer prefix of the ids from the original collection |
| DeleteFromArk.DeleteInBatches | src/delete_from_ark.py:59-64 | the loop issues `Batches(ids, 500)` in order; the collection loses exactly the selected ids, the other records stay in order and no other collection changes |
| DeleteFromArk.DeleteSource | src/delete_from_ark.py:9-64 | no database, no collection, a non-string source, or no match each return before any deletion with the store unchanged; otherwise the outcome records the batches and the count, and the store is as `DeleteInBatches` leaves it |
| DeleteFromArk.DeletionKeepsOthers | src/delete_from_ark.py:42-63 | a record is in the collection afterwards iff it was there before and did not match the directory |
| VectorStore.Without | src/delete_from_ark.py:62 | after `delete(ids)` the collection holds exactly the records whose id is not listed, never more than before |
| VectorStore.WithoutWithout | src/delete_from_ark.py:60-63 | two successive deletions remove what one deletion of both id lists removes |
| VectorStore.WithoutDistinct | src/delete_from_ark.py:62 | deleting keeps the stored ids distinct |
| VectorStore.WithoutNothing | src/delete_from_ark.py:59 | deleting no id changes nothing |
| VectorStore.WithId | src/tools.py:17 | `get(ids=[id])` returns exactly the stored records with that id |
| VectorStore.WithIdAbsent | src/tools.py:17 | `get` of an id that is not stored finds nothing |
| VectorStore.Added | src/ingest.py:47-51 | after `add` the id is stored and ids stay distinct; the earlier records are kept in order, and the record is appended, growing the collection by one, iff its id was new; nothing else is added |
| VectorStore.Store.GetOrCreate | src/ingest.py:27 | the collection exists afterwards; an existing collection is kept as it was and a new one is empty |
| VectorStore.Store.Add | src/ingest.py:47-51 | only the named collection changes, to `Added` of its records |
| VectorStore.Store.Delete | src/delete_from_ark.py:62 | only the named collection changes, to `Without` of its records |
| AcquireData.KeyValue | src/acquire_data.py:20-22 | a line yields a key/value pair iff it contains `:` |
| AcquireData.KeyValueFirstColon | src/acquire_data.py:21-22 | only the first colon splits: `key:value` with a colon-free key gives the stripped key and the whole stripped value, colons included |
| AcquireData.LinePairsNoColon | src/acquire_data.py:19-20 | lines without a colon contribute no pair |
| AcquireData.ParseLscpu | src/acquire_data.py:16-34 | the loop returns the nine fixed fields, each the value of the last line whose stripped key is exactly that field's lscpu key |
| AcquireData.ParseStep | src/acquire_data.py:19-22 | one more line assigns its pair, if it has one, to the dict built so far |
| AcquireData.FieldsOfDict | src/acquire_data.py:22-34 | reading the nine fields from the dict built by the loop reads the last value assigned to each key |
| PyDict.FromPairsGet | src/acquire_data.py:22 | a dict built by successive assignments returns, for each key, the last value assigned to it, and None for a key never assigned |
| PyDict.LastOf | src/acquire_data.py:24-34 | a field is None exactly when no line has its key, and otherwise comes from the last line with that key |
| AcquireData.LscpuIgnoresLinesWithoutColon | src/acquire_data.py:19-20 | appending colon-free text to the lscpu output changes no field |
| AcquireData.LscpuLastKeyWins | src/acquire_data.py:22 | a later `Model name` line overrides any earlier one; a line with another key leaves the model name as it was |
| AcquireData.ParseFree | src/acquire_data.py:36-48 | as written: `parse_free` returns the empty dict iff the output has no newline |
| AcquireData.ParseFreeRow | src/acquire_data.py:36-48 | corrected: `parse_free` returns the empty dict iff the output has no newline |
| PyStr.SplitSeveral | src/acquire_data.py:38-39 | `split` gives more than one piece iff the separator occurs |
| AcquireData.Zip | src/acquire_data.py:42 | `zip` pairs by position and is as long as the shorter list |
| AcquireData.ZipLookup | src/acquire_data.py:42-44 | a header that occurs once, at column j, reads the j-th word of the value row |
| AcquireData.ParseFreeReadsRowLabel | src/acquire_data.py:40-44 | as written, on `free` output whose first header is `total`, `total_memory` is the row label (`Mem:`) and not the total (see Findings) |
| AcquireData.ParseFreeRowReadsColumn | src/acquire_data.py:40-47 | corrected: with the row label skipped, `total`, `used` and `free` each read the number printed under them |
| AcquireData.BracketContent | src/acquire_data.py:55-57 | the match exists iff some `[` is followed later by `]`; it is the text between the leftmost `[` and the next `]`, and holds no `]` |
| AcquireData.BracketsAtMostOnePerLine | src/acquire_data.py:54-57 | GPU extraction yields at most one entry per line |
| AcquireData.GpuModels | src/acquire_data.py:50-58 | the loop collects the bracket contents line by line, in line order; no entry holds `]` or a newline |
| Common.AliasShapes | src/common.py:9-19 | every friendly name starts with a lower-case letter and every target starts with `~` |
| Common.JoinPath | src/common.py:27 | joining onto an absolute directory gives an absolute path |
| Common.LeadingSlashes | src/common.py:27 | `normpath` keeps one or two leading slashes exactly for rooted paths, never more |
| Common.NormPath | src/common.py:27 | `normpath` never returns the empty string |
| Common.ResolveRootedClean | src/common.py:27 | in a rooted path the component loop only produces components that are not empty, `.` or `..` and hold no `/` |
| Common.NormPathShape | src/common.py:27 | a rooted path normalises to its leading slashes followed by clean components |
| Common.NormPathIdempotent | src/common.py:27 | `normpath` of a rooted path is rooted, and `normpath` leaves it unchanged |
| Common.AbsPath | src/common.py:27 | `abspath` run in an absolute directory gives an absolute path that `normpath` leaves alone |
| Common.AbsNotAlias | src/common.py:22-23 | no absolute path is a friendly name, whatever its case and surrounding whitespace |
| Common.TargetNotAlias | src/common.py:9-23 | no friendly-name target is itself a friendly name |
| Common.NormalizePath | src/common.py:3-27 | `normalize_path` always returns an absolute path |
| Common.NormalizePathIdempotent | src/common.py:3-27 | `normalize_path` applied to its own result changes nothing |
| Common.AliasMatchesTarget | src/common.py:22-27 | a friendly name, in any case and with surrounding whitespace, normalises to the same path as its target |
| Common.DesktopKey | src/common.py:22 | the lookup key of `" Desktop "` is `desktop` |
| Common.DesktopExample | src/common.py:11-27 | `normalize_path(" Desktop ")` equals `normalize_path("~/Desktop")` |
| Common.ExpandUser | src/common.py:27 | `expanduser` only expands a leading `~`: a path not starting with `~` is returned unchanged, `~` becomes home and `~/rest` becomes home + `/rest`; a `~name` prefix is kept |
| Common.ExpandHomePath | src/common.py:29-33 | `expand_home_path` returns a path not starting with `~` unchanged, so a relative path stays relative, and turns `~/rest` into home + `/rest` |
| Tools.ProfileLookup | src/tools.py:15-17 | the lookup fails iff the knowledge collection is missing; otherwise it returns, in store order, the metadata of each stored record with the profile id |
| Tools.RequestedNames | src/tools.py:25-26 | the names asked for are never empty: None and `[]` fall back to the defaults |
| Tools.Projection | src/tools.py:28 | the comprehension yields one pair per requested name |
| Tools.ProjectionLastOf | src/tools.py:28 | each requested name reads the stored value or `"Not available"`, and no other name is present |
| Tools.GetSystemSpec | src/tools.py:12-31 | a client failure is reported with the `Failed to get system specs: ` prefix; no profile gives `System profile not found in ChromaDB`; no metadata gives the prefixed `.get` error; otherwise the result has exactly the requested keys, each once, each with the stored value or `"Not available"` |
| Tools.SystemSpecDefaults | src/tools.py:25-28 | with no names, or an empty list, the result has the keys `cpu_model` and `cpu_cores`, in that order, with their stored values |
| Tools.ProcessCommand | src/tools.py:77-80 | the command is `ps aux` iff the name is empty, and `pgrep -fl <name>` otherwise |
| Tools.ListRunningProcesses | src/tools.py:83 | no listed process line holds a line boundary |
| Tools.ComponentLines | src/tools.py:103-105 | two schematic lines per component |
| Tools.SchematicLines | src/tools.py:98-105 | the schematic has 2 + 2n lines |
| Tools.CreateKicadProject | src/tools.py:89-114 | a file-system error gives the error record; otherwise the directory is `projects/<name>`, the files are `<name>.pro` and `<name>.sch`, the components are returned unchanged, the `.pro` text is `(kicad_project)\n`, and the `.sch` text is the schematic lines, each ended by a newline |
| Tools.SchematicLinesAt | src/tools.py:103-105 | line 2 + 2i is the `F i+1 "<component>" …` field line of the i-th component and line 3 + 2i is `P 2000 2000` |
| Tools.SchematicLineClean | src/tools.py:98-105 | no schematic line holds a line boundary when no component name does |
| Tools.SchematicReadsBack | src/tools.py:98-105 | the written schematic, read back with `splitlines`, is the two header lines and then a field line and a pin line per component, in order |
| PyStr.SplitLinesUnlines | src/tools.py:83 | `splitlines` of lines that each end in a newline gives those lines back |
| Ingest.FirstNonText | src/ingest.py:40 | finds the first GPU entry that is not a string, or none iff all entries are strings |
| Ingest.MetadataLayout | src/ingest.py:34-44 | the metadata has the six keys `doc_type`, `cpu_model`, `cpu_cores`, `total_memory`, `gpu_models`, `kernel_info`, in that order; `kernel_info` is added last |
| Ingest.Created | src/ingest.py:27 | the knowledge collection exists afterwards and is kept if present; no other collection changes |
| Ingest.Ingest | src/ingest.py:14-51 | a missing or undecodable file returns before the store is touched, and any other read error crashes before it; an exception while building the record leaves only the created collection; otherwise exactly the built record is added |
| Ingest.BuildRecord | src/ingest.py:29-44 | a built record has the fixed id and the six metadata keys, with `doc_type = system_profile`, the CPU model, core count, total memory and kernel text; the document embeds the model and the total memory |
| Ingest.MissingSections | src/ingest.py:31-44 | missing `cpu_info`, `memory_info` and `gpu_info` give None values, an empty GPU string and the `None` document text |
| Ingest.GpuModelsJoined | src/ingest.py:40 | a list of GPU names, present or missing (read as `[]`), is stored joined with `", "`, whatever the other sections hold |
| Ingest.GpuModelsMissing | src/ingest.py:40 | a profile without `gpu_info` stores the empty GPU text |
| Ingest.GpuItemNotText | src/ingest.py:40 | a GPU list holding a non-string makes the join raise, naming the first such item |
| Ingest.ProfileSections | src/acquire_data.py:64-72 | the written profile's `cpu_info`, `memory_info`, `gpu_info` and `kernel_info` are the parsed records, the GPU list and the kernel text |
| Ingest.ParsedValues | src/ingest.py:36-38 | ingest reads `model_name`, `cpu_cores` and `total_memory` from the parsed records; `total_memory` is None for the empty memory dict |
| Ingest.AcquiredProfileIngests | src/ingest.py:31-44 | every profile the acquisition script writes ingests without an exception, into the record built from its parsed values |
| Ingest.WithIdAdded | src/ingest.py:47-51 | after adding a record with a new id, `get` of that id returns exactly that record |
| Ingest.LookupAfterIngest | src/tools.py:15-22 | after ingest into a store without the profile, the spec tool's lookup finds exactly the ingested metadata |
| Ingest.DefaultSpecsOfRecord | src/tools.py:25-28 | on metadata with ingest's keys, the default names read the stored model and core count |
| Ingest.SpecReadsIngestedProfile | src/ingest.py:36-51 | both scripts name the same collection and id; after ingest, the spec tool with no names returns the ingested CPU model and core count, never the filler |
| Ingest.ReingestKeepsStoredProfile | src/ingest.py:47-51 | running ingest again leaves an already stored profile unchanged |
| RagUtils.CreateRagChain | src/rag_utils.py:16-21 | fails iff the collection is missing, with the message naming it; otherwise the chain reads that collection |
| RagUtils.QueryResults | src/rag_utils.py:23-25 | the first `min(n_results, len(ranking))` documents and metadatas, aligned with the ranking |
| RagUtils.BlockTextParts | src/rag_utils.py:28-29 | a block is the fixed header, the source text and the document: it starts with `--- CONTEXT FROM: `, ends with ` ---\n<doc>`, and the text between is `str()` of the `source` or `Unknown source` |
| RagUtils.Block | src/rag_utils.py:28-29 | a block fails iff the metadata is None; otherwise it starts with `--- CONTEXT FROM: ` and ends with ` ---\n<doc>` |
| RagUtils.Blocks | src/rag_utils.py:26-29 | on success there is one block per pair |
| RagUtils.RetrieveContext | src/rag_utils.py:23-30 | the loop returns `RenderContext` of the top `n_results` query results: pairs truncated to the shorter list, one block each, joined by a blank line |
| RagUtils.RetrievedBlocks | src/rag_utils.py:23-30 | a rendered query context holds one block per top-ranked record, at most `n_results` (ten for the chain), in ranking order, each built from that record's document and source |
| RagUtils.ChainContextBlocks | src/rag_utils.py:23-35 | the chain asks for the default ten results, so its context holds min(10, number of ranked records) blocks |
| RagUtils.BlockAt | src/rag_utils.py:27-29 | block i is built from document i and metadata i, with its `source` or `Unknown source` |
| RagUtils.BlocksSucceed | src/rag_utils.py:28 | rendering succeeds iff every paired record has metadata; otherwise the error is the `.get` on None |
| RagUtils.RenderContext | src/rag_utils.py:26-30 | the context fails, with the `.get` on None error, iff some paired record has no metadata; no pairs give the empty context |
| RagUtils.SingleContext | src/rag_utils.py:30 | a single result renders as its block alone |
| RagUtils.ContextGrows | src/rag_utils.py:29-30 | each further result adds a blank line and its block after the context so far, so blocks keep retrieval order |
| PyStr.Split | src/acquire_data.py:19 | `split` gives at least one piece and no piece holds the separator |
| PyStr.JoinSplit | src/acquire_data.py:19 | joining the pieces with the separator gives back the text |
| PyStr.SplitJoin | src/acquire_data.py:19 | splitting separator-free pieces joined by the separator gives back the pieces |
| PyStr.SplitAppend | src/acquire_data.py:19 | the pieces of `a + sep + b` are the pieces of `a` followed by the pieces of `b` |
| PyStr.Find | src/acquire_data.py:21 | the first occurrence of a character, or None iff it does not occur |
| PyStr.LStrip | src/acquire_data.py:22 | `lstrip` removes exactly the leading whitespace |
| PyStr.RStrip | src/acquire_data.py:22 | `rstrip` removes exactly the trailing whitespace |
| PyStr.Lower | src/common.py:22 | `lower` keeps the length, maps `A`–`Z` to `a`–`z` and keeps every other character |
| PyStr.StripKeepsHead | src/common.py:22 | a string that starts with a non-space starts with the same character after `strip` |
| PyStr.Words | src/acquire_data.py:40-41 | `split()` gives non-empty words free of whitespace |
| PyStr.WordsJoin | src/acquire_data.py:40-41 | `split()` gives back exactly the words that were joined with single spaces, in order |
| PyStr.SplitLines | src/tools.py:83 | no line of `splitlines` holds a line boundary |
| PyStr.NatToString | src/tools.py:104 | the decimal text of a number is non-empty and all digits |
| PyStr.NatToStringValue | src/tools.py:104 | the decimal text of `n` denotes `n` |
| PyDict.Get | src/ingest.py:36 | `get` returns None iff the key is absent |
| PyDict.GetAt | src/ingest.py:36 | `get` finds the first pair with the key |
| PyDict.GetSet | src/acquire_data.py:22 | after `d[k] = v`, `k` reads back as `v` and every other key as before |
| PyDict.SetKeys | src/ingest.py:44 | `d[k] = v` keeps the key order and appends `k` only when it is new |
| PyDict.SetNew | src/ingest.py:44 | assigning a new key appends the pair at the end |
| PyDict.FromPairsDistinct | src/tools.py:28 | a dict built by assignments never holds a key twice |

## Left out

- `run_command`, `subprocess.run`, `get_disk_usage`, `list_files`, `read_file_content` and `create_file` are left out: they are shell and file-system calls with no logic of their own. Command output is a string parameter.
- File writes are left out: `os.makedirs`, `open`, `json.dump` and `f.write` are not performed. `CreateKicadProject` returns the (path, text) pairs it would write, and an I/O failure is a parameter.
- The profile file read in `ingest.py` is a `LoadedProfile` parameter. JSON numbers are integers only, since the profile holds strings.
- The agent loop (`run_agent.py`) and the question REPL (`ask_ark.py`) are left out: the first is delegated to LangChain and the second is interactive I/O.
- Embeddings, similarity ranking and the LLM chain (`rag_utils.py:24-25` and `32-39`) are left out. The ranked records are a parameter of `RagUtils.QueryResults`. The prompt template is stored but not rendered. The global `RAGUtils()` instance and all `print` output are not modelled.
- ChromaDB's own behaviour is reduced to `get`, `add` and `delete` over ordered records:
  - its error texts, such as the one for a missing collection, are parameters;
  - its validation of metadata values is not modelled. A store that rejects None values would raise where `Ingest.Ingest` adds a record with None fields.
- `VectorStore.Added` ignores an `add` whose id is already stored. This follows ChromaDB's treatment of existing ids. As a result, re-running the ingest does not refresh the stored profile (`Ingest.ReingestKeepsStoredProfile`).
- `Common.ExpandUser` does not model `~name`: such a path is returned unchanged, because the user database is not part of this model. `$HOME` is the `home` parameter.
- `Common.AbsPath`: `cwd` stands for `os.getcwd()`. The contracts about absolute results assume it is absolute, which `getcwd` guarantees.
- `PyStr.Lower` maps only ASCII `A`–`Z`. Python's `str.lower` applies the full Unicode case mapping: the Kelvin sign (U+212A) lowers to `k`, and `"\u0130".lower()` has two characters. So `Common.NormalizePath` does not recognise a friendly name written with such characters, which Python would.
- `Ingest.Ingest`: any read error other than a missing file or bad JSON (a permission error, say) is a `ProfileUnreadable` value carrying its message; the script does not catch it, so the run crashes before touching the store.
- `PyDict.Format` / `Repr`: `str()` of a string inside a list or dict is written with single quotes and without Python's escaping of quotes and control characters.
- `DeleteFromArk.DeleteSource` does not model the progress lines, which print the batch number, the running count and the final `collection.count()`. The count of deleted ids is in the outcome.

## Findings

| source | as written | input that shows it | evidently intended | confidence | as-written member | corrected member |
|---|---|---|---|---|---|---|
| src/acquire_data.py:40-44 | `dict(zip(headers, values))` pairs the header row of `free -h` with the second line word by word, but that line starts with the row label `Mem:` and the header row has no column for it | header `total used free shared buff/cache available`, second line `Mem: 15Gi 4.0Gi 8.1Gi 312Mi 3.2Gi 10Gi`: `total_memory` becomes `Mem:`, `used_memory` becomes `15Gi` and `free_memory` becomes `4.0Gi` | skip the row label, so that each header reads the number under it (`total_memory = 15Gi`) | not executed | AcquireData.ParseFreeReadsRowLabel | AcquireData.ParseFreeRowReadsColumn |
