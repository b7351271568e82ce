# CAnalyzerAI in Dafny

This project models the logic of the CAnalyzerAI repository, a browser-based
analyser of C source files, and proves properties of that model. The analyser
reports lines of code, cyclomatic and other complexity figures, and MISRA
findings for an uploaded file.

## The workspace organizer

The main subject is the repository's workspace organizer,
`utilities/organize_files.py`. It classifies the files of a tree, plans moves
into `tests/…` and `docs/…` directories, applies them without overwriting,
writes a log and can undo a run from that log. The model has these parts:

- **Paths.** `OrganizerPaths` holds lexical `pathlib` paths.
- **Filesystem.** `OrganizerFs` holds the filesystem, as a map from absolute
  paths to contents plus a set of directories. It also specifies `mkdir -p`, a
  move that never overwrites, and the collision-free name search.
- **Classification.** `OrganizerClassify` holds `classify` and its first-match
  rules. It also holds examples of the test-token rule.
- **Planning.** `OrganizerPlan` holds the pruned tree walk of `plan_moves`.
- **Run specifications.** `OrganizerRuns` states `ensure_dirs`, `apply_moves`
  and `undo_from_log` as runs over that filesystem. It proves the round trip:
  undoing the log of an apply puts every moved file back.
- **In-place operations.** `OrganizerApply` is a class `FileSystem` whose
  methods change the filesystem in place, with loops proved against those
  runs.
- **Summary and main.** `OrganizerSummary` holds `summarize`. `OrganizerMain`
  holds `main`'s flags, its exit codes and the order of its steps.

## The analyser and its helpers

Further modules cover the analyser and its helpers:

- **`AppCore` and `WrittenNumbers`** (`app.js`):
  - static metrics;
  - written-number conversion;
  - normalisation of the AI's answer;
  - truncation at a function boundary;
  - code-fence stripping;
  - upload validation;
  - API-key readiness;
  - the theme manager.
- **`CfgCalculator`** (`cfg-calculator.js`): the basic-block splitter and edge
  builder. As written, the edge count is always one less than the block
  count, so a successful analysis always reports complexity 1.
- **`MisraLite`** (`misra-lite-index_Version2.js`):
  - balanced-brace extraction;
  - snippets;
  - per-line matches;
  - switch parsing;
  - rules 15.3, 15.4 and 15.5;
  - the sorted aggregation of findings;
  - HTML escaping and grouping.
- **`ParticleSystems`** (`particle-systems/particle-system.js`): the bounded
  particle list, the object pool and the emitters.
- **`AnimationClasses`** (`animation-engine/animation-classes.js`):
  - grid sprite sheets;
  - the frame-counting animation;
  - property tweens;
  - timelines;
  - shelf packing of the texture atlas.
- **`ChatWindow`** (`chat-window.js`):
  - clamped drag and resize;
  - the send button's state;
  - the conversation history with its id counter;
  - the context sent with a question.
- **`VisitCounter`** (`visit-counter.js`): counters and the capped session
  list.
- **`DeviceTester`** and **`PerfTester`**
  (`device-compatibility-tester.js`,
  `animation-engine/animation-performance-tester.js`): grades, filters,
  counts, the median and the performance grade.
- **`Wcag`** and **`EnhancedWcag`** (`wcag-validator.js`,
  `enhanced-wcag-validator.js`): hex colour parsing, and contrast levels per
  success criteria 1.4.3 (level AA) and 1.4.6 (level AAA) of WCAG 2.1.
- **`CExample`** (`c-examples/c-example.c`):
  - array sum;
  - in-place bubble sort, proved sorted and a permutation;
  - Fibonacci;
  - categorisation;
  - string reversal.

## How it is written

Each part takes the form of its source:

- Objects whose fields the source updates in place are classes with
  `modifies` clauses. This covers the filesystem, the calculator, the theme
  manager, the chat window, the visit counter, the particle system, the
  animations, the timeline and the atlas.
- Loops are methods with invariants. Each is proved against a specification
  function.
- Pure code is functions about which lemmas are proved.

## Shared modules

- `Wrappers` holds `Option` and `Result`.
- `Text` holds the string built-ins the scripts use: JavaScript `trim`, ASCII
  lower-casing, splitting and joining, and decimal rendering.
- `Numbers` holds facts about real division.

## Inputs to the model

I/O, clocks, randomness, the network, regular-expression matching and JSON
parsing are not modelled. Where the logic depends on them, their results are
parameters.

## Model

| member | source | states |
|---|---|---|
| OrganizerPaths.ComponentsFacts | utilities/organize_files.py:174 | the parts of a path are pieces of the input string, none empty, "." or containing a separator |
| OrganizerPaths.ParseWellFormed | utilities/organize_files.py:200-201 | `Path(s)` always yields well-formed components |
| OrganizerPaths.ParseFormat | utilities/organize_files.py:183 | `Path(str(p)) == p` for every well-formed path |
| OrganizerPaths.ParseFormatParse | utilities/organize_files.py:200-201 | formatting a parsed string and parsing it again gives the same path |
| OrganizerPaths.Parent | utilities/organize_files.py:190 | `p.parent` keeps absoluteness and drops exactly the last component; the root is its own parent |
| OrganizerPaths.Child | utilities/organize_files.py:182 | `p / n` has name `n` and parent `p` |
| OrganizerPaths.LastDot | utilities/organize_files.py:104 | the index found is a dot with no dot after it, or -1 |
| OrganizerPaths.LastDotAt | utilities/organize_files.py:104 | the last dot of a name is found wherever it is |
| OrganizerPaths.Suffix | utilities/organize_files.py:104 | a suffix is empty or a dot followed by at least one non-dot character |
| OrganizerPaths.StemSuffix | utilities/organize_files.py:150-152 | stem followed by suffix is the original name |
| OrganizerPaths.LastDotLower | utilities/organize_files.py:103-104 | lower-casing does not move the last dot |
| OrganizerPaths.SuffixLower | utilities/organize_files.py:104 | the suffix of the lower-cased name is the lower-cased suffix |
| OrganizerPaths.Normalize | utilities/organize_files.py:274 | the `..`-free form of a path, as `resolve()` gives it without links: no longer than the path, no `..` left, every part one of the path's parts |
| OrganizerPaths.NormalizePlain | utilities/organize_files.py:274 | a path without `..` is its own normal form |
| OrganizerPaths.NormalizeIdempotent | utilities/organize_files.py:274 | normalising twice is normalising once |
| OrganizerPaths.NormalizeUp | utilities/organize_files.py:274 | a name followed by `..` cancels out |
| OrganizerFs.MkdirP | utilities/organize_files.py:192 | `mkdir(parents=True, exist_ok=True)` succeeds exactly when no prefix is a file, and then adds exactly the prefixes as directories |
| OrganizerFs.MkdirValid | utilities/organize_files.py:192 | a successful mkdir keeps the file system well formed and makes the path a directory |
| OrganizerFs.MkdirExisting | utilities/organize_files.py:192 | mkdir of an existing directory changes nothing (`exist_ok`) |
| OrganizerFs.DirPrefixes | utilities/organize_files.py:192 | every prefix of an existing directory is a directory |
| OrganizerFs.MoveFile | utilities/organize_files.py:206 | `shutil.move` of a file into a free place succeeds exactly when the source is a file, moving its content and nothing else |
| OrganizerFs.MoveFileValid | utilities/organize_files.py:206 | a move keeps the file system well formed |
| OrganizerFs.WriteFile | utilities/organize_files.py:214-215 | writing succeeds exactly when the path is not a directory and its parent is, and sets exactly that file |
| OrganizerFs.WriteFileValid | utilities/organize_files.py:214-215 | writing keeps the file system well formed |
| OrganizerFs.ReadLog | utilities/organize_files.py:220-221 | reading a log succeeds exactly when the path is a file holding a move log, and returns its entries |
| OrganizerFs.Candidate | utilities/organize_files.py:155 | the candidate lies beside the target and is named `stem (i)ext` |
| OrganizerFs.CandidateNameInjective | utilities/organize_files.py:155 | different counters give different names `stem (i)ext` |
| OrganizerFs.CandidateInjective | utilities/organize_files.py:155 | different counters give different resolved candidate paths |
| OrganizerFs.CandidateSetSize | utilities/organize_files.py:154-158 | the first `i` candidates are `i` distinct paths |
| OrganizerFs.CandidatesBound | utilities/organize_files.py:154-158 | at most as many candidates can exist as there are entries, so the `while True` loop ends |
| OrganizerFs.FirstFree | utilities/organize_files.py:153-158 | the counter reached is the first whose candidate does not exist |
| OrganizerFs.NextIndex | utilities/organize_files.py:146-158 | 0 exactly when the target is free, otherwise the least counter whose candidate is free |
| OrganizerFs.NextAvailable | utilities/organize_files.py:146-158 | `next_available_path` returns a path that does not exist, beside the target |
| OrganizerFs.NextAvailableAt | utilities/organize_files.py:154-157 | when the target exists, the answer is the candidate with the least free counter |
| OrganizerFs.MoveStep | utilities/organize_files.py:199-207 | one move of `apply_moves` (or of `undo_from_log`) keeps the file system well formed |
| OrganizerFs.PlaceFacts | utilities/organize_files.py:204-205 | after making the destination's parent, the free destination can take the file |
| OrganizerFs.MoveStepSkip | utilities/organize_files.py:202-203 | a move is skipped exactly when its source does not exist, and then nothing changes |
| OrganizerFs.MoveStepMoved | utilities/organize_files.py:204-207 | a performed move takes the file to the next available destination and records the final path |
| OrganizerFs.MoveStepDirs | utilities/organize_files.py:205 | a move only adds directories; a failed move changes no file and, when the parent already exists, comes from a directory source |
| OrganizerClassify.DestDir | utilities/organize_files.py:63-72 | every destination is a relative path of at least two parts under `docs` for documents and `tests` otherwise |
| OrganizerClassify.Classify | utilities/organize_files.py:96-143 | only files other than `index.html` are classified, each to its category's destination |
| OrganizerClassify.DocsAlwaysClassified | utilities/organize_files.py:130-136 | every `.md`/`.rst` file goes to reports, else guides, else misc |
| OrganizerClassify.DocExtOnly | utilities/organize_files.py:50-55 | the document extensions are in no earlier rule's extension set |
| OrganizerClassify.ParticlesConfigShadowed | utilities/organize_files.py:122-140 | `particlesjs-config.json` is already taken by the data rule, so the repository heuristic is never reached |
| OrganizerClassify.ParticlesIsData | utilities/organize_files.py:123 | `particlesjs-config.json` matches the data rule |
| OrganizerClassify.ParticlesPassesEarlierRules | utilities/organize_files.py:106-120 | `particlesjs-config.json` passes the entry-point, page, script and style rules |
| OrganizerClassify.ParticlesExt | utilities/organize_files.py:104 | its extension is `.json` |
| OrganizerClassify.TestTokenExamples | utilities/organize_files.py:58 | `login_test.py` and `run_test.sh` are test scripts; `testing.py` and `test1.py` are not moved |
| OrganizerClassify.TokenExample | utilities/organize_files.py:58 | a token delimited by `_` or `.` is recognised |
| OrganizerClassify.NoTokenExample | utilities/organize_files.py:58 | a token followed by a letter or digit is not recognised |
| OrganizerClassify.NoTestToken | utilities/organize_files.py:58 | `testing.py` and `test1.py` hold no delimited token |
| OrganizerClassify.DocExamples | utilities/organize_files.py:127-136 | `README.md` is a guide, `notes.md` misc, `coverage-report.json` a result log |
| OrganizerClassify.ReadmeExample | utilities/organize_files.py:134-135 | `README.md` is a guide |
| OrganizerClassify.NotesExample | utilities/organize_files.py:136 | `notes.md` is misc documentation |
| OrganizerClassify.CoverageExample | utilities/organize_files.py:127-128 | `coverage-report.json` is a result log |
| OrganizerClassify.CoverageLower | utilities/organize_files.py:103-104 | its lower-case form and extension |
| OrganizerClassify.CoverageNoToken | utilities/organize_files.py:123 | it holds no test token |
| OrganizerClassify.CoverageNoDataWord | utilities/organize_files.py:123 | it holds no data word, so the data rule does not take it |
| OrganizerClassify.NoReportWord | utilities/organize_files.py:132 | `readme.md` and `notes.md` hold no report word |
| OrganizerClassify.NoGuideWord | utilities/organize_files.py:134 | `notes.md` holds no guide word |
| OrganizerPlan.DirNames | utilities/organize_files.py:163 | the directory entries of a listing |
| OrganizerPlan.FileNames | utilities/organize_files.py:163 | the file entries of a listing |
| OrganizerPlan.Kept | utilities/organize_files.py:166-171 | the kept directories are listed ones that are not skipped |
| OrganizerPlan.PlannedMoveFrom | utilities/organize_files.py:174-183 | a planned move comes from a file under the walked directory and goes to its category's directory under the same name |
| OrganizerPlan.SourceParses | utilities/organize_files.py:174 | `str(Path(dirpath) / fname)` parses back to that path |
| OrganizerPlan.DestDirWellFormed | utilities/organize_files.py:63-72 | destinations and their children are well formed |
| OrganizerPlan.UnderParent | utilities/organize_files.py:166-171 | a file under a kept subdirectory is under the directory |
| OrganizerPlan.PlanFilesSound | utilities/organize_files.py:173-183 | every move planned for a directory's files is a planned move of one of them |
| OrganizerPlan.CollectSound | utilities/organize_files.py:173-183 | a property of every single plan holds of every collected move |
| OrganizerPlan.PlanFilesComplete | utilities/organize_files.py:173-183 | every classified file of the directory has its move in the plan |
| OrganizerPlan.CollectComplete | utilities/organize_files.py:173-183 | every single plan that gives a move is collected |
| OrganizerPlan.WalkSound | utilities/organize_files.py:161-184 | every move of the walk comes from a file under the root, below no skipped directory |
| OrganizerPlan.SubWalksSound | utilities/organize_files.py:163-171 | the same for the walks of the kept subdirectories |
| OrganizerPlan.WalkPlansFile | utilities/organize_files.py:173-183 | every classified file of the root listing is planned |
| OrganizerPlan.SubWalksComplete | utilities/organize_files.py:163 | every move of a subdirectory's walk is in the walks of the subdirectories |
| OrganizerPlan.WalkDescends | utilities/organize_files.py:163-171 | every move of a kept subdirectory's walk is in the walk |
| OrganizerPlan.SubWalksSnoc | utilities/organize_files.py:163 | walking one more subdirectory appends its walk |
| OrganizerPlan.PlanFile | utilities/organize_files.py:174-183 | the loop body's move for one file is its planned move |
| OrganizerPlan.PlanDir | utilities/organize_files.py:161-184 | `plan_moves` returns the walk's moves in `os.walk` order |
| OrganizerPlan.PlanSubdirs | utilities/organize_files.py:163 | walking the kept subdirectories gives their walks in order |
| OrganizerPlan.KeptInListing | utilities/organize_files.py:166-171 | the kept directories are directories of the listing |
| OrganizerPlan.Prune | utilities/organize_files.py:166-171 | the in-place pruning of `dirnames` leaves exactly the kept directories |
| OrganizerPlan.PlanFileList | utilities/organize_files.py:173-184 | the file loop appends the planned move of each classified file, in order |
| OrganizerApply.FileSystem.constructor | utilities/organize_files.py:264 | a file system object over a well-formed state and working directory |
| OrganizerApply.FileSystem.NextAvailablePath | utilities/organize_files.py:146-158 | the loop finds the next available path, which does not exist and is beside the target |
| OrganizerApply.FileSystem.Mkdir | utilities/organize_files.py:192 | the directory creation as specified by `MkdirP`; on failure nothing changes |
| OrganizerApply.FileSystem.MoveInto | utilities/organize_files.py:206 | the move as specified by `MoveFile`; on failure nothing changes |
| OrganizerApply.FileSystem.Step | utilities/organize_files.py:199-207 | one iteration of the apply loop, as specified by `MoveStep` |
| OrganizerApply.FileSystem.EnsureDirs | utilities/organize_files.py:187-193 | `ensure_dirs` makes every destination's parent, stopping at the first error |
| OrganizerApply.FileSystem.ApplyMoves | utilities/organize_files.py:196-208 | `apply_moves` changes the state and returns the executed moves as `ApplyMovesSpec` says |
| OrganizerApply.FileSystem.MoveAll | utilities/organize_files.py:199-208 | the apply loop over all moves |
| OrganizerApply.FileSystem.UndoFromLog | utilities/organize_files.py:219-233 | `undo_from_log` as `UndoSpec` says |
| OrganizerApply.FileSystem.MoveBackAll | utilities/organize_files.py:224-233 | the undo loop over the reversed entries |
| OrganizerApply.FileSystem.WriteLog | utilities/organize_files.py:211-216 | writing the log sets exactly that file to the executed moves |
| OrganizerApply.FileSystem.LoadLog | utilities/organize_files.py:219-221 | loading the log reads it |
| OrganizerRuns.ParseMoves | utilities/organize_files.py:200-201 | one parsed path pair per move |
| OrganizerRuns.ParseMovesWellFormed | utilities/organize_files.py:200-201 | parsed moves are well formed |
| OrganizerRuns.ParseMovesSnoc | utilities/organize_files.py:199-201 | parsing distributes over appending a move |
| OrganizerRuns.ParseMovesAt | utilities/organize_files.py:200-201 | the `i`-th parsed pair is the parse of the `i`-th move |
| OrganizerRuns.EnsureDirsRun | utilities/organize_files.py:187-193 | `ensure_dirs` changes no file, only adds directories, and on success every destination's parent exists |
| OrganizerRuns.ParentsExtend | utilities/organize_files.py:189-193 | parents made so far stay made when directories are added |
| OrganizerRuns.EnsureStep | utilities/organize_files.py:190-193 | one step of `ensure_dirs` makes one parent or fails |
| OrganizerRuns.EnsureDirsAdvance | utilities/organize_files.py:189-193 | `ensure_dirs` over one more move is one more step |
| OrganizerRuns.EnsureDirsStop | utilities/organize_files.py:192 | after the first error nothing more happens |
| OrganizerRuns.ApplySteps | utilities/organize_files.py:199-208 | the apply loop keeps the file system well formed |
| OrganizerRuns.ApplyStep | utilities/organize_files.py:199-207 | one step of the apply loop keeps it well formed |
| OrganizerRuns.ApplyStepsAdvance | utilities/organize_files.py:199 | the loop over one more move is one more step |
| OrganizerRuns.ApplyStepOk | utilities/organize_files.py:199-207 | a step after success records the step's outcome |
| OrganizerRuns.ApplyStepsStop | utilities/organize_files.py:206 | after an exception nothing more happens |
| OrganizerRuns.ApplyMovesSpec | utilities/organize_files.py:196-208 | `apply_moves` keeps the file system well formed |
| OrganizerRuns.ApplyMovesUnfold | utilities/organize_files.py:196-198 | a successful `apply_moves` is `ensure_dirs` followed by the loop |
| OrganizerRuns.UndoSteps | utilities/organize_files.py:224-233 | the undo loop keeps the file system well formed |
| OrganizerRuns.UndoNext | utilities/organize_files.py:224-233 | one step of the undo loop keeps it well formed |
| OrganizerRuns.UndoStepsAdvance | utilities/organize_files.py:224 | the undo loop takes the entries last first |
| OrganizerRuns.UndoLastUnfold | utilities/organize_files.py:224-232 | a performed move back of the last entry is recorded before the others are undone |
| OrganizerRuns.UndoSpec | utilities/organize_files.py:219-233 | `undo_from_log` keeps the file system well formed |
| OrganizerRuns.Inverted | utilities/organize_files.py:224-226 | the moves back are the log's entries reversed, with source and destination swapped |
| OrganizerRuns.InvertedSnoc | utilities/organize_files.py:224 | the inverse of one more entry starts with that entry swapped |
| OrganizerRuns.NextAvailableWellFormed | utilities/organize_files.py:146-158 | the next available path of a well-formed path is well formed |
| OrganizerRuns.CandidateWellFormed | utilities/organize_files.py:155 | every candidate of a well-formed path is well formed |
| OrganizerRuns.CandidateNameComponent | utilities/organize_files.py:155 | `stem (i)ext` is a path component |
| OrganizerRuns.MoveBack | utilities/organize_files.py:229-231 | moving a moved file back from its final place restores the earlier state |
| OrganizerRuns.UndoOneStep | utilities/organize_files.py:204-207 | the record of a performed move, undone, restores the state before it and records the swapped move |
| OrganizerRuns.ApplyPrefixOk | utilities/organize_files.py:199-208 | a successful apply loop succeeds on every prefix |
| OrganizerRuns.ApplyLastStep | utilities/organize_files.py:199-207 | the last step either changes nothing or appends one record whose undo comes first |
| OrganizerRuns.UndoAfterStep | utilities/organize_files.py:224-233 | undoing after one more performed move first moves that file back |
| OrganizerRuns.StepsThenUndo | utilities/organize_files.py:196-233 | undoing the executed moves of a successful apply loop restores the file system exactly and returns the inverted log |
| OrganizerRuns.ApplyThenUndo | utilities/organize_files.py:196-233 | after `apply_moves`, `undo_from_log` of its executed moves restores every file to its original place, keeping only the directories made |
| OrganizerRuns.ApplyStepsKeepsFileCount | utilities/organize_files.py:199-208 | moving never creates or loses a file |
| OrganizerRuns.MoveStepKeepsFileCount | utilities/organize_files.py:206 | one move keeps the number of files |
| OrganizerRuns.WithFile | utilities/organize_files.py:214-215 | writing a file adds or replaces exactly that file and keeps the directories |
| OrganizerRuns.NextAvailableWith | utilities/organize_files.py:146-158 | one more file changes no search for a free name whose answer is not that file |
| OrganizerRuns.MkdirWith | utilities/organize_files.py:229 | `mkdir -p` of a path not passing through a file carries that file along |
| OrganizerRuns.MoveFileWith | utilities/organize_files.py:230 | moving a file other than `x` to a place other than `x` carries `x` along |
| OrganizerRuns.MoveStepWith | utilities/organize_files.py:224-232 | an undo iteration that does not read, place or make a directory of a file does the same around it |
| OrganizerRuns.UndoStepsGrow | utilities/organize_files.py:224-233 | the undo loop never removes a directory or a recorded move |
| OrganizerRuns.UndoStepsWith | utilities/organize_files.py:224-233 | a file the undo loop never touches stays with its content and the loop does the same around it |
| OrganizerSummary.KeyListed | utilities/organize_files.py:242-259 | every bucket is among the listed keys |
| OrganizerSummary.FirstMatchIs | utilities/organize_files.py:242-259 | the bucket is that of the first pattern contained in the posix path, else `other` |
| OrganizerSummary.Buckets | utilities/organize_files.py:238-259 | one bucket per move |
| OrganizerSummary.TallyNext | utilities/organize_files.py:260 | counting one more move increments its bucket |
| OrganizerSummary.TallyCounts | utilities/organize_files.py:236-261 | each count is the bucket's multiplicity, and a key is present exactly when some move has that bucket |
| OrganizerSummary.TotalBump | utilities/organize_files.py:260 | an increment raises the total over distinct keys by one exactly when the key is listed |
| OrganizerSummary.TotalEmpty | utilities/organize_files.py:237 | the empty dictionary totals zero |
| OrganizerSummary.TallyTotal | utilities/organize_files.py:306-310 | the counts add up to the number of planned moves |
| OrganizerSummary.SummaryCounts | utilities/organize_files.py:236-261 | the summary counts each bucket's moves, lists only present buckets and totals the moves |
| OrganizerSummary.Summarize | utilities/organize_files.py:236-261 | the loop computes the tally of the moves' buckets |
| OrganizerMain.DropDocs | utilities/organize_files.py:294-295 | the filter keeps exactly the moves not going to `docs/`, never adding any |
| OrganizerMain.LogPath | utilities/organize_files.py:212-213 | the log file lies directly in the root |
| OrganizerMain.RootOf | utilities/organize_files.py:274 | `Path(args.root).resolve()` has no `..` and is made of parts of the root resolved against the working directory |
| OrganizerMain.UndoLog | utilities/organize_files.py:280 | the undo log's path, with each `..` going up, has no `..` and is made of parts of the spelled path resolved against the working directory |
| OrganizerMain.RootOfPlain | utilities/organize_files.py:274 | a root spelled without `..` is only resolved against the working directory |
| OrganizerMain.RootOfUp | utilities/organize_files.py:274 | `--root ..` names the parent of the working directory |
| OrganizerMain.OrganizeSpec | utilities/organize_files.py:264-319 | `main`, with the root resolved against the working directory and its `..` taken away, keeps the file system well formed |
| OrganizerMain.UndoRun | utilities/organize_files.py:279-286 | the undo branch keeps the file system well formed |
| OrganizerMain.ApplyRun | utilities/organize_files.py:297-319 | the plan branch keeps the file system well formed |
| OrganizerMain.Organize | utilities/organize_files.py:264-319 | `main` changes the file system and exits as `OrganizeSpec` says |
| OrganizerMain.RunUndo | utilities/organize_files.py:279-286 | the undo branch as `UndoRun` says |
| OrganizerMain.RunApply | utilities/organize_files.py:297-319 | the plan branch as `ApplyRun` says |
| OrganizerMain.ExitCodes | utilities/organize_files.py:275-286 | the exit code is 2 exactly when the resolved root, or the undo log with its `..` taken as going up, is missing, and otherwise 0 |
| OrganizerMain.DryRunChangesNothing | utilities/organize_files.py:312-314 | without `--apply` or `--undo` the file system is unchanged |
| OrganizerMain.IncludeDemosIgnored | utilities/organize_files.py:270 | `--include-demos` has no effect |
| OrganizerMain.ApplyLogUndoes | utilities/organize_files.py:316-317 | after `--apply` the log holds exactly the executed moves, no other file changes, and undoing them restores every file; a later `--undo` of that log exits 0 and leaves exactly the files before the apply plus the log, when no move started or ended at the log's path |
| OrganizerMain.LogThenUndo | utilities/organize_files.py:279-286 | undoing from the log written after a successful `apply_moves` exits 0 and leaves the files before it plus the log, when no move started or ended at the log's path |
| OrganizerMain.LogAvoided | utilities/organize_files.py:224-226 | moves avoiding the log's path give read-back entries and moves back that avoid it too |
| OrganizerMain.DocsDest | utilities/organize_files.py:295 | a destination starts with `docs/` exactly for the document categories |
| OrganizerMain.DocsMoveIff | utilities/organize_files.py:295 | a planned move goes to `docs/` exactly when its file is a document |
| OrganizerMain.OnlyTestsDropsDocs | utilities/organize_files.py:289-295 | `--only-tests` keeps exactly the walk's non-document moves |
| OrganizerMain.WalkMember | utilities/organize_files.py:292 | every planned move is a planned move from under the root |
| AppCore.LocFacts | app.js:791-799 | the line count is at most the number of lines, and zero exactly when no line is testable code |
| AppCore.MaxDepthFacts | app.js:804-805 | the nesting depth bounds the depth after every prefix, is reached by one of them, and never exceeds the number of `{` |
| AppCore.NestingDepth | app.js:804-805 | the brace scan ends with the deepest running depth over all prefixes of the code |
| AppCore.PerformStaticAnalysis | app.js:790-825 | lines of code, nesting depth and `c2 = c3 = decisionPoints + 1`; the graph analysis of a text always succeeds, so its metrics are used and `c1` is 1 |
| AppCore.Lookup | app.js:1231-1232 | a key is missing exactly when no field has it |
| AppCore.LookupLast | app.js:1231-1232 | a key found has the value of the last field with that key, the one `JSON.parse` keeps |
| AppCore.FirstNonNegative | app.js:1388-1394 | the fallback scan yields a non-negative number |
| AppCore.PriorityValue | app.js:1377-1385 | a priority value found is non-negative |
| AppCore.PriorityValueFacts | app.js:1377-1385 | a priority value found is the finite non-negative number of one of the priority keys present |
| AppCore.FieldValues | app.js:1388 | the values of an object's entries, in order |
| AppCore.ExtractNumberFromObject | app.js:1368-1397 | the number taken from a nested object is never negative |
| AppCore.DigitRun | app.js:1245 | the leading digits of a string: a prefix of digits followed by a non-digit or the end |
| AppCore.NotesOf | app.js:1297-1303 | only notes that are not blank are kept |
| AppCore.StringNotes | app.js:1298 | filtering keeps at most the given items and only strings that are not blank |
| AppCore.NonBlankSnoc | app.js:1298 | appending a note that is not blank keeps every note non-blank |
| AppCore.DeleteUnexpectedKeys | app.js:1219-1226 | the object keeps exactly its fields with allowed keys |
| AppCore.ValidateAndNormalize | app.js:1213-1329 | a value that is not an object throws `Parsed result is not an object`; otherwise only allowed keys remain, every allowed field is kept, each metric is the strict number of its key, `c1` is raised to 1 and the result is not compliant exactly when it had to be, a non-compliant result has `c1` equal to 1, and the notes are the status note, the kept notes and the warning |
| AppCore.EndsFunctionStep | app.js:1580-1591 | how one more character changes the brace count and whether a function ends there |
| AppCore.FirstEndFrom | app.js:1576-1595 | the first end of a function at or after an index, or -1 when there is none from there on |
| AppCore.FindFunctionEnd | app.js:1576-1595 | the index just after the first `}` that closes every opened brace, or -1 when there is none; it is `FunctionEnd` of the text |
| AppCore.FirstBeyond | app.js:1555-1560 | the index of the first boundary beyond the limit, every earlier one being within it, or the number of boundaries |
| AppCore.LastValidBoundary | app.js:1553-1560 | the boundary the scan stops on is 0 or a listed boundary within the limit |
| AppCore.BoundaryCut | app.js:1552-1573 | a prefix of the code within the limit; it runs to the last boundary within the limit, and further exactly through the first function end after that boundary when the boundary is positive and that end fits |
| AppCore.TruncateAtFunctionBoundary | app.js:1552-1573 | a prefix of the code no longer than the limit, ending at a boundary or after a `}`; it is exactly `BoundaryCut` |
| AppCore.PrepareCodeForAnalysis | app.js:1498-1533 | code within the limit is sent whole; longer code becomes the boundary cut plus the truncation note when there are boundaries and that cut is longer than 16000, else the important sections plus the omitted note when they are longer than 16000, else the first 16000 characters plus the truncation note |
| AppCore.DropTag | app.js:1807 | a suffix of the text that does not start with a language-tag character |
| AppCore.StripCodeFences | app.js:1802-1812 | a missing or empty text is returned as it is; a text without an opening fence is trimmed; the result has no surrounding whitespace |
| AppCore.DropTagAppend | app.js:1807 | the language tag goes and nothing after it |
| AppCore.OpenFenceOf | app.js:1806-1807 | the opening fence and tag of a fenced block are removed |
| AppCore.LineBreakGoes | app.js:1807 | the whitespace after the tag is removed |
| AppCore.CloseFenceOf | app.js:1808-1809 | the closing fence is removed |
| AppCore.FencedUnpadded | app.js:1804 | a fenced block with a tight body is unchanged by the first trim |
| AppCore.StripFenced | app.js:1802-1812 | a fenced block gives back its body |
| AppCore.SetFile | app.js:680-692 | an upload is accepted exactly when the name ends in `.c` or `.h` in any case and the size is at most 5 MB; the type is checked first |
| AppCore.UploadCaseInsensitive | app.js:681 | `.C`, `.H`, `.c` and `.h` are accepted and `.cpp` is not |
| AppCore.KeyStatusOf | app.js:101-105 | the status is ready exactly for Ollama or a key longer than 10 UTF-16 code units, with that text and colour; a ready key for another provider has more than 5 characters, and one of more than 10 characters is always ready |
| AppCore.ThemeIndex | app.js:3177 | the index of a known theme, and -1 exactly for an unknown one |
| AppCore.CycleOrder | app.js:3176-3180 | cycling goes auto, light, dark, back to auto, and three steps return to the start |
| AppCore.ThemeManager.constructor | app.js:2868-2915 | the system preference is detected; a saved known theme is restored, else `auto` is chosen and saved |
| AppCore.ThemeManager.SetTheme | app.js:3007-3016 | a known theme becomes current and is saved; an unknown one changes nothing |
| AppCore.ThemeManager.EffectiveTheme | app.js:3030-3032 | always light or dark; the current theme unless it is auto |
| AppCore.ThemeManager.CycleTheme | app.js:3176-3180 | the next theme in the cycle becomes current and is saved |
| AppCore.ThemeManager.SystemPreferenceChanged | app.js:2893-2894 | a system change updates the preference only |
| WrittenNumbers.LookupListed | app.js:1364 | a value found belongs to an entry with that word |
| WrittenNumbers.LookupFirst | app.js:1355-1364 | the first entry with the word gives its value |
| WrittenNumbers.LookupBound | app.js:1355-1364 | a value found is at most the table's largest value |
| WrittenNumbers.TableWords | app.js:1355-1362 | every word of the table is lower-case letters |
| WrittenNumbers.WordToNumber | app.js:1354-1365 | a known word is worth at most 90 |
| WrittenNumbers.NumberWordShape | app.js:1355-1364 | only lower-case words are known |
| WrittenNumbers.WordSum | app.js:1343-1344 | a tens word and a units word below 10 add to at most 99 |
| WrittenNumbers.HyphenSum | app.js:1338-1346 | a hyphenated number is at most 99 |
| WrittenNumbers.ConvertWrittenNumber | app.js:1332-1351 | a converted written number is at most 99 |
| WrittenNumbers.ConvertLowered | app.js:1338-1350 | the same for the normalised text |
| WrittenNumbers.TrimOfUnpadded | app.js:1335 | trimming a text without surrounding whitespace changes nothing |
| WrittenNumbers.PlainFacts | app.js:1335 | a plain word is unchanged by lower-casing and trimming and holds no hyphen |
| WrittenNumbers.SplitTwo | app.js:1339-1340 | `a-b` splits into exactly two parts |
| WrittenNumbers.LowerHyphenated | app.js:1335 | lower-casing `a-b` keeps it |
| WrittenNumbers.TrimHyphenated | app.js:1335 | trimming `a-b` keeps it |
| WrittenNumbers.PlainHyphenated | app.js:1335 | `a-b` is already normalised |
| WrittenNumbers.HyphenSumOf | app.js:1339-1344 | `a-b` is worth the sum of its two words |
| WrittenNumbers.ConvertWord | app.js:1335-1350 | a single word in any case converts to its table value |
| WrittenNumbers.ConvertUnfolds | app.js:1333-1335 | conversion lower-cases and trims first |
| WrittenNumbers.ConvertNormalised | app.js:1335 | a normalised text converts directly |
| WrittenNumbers.HyphenNonEmpty | app.js:1338 | a text with a hyphen is not empty |
| WrittenNumbers.LoweredHyphen | app.js:1338-1346 | a valid hyphenated text converts to its sum |
| WrittenNumbers.LoweredHyphenText | app.js:1338-1350 | a hyphenated text converts to its sum or to nothing |
| WrittenNumbers.HyphenNotWord | app.js:1350 | a hyphenated text is no single word |
| WrittenNumberFacts.ConvertHyphenText | app.js:1332-1350 | a normalised hyphenated text converts as its two words |
| WrittenNumberFacts.ConvertHyphenated | app.js:1332-1346 | `a-b` of two plain words converts to the sum of their values |
| WrittenNumberFacts.HyphenatedCases | tests/scripts/test-ai-analysis.js:102-103 | `forty-seven` is 47 and `twenty-one` is 21, as the test expects |
| WrittenNumberFacts.ConvertWordCases | tests/scripts/test-ai-analysis.js:104-105 | `thirty` is 30 and `five` is 5 in any case, as the test expects |
| CfgCalculator.StepLine | cfg-calculator.js:106-137 | one line keeps at least one block |
| CfgCalculator.AddLine | cfg-calculator.js:114 | adding a statement keeps the number of blocks |
| CfgCalculator.OpenBlock | cfg-calculator.js:119-136 | a control-flow line opens exactly one new block |
| CfgCalculator.ParseLines | cfg-calculator.js:90-141 | parsing always leaves the entry block |
| CfgCalculator.ParseNext | cfg-calculator.js:105-106 | parsing one more line is one more step |
| CfgCalculator.StepChain | cfg-calculator.js:106-137 | each step keeps the blocks a chain linked by one flow edge per consecutive pair, in successors and predecessors |
| CfgCalculator.AddLineChain | cfg-calculator.js:114 | adding a statement keeps the chain |
| CfgCalculator.OpenBlockChain | cfg-calculator.js:119-136 | opening a block extends the chain by one block and one flow edge |
| CfgCalculator.StepBlocks | cfg-calculator.js:114-137 | every block but the last is non-empty and ends at its only control-flow statement |
| CfgCalculator.ControlLineBlocks | cfg-calculator.js:114-136 | the same after a control-flow line |
| CfgCalculator.PlainLineBlocks | cfg-calculator.js:114 | the same after a plain line |
| CfgCalculator.StepStatements | cfg-calculator.js:106-114 | each step appends the trimmed line to the statements unless it is blank or a comment |
| CfgCalculator.AddLineStatements | cfg-calculator.js:114 | adding appends the line |
| CfgCalculator.OpenBlockStatements | cfg-calculator.js:119-124 | a new block holds no statement |
| CfgCalculator.ParseShape | cfg-calculator.js:90-141 | the parse is a chain of 1 + (control-flow lines) blocks whose statements are the kept lines in order |
| CfgCalculator.LinkPair | cfg-calculator.js:176-188 | linking one pair keeps the blocks |
| CfgCalculator.LinkFrom | cfg-calculator.js:175-189 | linking keeps the number of blocks |
| CfgCalculator.LinkedUnchanged | cfg-calculator.js:180 | graph building adds nothing when consecutive blocks are already linked |
| CfgCalculator.LinkFromLinks | cfg-calculator.js:175-189 | after graph building every block links to the next |
| CfgCalculator.MetricsOf | cfg-calculator.js:195-214 | nodes and edges are counted, one component, regions at least 1 and equal to the complexity when that is positive |
| CfgCalculator.ChainMetrics | cfg-calculator.js:208-213 | a chain has complexity 1 and one region |
| CfgCalculator.ChainLinked | cfg-calculator.js:175-189 | a chain is already linked |
| CfgCalculator.AnalysisShape | cfg-calculator.js:36-42 | for any code graph building changes nothing and the metrics are `(n, n - 1, 1, 1, 1)` |
| CfgCalculator.DoubleIsControlFlow | cfg-calculator.js:149-165 | `double x;` counts as control flow because it contains `do` |
| CfgCalculator.NoKeywordLetter | cfg-calculator.js:151-158 | a line without the keywords' first letters is not control flow |
| CfgCalculator.ParseLine | cfg-calculator.js:106-137 | the loop body performs one parse step |
| CfgCalculator.ParseAll | cfg-calculator.js:93-138 | the loop builds the parse of all lines |
| CfgCalculator.CFGCalculator.constructor | cfg-calculator.js:8-23 | empty graph, no entry or exit, zero metrics |
| CfgCalculator.CFGCalculator.Reset | cfg-calculator.js:66-79 | the same state as a new calculator |
| CfgCalculator.CFGCalculator.ParseCodeIntoBlocks | cfg-calculator.js:85-142 | appends the parsed blocks and edges, with the first new block as entry and the last as exit |
| CfgCalculator.CFGCalculator.BuildControlFlowGraph | cfg-calculator.js:170-190 | the graph becomes its linked form; nothing else changes |
| CfgCalculator.CFGCalculator.CalculateMetrics | cfg-calculator.js:195-214 | the metrics of the current counts; the graph is unchanged |
| CfgCalculator.CFGCalculator.Analyze | cfg-calculator.js:30-61 | a failed analysis returns no metrics and an empty graph; a successful one always reports complexity 1 and one region, with entry 0 and exit the last block |
| CExample.SumAppend | c-examples/c-example.c:9-15 | the sum of a concatenation is the sum of the sums |
| CExample.SumArray | c-examples/c-example.c:9-15 | `arr[0] + ... + arr[size-1]`, or 0 when `size` is not positive |
| CExample.SumExample | c-examples/c-example.c:9-15 | the sum of 1 to 5 is 15 |
| CExample.BubbleSort | c-examples/c-example.c:18-29 | the first `n` elements end sorted and a permutation of the input; the rest is unchanged |
| CExample.BubblePass | c-examples/c-example.c:20-27 | after pass `i` the last `i + 1` positions hold the largest elements in order |
| CExample.CompareSwap | c-examples/c-example.c:21-26 | the compare-and-swap of one pair |
| CExample.Step | c-examples/c-example.c:21-26 | a step keeps the length |
| CExample.Swap | c-examples/c-example.c:23-25 | a swap keeps the length |
| CExample.SwapKeeps | c-examples/c-example.c:20-26 | a step carries the largest element seen to position `j + 1`, keeping the sorted tail and the elements |
| CExample.SwapElements | c-examples/c-example.c:23-25 | a swap keeps the multiset of elements |
| CExample.SwapTop | c-examples/c-example.c:23-25 | a swap below the tail keeps the sorted tail |
| CExample.BubbleDone | c-examples/c-example.c:20-27 | the end of an inner pass extends the sorted tail |
| CExample.FibPairAgrees | c-examples/c-example.c:32-37 | the linear computation agrees with the recursive definition |
| CExample.FibMonotone | c-examples/c-example.c:32-37 | Fibonacci numbers are non-negative and non-decreasing |
| CExample.Fib | c-examples/c-example.c:32-37 | `fibonacci(n)` is `n` up to 1 and at least 1 from 1 on |
| CExample.CategoryMeaning | c-examples/c-example.c:40-58 | -1 exactly for negatives, 0 for zero, 2/3 for positive evens, 4/5 for positive odds, 3/5 exactly above 100 |
| CExample.CategorizeNumber | c-examples/c-example.c:40-58 | the category is one of -1, 0, 2, 3, 4 and 5 |
| CExample.ReverseString | c-examples/c-example.c:61-79 | NULL for NULL input or failed allocation, else a fresh `len + 1` buffer holding the reversed string and a terminating NUL |
| CExample.Reversed | c-examples/c-example.c:73-75 | position `i` holds `s[len - 1 - i]` |
| CExample.ReversedTwice | c-examples/c-example.c:73-75 | reversing twice gives back the string |
| VisitCounter.KeepRecent | visit-counter.js:71-74 | at most 100 sessions: unchanged when short, otherwise the last 100 |
| VisitCounter.RecordedCounts | visit-counter.js:47-60 | total visits rise by one, unique visits by one only in a new session, the last visit is now and the first visit is set only once |
| VisitCounter.RecordedSessions | visit-counter.js:64-74 | sessions change only in a new session, which appends it after the most recent earlier ones, within 100 |
| VisitCounter.ConsistentKept | visit-counter.js:43-78 | sessions ≤ unique visits ≤ total visits, and sessions ≤ 100, is kept by a visit |
| VisitCounter.DefaultsConsistent | visit-counter.js:21-27 | the defaults are consistent |
| VisitCounter.VisitsConsistent | visit-counter.js:43-78 | any sequence of visits keeps the counts consistent and adds one total visit each |
| VisitCounter.Tenths | visit-counter.js:82-84 | the tenths of `num / d` rounded to nearest, halves up: `t d <= 10 num + d/2 < t d + d` |
| VisitCounter.Fixed1 | visit-counter.js:82-84 | one digit after the point |
| VisitCounter.FormatNumberShape | visit-counter.js:80-87 | plain digits below 1000 that read back as the number, `K` from 1000 and `M` from 1000000, with one decimal, the digits around the point reading back as the number's tenths of thousands or of millions, and every tenth they can read back as is the nearest one to the count, halves up |
| VisitCounter.FormatNumber | visit-counter.js:80-87 | the text is all digits exactly below 1000 |
| VisitCounter.Fixed1Shows | visit-counter.js:82-84 | one-decimal text followed by a suffix letter reads back as its tenths |
| VisitCounter.VisitCounterState.constructor | visit-counter.js:6-17 | loads the stored data or the defaults and records a visit, storing it |
| VisitCounter.VisitCounterState.LoadVisitData | visit-counter.js:19-28 | the stored data, else the defaults |
| VisitCounter.VisitCounterState.RecordVisit | visit-counter.js:43-78 | records as `Recorded`, saves, and starts the session once |
| VisitCounter.VisitCounterState.Reset | visit-counter.js:310-315 | nothing stored, no session, defaults |
| VisitCounter.SameSessionTwice | visit-counter.js:38-41 | a second visit in the same session adds a total visit and no unique visit |
| DeviceTester.GradeByCutoffs | device-compatibility-tester.js:1174-1186 | the grade is the one indexed by the number of cutoffs 50, 55, ..., 95 the score reaches |
| DeviceTester.GradeMonotone | device-compatibility-tester.js:1174-1186 | a higher score never gets a lower grade |
| DeviceTester.ReachedMonotone | device-compatibility-tester.js:1175-1184 | a higher score reaches at least as many cutoffs |
| DeviceTester.CriticalIssuesSound | device-compatibility-tester.js:1188-1203 | every issue listed is the issue of a failed test scoring below 50 |
| DeviceTester.CriticalIssuesComplete | device-compatibility-tester.js:1188-1203 | every failed test scoring below 50 is listed |
| DeviceTester.IssueSeverity | device-compatibility-tester.js:1197 | the severity is high exactly below 30 |
| DeviceTester.IdentifyCriticalIssues | device-compatibility-tester.js:1188-1203 | the loop lists the critical issues in suite order |
| DeviceTester.DeviceScoreFacts | device-compatibility-tester.js:232-235 | the device score is the rounded percentage of the 16 tests passed, between 0 and 100 and monotone |
| DeviceTester.DeviceScore | device-compatibility-tester.js:232-235 | the device score lies in 0..100 |
| DeviceTester.CalculateGrade | device-compatibility-tester.js:1174-1186 | the grade is one of the eleven letter grades |
| DeviceTester.Insert | device-compatibility-tester.js:1280 | inserting adds exactly that entry |
| DeviceTester.InsertSorted | device-compatibility-tester.js:1280 | inserting into a list sorted by falling score keeps it sorted |
| DeviceTester.InsertBelow | device-compatibility-tester.js:1280 | inserting keeps every score under a common bound |
| DeviceTester.SortedDownTail | device-compatibility-tester.js:1280 | the tail of a sorted list is sorted below its head |
| DeviceTester.SortedDownCons | device-compatibility-tester.js:1280 | a head scoring at least every element keeps a sorted list sorted |
| DeviceTester.SortByScore | device-compatibility-tester.js:1280 | sorting is a permutation |
| DeviceTester.SortByScoreSorted | device-compatibility-tester.js:1280 | the sort leaves scores non-increasing, a missing score counting as 0 |
| DeviceTester.TopDevicesFacts | device-compatibility-tester.js:1278-1283 | at most three devices, in non-increasing score order, each the `{ name, score, grade }` record of an entry chosen from the results; the chosen entries are a sub-multiset of the results, and every result scoring above the last chosen one is chosen, so these are the best three |
| DeviceTester.TopDeviceIsBest | device-compatibility-tester.js:1278-1283 | the first device listed scores at least as much as every tested device |
| DeviceTester.CountsAdditive | device-compatibility-tester.js:1285-1295 | both counts are sums over the devices, so they add over concatenation |
| DeviceTester.DeviceCategory | device-compatibility-tester.js:146-148 | mobile exactly up to 480, tablet exactly above 480 up to 1024, desktop above 1024 |
| DeviceTester.DeviceOrientation | device-compatibility-tester.js:156 | landscape exactly when wider than high |
| DeviceTester.ViewportScore | device-compatibility-tester.js:284-291 | the score weighs the four checks 25/25/30/20 and the test passes exactly from 70 |
| DeviceTester.WeightedFour | device-compatibility-tester.js:284-288 | the weighted sum of the four checks |
| DeviceTester.ViewportPassesIff | device-compatibility-tester.js:284-291 | when the viewport test passes, stated over the checks |
| DeviceTester.CompliantBound | device-compatibility-tester.js:356-364 | no more compliant targets than targets |
| DeviceTester.TouchTargets | device-compatibility-tester.js:341-346 | a device without a touch size passes with 100 |
| DeviceTester.TouchTargetsFacts | device-compatibility-tester.js:354-386 | the score is between 0 and 100, it is the whole percentage nearest the exact compliance rate (halves up), and the test passes exactly when at least 90% of targets comply |
| DeviceTester.RoundedRate | device-compatibility-tester.js:386 | `Math.round(c / n * 100)` on the exact quotient is the whole percentage nearest to it, halves up |
| DeviceTester.RateHalfUp | device-compatibility-tester.js:375 | the rate plus a half is `(200 c + n) / 2 n` |
| DeviceTester.FloorOfRatio | device-compatibility-tester.js:386 | the floor of an exact quotient of naturals is their integer quotient |
| PerfTester.MinIsLeast | animation-engine/animation-performance-tester.js:477 | the minimum is an element and at most every element |
| PerfTester.MaxIsGreatest | animation-engine/animation-performance-tester.js:478 | the maximum is an element and at least every element |
| PerfTester.SumBounds | animation-engine/animation-performance-tester.js:510 | the sum lies between n times a lower and n times an upper bound |
| PerfTester.AverageBetween | animation-engine/animation-performance-tester.js:509-511 | the average of nothing is 0, otherwise it lies between the minimum and the maximum |
| PerfTester.AverageAboveMin | animation-engine/animation-performance-tester.js:509-511 | the average is at least the minimum |
| PerfTester.AverageBelowMax | animation-engine/animation-performance-tester.js:509-511 | the average is at most the maximum |
| PerfTester.InsertAsc | animation-engine/animation-performance-tester.js:514 | inserting adds exactly that sample |
| PerfTester.InsertAscAbove | animation-engine/animation-performance-tester.js:514 | inserting keeps every sample above a common bound |
| PerfTester.InsertAscSorted | animation-engine/animation-performance-tester.js:514 | inserting into an ascending list keeps it ascending |
| PerfTester.SortAsc | animation-engine/animation-performance-tester.js:514 | the sorted copy is a permutation of the samples, which stay as they are |
| PerfTester.SortAscSorted | animation-engine/animation-performance-tester.js:514 | the copy is ascending |
| PerfTester.SortedBetween | animation-engine/animation-performance-tester.js:514 | every sorted sample lies between the minimum and the maximum |
| PerfTester.MedianFacts | animation-engine/animation-performance-tester.js:513-517 | the median of nothing is undefined; otherwise it lies between the minimum and the maximum |
| PerfTester.CountBelow | animation-engine/animation-performance-tester.js:480-481 | a count of samples is at most the number of samples |
| PerfTester.CountBelowMonotone | animation-engine/animation-performance-tester.js:480-481 | fewer samples lie below 30 than below 45 |
| PerfTester.CalculateSummary | animation-engine/animation-performance-tester.js:470-507 | each part of the summary is present exactly when it has samples |
| PerfTester.SummaryFacts | animation-engine/animation-performance-tester.js:470-507 | below 30 ≤ below 45 ≤ samples; average and median lie between min and max; the memory increase is max − min ≥ 0 |
| PerfTester.FpsPenalty | animation-engine/animation-performance-tester.js:595-599 | the frame-rate penalty is 0, 15 or 30 |
| PerfTester.CalculatePerformanceGrade | animation-engine/animation-performance-tester.js:591-615 | the grade is the letter of the penalised score |
| PerfTester.PerfGradeFacts | animation-engine/animation-performance-tester.js:591-615 | the score lies in 25..100; A+ exactly with no penalty; all three penalties give F |
| PerfTester.PerfScoreMonotone | animation-engine/animation-performance-tester.js:595-599 | a higher average frame rate never lowers the score |
| PerfTester.GenerateRecommendations | animation-engine/animation-performance-tester.js:554-589 | the frame-rate advice, then the memory warning when memory is not efficient, then the DPI note above ratio 1 |
| PerfTester.FpsAdviceFacts | animation-engine/animation-performance-tester.js:558-570 | at most one frame-rate recommendation: critical exactly below 30, a warning exactly from 30 to below 45 |
| PerfTester.FirstWithMin | animation-engine/animation-performance-tester.js:538-540 | a worst test is found exactly when some test has the overall minimum |
| PerfTester.AllFrameRatesMembers | animation-engine/animation-performance-tester.js:530 | a sample is in the flattened list exactly when some test has it |
| PerfTester.MinOfSomeTest | animation-engine/animation-performance-tester.js:537-540 | the overall minimum is some test's minimum |
| PerfTester.WorstTestFound | animation-engine/animation-performance-tester.js:535-540 | with samples, the worst test is named and it is a test holding the overall minimum |
| PerfTester.FirstWithMinNames | animation-engine/animation-performance-tester.js:538-540 | the worst test named is the first test holding the minimum |
| PerfTester.NoMemoryIsEfficient | animation-engine/animation-performance-tester.js:541-542 | without memory samples memory counts as efficient |
| PerfTester.Engine.constructor | animation-engine/animation-engine.js:9-18 | an engine holding the given registries |
| PerfTester.Engine.RemovePropertyAnimation | animation-engine/animation-performance-tester.js:458 | removes that animation and nothing else |
| PerfTester.Engine.RemoveParticleSystem | animation-engine/animation-performance-tester.js:462 | removes that particle system and nothing else |
| PerfTester.MatchingMembers | animation-engine/animation-performance-tester.js:445-455 | the ids collected are exactly those with a test prefix |
| PerfTester.KeepMembers | animation-engine/animation-performance-tester.js:457-463 | the ids kept are exactly those without one |
| PerfTester.MatchingKeepPartition | animation-engine/animation-performance-tester.js:445-463 | collected and kept ids together are exactly the registry |
| PerfTester.WithoutNothing | animation-engine/animation-performance-tester.js:457-463 | removing no id changes nothing |
| PerfTester.DeleteMore | animation-engine/animation-performance-tester.js:457-463 | removing one more id after others is removing them all |
| PerfTester.WithoutMatching | animation-engine/animation-performance-tester.js:457-463 | removing exactly the prefixed ids keeps the others |
| PerfTester.CleanupTestScenario | animation-engine/animation-performance-tester.js:440-468 | keeps exactly the animations not starting `test-` or `stress-` and the particle systems not starting `test-`, in order, and empties timelines and groups |
| PerfTester.RemoveAnimations | animation-engine/animation-performance-tester.js:457-459 | removes the listed animations only |
| PerfTester.RemoveSystems | animation-engine/animation-performance-tester.js:461-463 | removes the listed particle systems only |
| PerfTester.CollectMatching | animation-engine/animation-performance-tester.js:445-455 | the loop collects the prefixed ids in order |
| Wcag.HexValue | wcag-validator.js:51-53 | a hexadecimal digit, of either case, has a value below 16 |
| Wcag.PairValue | wcag-validator.js:51-53 | two hexadecimal digits read base 16 give a channel value below 256 |
| Wcag.HexToRgb | wcag-validator.js:48-55 | a colour parses exactly when it is six hexadecimal digits with an optional leading '#', and then every channel lies in 0..255 |
| Wcag.HexRoundTrip | wcag-validator.js:48-55 | parsing the lower-case '#rrggbb' spelling of any colour gives that colour back |
| Wcag.HexNormalizes | wcag-validator.js:48-55 | a parsed colour written back out is the input's digits in lower case behind one '#', so parsing ignores case and the '#' only |
| Wcag.PairNormalizes | wcag-validator.js:51-53 | one channel's two digits written back out are the input's digits in lower case |
| Wcag.HexDigitOfValue | wcag-validator.js:51-53 | the digit of a digit's value is that digit in lower case |
| Wcag.LinearUnit | wcag-validator.js:65-67 | a linearised channel of a value in 0..1 stays in 0..1 for every gamma curve that maps 0..1 into 0..1 |
| Wcag.LuminanceUnit | wcag-validator.js:60-70 | the relative luminance of a colour with channels in 0..255 lies in 0..1 |
| Wcag.BlackAndWhite | wcag-validator.js:60-70 | black has luminance 0 and white luminance 1 |
| Wcag.ContrastRatioFacts | wcag-validator.js:75-88 | the contrast ratio is symmetric, is 0 exactly when either colour does not parse, and otherwise lies between 1 and 21 |
| Wcag.ContrastRatio | wcag-validator.js:75-88 | the ratio is 0 or lies between 1 and 21 |
| Wcag.RatioBounds | wcag-validator.js:84-87 | (lighter + 0.05) / (darker + 0.05) lies between 1 and 21 for luminances in 0..1 |
| Wcag.BlackOnWhite | wcag-validator.js:75-88 | black on white has the largest ratio, 21 |
| Wcag.ComplianceThresholds | wcag-validator.js:93-101 | a ratio is AAA exactly when it reaches 7 (4.5 for large text) and not Fail exactly when it reaches 4.5 (3 for large text) |
| Wcag.ComplianceMonotone | wcag-validator.js:93-101 | a higher ratio never gets a lower level, and large text never gets a lower level than normal text |
| Wcag.ComplianceLevel | wcag-validator.js:93-101 | anything but Fail needs a ratio of at least 3, and a ratio from 7 is always AAA |
| Wcag.Round2Near | wcag-validator.js:150 | rounding a ratio to hundredths moves it by at most half a hundredth |
| Wcag.Round2 | wcag-validator.js:150 | the rounded ratio is a whole number of hundredths |
| Wcag.PassedIffNotFail | wcag-validator.js:142-154 | a checked pair passes exactly when its level is not Fail, and keeps the pair's name and criticality |
| Wcag.Checks | wcag-validator.js:141-155 | one result per colour pair, in the pairs' order, each the check of that pair |
| Wcag.ValidateLightTheme | wcag-validator.js:106-158 | the results are the checks of the seventeen light-theme pairs in order |
| Wcag.CheckAll | wcag-validator.js:141-155 | the loop pushes exactly the checks of the pairs, in order |
| Wcag.LightThemeShape | wcag-validator.js:111-139 | the theme has 17 pairs, all colours parse, and exactly the first 15 are critical |
| Wcag.HexColorsOfTheme | wcag-validator.js:8-31 | every theme colour and white parses |
| Wcag.GroupsCount | wcag-validator.js:177-197 | the AAA, AA and Fail groups together hold every result |
| Wcag.AtLevelMembers | wcag-validator.js:177-181 | a result is in a level's group exactly when it is a result with that level |
| Wcag.PassedCount | wcag-validator.js:165-196 | when passing means not failing, the passed count is the AAA count plus the AA count |
| Wcag.ReportConsistent | wcag-validator.js:163-211 | the report's counts agree: passed = AAA + AA, failures = total - passed, critical passes within critical within total, and no failures exactly when every pair passes |
| EnhancedWcag.CurrentIsLightTheme | enhanced-wcag-validator.js:9-25 | the current palette is the light theme of the plain validator |
| EnhancedWcag.SetCombosOfLight | enhanced-wcag-validator.js:99-120 | the fifteen pairs are the plain validator's seventeen without the two secondary- and tertiary-background text pairs |
| EnhancedWcag.ValidateColorSet | enhanced-wcag-validator.js:98-138 | fifteen results, each the check of the corresponding pair, tagged with the set's name |
| EnhancedWcag.CountPassed | enhanced-wcag-validator.js:214-217 | a filtered count never exceeds the number of results |
| EnhancedWcag.CountLevel | enhanced-wcag-validator.js:215-216 | a level count never exceeds the number of results |
| EnhancedWcag.PassedAndFailed | enhanced-wcag-validator.js:211-219 | passed and failed add up to the total |
| EnhancedWcag.PassedAreAaOrAaa | enhanced-wcag-validator.js:211-219 | when passing means not failing, AAA plus AA is the passed count |
| EnhancedWcag.StatsOfSet | enhanced-wcag-validator.js:211-219 | the statistics of a validated set have total 15 and consistent counts |
| EnhancedWcag.Improved | enhanced-wcag-validator.js:188-190 | the improvements are no more than the enhanced results |
| EnhancedWcag.ImprovedMembers | enhanced-wcag-validator.js:188-190 | a result is an improvement exactly when it is an enhanced result whose ratio beats the current one at the same position |
| EnhancedWcag.FindByName | enhanced-wcag-validator.js:196-201 | a found index holds a result of that name |
| EnhancedWcag.FindByNameFirst | enhanced-wcag-validator.js:196-201 | the index found is the first of that name, and nothing is found exactly when no result has the name |
| EnhancedWcag.InsertByGain | enhanced-wcag-validator.js:194-199 | inserting adds the one element and keeps the others |
| EnhancedWcag.InsertByGainBelow | enhanced-wcag-validator.js:194-199 | inserting keeps every gain below a common bound |
| EnhancedWcag.InsertByGainSorted | enhanced-wcag-validator.js:194-199 | inserting into a list sorted by falling gain keeps it sorted |
| EnhancedWcag.GainsDownTail | enhanced-wcag-validator.js:194-199 | the tail of a list sorted by falling gain is sorted and no gain in it exceeds the head's |
| EnhancedWcag.GainsDownCons | enhanced-wcag-validator.js:194-199 | a head with the largest gain in front of a sorted list gives a sorted list |
| EnhancedWcag.SortByGain | enhanced-wcag-validator.js:194-199 | the sort is a permutation of its input |
| EnhancedWcag.SortByGainSorted | enhanced-wcag-validator.js:194-199 | the sort orders by falling gain |
| EnhancedWcag.InsertWithGain | enhanced-wcag-validator.js:194-199 | an inserted result goes in front of the results with its own gain and leaves the order of the others with each gain alone |
| EnhancedWcag.SortByGainStable | enhanced-wcag-validator.js:194-199 | the sort keeps the input order among results with equal gain, as JavaScript's stable sort does |
| EnhancedWcag.ImprovedFound | enhanced-wcag-validator.js:188-197 | every improvement's name is found among the current results |
| EnhancedWcag.PriorityImprovements | enhanced-wcag-validator.js:188-205 | every listed improvement's name is found among the current results |
| EnhancedWcag.PriorityImprovementsFacts | enhanced-wcag-validator.js:188-205 | the recommendations are the improvements, sorted by falling gain |
| EnhancedWcag.SetNamesDistinct | enhanced-wcag-validator.js:99-120 | the fifteen pair names are distinct |
| EnhancedWcag.FindAtPosition | enhanced-wcag-validator.js:196-197 | with distinct names, looking up a result's name finds its own position |
| EnhancedWcag.PositiveGains | enhanced-wcag-validator.js:188-202 | with distinct names, every recommended improvement has a positive gain |
| EnhancedWcag.ValidatedPositions | enhanced-wcag-validator.js:141-142 | the current and enhanced results name the same pairs at the same positions, and the names are distinct |
| EnhancedWcag.SetNamesFixed | enhanced-wcag-validator.js:99-120 | the pair names do not depend on the palette |
| EnhancedWcag.ValidatedGains | enhanced-wcag-validator.js:140-205 | comparing the current and enhanced palettes recommends only pairs whose ratio went up |
| ChatWindow.ClampFacts | chat-window.js:214-219 | the `Math.max(lo, Math.min(hi, v))` clamp never goes below lo, stays at most hi when lo <= hi, keeps a value inside the bounds and never decreases as the value grows |
| ChatWindow.ResizeBounds | chat-window.js:296-306 | a resize keeps the width within 320..800 and the height within 400..800, and follows the cursor exactly while inside those bounds |
| ChatWindow.DragBounds | chat-window.js:194-224 | a drag keeps the window at least the padding (5 on mobile, 10 otherwise; none on a small mobile screen) from the left and top edges, and from the right and bottom edges whenever the viewport leaves room, and follows the cursor exactly inside those bounds |
| ChatWindow.InputViewFacts | chat-window.js:428-451 | the counter shows the input's length in UTF-16 code units, sending is disabled exactly for an empty input or one longer than the limit, the counter warns above nine tenths of the limit, and the limit is 2000 when the attribute is missing or unreadable |
| ChatWindow.IdNumberOfMsgId | chat-window.js:505 | the number in the id `msg-k` is k |
| ChatWindow.MsgIdInjective | chat-window.js:505 | different counter values give different message ids |
| ChatWindow.AppendedFresh | chat-window.js:505-580 | while every id is below the counter, the next message's id is new, the history stays below the raised counter and distinct ids stay distinct |
| ChatWindow.ReloadRepeatsId | chat-window.js:1097-1112 | reloading a stored history [msg-1] leaves the counter at 0, so the next message is a second msg-1 |
| ChatWindow.MaxIdNumber | chat-window.js:1097-1112 | the largest id number of the entries bounds every entry's number and is one of them |
| ChatWindow.LoadAsWritten | chat-window.js:1097-1112 | as written, loading keeps the counter, takes the stored history, empties it when unreadable and keeps it when nothing is stored |
| ChatWindow.Load | chat-window.js:1097-1112 | loading keeps the stored history as the source restores it and never lowers the counter |
| ChatWindow.LoadKeepsIdsBelow | chat-window.js:1097-1112 | after loading, every id of the history is below the counter |
| ChatWindow.LoadedIdsFresh | chat-window.js:1097-1112 | after loading, no id the counter gives next clashes with a loaded entry |
| ChatWindow.Cleared | chat-window.js:996-997 | clearing keeps exactly the first entry, or nothing for an empty history |
| ChatWindow.FindIndex | chat-window.js:1018-1019 | a found index is the first entry with that id, and nothing is found exactly when no entry has it |
| ChatWindow.RegenerateWhen | chat-window.js:1016-1024 | an entry is regenerated exactly when it is the first with the id and the entry before it is a user message |
| ChatWindow.RemoveAt | chat-window.js:1032 | splicing out one entry keeps the entries before it and shifts those after it down by one |
| ChatWindow.RemoveAtKeepsIds | chat-window.js:1032 | removing an entry keeps every id below the counter and keeps ids distinct |
| ChatWindow.PrepareContext | chat-window.js:840-855 | there is no context exactly when neither a file nor an analysis is set; otherwise it carries the file's name and content when a file is set, and the analysis as it is |
| ChatWindow.OrNotAvailableShows | chat-window.js:920-922 | a metric shows 'N/A' exactly when it is missing or zero, otherwise its decimal digits |
| ChatWindow.StatusFacts | chat-window.js:954-968 | an unknown status shows as 'ready', and the text is 'Ready' exactly for statuses other than processing, error and offline |
| ChatWindow.ChatWindowState.constructor | chat-window.js:47-68 | the initial resize and drag state and an empty input; the history and counter are those of the corrected loading `Load`, which resumes the counter above the stored ids |
| ChatWindow.ChatWindowState.AsWritten | chat-window.js:47-68 | the same initial state with the source's own loading: the stored history, or none when unreadable, and the counter left at 0; the window is consistent when nothing was stored |
| ChatWindow.ChatWindowState.StartResize | chat-window.js:286-294 | resizing starts from the cursor and the computed size; nothing else changes |
| ChatWindow.ChatWindowState.HandleResize | chat-window.js:296-306 | when resizing, the size becomes the clamped size from the start point; otherwise nothing changes |
| ChatWindow.ChatWindowState.StopResize | chat-window.js:308-311 | resizing stops; nothing else changes |
| ChatWindow.ChatWindowState.StartDrag | chat-window.js:173-192 | a press on a control button changes nothing; otherwise dragging starts with the cursor's offset in the window |
| ChatWindow.ChatWindowState.HandleDrag | chat-window.js:194-263 | when dragging, the position becomes the constrained point stored as right and bottom offsets; otherwise nothing changes |
| ChatWindow.ChatWindowState.StopDrag | chat-window.js:226-241 | dragging stops; nothing else changes |
| ChatWindow.ChatWindowState.SetInput | chat-window.js:431 | the input text is replaced; nothing else changes |
| ChatWindow.ChatWindowState.HandleInputChange | chat-window.js:428-451 | the counter and send button show the view of the current input |
| ChatWindow.ChatWindowState.AddMessage | chat-window.js:502-599 | exactly one entry with the next `msg-k` id is appended, the counter rises by one, the history is saved, the ids stay fresh and the invariant is kept |
| ChatWindow.ChatWindowState.ClearConversation | chat-window.js:970-1001 | an unconfirmed clear of more than one entry changes nothing; otherwise only the first entry is kept and saved |
| ChatWindow.ChatWindowState.RegenerateMessage | chat-window.js:1016-1041 | nothing changes unless the id is found after a user message; then exactly that entry is removed and the user's text is sent again with the context |
| ChatWindow.ChatWindowState.HandleSendMessage | chat-window.js:464-485 | a blank input or a pending answer changes nothing; otherwise the trimmed text is added as a user message, the input is emptied and the text is sent with the context |
| ChatWindow.ChatWindowState.UpdateStatus | chat-window.js:954-968 | the status view becomes that of the status; nothing else changes |
| ChatWindow.ChatWindowState.HandleFileUploaded | chat-window.js:898-911 | the file becomes the context and an upload notice is appended as a system message |
| ChatWindow.ChatWindowState.HandleAnalysisCompleted | chat-window.js:913-928 | the analysis becomes the context and its summary is appended as a system message |
| ChatWindow.ChatWindowState.CompleteRequest | chat-window.js:487-499 | an answer is appended as an assistant message with status ready, a failure as an error message with status error, and typing stops either way |
| AnimationClasses.GridRow | animation-engine/animation-classes.js:53-55 | frame i of a grid below columns x rows lies in a column below `columns` and a row below `rows` |
| AnimationClasses.GridInside | animation-engine/animation-classes.js:53-66 | every grid frame lies inside the sheet of columns x rows cells |
| AnimationClasses.CellInside | animation-engine/animation-classes.js:59-62 | a cell of index c < n and width w spans c*w .. c*w + w inside n*w |
| AnimationClasses.CellIndex | animation-engine/animation-classes.js:54-55 | a frame index is recovered from its row and column |
| AnimationClasses.GridCellsDistinct | animation-engine/animation-classes.js:54-55 | different frames sit in different cells |
| AnimationClasses.GridIdsDistinct | animation-engine/animation-classes.js:58 | different grid frames have different ids `frame_i` |
| AnimationClasses.GridPositionsDistinct | animation-engine/animation-classes.js:59-60 | with a positive cell size, different grid frames start at different positions |
| AnimationClasses.SequenceOf | animation-engine/animation-classes.js:71-79 | a named sequence's rate is never zero, and it loops unless `loop` is false |
| AnimationClasses.ParseSequences | animation-engine/animation-classes.js:71-79 | the parsed sequences have the entries' names and frames, a non-zero rate, and loop unless `loop` is false |
| AnimationClasses.SpriteSheet.Grid | animation-engine/animation-classes.js:48-79 | a grid sheet has `count` frames, or columns x rows when count is absent or zero, frame i is the cell in column i mod columns and row i div columns, and its parsed sequences all have a non-zero rate |
| AnimationClasses.SpriteSheet.GetFrame | animation-engine/animation-classes.js:83-85 | frame i is returned exactly when i is a valid index, and null otherwise |
| AnimationClasses.SpriteSheet.GetFrameByName | animation-engine/animation-classes.js:87-89 | a returned frame is the first frame of the sheet with that id, and null means no frame has it |
| AnimationClasses.FirstNamed | animation-engine/animation-classes.js:88 | a found frame is the first in the list with that id, and nothing is found exactly when no frame has it |
| AnimationClasses.Range | animation-engine/animation-classes.js:168 | the default sequence is 0, 1, ..., n-1 |
| AnimationClasses.InitialSetup | animation-engine/animation-classes.js:109-173 | the frame rate is never zero, so the duration is defined, given that every named sequence of the sheet has a non-zero rate as `SequenceOf` gives it |
| AnimationClasses.SetupSequence | animation-engine/animation-classes.js:150-173 | with the sprite found, the sequence is set, totalFrames is its length and the duration is totalFrames over the rate; without frames or a known named sequence, it plays frames 0..n-1 of the sprite |
| AnimationClasses.AdvanceFacts | animation-engine/animation-classes.js:246-275 | a non-looping animation that passes its last frame stops on it, complete and inactive; a looping one restarts at frame 0 and time 0; otherwise time moves by deltaTime; from a non-negative time with a positive rate it always lands on a frame of the sequence |
| AnimationClasses.AdvanceIdle | animation-engine/animation-classes.js:247 | an inactive or paused animation does not move |
| AnimationClasses.ProgressBounds | animation-engine/animation-classes.js:303-305 | on a frame of the sequence, progress lies in [0, 1) |
| AnimationClasses.Animation.constructor | animation-engine/animation-classes.js:100-148 | a new animation starts at its start frame and time 0, active unless autoStart is false, with the setup `initialize` computes |
| AnimationClasses.Animation.Play | animation-engine/animation-classes.js:209-213 | play activates, unpauses and clears completion; the frame and time are kept |
| AnimationClasses.Animation.Pause | animation-engine/animation-classes.js:215-217 | pause only sets the paused flag |
| AnimationClasses.Animation.Stop | animation-engine/animation-classes.js:219-225 | stop zeroes frame and time, clears completion, deactivates and unpauses |
| AnimationClasses.Animation.Reset | animation-engine/animation-classes.js:227-231 | reset zeroes frame and time and clears completion, keeping the active and paused flags |
| AnimationClasses.Animation.GotoAndPlay | animation-engine/animation-classes.js:233-237 | the animation plays from the given frame at that frame's time |
| AnimationClasses.Animation.GotoAndStop | animation-engine/animation-classes.js:239-243 | because stop runs after the jump, the animation ends stopped at frame 0 and time 0 |
| AnimationClasses.Animation.Update | animation-engine/animation-classes.js:246-275 | the new playback is one advance of the old; a completion leaves it inactive on the last frame, a loop leaves it at frame 0 and time 0, and never both; `frameChange` fires exactly when a running animation lands on a different frame, `loop` exactly when a running looping one passes its last frame, `complete` exactly when a running non-looping one does |
| AnimationClasses.Animation.CurrentFrameIndex | animation-engine/animation-classes.js:299-301 | without a sequence the index is the current frame; with one, an index exists exactly when the current frame is inside the sequence |
| AnimationClasses.TweenProgress | animation-engine/animation-classes.js:356 | progress is clamped to at most 1, equals 1 exactly once the time reaches the duration, and is non-negative from a non-negative time |
| AnimationClasses.Interpolated | animation-engine/animation-classes.js:364-368 | exactly the animated properties are set |
| AnimationClasses.PropertyAnimation.constructor | animation-engine/animation-classes.js:329-350 | the start values are the target's current values of the animated properties and the target values are the requested ones |
| AnimationClasses.PropertyAnimation.Update | animation-engine/animation-classes.js:352-377 | a complete tween does not move; otherwise time moves by deltaTime, the values are interpolated at the eased progress, and it becomes complete exactly when the time reaches the duration, ending on the target values when the easing ends at 1 |
| AnimationClasses.LatestEndFacts | animation-engine/animation-classes.js:398-406 | the timeline's duration is non-negative, at least every entry's end time, and either 0 or one entry's end time |
| AnimationClasses.LatestEndAppend | animation-engine/animation-classes.js:408-417 | adding an entry raises the duration to its end time when that is later, and keeps it otherwise |
| AnimationClasses.Stepped | animation-engine/animation-classes.js:451-468 | an entry has started once the time reaches its start, and is complete once the time reaches its end |
| AnimationClasses.Firing | animation-engine/animation-classes.js:451-468 | every firing position is an entry of the timeline |
| AnimationClasses.FiringMembers | animation-engine/animation-classes.js:451-468 | an entry fires exactly when it starts (or ends) at this step, and the positions are in increasing order |
| AnimationClasses.Timeline.constructor | animation-engine/animation-classes.js:381-396 | a new timeline is idle at time 0 with the entries' latest end as its duration |
| AnimationClasses.Timeline.CalculateDuration | animation-engine/animation-classes.js:398-406 | the duration becomes the latest end time; nothing else changes |
| AnimationClasses.Timeline.AddAnimation | animation-engine/animation-classes.js:408-417 | one entry, with duration 1 in place of a zero duration, is appended and the duration recomputed |
| AnimationClasses.Timeline.Play | animation-engine/animation-classes.js:419-423 | play activates, unpauses and clears completion |
| AnimationClasses.Timeline.Pause | animation-engine/animation-classes.js:425-427 | pause only sets the paused flag |
| AnimationClasses.Timeline.Stop | animation-engine/animation-classes.js:429-443 | stop idles the timeline at time 0 and rewinds every entry |
| AnimationClasses.Timeline.RewindAll | animation-engine/animation-classes.js:436-442 | every entry is rewound; nothing else changes |
| AnimationClasses.Timeline.Update | animation-engine/animation-classes.js:445-485 | an idle or paused timeline does not move; otherwise the entries that start and end are reported in order and stepped, and once the duration is reached the timeline loops, rewinding every entry, or completes and deactivates |
| AnimationClasses.Timeline.ProgressBounds | animation-engine/animation-classes.js:487-489 | progress lies in [0, 1] from a non-negative time, and is 1 once the time reaches a positive duration |
| AnimationClasses.PlaceWell | animation-engine/animation-classes.js:599-619 | placing one sprite keeps the packing well formed: inside the canvas height, each region starting a row at x = 0 or following the previous one after the padding, and rows separated by the padding |
| AnimationClasses.PackedWell | animation-engine/animation-classes.js:593-620 | every packing of a list of sprites is well formed |
| AnimationClasses.PackedFromSprites | animation-engine/animation-classes.js:606-615 | no more regions than sprites, and each region has the id and size of one of the sprites |
| AnimationClasses.TextureAtlas.constructor | animation-engine/animation-classes.js:556-565 | a new atlas has no regions and padding 2 |
| AnimationClasses.TextureAtlas.PackSprites | animation-engine/animation-classes.js:593-620 | the regions placed by the packing are appended to the atlas's regions |
| AnimationClasses.TextureAtlas.GetRegion | animation-engine/animation-classes.js:622-624 | a returned region is the first of the atlas's with that id, and nothing is returned exactly when no region has it |
| AnimationClasses.FirstRegion | animation-engine/animation-classes.js:623 | a found region is the first in the list with that id, and nothing is found exactly when no region has it |
| ParticleSystems.AgedFacts | particle-systems/particle-system.js:175-220 | a reset particle is alive at age 0; a dead particle stays as it is; a live one ages by deltaTime and stays alive exactly while its age is below its life |
| ParticleSystems.SurvivorProgress | particle-systems/particle-system.js:301-303 | a particle that survives an update from a non-negative age has progress in [0, 1) |
| ParticleSystems.Survivors | particle-systems/particle-system.js:78-96 | the survivors are no more than the particles |
| ParticleSystems.SurvivorsFacts | particle-systems/particle-system.js:78-96 | the survivors and the dead add up to the particles, every survivor is alive, and every particle alive after its update survives |
| ParticleSystems.Refilled | particle-systems/particle-system.js:60-65 | releasing never shrinks the pool, never takes it past poolSize when below it, and changes nothing when pooling is off or the pool is full |
| ParticleSystems.RefilledStep | particle-systems/particle-system.js:60-65 | k + 1 releases are one release followed by k more |
| ParticleSystems.RemovalStep | particle-systems/particle-system.js:78-96 | one backward step of the removal loop at position i extends the processed suffix: a dead particle is spliced out, a live one is written back aged |
| ParticleSystems.Overflow | particle-systems/particle-system.js:99-102 | trimming from the front drops no more than the list holds and leaves min(n, max) particles |
| ParticleSystems.ParticleSystem.constructor | particle-systems/particle-system.js:7-39 | a new system is active unless `active` is false, holds no particles, has the defaults 1000 and 100 for a missing or zero limit and pool size, pools unless pooling is false, and starts with a full pool when pooling |
| ParticleSystems.ParticleSystem.InitializePool | particle-systems/particle-system.js:33-39 | the pool receives exactly poolSize reset particles when pooling is on, and none otherwise |
| ParticleSystems.ParticleSystem.GetParticle | particle-systems/particle-system.js:53-58 | a reset particle is returned, popped from the pool when pooling is on and the pool is non-empty, and made new otherwise |
| ParticleSystems.ParticleSystem.ReleaseParticle | particle-systems/particle-system.js:60-65 | a released particle is reset and pushed only while pooling and below poolSize |
| ParticleSystems.ParticleSystem.AddParticle | particle-systems/particle-system.js:146-150 | a particle is appended only while the list is below maxParticles |
| ParticleSystems.ParticleSystem.Trim | particle-systems/particle-system.js:99-102 | the oldest particles are dropped until at most maxParticles remain, and each dropped one is released |
| ParticleSystems.ParticleSystem.Update | particle-systems/particle-system.js:67-103 | an inactive system does not change; otherwise the particles become the survivors trimmed to maxParticles, the dead and then the trimmed ones released to the pool |
| ParticleSystems.ParticleSystem.RemoveDead | particle-systems/particle-system.js:78-96 | the backward loop leaves exactly the survivors in order and releases each dead particle |
| ParticleSystems.ParticleSystem.RemoveDeadAt | particle-systems/particle-system.js:79-95 | one iteration of the removal loop at position k extends the processed suffix and releases the particle when it died |
| ParticleSystems.ParticleSystem.Clear | particle-systems/particle-system.js:152-155 | the list is emptied and every particle released |
| ParticleSystems.ParticleSystem.SetMaxParticles | particle-systems/particle-system.js:161-167 | the limit is set and the oldest particles beyond it are dropped and released |
| ParticleSystems.TrimKeepsNewest | particle-systems/particle-system.js:163-166 | trimming keeps the newest particles in their order, at most max of them, and keeps a list already within the limit |
| ParticleSystems.ParticleEmitter.constructor | particle-systems/particle-system.js:321-363 | an emitter is active unless `active` is false, with the defaults 100 and 0 for a missing or zero limit and burst size |
| ParticleSystems.ParticleEmitter.EmitParticle | particle-systems/particle-system.js:389-395 | nothing is added once the system holds the emitter's limit; otherwise a particle is taken from the pool (or made) and added subject to the system's own limit |
| ParticleSystems.ParticleEmitter.Burst | particle-systems/particle-system.js:551-555 | burstCount emissions keep the particles already there and append, in order, fresh particles with lives `lives(0)`, `lives(1)`, …, up to the bounded length; the pool loses one particle (from its end, stopping at empty) per emission made below the emitter's limit, also when the system is full and drops the particle |
| ParticleSystems.BurstStep | particle-systems/particle-system.js:551-555 | one more emission keeps the burst's account of the list and the pool |
| ParticleSystems.EmittedStep | particle-systems/particle-system.js:389-395 | one more emission adds a particle exactly while the list is below both limits |
| ParticleSystems.DrawnStep | particle-systems/particle-system.js:389-395 | one more emission draws from the pool exactly while the list is below the emitter's limit |
| ParticleSystems.EmittedBounds | particle-systems/particle-system.js:551-555 | a burst never shrinks the list, adds at most burstCount, never takes it past either limit, and adds some particle while below both limits |
| MisraLite.ExtractBalanced | misra-lite-index_Version2.js:476-485 | the loop finds the same end as the depth scan |
| MisraLite.ScanFacts | misra-lite-index_Version2.js:478-484 | from inside an open block, the scan stops just after the first '}' that makes the block balanced, and finds nothing exactly when the block never closes |
| MisraLite.BalancedFacts | misra-lite-index_Version2.js:476-485 | there is no result unless the index holds '{'; otherwise the result is the first end at which the block is balanced again, just after a '}', and there is none exactly when the block never closes |
| MisraLite.BalancedBody | misra-lite-index_Version2.js:459-461 | a found block has a body between its braces inside the text |
| MisraLite.SnippetAt | misra-lite-index_Version2.js:494-495 | a missing or zero line gives the empty snippet |
| MisraLite.RowFacts | misra-lite-index_Version2.js:499-502 | a row ends with the separator and its line, and starts with '>' exactly on the target line |
| MisraLite.SnippetWindow | misra-lite-index_Version2.js:494-503 | the rows are the lines from line-1-context (at least 0) up to line+context (at most the line count), at most 2*context+1 of them, each ending with its line, only the target marked, and a target within the code always shown |
| MisraLite.FindRegexOnLines | misra-lite-index_Version2.js:430-434 | the loop collects the hits of every line in order |
| MisraLite.HitsFacts | misra-lite-index_Version2.js:430-434 | one hit per match, each on a line of the code with that line's text and a value the line matched, in non-decreasing line order |
| MisraLite.HitsCount | misra-lite-index_Version2.js:430-434 | there is one hit per match |
| MisraLite.HitsLines | misra-lite-index_Version2.js:430-434 | each hit names a 1-based line, that line's text and one of its matches |
| MisraLite.HitsOrdered | misra-lite-index_Version2.js:430-434 | the hits come in non-decreasing line order |
| MisraLite.LabelsOf | misra-lite-index_Version2.js:465-469 | one label per label text, default exactly when the text is `default` as a whole word |
| MisraLite.SwitchesOf | misra-lite-index_Version2.js:452-474 | at most one switch per header, since a header whose block never closes is skipped |
| MisraLite.ParseSwitches | misra-lite-index_Version2.js:452-474 | the loop collects the switches of the headers in order, each with hasDefault exactly when a default label is among its labels |
| MisraLite.ScanLabels | misra-lite-index_Version2.js:462-470 | the inner loop gives the labels of the texts, and hasDefault exactly when one is a default |
| MisraLite.SwitchRulesFacts | misra-lite-index_Version2.js:48-81 | rule 15.3 reports exactly the switches without a default and rule 15.4 exactly those with a default whose last label is a case, each at the switch's line with the rule's message and evidence; no switch gets both |
| MisraLite.CheckRule153 | misra-lite-index_Version2.js:48-59 | rule 15.3 reports at most one item per switch |
| MisraLite.CheckRule154 | misra-lite-index_Version2.js:61-80 | rule 15.4 reports at most one item per switch |
| MisraLite.ParsedRule154 | misra-lite-index_Version2.js:69-71 | for a parsed switch, default-not-last means a default label exists and the last label is a case |
| MisraLite.ReturnsBelowFacts | misra-lite-index_Version2.js:90 | a text with no `return` word has count 0, and two occurrences give a count of at least 2 |
| MisraLite.ReturnsBelowTwo | misra-lite-index_Version2.js:90 | two `return` words before n give a count of at least 2 |
| MisraLite.ReturnsBelowZero | misra-lite-index_Version2.js:90 | without a `return` word before n the count is 0 |
| MisraLite.ReturnsBelowMonotone | misra-lite-index_Version2.js:90 | the count up to m is at most the count up to a later n |
| MisraLite.ReturnsBelowPositive | misra-lite-index_Version2.js:90 | one `return` word before n gives a count of at least 1 |
| MisraLite.Rule155Facts | misra-lite-index_Version2.js:82-100 | a function is reported exactly when its body has more than one `return` word, at its start line with the count in the message |
| MisraLite.CheckRule155 | misra-lite-index_Version2.js:82-100 | rule 15.5 reports at most one item per function |
| MisraLite.FindingsOf | misra-lite-index_Version2.js:370-378 | one finding per item, in order |
| MisraLite.CollectedFacts | misra-lite-index_Version2.js:366-379 | one finding per item of every rule, none for a check that threw, each carrying its rule's id and title, and never an empty message when the title is non-empty |
| MisraLite.WithLineAppend | misra-lite-index_Version2.js:380 | the findings with one line key split over a concatenation |
| MisraLite.WithLineNone | misra-lite-index_Version2.js:380 | a list with every key above k has no finding with key k |
| MisraLite.InsertMultiset | misra-lite-index_Version2.js:380 | inserting adds the one finding and keeps the others |
| MisraLite.SortedTail | misra-lite-index_Version2.js:380 | the tail of a sorted list is sorted and no key in it is below the head's |
| MisraLite.ConsSorted | misra-lite-index_Version2.js:380 | a head with the smallest key in front of a sorted list gives a sorted list |
| MisraLite.InsertAbove | misra-lite-index_Version2.js:380 | inserting keeps every key above a common bound |
| MisraLite.InsertSorted | misra-lite-index_Version2.js:380 | inserting into a sorted list keeps it sorted |
| MisraLite.WithLineCons | misra-lite-index_Version2.js:380 | the findings with key k of a list with a head are the head, when it has key k, then those of the tail |
| MisraLite.WithLineBehind | misra-lite-index_Version2.js:380 | a common head keeps the extra findings with key k at the end |
| MisraLite.InsertWithLine | misra-lite-index_Version2.js:380 | inserting puts the new finding after every finding with the same key |
| MisraLite.SortSorted | misra-lite-index_Version2.js:380 | the sort orders findings by line, a missing line counting as 0 |
| MisraLite.SortMultiset | misra-lite-index_Version2.js:380 | the sort is a permutation |
| MisraLite.SortWithLine | misra-lite-index_Version2.js:380 | the sort is stable: findings with the same line keep their order |
| MisraLite.SortFacts | misra-lite-index_Version2.js:380 | the sort orders by line, is a permutation, and is stable |
| MisraLite.RunChecks | misra-lite-index_Version2.js:366-381 | the findings are the collected items of every rule, stably sorted by line |
| MisraLite.UnescapeStep | misra-lite-index_Version2.js:426 | decoding an escaped character followed by any text gives that character followed by the decoded text |
| MisraLite.UnescapeAmp | misra-lite-index_Version2.js:426 | '&amp;' decodes to '&' |
| MisraLite.UnescapeLt | misra-lite-index_Version2.js:426 | '&lt;' decodes to '<' |
| MisraLite.UnescapeGt | misra-lite-index_Version2.js:426 | '&gt;' decodes to '>' |
| MisraLite.UnescapeQuot | misra-lite-index_Version2.js:426 | '&quot;' decodes to '"' |
| MisraLite.UnescapeApos | misra-lite-index_Version2.js:426 | '&#039;' decodes to a single quote |
| MisraLite.UnescapePlain | misra-lite-index_Version2.js:426 | a character other than '&' decodes to itself |
| MisraLite.UnescapeEscape | misra-lite-index_Version2.js:426 | escaping loses nothing: decoding the escaped text gives the text back |
| MisraLite.NoMarkupAppend | misra-lite-index_Version2.js:426 | two texts without markup characters concatenate to one without |
| MisraLite.EscapeCharNoMarkup | misra-lite-index_Version2.js:426 | an escaped character contains no <, >, " or ' |
| MisraLite.EscapeFacts | misra-lite-index_Version2.js:426 | escaped text contains no <, >, " or ', a text without special characters is unchanged, and escaping never shortens |
| MisraLite.EscapeNoMarkup | misra-lite-index_Version2.js:426 | escaped text contains no <, >, " or ' |
| MisraLite.EscapePlain | misra-lite-index_Version2.js:426 | a text without special characters is unchanged |
| MisraLite.EscapeLength | misra-lite-index_Version2.js:426 | escaping never shortens a text |
| MisraLite.GroupBy | misra-lite-index_Version2.js:428 | the loop builds the grouping of the items by key |
| MisraLite.GroupsFacts | misra-lite-index_Version2.js:428 | the keys are exactly the keys of the items, and each key's bucket is its items in order |
| MisraLite.GroupsKeys | misra-lite-index_Version2.js:428 | the keys are exactly the keys of the items |
| MisraLite.GroupsBuckets | misra-lite-index_Version2.js:428 | each key's bucket is the items with that key in order, and a key with no bucket has no items |
| Text.Trim | app.js:793 | a trimmed line is empty or begins and ends with a character that is not JavaScript white space |
| Text.TrimSlice | app.js:793 | the trimmed line is one contiguous slice of the line, after the dropped leading part |
| Text.TrimDropsSpace | app.js:793 | every character trimming drops, at either end, is JavaScript white space |
| Text.TrimEmptyIffBlank | app.js:793-794 | a line trims to the empty string exactly when every character of it is white space |
| Text.SplitLines | app.js:791 | splitting at line breaks gives at least one line and no line holds a line feed |
| Text.SplitJoin | app.js:1339 | joining the pieces of a split with the separator gives back the text |
| Text.JoinSplitPieces | app.js:1339 | splitting a join of separator-free pieces gives back those pieces |
| Text.NatToString | animation-engine/animation-classes.js:58 | the decimal form of an index is non-empty, all digits, with no leading zero |
| Text.DigitsValueOfNatToString | animation-engine/animation-classes.js:58 | reading the decimal form of an index back gives the index |
| Text.NatToStringInjective | animation-engine/animation-classes.js:58 | two indices with the same decimal form are equal |
| Text.PadStart | misra-lite-index_Version2.js:501 | the padded text ends with the original and is filled with leading spaces up to the width |
| Text.Lower | utilities/organize_files.py:103-104 | lower-casing keeps the length and maps each character by itself, ASCII letters only |
| Text.LowerAppend | utilities/organize_files.py:103-104 | lower-casing a concatenation lower-cases each part |
| Text.Utf16Length | chat-window.js:431 | JavaScript's `length` counts between one and two code units per character, one each when all are in the Basic Multilingual Plane |

## Left out

- The organizer's printed plan, summary and messages: console output has no logic to state.
- The organizer's log file name: `datetime.now` is a clock, so the timestamp is a parameter of `OrganizerMain.LogPath`.
- The organizer's JSON log: the log is held as its list of `{src, dst}` pairs, not as JSON text.
- The organizer's `argparse` parsing: flags are a record of booleans and an optional path.
- `os.walk`'s order: the walk is taken in the order of a given directory listing.
- Symbolic links: the model filesystem has no links, so `resolve()` follows none and a `..` always goes up one directory, as `OrganizerPaths.Normalize` takes it.
- OrganizerPaths: paths use POSIX `/` separators only; drive letters, backslashes and case-insensitive lookup are not modelled, so the Windows spelling `.\\organize_moves_….json` of a log path is not modelled either.
- ExitCodes (`OrganizerMain.ExitCodes`): the root and the undo log are looked up by their POSIX spelling, so a path written with Windows separators, such as `.\\organize_moves_….json`, counts as missing here.
- Organize (`OrganizerMain.Organize`): takes paths in their POSIX spelling and the listing `tree` on trust, as `OrganizerMain.OrganizeSpec` does.
- OrganizerRuns.UndoSpec: a `..` inside a logged entry or a planned move is kept as a path component; only the root and the undo log given on the command line are normalised.
- OrganizerMain.Planned: the directory listing `tree` is an input trusted to be the listing of the root in `fs`; it is not derived from `fs`. A root that is a file is told apart only because `IsDir` is false for it, which yields no walk.
- OrganizerMain.OrganizeSpec: takes the listing `tree` on trust, as `OrganizerMain.Planned` does.
- OrganizerMain.ApplyLogUndoes: the undo run after an apply is stated only when no executed move started or ended at the log's path; the source's fresh timestamped name makes that the expected case.
- ChatWindow.ChatWindowState.constructor: uses the corrected loading `ChatWindow.Load`; `ChatWindow.ChatWindowState.AsWritten` is the constructor as the source writes it, with the counter left at 0.
- VisitCounter.FormatNumber: `toFixed(1)` is applied to the exact quotient, not to the nearest double, so a value on a tie can round differently: 1150 gives `1.1K` in double arithmetic (1.15 is stored slightly below) and `1.2K` here. Exponent notation from 1e21 on is not modelled.
- FormatNumberShape (`VisitCounter.FormatNumberShape`): reads the digits back as the nearest tenth of the exact quotient, not of the double JavaScript divides to, for the same reason.
- VisitCounter.Recorded: `userAgent.substring(0, 100)` is taken as the first 100 characters, not the first 100 UTF-16 code units.
- DeviceTester.TouchTargets: the compliance rate is the exact rational `c / n * 100`, not the double, so a rate on a tie can round differently: 23 of 40 targets gives 57 in double arithmetic (57.49999…) and 58 here.
- TouchTargetsFacts (`DeviceTester.TouchTargetsFacts`): states the rounding of the exact rate, for the same reason.
- TruncateAtFunctionBoundary (`AppCore.TruncateAtFunctionBoundary`): lengths, limits and prefixes count characters, not UTF-16 code units, so a text outside the Basic Multilingual Plane is measured shorter than JavaScript measures it.
- PrepareCodeForAnalysis (`AppCore.PrepareCodeForAnalysis`): measures and cuts the code in characters, not UTF-16 code units, for the same reason.
- AnimationClasses.TweenProgress: requires a positive duration. In JavaScript a zero duration gives `Infinity`, clamped to 1, so the tween completes at once; that edge is not modelled.
- AnimationClasses.PropertyAnimation: its constructor and `Update` require a positive duration, for the same reason.
- AnimationClasses.GridFrame: requires a positive column count; with zero columns JavaScript computes `NaN` positions, which the model has no value for. The other grid lemmas and `AnimationClasses.SpriteSheet.Grid` require the same.
- `shutil.move` across devices, permissions and I/O errors: outside the abstract filesystem. A move whose source is a directory is reported as an error. As the source does, that error escapes `apply_moves` before `write_log` runs.
- Case folding in the organizer: only ASCII letters are lowered, and any non-ASCII character counts as a word character for the test-token boundary. Python folds and classifies all of Unicode.
- `app.js` regular-expression scans and `JSON.parse`: the decision-token count, the function headers found by `extractImportantCodeSections`, `parseAIMetrics`, `extractNumbersFromText` and the JSON repair helpers are not modelled. Where they feed the modelled logic, their results are inputs.
- JavaScript's `Number()` coercion: a parameter from a JSON value to an optional number.
- Array holes, numeric array keys and inherited prototype keys of a parsed object: an object is a list of keys with their values in order; a repeated key is looked up at its last occurrence, which is the one `JSON.parse` keeps.
- WrittenNumbers.WordToNumber: a JavaScript object lookup also finds inherited keys such as `constructor` or `toString`; the model finds only the listed words. An inherited value is a function or an object, so the hyphen test `first >= 0` fails on it, and every caller keeps a result only when `Number.isInteger` or `Number.isFinite` holds (app.js:1240, 1426, 1452). The outcome is therefore the same.
- AppCore.PerformStaticAnalysis: the app's calculator is created once and reused, while the model builds a fresh one per call; `analyze` resets the calculator first, so the results agree. The `cfgError` field of the result is not modelled, since the analysis of a text always succeeds.
- AnimationClasses.ParseSequences: an entry given as a bare frame list (`sequence.frames || sequence`) is not modelled; every entry carries a frame list.
- The all-zero complexity warning of `validateAndNormalizeAIResult`: it cannot be reached, because 'complexity1' is clamped to at least 1 first. `AppCore.ValidateAndNormalize` states the notes that are actually produced.
- The "forty-seven" and "twenty-one" test cases: they are stated through `WrittenNumberFacts.ConvertHyphenated` and `WrittenNumberFacts.HyphenatedCases`, one word at a time.
- `makeRecommendations`, modals, tooltips, the navigation dropdown and other DOM wiring in `app.js`: no logic beyond presentation.
- Network calls and retries (`app.js`, `chat-window.js`, the MISRA page's AI request): the network is outside the model. `ChatWindow.ChatWindowState.CompleteRequest` takes the answer of `sendToAI` as an input.
- `CFGCalculator.getReport`: a projection of fields the model already states.
- The text of the error that `CFGCalculator.analyze` catches: Dafny has no exception values to carry it.
- The MISRA rule regular expressions, `escapeRegex`, `parseFunctions` and `firstMatchLine`: what a regular expression matches is an input of the model, so rule 17.2's numeric evidence and zero-length matches are not covered.
- What the MISRA page reads: switch headers, label texts and function bodies are inputs.
- `readFile`, rendering and the DOM of the MISRA page: I/O and presentation.
- Particle kinematics, force fields, emitter rate timers, `createEmitter`, `createForceField` and rendering (`particle-systems/particle-system.js`): floating-point physics and drawing. A particle is reduced to age, life and whether it is alive. The random draw of a particle's life is a parameter.
- ParticleSystems.ParticleSystem.Trim: requires a limit of at least 0. With a negative limit, the source's loop keeps shifting an empty list: it throws when pooling is on and the pool has room, and never ends otherwise.
- ParticleSystems.ParticleSystem.Update: requires a limit of at least 0, for the same reason, since it ends with the same loop.
- ParticleSystems.ParticleSystem.SetMaxParticles: takes the limit as a natural number, for the same reason.
- SpriteSheet parsing of frame arrays and objects from JSON (`animation-engine/animation-classes.js`:18-47): JSON input. Only the grid layout is modelled.
- `animateTo`, `fade`, `move`, `scale`, `rotate`, `updatePropertyAnimations`, `clone`, `AnimationGroup`, atlas `addSprite` and `build` (a square-root size) and `drawImage`: drawing and floating-point geometry. The easing function of a property tween is a parameter, and callbacks become the flags or indices that a method returns.
- The engine of `animation-engine/animation-engine.js`: only the registries that `cleanupTestScenario` reads are modelled, as lists of ids in insertion order. That engine defines no `propertyAnimations` map and no `removePropertyAnimation` or `removeParticleSystem` method, which the clean-up calls; `PerfTester.Engine` gives them the meaning of deleting the key from the map.
- Chat-window rendering and animation, toasts, saved window position, `formatFileSize`, `toggleContextAttachment`, keyboard shortcuts, copying, input auto-resize and message metadata: presentation only.
- Visit-counter rendering and `location.reload`. Session ids and timestamps are parameters: the source generates them from the clock and randomness, so a generated id is taken as a non-empty string.
- The DOM-measuring tests of `device-compatibility-tester.js`: their readings are inputs to the scoring rules.
- Per-device recommendations, `calculateAverageScore` and `generateCompatibilityReport`: presentation of the scores.
- Frame sampling and timing in `animation-engine/animation-performance-tester.js`: samples are a given list of reals.
- Luminance and `Math.pow(…, 2.4)`: luminance is built on an abstract transfer curve from [0, 1] to [0, 1] that maps 1 to 1. Ratios hold only under that assumption.
- `generateHTMLReport`, console output and `generateEnhancedCSS` (`enhanced-wcag-validator.js`:221 onward): text output.
- The printed comparison in `compareColorSets`: only the selected improvements are modelled.
- C `int` overflow in `c-examples/c-example.c`: integers are unbounded.
- AnimationClasses.Advance: times and rates are exact reals, not accumulated doubles, so a frame index computed on a boundary can differ: with `frameRate` 3, ten `update(0.1)` calls sum to 0.9999999999999999 in double arithmetic, giving frame 2, and to 1 here, giving frame 3, so a 3-frame non-looping animation completes one update earlier here. The same holds for `AnimationClasses.AdvanceFacts`, `AnimationClasses.Animation.Update`, and for the start and end tests of `AnimationClasses.Stepped` and `AnimationClasses.Timeline.Update`.
- ParticleSystems.Aged: the age is an exact real, so the test `age >= life` after many updates can differ from the double sum's, as for `AnimationClasses.Advance`; this holds for `ParticleSystems.AgedFacts` too.

## Findings

| source | as written | input that shows it | evidently intended | confidence | as-written member | corrected member |
|---|---|---|---|---|---|---|
| chat-window.js:1097-1112 | loading a stored history keeps `messageIdCounter` at 0, so new ids restart at `msg-1` | a stored history holding `msg-1`, then a reload and one `addMessage`, gives a second `msg-1` | the counter resumes above the largest id loaded, so ids stay unique | not executed | ChatWindow.LoadAsWritten / ChatWindow.ReloadRepeatsId | ChatWindow.Load / ChatWindow.LoadedIdsFresh |
