# Verification of the git-first core of SetFork

A list lives twice: as a bare git repository (commits, `refs/heads/main`, tags `vN`) and as rows in Postgres.
Web edits write git first and then commit an open database transaction; pushes and merges move main first and are
projected into the database afterwards. This project models that protocol with every durable write able to fail,
the canon `list.json` that both stores share, the page and the tree built from it, and the small concurrent helpers
around it, and proves what they promise.

- `Text`, `Json`, `Canon`, `Reading`, `Printing`, `Rows`, `Projection`, `FixedPoint`, `Strict`, `Suggest`: the canon as a JSON
  value tree, its readers and writers, carry-over of marks, the normal form, strict reading.
- `Fence`, `Readme`: the fenced command block, the blank-line collapse, the two roads to README.md.
- `Wrappers`, `Totals`: options and results, sums over maps.
- `Tree`, `AuthoredSets`, `Hook`: the allowlist, the author's files, the tree of a version, the two doors that judge it.
- `Commits`, `Notes`, `Protocol`: the protocol as functions on a world of two stores and a plan of failing writes.
  `Engine` is the same protocol as objects changed write by write, each method proved equal to its function.
- `Mechanics`, `Safety`, `Settle`, `Rebuild`, `Recovery`, `Crashes`, `Order`, `Runs`, `Holes`, `LostTags`, `Incremental`:
  the theorems about the protocol. `Effects`, `Outcomes`: what each operation leaves and answers, field by field.
  `Limits`: exactly where the theorems end.
- `Coverage`: the walk over pushed commits and the portions. `RateLimit`, `Coalesce`, `Gate`: the sliding window and
  the two protocols of `throttle.rs`.

How to read the protocol: `World.plan` is consumed write by write, `true` is a failure, the empty plan has no more
failures, and a crash is a plan whose remaining writes all fail. A commit is a value and that value is its id. `Inv` in
`Recovery` is the set of healable states; `Aligned` is agreement of the two stores.

These promises turned out to hold only under a condition:

- the second push of a canon changes nothing: exactly with `StableMarks` (`SecondPushChangesNothing`, `SecondPushCanChange`);
- a history is rebuilt only without version tags: exactly with the restore tag in place (`MainComesBack`, `ShadowedTagIsRebuilt`);
- the hook and `update_main` judge alike: exactly but for quoted paths and the bytes of paths (`LawfulThenHook`,
  `HookThenLawful`, `QuotedNameDivides`, `PathBytesDivide`); the comment at src/git/update.rs:61 says that the rules are
  the same, and the model follows the code;
- a push or merge can be recovered: exactly unless git was a version ahead (`PushConflicts`, `MergeConflicts`, `ResolveConflicts`);
- the first edit of a list without version rows can be recovered: exactly with the counter at zero, or unless main
  is written without the tag (`RowlessEditConflicts`);
- a fault-free alignment succeeds: exactly unless `Stuck` or a name cannot be made (`SyncIdempotent`, `HeavyPushSticks`), and
  a second one changes nothing: exactly unless it rebuilds a version whose tag could not be made (`OverlaidNameWanders`);
- a web write lands: exactly with a free version name and lawful files (`WebWriteLands`, `OverweightMainStopsCarrying`,
  `NestedReleaseBarsVersion`);
- version tags follow the history in order: exactly unless an alignment misplaces tags (`RunIsOrdered`, `StrayPushBreaksOrder`);
- a missing tag comes back: exactly above the highest tag, with the names up to it free (`TagsAfterSync`, `PassedForever`,
  `LaggingPushPassesOver`);
- a note comes back from its commit: exactly when it is plain (`NoteComesBack`).

`Push` judges a tip as the hook does, so it may bring trees that `update_main` refuses. The theorems about healing
(`OpFits`) ask that a pushed tree is lawful for both, and `Limits` says what happens when it is not.

## Model

| member | source | states |
|---|---|---|
| `Text.TagNameParses` | src/git/bundle.rs:663-669 | The tag parser reads back every name the service writes, for every version number that fits an `i32`. |
| `Text.LeadingZeroIsRead` | src/git/bundle.rs:663-669 | The parser is wider than the writer: `v02` reads as version 2 although the service never writes it. |
| `Printing.PrintList` | src/git/serialize.rs:137-219 | The inserts that print a version build exactly `ListJson(v)`. |
| `Printing.CleanHeader` | src/git/serialize.rs:92-111 | The key-by-key sanitising of a skill header yields exactly its admissible form, or nothing. |
| `Canon.SkillHeaderIdempotent` | src/git/serialize.rs:92-111 | A header that was sanitised is left alone by sanitising it again, and is never the empty object. |
| `Canon.HeaderHolds` | src/git/serialize.rs:92-111 | The admissible form of any header holds exactly its non-blank texts under the four known keys and the author's text pairs of its metadata, each with its value; it is missing exactly when there are none. |
| `Reading.DecodePrinted` | src/git/serialize.rs:137-219 | Reading the print of any version gives back everything a reader is meant to see: each field of each step under its own key, marks only when set, absent fields absent. |
| `Reading.SoftReading` | src/git/project.rs:48-98 | The soft reading takes exactly the documents in which each field that is given has its type, and finds under every key what stands there; one value of a wrong type makes the whole document unreadable. |
| `Reading.PrintedKeys` | src/git/serialize.rs:137-219 | The manifest names its schema; a reference is printed as label and url, an empty caption not at all. |
| `Projection.ReadSteps` | src/git/project.rs:212-265 | The loop keeps every step in order except step blocks with a blank title. |
| `Projection.CurrentMarks` | src/db/carryover.rs:129-189 | The map of marks answers, for every block id, with the marks of the last row that carries it, and with no marks when none does. |
| `Projection.PushedRows` | src/db/write.rs:123-136 | The rows of a pushed version are those of the specification, marks carried over from the version it replaces. |
| `Projection.ReadVersionSteps` | src/db/versions.rs:64-118 | The bulk reader numbers the rows of a version from one and loads each by the one rule. |
| `FixedPoint.RowPushedBack` | src/db/carryover.rs:42-121 | Printing one row, reading it softly and mapping it back to a row is exactly `Repush`; the row is dropped exactly when it is an untitled step. |
| `FixedPoint.OwnCanonPushed` | src/git/project.rs:446-507 | Pushing a list's own canon always projects, and this is the whole state it leaves. |
| `FixedPoint.CanonFixedPoint` | src/git/serialize.rs:137-219 | Pushing `list_json(V)` unchanged gives the same canon up to the version number if and only if V is in normal form (trimmed, every step titled, at most twenty tags, no mark hidden behind a repeated block id). |
| `FixedPoint.PushedIsNormal` | src/db/carryover.rs:42-121 | After one push a list is in normal form exactly when the marks of its repeated block ids were stable. |
| `FixedPoint.SecondPushChangesNothing` | src/db/carryover.rs:42-121 | The second push of a list's own canon changes nothing if and only if those marks are stable. |
| `FixedPoint.UniqueBlocksSettleAtOnce` | src/db/carryover.rs:129-189 | With unique block ids one push reaches the fixed point, for every list. |
| `FixedPoint.ThirdPushChangesNothing` | src/db/carryover.rs:129-189 | For any list at all the third push changes nothing. |
| `FixedPoint.SecondPushCanChange` | src/db/carryover.rs:155-185 | A list with one block id on three rows whose second push does change the canon: the last row is untitled, and dropping it changes which row's marks are carried. |
| `Effects.ProjectedIsPushed` | src/git/project.rs:446-507 | In every world: a projection of the tip has nothing to do exactly when pushing its canon over the steps of the current version gives nothing; else the steps of the new last row are those of that push, and the meta too when its write does not fail. All theorems about pushed canons thus speak of what the projection stores. |
| `Effects.PushedRows` | src/db/carryover.rs:42-121 | For any canon and any list: every titled step, and every other block, becomes the row at its place; its texts are trimmed, its blank subtasks and empty references gone; a mark the file does not mention is the one the last row of that block had, an explicit `false` or empty key takes it off. |
| `Effects.PushedMeta` | src/db/write.rs:156-223 | For any manifest, field by field: what it gives in admissible form is taken, whatever is absent or inadmissible stays as it was. |
| `Strict.SilentLossIssues` | src/git/canon.rs:171-206 | The nested loops list exactly the specified issues, in file order. |
| `Strict.StrictIsExact` | src/git/canon.rs:171-206 | On every manifest the soft reading accepts: no issues exactly when nothing is dropped; title issues count the dropped steps; reference issues of each step count its dropped references; every issue's JSON Pointer (section 4 of RFC 6901) resolves to what would be lost. |
| `Strict.PathsDistinct` | src/git/canon.rs:171-206 | No two issues name the same place. |
| `Suggest.FromListContent` | src/services/git_core/convert.rs:86-139 | Content from the wire becomes a version without kind, header, pictures or marks, step by step. |
| `Suggest.CanonListJson` | src/services/git_core/convert.rs:145-166 | The loop over the steps builds the canon whose marks, kind and header come from the database. |
| `Suggest.NoMarkIsTakenOff` | src/services/git_core/convert.rs:145-166 | Whatever a client sends, in every version its suggestion leads to a block is dangerous (or needs a human) exactly when it was so in the rows the canon was built from or in the rows it replaces. |
| `Effects.SuggestedCanon` | src/services/git_core/convert.rs:86-166 | A reader of the canon of any suggestion finds, field by field and step by step, what the wire said, with kind, header and marks from the database. |
| `Fence.NormalizeIsNormalNewlines` | src/git/serialize.rs:244 | The two replacements read every line ending of section 2.1 of the CommonMark spec as one newline. |
| `Fence.CodeBlock` | src/git/serialize.rs:243-263 | The loop over the characters finds the longest run of backticks, and the lines are the fence, the code and the fence, each with the indent. |
| `Fence.LineCannotClose` | src/git/serialize.rs:245-255 | No line of any code is a closing fence for the fence chosen for it. |
| `Fence.FenceIsShortest` | src/git/serialize.rs:245-255 | The fence is longer than every run of backticks of the code, has at least three, and would not be so with one less. |
| `Fence.FenceRoundTrip` | src/git/serialize.rs:243-263 | Reading the block by section 4.5 of the CommonMark spec gives back exactly the newline-normalised command, for every command and every indent, with nothing left over. |
| `Readme.CollapseBlankLines` | src/git/serialize.rs:369-372 | The loop ends, and its result is the text with every run of three or more newlines cut to two. |
| `Readme.BuildReadme` | src/git/serialize.rs:265-374 | The loops over steps, subtasks and references write exactly the specified page. |
| `Readme.CommandSurvives` | src/git/serialize.rs:338-373 | The command block of every step stands in README.md line for line after the collapse, and a CommonMark reader of it gets exactly the normalised command. |
| `Readme.StepStands` | src/git/serialize.rs:327-356 | Title with number and level, description, reason, every subtask and every reference of every step stand in README.md after the collapse, each as a line of its own set in under its title, as far as they break no line themselves. |
| `Readme.DescriptionStands` | src/git/serialize.rs:339-341 | Every line of a description of several lines stands there too, set in like its first. |
| `Readme.SectionStands` | src/git/serialize.rs:321-326 | A section has its heading on the page wherever a step opens it. |
| `Readme.SectionStaysOpen` | src/git/serialize.rs:321-326 | A step of the section that stands open, or of none, adds its own lines and no heading. |
| `Readme.InlineStands` | src/git/serialize.rs:286-320 | Texts, their sources and images stand on the page as lines of their own. |
| `Readme.HeadOfPage` | src/git/serialize.rs:265-282 | The page begins with the title of the list and carries its description, its tags and the line with its kind of order, version and number of steps. |
| `Readme.TwoRoadsMeet` | src/git/project.rs:130-181 | `readme_from_canon(list_json(v)) = readme(v)` for every version. |
| `Tree.AuthoredViolation` | src/git/update.rs:62-118 | Walking the author's files in any order refuses exactly the trees that break the rule, and what the refusal says (path, count, bytes) is true of the tree. |
| `Tree.AuthoredInputViolation` | src/git/update.rs:154-174 | The loop with its set and tally returns the first fault in order, or the size fault. |
| `Tree.VerdictIsExact` | src/git/update.rs:154-174 | The check passes exactly the sets of at most fifty texts, each path once, together at most 1048576 bytes with their paths, each under a name of at most a hundred bytes, without dot in front, control, direction or separator characters, in one of the three directories, executable only in scripts/. |
| `Tree.VerdictIsTrue` | src/git/update.rs:154-174 | What a refusal of a set says is true of it: the foreign path, the executable outside scripts/, the path sent twice, the binary, the fifty-first file, the number of bytes. |
| `Tree.AllowedPaths` | src/git/serialize.rs:405-415 | The allowlist is exactly README.md, list.json, .gitattributes, steps/NAME.md and NAME in scripts/, references/ or assets/, for names of one component, dot names barred in the latter three. |
| `Tree.WriteTree` | src/git/bundle.rs:63-102 | The tree built entry by entry is the generated files plus the placed or carried author's directories. |
| `AuthoredSets.PlacedIsSet` | src/git/bundle.rs:74-91 | Placing a set of files loses none, adds none, and the tree weighs exactly what the set weighs. |
| `AuthoredSets.ReplaceReadsBack` | src/git/bundle.rs:74-91 | An accepted set always builds a tree that passes both checks of `update_main`, and reading that tree back gives exactly that set, with modes. |
| `AuthoredSets.EmptyReplaceReadsNothing` | src/git/bundle.rs:74-91 | An empty set removes every author's file, whatever the parent had. |
| `AuthoredSets.CarryKeepsFiles` | src/git/bundle.rs:92-101 | Carrying reads back the parent's files exactly and keeps a lawful tree lawful. |
| `AuthoredSets.CarryLawful` | src/git/bundle.rs:92-101 | A generated tree that carries files over is lawful exactly when the author's files and directories of its parent are, whatever else the parent holds. |
| `AuthoredSets.RootCommitLawful` | src/git/bundle.rs:63-102 | A first commit is lawful and carries no author's files. |
| `AuthoredSets.RebuildIsSame` | src/git/bundle.rs:586-608 | Building a version again over its own tree gives that tree, whatever files it carries: how a lost tag recognises its commit. |
| `AuthoredSets.ReadAuthored` | src/git/authored.rs:24-45 | Reading the author's files of a tree gives exactly its plain files, each once. |
| `AuthoredSets.WithCanonKeeps` | src/services/git_core/merge.rs:108-125 | A tree edited around a ready canon keeps the author's files, stays lawful, and its page is the page of the new canon whenever that canon parses. |
| `AuthoredSets.PrintedPageMatches` | src/git/write.rs:68-85 | A canon the core printed itself always parses, so every tree it is put into carries its own page. |
| `AuthoredSets.BuiltPageMatches` | src/git/serialize.rs:462-468 | Every tree built for a version carries the page of its own canon. |
| `Hook.LawfulThenHook` | src/git/bundle.rs:323-355 | A tree `update_main` takes is taken by the hook if and only if git prints none of its paths in quotes and list.json is not a submodule. |
| `Hook.HookThenLawful` | src/git/update.rs:94-118 | A tree the hook takes is taken by `update_main` if and only if the author's files fit the limit with the bytes of their paths. |
| `Hook.TwoDoors` | src/git/bundle.rs:346-353 | Both doors decided exactly on the trees of sent files: contents plus paths within the limit on one side, contents within the limit and plain paths on the other. |
| `Hook.HookPathIs` | src/git/bundle.rs:323 | The hook's pattern, path by path: no character that git would quote, and README.md, list.json, .gitattributes, steps/NAME.md or a name of one component in scripts/, references/ or assets/, dot names included. |
| `Hook.QuotedNameDivides` | src/git/update.rs:137-146 | A name with a quote mark passes the input check and `update_main`, and the hook refuses the tree. |
| `Hook.PathBytesDivide` | src/git/update.rs:101 | A file of exactly the limit passes the hook, and `update_main` refuses the tree because of its path. |
| `Notes.StripVPrefix` | src/git/project.rs:193-209 | The two scanning loops cut exactly `v<digits>:` and the blanks after it. |
| `Notes.OwnPrefixStripped` | src/git/project.rs:193-209 | The prefix the service writes is cut whole for every number and every note, with the blanks after it and nothing else. |
| `Notes.ForeignNote` | src/git/project.rs:119-121 | The note of a commit made elsewhere is its first line, cut at two hundred characters, or the stock phrase when there is nothing to read in it. |
| `Notes.NoteComesBack` | src/git/project.rs:119-121 | Of every note: a generated commit gives it back when it is projected exactly when it is one line, no stock note, says something, has at most two hundred characters and loses no white space at either end. |
| `Notes.StockNoteReturned` | src/git/serialize.rs:471-479 | A stock note leaves only the name of the version in the subject, and never comes back as itself. |
| `Mechanics.MaxTagInsert` | src/git/bundle.rs:692-705 | Setting the tag of version n makes the highest tag the larger of n and what it was. |
| `Mechanics.TagAllSetsPrefix` | src/git/bundle.rs:149-152 | However the tag writes fail, the tags that end up set are those of a prefix of the versions; without failures, of the longest prefix whose names git can make. |
| `Mechanics.ChainLawful` | src/git/bundle.rs:133-146 | The commits the history builder puts on main are lawful exactly when the author's files of main are. |
| `Safety.UpdateMainKeeps` | src/git/update.rs:257-302 | In any state and for any expected tip: main moves only to the given commit and only forward; any other answer leaves all refs as they were. |
| `Safety.ProjectPushedKeeps` | src/git/project.rs:446-507 | A projection keeps main and every ref, and adds at most one version row. |
| `Safety.SyncKeeps` | src/git/version.rs:74-229 | In every state and under any failures an alignment loses no ref, moves no existing tag, moves main only to a descendant, keeps every version row and adds at most one. |
| `Effects.SyncAnswers` | src/git/version.rs:74-229 | Under any failures each answer of an alignment is true of the two stores before and after it: the version restored, the range appended, the version projected, the two numbers of a conflict. |
| `Outcomes.InSyncMeans` | src/git/version.rs:142-177 | In every state an alignment answers in-sync exactly when there is nothing to do, and then changes nothing: with main in place, tags and counter agree and the tag of the current version is at main or not there at all; without main, nothing to build from; without a repository, no rows. |
| `Outcomes.SyncRecords` | src/git/version.rs:178-205 | After an answer that versions were appended, each of them has its tag at a commit whose manifest and page say what its row says, stamped with its time, note and number unless it lay in main before; the author's files of main are untouched. |
| `Outcomes.SyncRecordsAll` | src/git/version.rs:83-100 | After a bootstrap the same holds of every row, and no author's file is there. |
| `Outcomes.BootstrapRecords` | src/git/bundle.rs:104-160 | Each commit of a bootstrap stands on that of the row before, the first on nothing, and main is at the last. |
| `Outcomes.EnsureMakes` | src/git/repo.rs:143-194 | The repository is there afterwards exactly unless making it failed; a list without rows gets an empty one. |
| `Settle.SyncIdempotent` | src/git/version.rs:74-229 | In every state: a fault-free alignment fails exactly when it is stuck (the tag to restore from is unlawful, or versions have to be committed on unlawful files) or has to make a tag under whose name others stand. A second one changes nothing, but for one exact case: the first made a version of a tip whose tag could not be made, and the second builds that version once more. It fails exactly when the first did or in that case of the missing tag; otherwise it answers only in sync, tip not versioned or conflict. |
| `Settle.SyncSettlesAtTwice` | src/git/version.rs:74-229 | In every state: from the second fault-free alignment on nothing changes any more. |
| `Settle.LawfulIsNotStuck` | src/git/update.rs:264-276 | Where main and the tags hold lawful trees no state is stuck. |
| `Rebuild.MainComesBack` | src/git/version.rs:104-143 | With a version tag and no main, main comes back as a descendant of the restore tag, or, exactly when that tag is absent, as a history built from the database beside the tags. Without failures it does come back exactly when the restore tag is lawful, or is absent while the database has versions above the tags. With the restore tag in place the answer is never in-sync, and where tags and counter agree main is at that tag and the answer names the restored version. |
| `Rebuild.TaggedHistoryIsNotRebuilt` | src/git/version.rs:124-140 | When version tags have the names the service gives, a tagged history is never built again from the database. |
| `Rebuild.ShadowedTagIsRebuilt` | src/git/version.rs:124-140 | The state where it is: rows 1 to 3 and only the tag `v02`, so `v2` is not found, and the history is built anew without the tagged commit. |
| `Recovery.SyncLive` | src/git/version.rs:74-229 | From every healable state an alignment ends in a healable state wherever it stops, and never answers with a conflict. |
| `Recovery.SyncRecovers` | src/git/version.rs:74-229 | One fault-free alignment of a healable state ends with the highest tag equal to the current version and on the tip of main, exactly when git can make the names it has to set; it answers tip-not-versioned, changing nothing, when the tip is untagged and carries no readable canon. |
| `Crashes.BuiltProjects` | src/git/bundle.rs:110-125 | Every commit the service generates carries a canon that can be made a version again. |
| `Crashes.WebLive` | src/git/version.rs:398-558 | A web write from a healable state ends in one wherever it stops; only `Recorded` means the database has the version, and then both stores are aligned; `ProjectionLost` leaves the tag one ahead on a projectable tip. |
| `Effects.WebLeaves` | src/git/version.rs:441-557 | Whenever a web write reached git, in any state and under any failures: main is its commit, on top of what main was, tagged and stamped with its note and time; it carries exactly the author's files that were sent, or those main held when the write began; once recorded, the row and the patched meta are the ones sent, field by field. |
| `Effects.WebCanon` | src/git/version.rs:495-525 | The manifest of that commit says what was sent: the patched meta, the next number, every row in its place with its marks. |
| `Outcomes.WebAnswers` | src/git/version.rs:404-540 | The refusals of a web write, each exactly: out of sync with the numbers of the alignment, version conflict with the expected and the current number, a set of files that breaks a rule. Each leaves everything as the alignment left it. |
| `Crashes.PushSafe` | src/services/git_core/mod.rs:346-389 | A push of a lawful tree while git is not a version ahead of the database, stopped anywhere in its projection, keeps every ref and row and stays healable; tags may lag behind the counter by any number. |
| `Outcomes.PushLeaves` | src/services/git_core/mod.rs:346-389 | Main is at the pushed tip exactly when the push was accepted and its write did not fail; otherwise no ref and no row changes. |
| `Outcomes.HookJudges` | src/git/bundle.rs:305-324 | The hook asks for a canon at the tip and judges the tree of every commit that no main, tag or branch reaches yet, and of no other. |
| `Outcomes.ProjectionTriedTwice` | src/services/git_core/mod.rs:196-216 | After main has moved, its tip becomes a version unless it carries none or the rows cannot be written twice in a row. |
| `Crashes.MergeSafe` | src/services/git_core/mod.rs:541-631 | The same for squash, fast-forward and merge commits. |
| `Crashes.ResolveSafe` | src/services/git_core/merge.rs:90-147 | The same for a merge resolved by hand. |
| `Effects.MergeLeaves` | src/services/git_core/mod.rs:541-631 | Which history a merge leaves on main: a squash stands on main alone, a fast-forward is the branch itself, any other commit stands on main and the branch; its tree, time, author and message are those of the merge. |
| `Effects.MergeAgain` | src/services/git_core/mod.rs:541-631 | A branch merged with its history is merged: the same merge asked for again changes nothing and answers that there is nothing to do. |
| `Effects.MergeRefusedLeaves` | src/services/git_core/mod.rs:541-631 | Every other answer leaves both stores as they were, and nothing-to-do is answered exactly when the branch is in main's history. |
| `Effects.ResolveLeaves` | src/services/git_core/merge.rs:90-147 | The same for a merge resolved by hand, whose tree is main's with the given canon and its page put in, the old steps taken out and every other entry untouched. |
| `Effects.SuggestionLeaves` | src/git/write.rs:46-101 | A suggestion moves its own branch by one commit and nothing else; a branch that is not where the client saw it stays with every other ref. |
| `Crashes.SyncSafe` | src/git/version.rs:148-229 | The same for an alignment from any healable state. |
| `Crashes.BesideKeepsVersions` | src/services/git_core/mod.rs:706-734 | Branches, suggestions, releases and pushed tags, made, moved or deleted, by the service or by a push, never disturb the versions, because names that read as versions are reserved at every door; they keep every state healable. |
| `Outcomes.RefsLeave` | src/services/git_core/mod.rs:706-734 | Releases, pushed and deleted tags and branches put or take away the one ref they name, a release at the commit of the version's tag, and change nothing else. |
| `Crashes.CrashRecovers` | src/git/version.rs:398-558 | Crash recovery: from an aligned list, any operation that writes versions, with any of its writes failing and a stop after any of them, followed by one fault-free alignment, ends aligned exactly when git can make the names that alignment sets, or untouched for a tip that carries no readable canon; the counter grows by at most one and no row or ref is lost. |
| `Holes.FreeNameRecovers` | src/git/version.rs:398-558 | So when no tag stands under the name of the next version before the operation, the crash of any operation is healed in full. |
| `Crashes.InterruptedSyncRecovers` | src/git/version.rs:268-280 | The same for a bootstrap, a catch-up or a projection interrupted in any healable state. |
| `Limits.PushConflicts` | src/git/repo.rs:187-192 | For every healable list, every accepted push that moves main and every failing of its writes: the push and the alignment after it end in a conflict exactly when git was a version ahead of the database and the tip was not projected. |
| `Limits.PushMayConflict` | src/git/repo.rs:187-192 | Some failing of the writes leads a push to a conflict exactly when git is a version ahead of the database. |
| `Limits.MergeConflicts` | src/services/git_core/mod.rs:541-631 | The same for every merge that has a commit to put on main. |
| `Limits.ResolveConflicts` | src/services/git_core/merge.rs:90-147 | The same for every merge resolved by hand. |
| `Limits.LaggingPushPassesOver` | src/git/project.rs:446-507 | A push that finds tags behind the counter becomes the next version; the stores agree again exactly when git can make its tag, and then the versions it passed over never get theirs, in no run of any operations. |
| `Limits.RowlessEditConflicts` | src/git/version.rs:189-198 | For every first edit of a list without version rows, with or without files and precondition, and under any failures: it and the alignment after it end in a conflict exactly when the counter is not zero and main was written without the tag, because the write stopped there or git cannot make the name. |
| `Limits.WebWriteLands` | src/git/version.rs:499-541 | A web write that passes its checks and meets no failure is recorded exactly when git can make the name of its version and the edit brings files of its own or may carry those of main. |
| `Limits.HookedCarries` | src/git/update.rs:94-118 | The files of a tree the hook takes may be carried exactly when they fit the limit with the bytes of their paths. |
| `Limits.OverweightMainStopsCarrying` | src/git/bundle.rs:63-102 | On a main that only the hook took, every web write that carries the files over is refused and nothing is written, whatever fails or not. |
| `Limits.HeavyPushSticks` | src/git/version.rs:178-205 | A push the hook takes, with its projection lost, after which every alignment fails: the stuck state is real. |
| `Limits.NestedReleaseBarsVersion` | src/services/git_core/names.rs:29-44 | A release such as `v9/rc` before version 9 reads as no version and is taken; version 9 gets no tag as long as some tag stands under its name, whatever else is done. |
| `Limits.UntaggingFrees` | src/git/bundle.rs:307 | With the last tag under the name deleted by a push, the fault-free write of that version lands again (with files of its own or lawful ones), which it did not before. |
| `Limits.OverlaidNameWanders` | src/git/version.rs:161-183 | From every aligned list with a tag under the next version's name, a pushed canon without its page and with its projection lost: the first alignment makes a version of it, the second fails and yet moves main. |
| `Limits.NestedReleaseRefused` | src/services/git_core/mod.rs:706-734 | Where the version has its tag, git refuses such a release. |
| `Holes.PassedForever` | src/git/bundle.rs:692-705 | Over any run of any operations from any state, whatever fails and whatever tags people make or delete: a version passed over by a higher tag never gets its tag. |
| `Holes.NestedWhile` | src/git/bundle.rs:692-705 | Over any run: a version gets no tag as long as tags stand under its name. |
| `Holes.TagsAfterSync` | src/git/version.rs:178-205 | After a fault-free alignment of a healable list the tag of a version stands exactly when it stood before, or the version is above the highest tag and git can make its name and those of the versions between. |
| `Runs.NoCommitIsLost` | src/git/update.rs:257-302 | Over any run of any operations from any state under any failures, with pushes judged by the hook alone, every commit main ever pointed at stays on its history and the counter never goes back. |
| `Runs.EditsFormAChain` | src/git/version.rs:441-445 | Over any run: recorded versions strictly grow, an edit with a precondition directly follows the version it was based on, and two edits based on one version are never both recorded. |
| `Runs.LostWriteIsNotRepeated` | src/git/version.rs:544-557 | After a lost projection the same edit sent again is never recorded: it is told that its base is one version behind, or its alignment failed. |
| `Runs.OrderlyRunIsHealable` | src/services/git_core/mod.rs:541-631 | Over any run in which pushes and merges come while git is not a version ahead, whatever fails, the state stays healable: the rows are exactly 1..current and git is at most one version ahead, by a tip that projects. |
| `Runs.RunIsOrdered` | src/services/git_core/mod.rs:541-631 | Over any orderly run, whatever fails: all version tags lie on the history of main in the order of their numbers exactly when no alignment of the run misplaced tags, that is, took for the missing versions commits at the end of main that do not come after the highest tag. Once lost, the order does not come back. |
| `Limits.StrayPushBreaksOrder` | src/git/bundle.rs:586-608 | While two or more tags lag behind there is a push that both doors take, each new commit of it, and that costs the tags their order at the next alignment when its projection is lost: exactly when git can make the next name, the highest tag is set and stands on no commit of that push. |
| `Limits.MovedThenOrder` | src/git/bundle.rs:586-608 | A push or merge keeps the order itself, whatever fails; the alignment after it loses it exactly when it misplaces tags. |
| `Limits.LostPushOrder` | src/git/bundle.rs:586-608 | What a caller can check before a push: when its projection is lost, the next alignment loses the order exactly when the line of the pushed tip is taken for the missing versions and does not come after the highest tag. |
| `Limits.LostMergeOrder` | src/services/git_core/mod.rs:541-631 | The same for squash, fast-forward and merge commits. |
| `Limits.LagOfOneKeepsOrder` | src/git/bundle.rs:586-608 | With one tag lagging and the projection lost no push costs the order. |
| `Order.SyncOrder` | src/git/bundle.rs:586-645 | An alignment of an ordered list, stopped anywhere or not, leaves the tags in order exactly when it misplaces none; else two tags are crossed. |
| `LostTags.TreesTellVersions` | src/git/serialize.rs:202-218 | Trees generated for different version numbers are never equal, whatever files they carry. |
| `LostTags.TailIsUnambiguous` | src/git/bundle.rs:586-608 | Two lists of versions found at the end of the same main end with the same version. |
| `Mechanics.ChainIsFound` | src/git/bundle.rs:586-608 | A chain the service built is found again at the end of main, commit by commit. |
| `LostTags.TagsComeBack` | src/git/bundle.rs:624-645 | When the missing versions lie on main, catch-up makes no commit, keeps main, and gives each commit its own tag, the last being the tip. |
| `LostTags.OneCommitPerVersion` | src/git/bundle.rs:624-645 | Otherwise, on files that may be carried, catch-up adds exactly one commit per missing version, each with its version's tree and tag. |
| `Incremental.ReadersPrintAlike` | src/db/versions.rs:176-200 | The row reader and the bulk reader print every row alike, and their steps differ exactly on a question without a mark. |
| `Incremental.WebVersionReadsBack` | src/git/version.rs:499-513 | The canon and the page a web write commits are those the database gives back from the rows it stored. |
| `Incremental.GrownIsBuilt` | src/git/bundle.rs:133-157 | A repository grown by any number of web edits with constant meta has the same commits, tags and main as one built at once from the rows those edits left. |
| `Engine.MaxTagIn` | src/git/bundle.rs:692-705 | Whatever the order of the tags, the loop finds the highest version number, 0 for none. |
| `Engine.FindTail` | src/git/bundle.rs:586-608 | The walk along first parents, with its push and final reverse, finds exactly the specified tail or none. |
| `Engine.LoadVersionsAbove` | src/git/version.rs:185-187 | The loop loads exactly the versions above the highest tag, in order. |
| `Engine.LoadAllVersions` | src/db/versions.rs:120-136 | The loop loads every version row under today's meta, in order. |
| `Engine.FirstForeignPath` | src/git/update.rs:30-48 | The walk stops at a leaf outside the allowlist, and finds none exactly when every leaf is allowed. |
| `Engine.TreeViolation` | src/git/update.rs:264-276 | The three tree checks pass exactly the lawful trees, and each refusal names a true reason. |
| `Engine.EditCanon` | src/services/git_core/merge.rs:109-124 | Editing the tree entry by entry gives the specified tree. |
| `Engine.Database.ApplyMeta` | src/db/write.rs:156-223 | The field-by-field updates are exactly `UpdateMeta`: what was not in the file, or not admissible, is not touched. |
| `Engine.Site.UpdateMain` | src/git/update.rs:257-302 | Both stores, the remaining failures and the answer after the method are those of the specification. |
| `Engine.Site.TagAll` | src/git/bundle.rs:149-152 | The loop with its early stop leaves exactly the specified tags. |
| `Engine.Site.CommitVersion` | src/git/bundle.rs:110-125 | One commit of one version, as specified. |
| `Engine.Site.BuildHistory` | src/git/bundle.rs:133-157 | The loop over `parent` and the later tagging refine the specification: main before tags. |
| `Engine.Site.AppendMissing` | src/git/bundle.rs:624-645 | Refines the specification of catch-up, write by write. |
| `Engine.Site.Bootstrap` | src/git/version.rs:268-280 | Refines the specification of the rebuild from the database. |
| `Engine.Site.ProjectPushed` | src/git/project.rs:446-507 | Rows, then meta, then tag, with only the first able to fail the projection: the whole new state is the specified one. |
| `Engine.Site.Align` | src/git/version.rs:148-229 | Refines the specification of the alignment by counters, in every branch. |
| `Engine.Site.Sync` | src/git/version.rs:74-143 | Refines the specification of `sync_repo_with_db`, in every branch. |
| `Engine.Site.WriteVersion` | src/git/version.rs:441-557 | Refines the specification of the write with its open transaction. |
| `Engine.Site.CommitWebVersion` | src/git/version.rs:398-558 | Refines the specification of the web write with its precondition. |
| `Engine.Site.ProjectOrLog` | src/services/git_core/mod.rs:188-223 | One retry after a failed projection, and no undo. |
| `Engine.Site.MoveAndProject` | src/services/git_core/merge.rs:139-140 | Main through the single point, then the projection. |
| `Engine.Site.MergeBranch` | src/services/git_core/mod.rs:541-631 | Refines the specification of the three ways to merge. |
| `Engine.Site.MergeResolved` | src/services/git_core/merge.rs:90-147 | Refines the specification of the resolved merge. |
| `Engine.Site.CommitListJson` | src/git/write.rs:46-101 | Refines the specification: the branch moves by one commit, or not at all when it is stale or already carries the canon; main stays. |
| `Coverage.CommitTexts` | src/git/project.rs:407-417 | The texts of one commit: nothing inherited, nothing seen before, everything else, marked by whether the tip still has it. |
| `Coverage.PushedTexts` | src/git/project.rs:381-421 | Over all new commits in any order: no blob twice, each text brought by some new commit, every new commit covered. |
| `Coverage.NothingSlipsPast` | src/git/project.rs:403-412 | Of a push over whose new commits the walk has gone: every file of every new commit, at whatever allowed path but .gitattributes, was emitted or stands in the tree of a commit main already has. |
| `Coverage.ListedIsAll` | src/git/project.rs:381-421 | In every tree of allowed paths the walk lists each file or link under its own path, submodules and .gitattributes apart. |
| `Coverage.EmittedIsNew` | src/git/project.rs:381-421 | Every text that is emitted is a file of a new commit that no parent of it has, and its label says truly whether the pushed tip still has it under that path. |
| `Coverage.TextPortions` | src/gate.rs:201-216 | The portions concatenate to exactly the texts, each is within the limit unless it is a single text, and none was closed while the next text would have fitted. |
| `Coverage.WeightIsBytes` | src/gate.rs:201-216 | The weight of a portion is the length in UTF-8 of all its labels and texts. |
| `RateLimit.Limiter.Allow` | src/ratelimit.rs:80-112 | One request: the loop that prunes the window computes the specified answer; probes, callers without the token and methods without a budget are let through and leave every window as it was, and any other request touches the window of its own method only. |
| `RateLimit.WindowHolds` | src/ratelimit.rs:98-111 | If readings go back by at most d in lock order, any closed interval of sixty seconds less d holds at most the limit of admitted requests. |
| `RateLimit.SlidingWindowIsExact` | src/ratelimit.rs:98-111 | With d = 0 a request is admitted exactly when fewer than the limit were admitted in the last sixty seconds. |
| `RateLimit.RateWindow` | src/ratelimit.rs:80-112 | Of any requests: among those for a method that are no probes and carry the expected token, if one is expected, at most its budget is let through with readings in any closed interval of sixty seconds less the skew; the budget is rpm_heavy for the nine named methods and rpm for the others. |
| `RateLimit.AnswerIsExact` | src/ratelimit.rs:80-112 | With a clock that never goes back, such a request is let through exactly when fewer than its budget were in the last sixty seconds; every other request is let through. |
| `Coalesce.Slots.Call` | src/throttle.rs:77-84 | The critical section of a call: mark the slot that is there, or make one and ask for a worker. |
| `Coalesce.Slots.Take` | src/throttle.rs:90 | The critical section before a run. |
| `Coalesce.Slots.Release` | src/throttle.rs:92-103 | The critical section after a run: again when marked, else the slot goes under the same lock. |
| `Coalesce.NoEventIsLost` | src/throttle.rs:72-110 | In every state any interleaving reaches: a slot exists exactly when one worker for its key is alive; runs of a key never overlap and start a window apart; every answered event was answered by a later run started within window plus longest run; every waiting event has a worker that owes it a run, before that deadline. |
| `Coalesce.NeverStuck` | src/throttle.rs:86-109 | In each reachable state a worker can make its step, or time can pass. |
| `Coalesce.WorkIsBounded` | src/throttle.rs:86-109 | When no event comes, the workers make at most eight steps each, in whatever order, and no more than a measure that every step lowers. |
| `Coalesce.EventIsAnswered` | src/throttle.rs:72-110 | From every reachable state the steps of workers and the clock alone lead to the run that answers a given event, started before its deadline. |
| `Gate.Gates.Obtain` | src/throttle.rs:146-149 | A clone of the lock of a key, made on demand. |
| `Gate.Gates.Drop` | src/throttle.rs:145-151 | A clone goes, and the count with it. |
| `Gate.Gates.Cleanup` | src/throttle.rs:162-169 | The entry goes exactly when only the map owns the lock. |
| `Gate.MutexPerKey` | src/throttle.rs:132-169 | In every state any interleaving with cancellation at any await reaches: at most one call per key is past the lock, even across removal and re-creation of the entry; whoever waits or holds has the lock that stands in the map; an entry exists only while a call of its key does. |
| `Gate.EveryCallEnds` | src/throttle.rs:132-169 | Without new calls there are at most five steps for each call, in whatever order and wherever calls are dropped; when no more can be made, every call has ended and no entry is left in the map. |
| `Gate.CallGetsLock` | src/throttle.rs:143-153 | Whoever has not got past the lock can get there without being dropped, once the one that is past it is done. |

## Left out

- JSON text, key order and layout: `list.json` is a value tree; a blob from outside carries the value it parses to.
- The array form in which serde also reads a struct, and duplicate keys of an object: an object is a map.
- LocaleText columns: each is the one string it projects to, trimmed as the projection trims it.
- UUID syntax: an identity is a number whose written form parses back to it; other texts may parse to it too.
- Author's files hold bytes from outside: generated texts never stand in their directories and weigh nothing there.
- The order in which git lists a directory: walks go in any order, so which of several faults is named first is open.
- Names that are not UTF-8, and names libgit2 itself refuses in a tree builder.
- `valid_tag` on characters: any text may be the name of a release here.
- The shell of the hook: its accept rule for one tree is a predicate; roles, magic refs and the content question are not modelled.
- `Notes.NoteComesBack`: the subject of a commit is its first line without the white space at its end; libgit2's folding of a first paragraph of several lines is not modelled.
- Names of branches that stand under one another: git keeps only tags apart here.
- The merge of two trees, authors and texts of merge commits: given to the merge as parameters.
- Reads that fail, an unopenable repository and a missing list: `sync_repo_with_db` answers with an error and changes nothing.
- A database commit that succeeded although its answer was lost: a write here either happened or failed.
- `set_head`, hook installation, gc, mirrors, metrics and logs: they touch neither refs nor rows.
- The birth of a list by its first insert, and statements of an open transaction that fail before git is touched: both leave the two stores as they were before the write.
- Pack size, repository size and write gates of the RPC layer: they refuse before anything is written.
- The process-wide and advisory locks of `repo_guard`: operations of one list follow each other; their own per-key lock protocol is the one of `Gate`.
- Versions that overflow an `i32`: theorems ask for a few numbers of room above the counter.
- `Coalesce.NoEventIsLost`: assumes that a run returns and that timers fire and tasks go on without delay; a panic of a run is not modelled.
- `Gate.MutexPerKey`: the queue of waiters has no order here.
- `Coverage.NothingSlipsPast`: speaks of trees whose paths the allowlist takes, and not of .gitattributes, which the walk leaves out.
- Schema validation in `parse_canon`, `src/git/mirror.rs`, `src/git/smart_http.rs`, `src/git/magic.rs`, `src/git/history.rs` and the thin SQL services: transport, foreign calls or single branches.
