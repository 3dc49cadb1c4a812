# Verification of the remote-compile core

A Dafny 4.11 model of the logic in `rc-core` and `rc-agent` that decides what leaves a
developer's machine, what is rebuilt, and what an agent is told. One module per component;
`dafny verify dfyconfig.toml` checks everything.

Strings are their UTF-8 bytes (`Text.Str`), since the source counts and cuts bytes. Paths are
component lists (`Paths.Path`), the view in which `std::path` compares and joins them. Code that
changes something step by step is a method with loops, or a class, proved against a
specification function or predicate; the properties are then proved of that specification. What a
method answers is besides said of its inputs and its result alone, without the specification's
functions: which bytes, which fields, which order, which reason.
Concurrent code is a state machine whose steps are the regions between await points, and its
theorems hold for every sequence of events.

- **Budget, Layout, Response, Gate, LogPaging**: byte-exact elision and truncation, slotted assembly, the
  8192-byte gate, and log paging in both modes.
- **Paths, Roots, Manifest, EntryOrder, MultiRoot, Validation, RefusedScan**: the layout of several
  roots below one anchor, the merge of their scans into one manifest, and the server's check of it.
- **Remediation, Heal, McpServer**: the claim on an automatic retry, the mark of an upload under
  way, and the registry of requests in flight.
- **EnvDep**: the bounded collector of missing dependencies.
- **StatIndex, Worktree, Passes, Scanner, ScanRuns**: the stat cache and the retry loop of one root over
  a file system that is edited meanwhile, and runs of such scans.
- **CrossSweep, AllRoots**: the sweep over all roots after the last of them was scanned, and its
  retries.
- **Excludes**: the include walk that prunes.
- **Profile, Contract, Fingerprint, CanonicalReading**: the priority chain of profiles, the two
  canonicalizers, the cache key, and what it tells apart.
- **Discover, Consent, Quoting**: the worklist over cargo workspaces, the question asked before anything
  outside the repository is uploaded, and the line it offers for pasting.
- **Delta, Notice**: diagnostics against a baseline, and which notices are spoken.
- **Text, Utf8, Sorting**: byte strings, character boundaries and the library sort.

Where the code does not do what its comments suggest, the model follows the code, and theorems give
an input and say exactly when they part:

- An elided line may be one byte over the 400-byte line budget, and never more: when the final cuts
  keep every byte the estimate allowed and the reported count gains a digit.
- A page of whole lines loses the empty lines at its start, and only those. The last slice of a long
  raw line names that line again.
- A task registered a second time during its claim may get a second retry; marks never leak.
- A second upload of a task may start beside the first when a full table of marks is cleared or when
  two calls saw different parks; every step that lets it happen is characterised.
- The two canonical texts differ when a profile asks for a zero timeout
  (crates/rc-core/src/profile.rs:297 against crates/rc-core/src/contract.rs:158), and whenever a
  submission names hosts, because `resolve` never carries them into the profile the agent hashes.
- Structural directories are pruned at any depth by the include walk but matched only as the first
  component of a path elsewhere.
- A scan whose baseline holds a file of a root scanned inside the primary is refused by the server;
  no other scan with well-formed entries and mounts is. When both roots list the file, the scan itself
  refuses it first.
- An accepted pass over one root may hold a tracked file that exists only while it hashes, and no other
  file that its sweeps did not see.
- A scan hashes and records before it compares its sweeps. A refused attempt may leave a row with the hash
  of another content, which a later, undisturbed attempt believes once the file is back with its old
  size and time.
- `scan_all` does not see an edit between the second sweep of a root and the stat that follows it.
  Wherever that stat agrees with the root's own, the merged entry is the file as it was at one moment
  for all roots.
- `scan_all` never accepts a worktree, however quiet, in which something is listed and is there that
  no root takes: a directory, such as a submodule that is not checked out, or an unsafe name.
- A discovery may count as complete without what a crate leads to that is a workspace of its own inside
  an analysed one.
- A snippet entry loses a backslash in a directory name, and the line it stands in is not read as offered
  when it holds a quotation mark or a control character.
- A canonical text smears when a value holds a line break, a list item a comma, or a variable's name a
  closing bracket; otherwise it spells one profile.
- The root hash shows the order of the entries exactly when one path comes with two keys.

The hash function is a parameter. Nothing assumes that it is injective: theorems about keys name
the two inputs that would be a collision.

## Model

| member | source | states |
|---|---|---|
| Utf8.Floor | crates/rc-core/src/budget.rs:28-36 | the largest character boundary at or below a cut, found among all boundaries |
| Utf8.Ceil | crates/rc-core/src/budget.rs:47-50 | the smallest character boundary at or above a cut |
| Utf8.RoundingIsSmall | crates/rc-core/src/budget.rs:28-50 | in valid UTF-8 (section 4 of RFC 3629) rounding a cut either way moves it at most three bytes |
| Utf8.ValidSplit | crates/rc-core/src/budget.rs:28-36 | valid UTF-8 cut at a boundary is two valid halves |
| Budget.TruncateBytes | crates/rc-core/src/budget.rs:28-36 | the longest prefix within the limit that ends on a boundary |
| Budget.SkipToBoundary | crates/rc-core/src/budget.rs:46-50 | the forward scan stops at the first boundary |
| Budget.ElideLine | crates/rc-core/src/budget.rs:40-65 | a short line stays; a long one is its head and tail, cut at five sevenths of what a first marker leaves of 400 bytes and at character boundaries, around a marker whose digits spell the bytes left out, the log line and the original length |
| Budget.CutsAreClose | crates/rc-core/src/budget.rs:51-63 | the final cuts leave at most 40 bytes more between them than the first estimate did |
| Budget.OverBudgetExactly | crates/rc-core/src/budget.rs:40-65 | an elided line is over the 400-byte budget, by one byte, exactly when the final cuts keep all the bytes the estimate left for content and the reported count has a digit more than the estimated one |
| Budget.ElidedLength | crates/rc-core/src/budget.rs:40-65 | an elided line has at most 401 bytes, whatever its length and line number |
| Budget.ElideContract | crates/rc-core/src/budget.rs:38-65 | an elided line is a true prefix, a marker and a true suffix; kept bytes plus the reported omitted count are the original length; never longer than the input |
| Budget.ElidedIsMarked | crates/rc-core/src/budget.rs:40-65 | so of the elided line itself: the exact cuts and the three numbers of its marker |
| Budget.ElideBoundIsAttained | crates/rc-core/src/budget.rs:38-65 | 401 bytes, one over the line budget, are reached when the recomputed count gains a digit |
| Budget.ElidedValid | crates/rc-core/src/budget.rs:40-65 | elision of valid UTF-8 is valid UTF-8 |
| Budget.ElidedShrinks | crates/rc-core/src/budget.rs:40-65 | elision never lengthens a line |
| Response.Gather | crates/rc-core/src/budget.rs:98-110 | the texts of one slot in their order, each on a line of its own |
| Response.GatheredIsBuffered | crates/rc-core/src/budget.rs:91-111 | said of the buffer: each piece of the slot adds a line break where one is missing and its text, other pieces nothing |
| Response.FillMiddle | crates/rc-core/src/budget.rs:113-139 | each middle slot in order, whole where its room holds it and otherwise its longest prefix of whole characters; the room is 8192 less headline, critical text, what is there already and two bytes, or one byte before anything is |
| Response.FilledIsShown | crates/rc-core/src/budget.rs:113-139 | the packing loop shows each slot as far as its room goes, and leaves one out only when it is empty or its first character does not fit |
| Response.EmitCritical | crates/rc-core/src/budget.rs:148-166 | critical text goes last; where it does not fit what precedes it is cut to the bytes it leaves, a break follows, and the whole is cut to the budget |
| Response.Assemble | crates/rc-core/src/budget.rs:92-173 | headline, the middle slots each cut only where its room ends, and critical text last; everything, in this order and on lines of its own, whenever it fits with its breaks and two bytes |
| Response.PackedIsAssembled | crates/rc-core/src/budget.rs:92-173 | the packed answer is the headline, a run of prefixes of diagnostics, notices and decor in that order, and the critical text |
| Layout.EverythingShown | crates/rc-core/src/budget.rs:88-173 | an answer put together that way holds all of its texts whenever they fit with their breaks and two bytes to spare |
| Response.PackedKeepsCritical | crates/rc-core/src/budget.rs:88-173 | critical text of at most 8191 bytes is the tail of the answer on lines of its own, within 8192 bytes |
| Response.PackedKeepsHeadline | crates/rc-core/src/budget.rs:88-173 | the headline is whole whenever it fits beside the critical text, even where packing overshoots |
| Gate.GateResponse | crates/rc-core/src/budget.rs:264-282 | the lines of the text, each elided under its own number, and what fits in front of the marker where they exceed 8192 bytes |
| Gate.GateOfFitting | crates/rc-core/src/budget.rs:264-282 | a text that already fits is only elided line by line, never cut |
| Gate.LinesAcrossBreak | crates/rc-core/src/budget.rs:269-271 | the lines of two texts joined by a break are the lines of each |
| Gate.LinesJoinBack | crates/rc-core/src/budget.rs:269-271 | without carriage returns the lines are the text between its breaks |
| Gate.AssembleResultWithNotices | crates/rc-core/src/budget.rs:284-301 | body as headline, notices in the middle, critical text last; all three whenever they fit |
| Gate.FittingAnswerShowsAll | crates/rc-core/src/budget.rs:264-301 | when body, notices and critical text fit and no line is over 400 bytes, the gated answer is exactly their lines in that order |
| Gate.GateOfCriticalTail | crates/rc-core/src/budget.rs:266-282 | gating a text that ends in critical lines keeps each of those at most 400 bytes long |
| Gate.CriticalLinesSurvive | crates/rc-core/src/budget.rs:264-301 | for every body and notice, after assembly and gating at most 8192 bytes remain and every critical line of at most 400 bytes without carriage return is there, in order |
| LogPaging.WholeLines | crates/rc-core/src/budget.rs:214-262 | the loop shows whole rendered lines exactly as long as they fit |
| LogPaging.Continuation | crates/rc-core/src/budget.rs:191-211 | the raw continuation of a line that was begun |
| LogPaging.GateLogLines | crates/rc-core/src/budget.rs:175-262 | text within the budget in both modes; a whole-line page is the longest prefix of rendered lines that fits, and `next_offset` names the first line not shown; a raw slice starts at the first boundary at or after the offset, ends where the budget does, and says what is left, where to go on and which line it is of |
| LogPaging.FitsExactly | crates/rc-core/src/budget.rs:241-253 | which pages fit, in terms of the length of the joined lines |
| LogPaging.PageTextIsJoin | crates/rc-core/src/budget.rs:241-253 | the page text is the join of the lines exactly when no empty line leads it |
| LogPaging.PageTextDropsLeadingEmpty | crates/rc-core/src/budget.rs:241-253 | a page is the join of its lines without the empty ones at its start, and loses nothing else |
| LogPaging.PageGoesOn | crates/rc-core/src/budget.rs:214-262 | `next_offset` is the first line the page does not hold |
| LogPaging.PagesCoverExactly | crates/rc-core/src/budget.rs:214-262 | following `next_offset` stops at the first line that fits on no page, so it covers a log exactly when every rendered line fits |
| LogPaging.ElidedLogsAreCovered | crates/rc-core/src/budget.rs:175-262 | elided logs are always covered with 401 bytes to a page |
| LogPaging.PageEndAdvances | crates/rc-core/src/budget.rs:191-211 | with at least four bytes of budget a raw page always advances |
| LogPaging.RawPageIsSlice | crates/rc-core/src/budget.rs:191-211 | a raw page is a slice and reports where it ends, or 0 at the end of the line |
| LogPaging.RawPageIsSliced | crates/rc-core/src/budget.rs:191-233 | so for every offset, also inside a character or past the end |
| LogPaging.OmittedAreMissing | crates/rc-core/src/budget.rs:236-241 | the bytes reported as omitted are those the shown lines lack |
| LogPaging.RawPagesReassemble | crates/rc-core/src/budget.rs:175-233 | following `next_byte_offset` from 0 terminates and the slices are the line, nothing lost or repeated |
| LogPaging.LastSliceRestarts | crates/rc-core/src/budget.rs:191-211 | the slice that finishes a line names the same line from its start, so following both cursors reads it again |
| LogPaging.SingleLinePage | crates/rc-core/src/budget.rs:214-262 | a raw line that fits is one page |
| Remediation.Plan | crates/rc-agent/src/engine.rs:1979-1996 | a retry environment differs from the first in the patched key, or there is no retry |
| Remediation.RemediationTable.Register | crates/rc-agent/src/engine.rs:614-640 | registration installs an open slot |
| Remediation.RemediationTable.RetryOf | crates/rc-agent/src/engine.rs:658-664 | finds a slot whose retry the task is |
| Remediation.RemediationTable.Claim | crates/rc-agent/src/engine.rs:722-731 | claims a slot exactly when it is open |
| Remediation.RemediationTable.DropClaim | crates/rc-agent/src/engine.rs:46-63 | a dropped claim reopens a slot that still carries the mark |
| Remediation.PaidStep | crates/rc-agent/src/engine.rs:642-769 | each step keeps: retries, pending submits and an open slot together never exceed the registrations |
| Remediation.RetriesWithinRegistrations | crates/rc-agent/src/engine.rs:28-41 | over every interleaving of polls, failures and cancellations a task has at most as many acknowledged retries as registrations; a retry task, never registered, has none |
| Remediation.SecondRegistrationAllowsSecondRetry | crates/rc-agent/src/engine.rs:614-640 | the bound is tight: registering a task again during its claim allows a second retry |
| Remediation.RetriesAreWorthwhile | crates/rc-agent/src/engine.rs:715-744 | every acknowledged retry answers a resource rule and changes exactly the patched key |
| Remediation.RetriesNeverSpawn | crates/rc-agent/src/engine.rs:642-744 | a retry has no retry of its own, even if somebody attaches to it and registers it, as long as that is done with its own environment |
| Remediation.RetriesAreFiled | crates/rc-agent/src/engine.rs:642-769 | over every interleaving a slot is filed under its first task, and one that names a retry names one acknowledged for that task |
| Remediation.StoredIsSettled | crates/rc-agent/src/engine.rs:745-769 | storing an acknowledged retry puts it into the slot of its task, which is not open again, and touches no other slot |
| Remediation.MarksNeverLeak | crates/rc-agent/src/engine.rs:43-63 | a claim mark exists only while a poll holds the claim; with none under way every slot is open or settled |
| Remediation.ExclusiveAlways | crates/rc-agent/src/engine.rs:719-733 | while the only registration is claimed by a pending poll the mark is in place, so nobody else can claim |
| Remediation.AbandonReopens | crates/rc-agent/src/engine.rs:43-63 | a poll that gives up leaves the task open again |
| Heal.HealAttempts.Begin | crates/rc-agent/src/engine.rs:1500-1532 | starts an upload unless this round is under way, or was answered for good or not long enough ago; starting marks the round, after forgetting a table of 64 marks |
| Heal.HealAttempts.DropGuard | crates/rc-agent/src/engine.rs:143-158 | clears an in-progress mark of its own round only |
| Heal.MarksNeverLeak | crates/rc-agent/src/engine.rs:140-158 | over every interleaving, clearing included, an in-progress mark has a live guard for its task and round |
| Heal.NewestAreKept | crates/rc-agent/src/engine.rs:107-124 | after any submissions the source table holds the sixteen tasks submitted last, each once |
| Heal.OwnedExactly | crates/rc-agent/src/engine.rs:1500-1552 | a step leaves every upload its mark, alone on its task, exactly when the start of a new one neither clears the table under another upload nor begins on a task with a live guard |
| Heal.SecondUploadExactly | crates/rc-agent/src/engine.rs:1512-1532 | while marks are kept, a second upload of a task starts exactly for another round |
| Heal.OneUploadAtATime | crates/rc-agent/src/engine.rs:1486-1552 | over every run: at most one upload per task at a time, each with its mark, exactly when every start is orderly in that sense |
| Heal.ClearingAllowsASecondUpload | crates/rc-agent/src/engine.rs:1525-1529 | clearing a full table lets a second upload of one round start, once its task is submitted again |
| Heal.OverlappingRoundsUploadTogether | crates/rc-agent/src/engine.rs:1512-1532 | two calls that saw different parks of a task upload at the same time |
| EnvDep.Collector.Push | crates/rc-core/src/envdep.rs:288-342 | one sighting changes the vector in place as specified |
| EnvDep.Collector.MinByConfidence | crates/rc-core/src/envdep.rs:327-341 | the first entry of least confidence |
| EnvDep.Collector.Ranked | crates/rc-core/src/envdep.rs:353-358 | stable sort by confidence, at most twelve |
| EnvDep.PushKeeps | crates/rc-core/src/envdep.rs:288-342 | the buffer stays within 48, facts stay unique, and no explicit fact is lost |
| EnvDep.CollectedKeeps | crates/rc-core/src/envdep.rs:288-342 | so over every sequence of sightings with at most twelve explicit facts |
| EnvDep.ExplicitFactsAreReported | crates/rc-core/src/envdep.rs:344-358 | and the report names each explicit fact, ordered by confidence, none twice |
| EnvDep.ReportIsStable | crates/rc-core/src/envdep.rs:353-358 | within one confidence the report keeps the order of the log |
| EnvDep.FewNamesAreAllReported | crates/rc-core/src/envdep.rs:288-358 | where at most twelve things are sighted and no two share a name, the report holds every one of them once, in the first of its best tellings, and nothing else |
| EnvDep.PushedWhenNew | crates/rc-core/src/envdep.rs:313-342 | a thing not held yet: against the first entry of its name better evidence replaces, weaker is dropped and equal is added; a buffer of 48 gives up its first weakest entry, for better evidence only |
| Paths.ParseOfJoin | crates/rc-core/src/roots.rs:214-233 | joining the components of a relative path and parsing the text gives the components back |
| Paths.RelativeUnderPrefix | crates/rc-core/src/roots.rs:214-233 | moving two directories together does not change how one is reached from the other |
| Roots.Unique | crates/rc-core/src/roots.rs:125-136 | the primary first, then each extra once |
| Roots.TwoWayAncestor | crates/rc-core/src/roots.rs:199-212 | the loop computes the shared leading components |
| Roots.CommonAncestorOf | crates/rc-core/src/roots.rs:190-197 | the fold over all paths |
| Roots.MountOf | crates/rc-core/src/roots.rs:162-188 | the mount of a root below the anchor, or why it has none |
| Roots.Compute | crates/rc-core/src/roots.rs:125-160 | the deepest directory around all, and each directory once with its names below that as mount, its flags, fewer slashes first and then by name; or what is wrong with which directory |
| Roots.LayoutArranged | crates/rc-core/src/roots.rs:119-160 | so of every layout, in terms of the given directories alone |
| Roots.RefusalIsUnplaceable | crates/rc-core/src/roots.rs:139-188 | a refusal names a directory with an odd component below that anchor, or one more than eight names below it, or there is no common directory |
| Roots.Enclosing | crates/rc-core/src/roots.rs:101-109 | the nearest earlier root that contains this one |
| Roots.AnchoredInjective | crates/rc-core/src/roots.rs:236-243 | distinct paths of one root stay distinct below the anchor |
| Roots.AnchorIsGreatest | crates/rc-core/src/roots.rs:139-147 | the anchor is the greatest common ancestor of all roots although only outermost ones are folded |
| Roots.LayoutIsLaidOut | crates/rc-core/src/roots.rs:119-160 | each directory appears once with its mount, and a root comes before everything inside it |
| Roots.EnclosingIsDeepest | crates/rc-core/src/roots.rs:101-109 | `enclosing` answers with the deepest other root that contains this one |
| Roots.NestedIffEnclosed | crates/rc-core/src/roots.rs:148-157 | `nested` is set exactly when some other root contains this one |
| Roots.RelativePositionsKept | crates/rc-core/src/roots.rs:1-33 | one root is reached from another by the same text locally and between their mounts |
| Roots.RefusalsAreExact | crates/rc-core/src/roots.rs:162-188 | a layout is accepted exactly when there is a common ancestor below which every directory has usable components and at most eight of them; `NotUnderAnchor` never occurs |
| Manifest.DedupByPath | crates/rc-core/src/manifest.rs:32-33 | of neighbours with one path the first stays |
| Manifest.RootHash | crates/rc-core/src/manifest.rs:46-63 | hashes path, size in digits, hash, type byte, executable bit and separators of the entries in the order of their paths |
| Manifest.PreimageFeeds | crates/rc-core/src/manifest.rs:46-63 | what is hashed, byte for byte: the entries by path, those of one path in the order given |
| Manifest.EntryDecodes | crates/rc-core/src/manifest.rs:52-61 | without NUL bytes in paths and hashes one entry never smears into the next |
| Manifest.PreimageDecodes | crates/rc-core/src/manifest.rs:44-63 | equal hash inputs come from the same sorted list of path, size, hash, type byte and executable bit |
| Manifest.PreimageOfPermutation | crates/rc-core/src/manifest.rs:48-63 | with distinct paths the order of the entries does not matter |
| Manifest.NothingDropped | crates/rc-core/src/manifest.rs:24-42 | with distinct paths sorting and dropping repeated paths leaves the entries, sorted |
| EntryOrder.OrderShowsInRootHash | crates/rc-core/src/manifest.rs:44-63 | without NUL bytes all orders of the entries feed the root hash the same bytes exactly when entries that share a path share everything that is hashed |
| EntryOrder.KeysRearranged | crates/rc-core/src/manifest.rs:48-63 | rearranging entries rearranges what is hashed of them |
| Manifest.FindCaseConflicts | crates/rc-core/src/manifest.rs:65-84 | reports something exactly when two different paths agree in lower case, and only such pairs |
| Manifest.SafeExactly | crates/rc-core/src/manifest.rs:115-130 | a path is safe exactly when no component is empty, `.` or `..` or holds a backslash and it does not look like a drive letter |
| MultiRoot.MergeOne | crates/rc-agent/src/multiroot.rs:146-189 | one pass of the inner loop: the place now holds this entry with all its fields, in the stead of an included one of an enclosing root or at the end, and no other entry changes |
| MultiRoot.MergeKeeps | crates/rc-agent/src/multiroot.rs:146-189 | one entry keeps the ownership maps consistent, every view accounted for and every conflict visible |
| MultiRoot.TallyCoversEntry | crates/rc-agent/src/multiroot.rs:164-168 | the root that provides an entry has it in its tally, so no saturating subtraction saturates |
| MultiRoot.MergeTallies | crates/rc-agent/src/multiroot.rs:146-189 | one entry keeps every finished tally exact and adds itself to the current root's |
| MultiRoot.MergeRoot | crates/rc-agent/src/multiroot.rs:102-213 | merging one root keeps all of this and closes its tally |
| MultiRoot.MergeRoots | crates/rc-agent/src/multiroot.rs:102-213 | so over all roots, skipping a nested one exactly when what git listed before covers its manifest file |
| MultiRoot.UniqueIffCompatible | crates/rc-agent/src/multiroot.rs:156-237 | merged paths are unique exactly when of any two views of a file the earlier is by `include` from an enclosing root |
| MultiRoot.PrevailingIsHeld | crates/rc-agent/src/multiroot.rs:156-189 | then each file is as the last scanned root that lists it saw it |
| MultiRoot.HeldPrevails | crates/rc-agent/src/multiroot.rs:156-189 | and every entry is such a view |
| MultiRoot.TallyIsProvided | crates/rc-agent/src/multiroot.rs:150-213 | a root's `files` and `bytes` are the number and the total size of the files it provides in the end |
| MultiRoot.TalliesConserve | crates/rc-agent/src/multiroot.rs:160-213 | the tallies add up to the number and the total size of all entries |
| MultiRoot.FindRepeat | crates/rc-agent/src/multiroot.rs:219-231 | the collision check finds a repeated path if there is one |
| MultiRoot.ScanOnce | crates/rc-agent/src/multiroot.rs:76-316 | a pass fails exactly for a missing primary, two roots that claim a place, or a case conflict, in that order; otherwise the manifest holds, for each place a scanned root lists, the entry of the last of them with every field but path and baseline flag unchanged, and nothing else, with the hash of these entries and the files and bytes each root contributes |
| MultiRoot.ReturnedIsAnswer | crates/rc-agent/src/multiroot.rs:102-213 | so in terms of the scans alone: which roots are scanned, which entry of which scan each place has, and what each tally counts |
| MultiRoot.DoneTurns | crates/rc-agent/src/multiroot.rs:102-121 | a root is left out exactly when it is nested, lies in an earlier root and git lists its manifest file for an earlier scanned one |
| MultiRoot.ConflictsAreClaims | crates/rc-agent/src/multiroot.rs:157-189 | views are incompatible exactly when two scanned roots list a place and the earlier one is not an enclosing root that has it by `include` alone |
| MultiRoot.ProvidedIsKept | crates/rc-agent/src/multiroot.rs:150-213 | what a root provides is its entries that no later scanned root lists, in number and in bytes |
| MultiRoot.BaselineIsPrimary | crates/rc-agent/src/multiroot.rs:169-189 | only files of the primary root are in the baseline |
| Validation.FindOwner | crates/rc-core/src/manifest.rs:203-208 | the root with the longest mount over a path, the last of several |
| Validation.Validate | crates/rc-core/src/manifest.rs:138-228 | no fault exactly when paths and mounts are safe, file hashes have 64 characters, links carry the target they are hashed by, no two paths differ by case alone, one primary lies at the anchor mount and owns every baseline entry, and the root hash is right; a fault reported is one the manifest has |
| Validation.AcceptableIsRight | crates/rc-core/src/manifest.rs:138-228 | the conditions in terms of the manifest alone |
| Validation.OwnedByPrimary | crates/rc-core/src/manifest.rs:193-208 | a file below the primary's mount belongs to it exactly when no root scanned inside the primary contains it |
| Validation.LayoutHasOnePrimary | crates/rc-core/src/roots.rs:125-160 | a computed layout has one primary and no mount twice |
| Validation.ScanPassesValidation | crates/rc-core/src/manifest.rs:138-228 | a scan's manifest passes exactly when its entries and mounts are well formed and no baseline file lies in a root scanned inside the primary |
| RefusedScan.ReturnedIsRefused | crates/rc-core/src/manifest.rs:193-208 | a clean tracked file of the primary that the rules of a root inside it hide makes every manifest of that scan unacceptable |
| RefusedScan.OnlyTheBaseline | crates/rc-core/src/manifest.rs:138-228 | nothing else is wrong with that manifest |
| RefusedScan.ScanThenValidate | crates/rc-agent/src/multiroot.rs:76-316 | the scan of those two roots succeeds and validation of its manifest fails |
| Fingerprint.FramedInjective | crates/rc-core/src/fingerprint.rs:93-105 | length-prefixed fields spell one list of fields |
| Fingerprint.DigestRefs | crates/rc-core/src/fingerprint.rs:76-82 | an image is pinned exactly when a full sha256 digest follows its first @ |
| Fingerprint.Compute | crates/rc-core/src/fingerprint.rs:84-107 | the two refusals, or the hash of version, anchor mount, manifest hash, image, toolchain and profile hash, framed in that order |
| Fingerprint.WithEgress | crates/rc-core/src/fingerprint.rs:109-135 | an empty grant changes nothing; otherwise the fingerprint and then the distinct hosts in byte order are framed and hashed |
| Fingerprint.KeyOfBuild | crates/rc-core/src/fingerprint.rs:84-151 | manifest hash, fingerprint and grant chained |
| Fingerprint.EqualKeysMeanSameBuild | crates/rc-core/src/fingerprint.rs:1-7 | equal keys imply equal anchor mount, image, toolchain, canonical text, granted host set and sorted entry list, or one of four named pairs of inputs is a hash collision |
| CanonicalReading.EqualKeysMeanSameSettings | crates/rc-core/src/fingerprint.rs:1-7 | for plain settings equal keys imply equal settings throughout, or one of those collisions |
| Fingerprint.SameBuildHasOneKey | crates/rc-core/src/fingerprint.rs:84-135 | and nothing else takes part in the key |
| Fingerprint.OrderNeverMatters | crates/rc-core/src/fingerprint.rs:109-135 | order and repetition of grants, and order of distinct-path entries, never matter |
| Fingerprint.OrderMattersExactly | crates/rc-core/src/manifest.rs:48-63 | every order of the entries is the same build exactly when entries that share a path share everything that is hashed |
| Profile.Merger.Overlay | crates/rc-core/src/profile.rs:222-241 | unset fields and missing map keys are filled from the lower layer; disclosure settings are not |
| Profile.Resolve | crates/rc-core/src/profile.rs:244-261 | the fold over all layers, and the source of the first layer that says anything, `Detected` when none does |
| Profile.FirstLayerWins | crates/rc-core/src/profile.rs:244-261 | any inherited setting of the result is the answer of the highest layer that has one |
| Profile.FirstAnswerIs | crates/rc-core/src/profile.rs:222-261 | and that is the answer of the first layer that gives one |
| Profile.ResolvedTakesFirstAnswers | crates/rc-core/src/profile.rs:222-261 | so for the nine settings and for every environment variable and task by itself |
| Profile.DisclosureIsNeverInherited | crates/rc-core/src/profile.rs:229-234 | no layer can put `extra_roots`, `exclude`, `include` or `egress` into a resolved profile |
| Profile.Canonical | crates/rc-core/src/profile.rs:279-321 | the loops write the canonical text: ten lines with their keys, values and order, the commands by index, the variables in byte order, the artifact lines |
| Profile.FieldsAreWritten | crates/rc-core/src/profile.rs:283-320 | so line by line: sorted distinct items with commas, digits for the timeout and the indices, `key=value` and a break each |
| CanonicalReading.CanonicalIsSpelled | crates/rc-core/src/profile.rs:283-321 | the text is ten lines, one per command, one per variable, and the artifact lines |
| CanonicalReading.TextsSpellSettings | crates/rc-core/src/profile.rs:279-321 | settings without line breaks, without commas or empty items in lists and without a closing bracket in a variable's name are spelled one way only |
| CanonicalReading.SameSettingsSpellAlike | crates/rc-core/src/profile.rs:295-309 | and the order and repetition of list items never show |
| CanonicalReading.LineBreakSmears | crates/rc-core/src/profile.rs:310-313 | a command with a line break spells two commands |
| CanonicalReading.BracketSmears | crates/rc-core/src/profile.rs:314-316 | a variable with a closing bracket in its name spells another variable |
| Contract.ResolveEnv | crates/rc-core/src/contract.rs:462-508 | accepted exactly when at most 32 variables are requested and each is well named, not denied and at most 4096 bytes; then every variable has the value of the request, else the profile, else the last default with its name, else the adapter, and no other variable is there; a refusal is for the count or for the first faulty variable in byte order and says what is wrong with it |
| Contract.LayersDecide | crates/rc-core/src/contract.rs:462-508 | the same of the specified environment, variable by variable |
| Contract.LastPairWins | crates/rc-core/src/contract.rs:478-480 | among default pairs with one name the last wins, and no other name appears |
| Contract.RefusedForTheFirst | crates/rc-core/src/contract.rs:486-505 | a refused request is refused for its first faulty variable |
| Contract.EffectiveProfile | crates/rc-core/src/contract.rs:188-215 | only the environment and the canonical text change, the environment as the layers decide |
| Contract.RequestRules | crates/rc-core/src/contract.rs:422-508 | a request is accepted exactly when it is small enough and each variable is allowed, and denied variables keep their lower value |
| Contract.ResolvingAgainChangesNothing | crates/rc-core/src/contract.rs:188-215 | re-resolving a resolved environment with the same defaults and request changes nothing |
| Contract.CanonicalizeResolved | crates/rc-core/src/contract.rs:133-186 | the second canonicalizer writes the same lines, with the request's hosts and 600 seconds for a zero timeout |
| Contract.CanonicalizersAgree | crates/rc-core/src/contract.rs:133-186 | the two texts are equal exactly when the timeout is not `Some(0)` and the host lists agree |
| Contract.ServerAgrees | crates/rc-core/src/contract.rs:188-215 | the server returns the agent's submission unchanged exactly under that condition |
| Contract.RequestedHostsPartTheTexts | crates/rc-core/src/profile.rs:229-261 | a profile from the priority chain carries no hosts, so a submission that names any is recomputed to a different text |
| Discover.Lexical | crates/rc-core/src/discover.rs:166-180 | the loop resolves `.` and `..` textually |
| Discover.LexicalIsResolved | crates/rc-core/src/discover.rs:166-180 | nothing is left to resolve afterwards |
| Discover.Follow | crates/rc-core/src/discover.rs:101-156 | every candidate of one workspace exists and is no directory or has the root of its workspace recorded, and nothing else is recorded; or the refusal names what is wrong with one |
| Discover.CargoPathDependencies | crates/rc-core/src/discover.rs:39-164 | the worklist terminates; a complete answer has, for every path an analysed workspace mentions that is a directory, the resolved root of the workspace it belongs to, at the same offset from the mentioning directory, and nothing else; every analysed directory is reached from the start and every root is analysed or inside an analysed workspace; otherwise no roots and an obstacle at a directory the build reaches |
| Discover.CompleteSettles | crates/rc-core/src/discover.rs:101-156 | the same of every complete answer, in what cargo and the file system say |
| Discover.JustifiedIsObstructed | crates/rc-core/src/discover.rs:57-156 | each reason for giving up, in what cargo and the file system say: too many steps, unreadable metadata, overrides or patches, a missing path, a moved one, one without workspace |
| Discover.HopIsStep | crates/rc-core/src/discover.rs:101-156 | one directory leads to another exactly when it mentions a path whose workspace root that is |
| Discover.TransitiveExactly | crates/rc-core/src/discover.rs:39-164 | a complete answer holds everything the build gets to exactly when the roots that only lie inside an analysed workspace lead nowhere beyond it |
| Discover.FlatIsTransitive | crates/rc-core/src/discover.rs:39-164 | it does in every world where no directory the build gets to lies inside a workspace it gets to and belongs to another one, where a workspace root belongs to itself, and where directories of one workspace are told the same dependencies |
| Discover.HoldsReachByTrails | crates/rc-core/src/discover.rs:39-164 | everything the build gets to, as trails of such steps |
| Discover.NestedWorkspaceStops | crates/rc-core/src/discover.rs:140-156 | an answer that leaves out what a crate leads to, being a workspace of its own inside an analysed one, counts as complete |
| Consent.DisplayRelative | crates/rc-agent/src/consent.rs:111-134 | the climb computes the specified text |
| Consent.NothingUnapprovedPasses | crates/rc-agent/src/consent.rs:29-66 | all or nothing is approved, and what is held back is exactly what no entry covers |
| Consent.OneAnswerForAll | crates/rc-agent/src/consent.rs:29-66 | without a list, one answer for all directories: nothing configured and an unknown word hold everything back, `auto` approves everything, an empty list uploads nothing |
| Consent.CoveredExactly | crates/rc-agent/src/consent.rs:45-76 | a directory is covered exactly by an entry that, joined to the root and resolved where it exists, is it or lies around it |
| Consent.DisplayIsRelativePath | crates/rc-agent/src/consent.rs:111-134 | for names without backslashes the snippet names a directory as the container layout does |
| Consent.DisplayRoundTrip | crates/rc-agent/src/consent.rs:68-134 | an entry leads back to its directory exactly when no name below the shared part holds a backslash |
| Consent.PastingTheSnippetApproves | crates/rc-agent/src/consent.rs:29-134 | an unconfigured repository is asked about every directory; the offered entries approve exactly those and what lies inside them |
| Quoting.WriteList | crates/rc-agent/src/consent.rs:95-101 | the offered line: entries in quotes, joined by commas, in brackets |
| Quoting.ListReadsExactly | crates/rc-agent/src/consent.rs:95-101 | TOML reads the line as the entries exactly when none holds a quotation mark, a backslash or a control character |
| Quoting.PastingTheLineApproves | crates/rc-agent/src/consent.rs:29-134 | pasting the line approves exactly the offered directories and what lies inside them under that condition, and is not read as offered otherwise |
| Consent.ExternalCovers | crates/rc-agent/src/multiroot.rs:318-325 | the directories asked about lie outside, cover every outside directory, and none lies in a different one |
| Consent.ExternalIsIncomparable | crates/rc-agent/src/multiroot.rs:318-325 | from a list without repetitions they are pairwise incomparable |
| Excludes.MatchesPathOrParent | crates/rc-agent/src/excludes.rs:203-234 | a file matches if one of the directories on its way does, each spelled one component longer, or it does itself |
| Excludes.IsExcluded | crates/rc-agent/src/excludes.rs:59-61 | structural or user exclusion |
| Excludes.IsIncluded | crates/rc-agent/src/excludes.rs:190-195 | the include patterns, none when there are none |
| Excludes.ExcludedDirectoryStaysExcluded | crates/rc-agent/src/excludes.rs:216-220 | whatever else the matcher says, nothing below an excluded directory comes back |
| Excludes.StructuralPruningIsDeeper | crates/rc-agent/src/excludes.rs:91-101 | a walk prunes `.git` at any depth while the path check looks at the first component only |
| Excludes.PrunedHoldsNothing | crates/rc-agent/src/excludes.rs:77-89 | nothing below a pruned directory is wanted |
| Excludes.Walk | crates/rc-agent/src/scanner.rs:300-350 | the pruned walk finds exactly what filtering every file of the tree finds, in the same order |
| Excludes.IgnoredButIncluded | crates/rc-agent/src/scanner.rs:284-350 | so for the whole tree, and nothing without include patterns |
| Excludes.FoundExactly | crates/rc-agent/src/scanner.rs:284-350 | a path is found exactly when it is included, not excluded and below no structural directory |
| StatIndexes.StatIndex.Lookup | crates/rc-agent/src/index.rs:57-75 | the recorded hash exactly when size and time both agree |
| StatIndexes.StatIndex.RecordAll | crates/rc-agent/src/index.rs:77-89 | rows inserted in order, the last one per path staying |
| StatIndexes.StatIndex.Retain | crates/rc-agent/src/index.rs:91-108 | exactly the rows of live paths stay |
| Worktree.TornRowStaysTrue | crates/rc-agent/src/index.rs:57-89 | a row recorded by any pass, however torn, stays true where no stamp comes back after a change |
| Worktree.WholeRowStaysTrue | crates/rc-agent/src/index.rs:57-89 | a row recorded from one content stays true where a stamp that comes back brings its content back |
| Worktree.TornRowCanLie | crates/rc-agent/src/index.rs:57-89 | a torn row lies once its file is put back with its old time |
| Worktree.RowStaysTrueExactly | crates/rc-agent/src/index.rs:57-89 | where a stamp that comes back brings its content back, a row stays true exactly when its hash is of the content its stamp was read of, or the file never has that stamp again |
| Worktree.TruthfulExactly | crates/rc-agent/src/index.rs:57-89 | so for a whole index: one that was truthful is truthful after any recording exactly when each row recorded since is of that kind |
| Worktree.HitIsCurrent | crates/rc-agent/src/index.rs:57-75 | with a truthful index the entry of a file that is not read again is the one hashing it would give |
| Scanner.HashOne | crates/rc-agent/src/scanner.rs:414-468 | one path: no entry unless it is safe, not excluded and a file or a link; a link with its target, the length and hash of it; a file with its size, mode bit and baseline flag of its own path, and the hash of a row with the same size and time or of what reading it yields; unreadable otherwise |
| Scanner.HashEntries | crates/rc-agent/src/scanner.rs:403-472 | exactly one such entry for every listed path that is synced and none for another, in path order; `hashed` counts the files without a fitting row and with `reused` all files; afterwards the index answers for every path what the pass said; it stays truthful in both kinds of history |
| Worktree.EntryIsTold | crates/rc-agent/src/scanner.rs:414-470 | the entry of one path in terms of what its two looks saw |
| Scanner.PassEntriesTold | crates/rc-agent/src/scanner.rs:403-472 | so for all entries of any observed pass |
| Scanner.CountsAre | crates/rc-agent/src/scanner.rs:444-458 | the two counters in terms of the files looked at |
| Scanner.StatAll | crates/rc-agent/src/scanner.rs:496-519 | the sweep holds the stamp of each path that is not excluded |
| Passes.AcceptedPassExactly | crates/rc-agent/src/scanner.rs:129-160 | an accepted pass holds what its sweeps saw, hashed at one moment, exactly when no listed file missing from both sweeps was there when it was looked at |
| Passes.AcceptedPassIsWhole | crates/rc-agent/src/scanner.rs:129-160 | so where nothing listed appears and vanishes within the pass, its entries are those of hashing every listed file at one moment, mode bits aside |
| Passes.QuietPassIsWhole | crates/rc-agent/src/scanner.rs:129-160 | the same of a pass nobody edits in, whatever stamps do at other times |
| Passes.QuietPassExactly | crates/rc-agent/src/scanner.rs:129-160 | a pass nobody edits in is whole exactly when every row that answers for a listed file is right |
| Passes.PhantomAccepted | crates/rc-agent/src/scanner.rs:129-160 | a tracked file put back and removed while the pass hashes gets into an accepted manifest |
| Scanner.KnownAtTheMoment | crates/rc-agent/src/scanner.rs:129-199 | after an accepted pass the index knows every file of the sweeps as it was at that moment |
| Scanner.UneditedTreeHashesNothing | crates/rc-agent/src/scanner.rs:403-472 | a pass over an unedited tree, with the index the last pass left, hashes nothing and has the same entries |
| Scanner.HitsRightExactly | crates/rc-agent/src/scanner.rs:130-156 | and that is so exactly when no row an earlier attempt recorded is torn and answers for a listed file |
| Scanner.ScanWith | crates/rc-agent/src/scanner.rs:99-214 | at most three attempts; what an accepted scan observed, hashed and recorded; when it is whole, also when only the accepted pass was undisturbed: exactly if no refused attempt left a torn row that answers in it; when the index is truthful afterwards; what each refusal means; a calm worktree is accepted at the first attempt or has names that differ by case |
| Scanner.ScanTwice | crates/rc-agent/src/scanner.rs:1196-1211 | after an accepted scan and no edit the next scan succeeds at once, hashes nothing, reuses every file and lists the same entries |
| ScanRuns.RefusedAttemptPoisons | crates/rc-agent/src/scanner.rs:130-156 | an attempt that is refused because a file moved records a row with which the next one, undisturbed and accepted, lists the file with the hash of another content |
| ScanRuns.ScanMany | crates/rc-agent/src/scanner.rs:99-214 | any number of scans from an empty index with any edits between and during them: what each accepted one is worth in either kind of history |
| CrossSweep.NothingMissing | crates/rc-agent/src/multiroot.rs:244-270 | in an accepted round no file that the last enumeration names and that is there is missing from the entries |
| CrossSweep.UnmovedExactly | crates/rc-agent/src/multiroot.rs:197-206 | a file is still as its root's pass saw it when all roots are done exactly when the stat taken after the pass agrees with the pass's own |
| CrossSweep.EntryInTheMiddle | crates/rc-agent/src/multiroot.rs:244-270 | then its entry is the one hashing it at that one moment would give, in every root |
| CrossSweep.LateEditAccepted | crates/rc-agent/src/multiroot.rs:197-270 | an edit between a root's second sweep and the stat that follows it is seen by neither |
| CrossSweep.CalmExactly | crates/rc-agent/src/multiroot.rs:233-270 | in a calm worktree a round is accepted exactly when nothing listed is there that no scanned root takes |
| CrossSweep.SingleRootExactly | crates/rc-agent/src/multiroot.rs:233-270 | with one root that is exactly a listed directory or unsafe name |
| CrossSweep.DirectoryIsNeverAccepted | crates/rc-agent/src/multiroot.rs:233-270 | every round over a worktree that lists a directory is refused |
| AllRoots.StatMore | crates/rc-agent/src/scanner.rs:502-519 | stats below the anchor, added to earlier ones |
| AllRoots.ScanRoots | crates/rc-agent/src/multiroot.rs:102-213 | roots in order, a covered one skipped, each scan and its entries noted |
| AllRoots.RelistRoots | crates/rc-agent/src/scanner.rs:479-500 | every scanned root enumerated once more |
| AllRoots.ScanRound | crates/rc-agent/src/multiroot.rs:77-316 | one round: scans whose entries say what their passes saw, merge of exactly these, and the sweep over all roots |
| AllRoots.SweptIsTold | crates/rc-agent/src/scanner.rs:403-472 | the entries of every scanned root of a round say what its pass saw |
| AllRoots.ScanAll | crates/rc-agent/src/multiroot.rs:48-71 | at most three rounds; an accepted one is steady, its entries current at one moment wherever the stats agree, in either kind of history, and its manifest holds for each place the entry of the last scanned root that lists it, every field as its pass saw it; in a calm time it is accepted exactly when nothing blocks it, and `Unstable` otherwise |
| Delta.Match | crates/rc-core/src/delta.rs:70-84 | the loop over the remaining counts finds new and preexisting diagnostics |
| Delta.SumCounts | crates/rc-core/src/delta.rs:85-87 | the remaining counts add up to what the baseline has beyond the current list |
| Delta.MatchingSubtracts | crates/rc-core/src/delta.rs:70-84 | new ones are the multiset difference of the keys, preexisting ones the intersection |
| Delta.ComputeDelta | crates/rc-core/src/delta.rs:54-163 | all counts; the new diagnostics are those before which as many with their key came as the baseline holds, in order; the suppressed fixed count when truncated; one summary line per crate that spells how many preexisting diagnostics it has; the approximate flag |
| Delta.NewOnesAt | crates/rc-core/src/delta.rs:70-84 | the places of the new diagnostics in the current list |
| Delta.OldOnesCount | crates/rc-core/src/delta.rs:130-147 | a crate's count is the number of preexisting diagnostics in it |
| Delta.SummaryTells | crates/rc-core/src/delta.rs:148-151 | the lines name each crate once and spell its count |
| Delta.CrateIsFirstNamed | crates/rc-core/src/delta.rs:140-146 | the crate is the first component of the file that is neither empty nor `src` |
| Delta.NumbersBalance | crates/rc-core/src/delta.rs:54-163 | new + preexisting is the current list, fixed + preexisting the baseline, and swapping the lists swaps new and fixed |
| Delta.OrderChangesNoNumber | crates/rc-core/src/delta.rs:54-163 | permuting either list changes no number |
| Delta.SummaryAddsUp | crates/rc-core/src/delta.rs:130-151 | the per-crate summary adds up to the preexisting count |
| Delta.OrderChangesNoSummary | crates/rc-core/src/delta.rs:130-151 | nor does the order change the summary when a key decides the crate |
| Notices.NoticeState.Present | crates/rc-core/src/notice.rs:71-112 | the notices not heard with their identity in full and the critical ones heard in short, in order; the memory afterwards holds the last identity of each category of the snapshot for its worktree and elsewhere what it did |
| Notices.SaidSpeaks | crates/rc-core/src/notice.rs:71-103 | what is spoken, in terms of the snapshot and the memory |
| Notices.FollowsRemembers | crates/rc-core/src/notice.rs:86-111 | what is remembered, key by key |
| Notices.MemoryIsLatestSnapshot | crates/rc-core/src/notice.rs:104-111 | over every run the memory of a worktree is exactly its latest snapshot |
| Notices.SpokenExactlyWhenNew | crates/rc-core/src/notice.rs:71-103 | a critical notice is spoken on every call, any other exactly when the previous snapshot of its worktree lacked it |
| McpServer.InFlight.Take | crates/rc-agent/src/mcp.rs:79-84 | a cancellation takes out the entry of its id |
| McpServer.InFlight.Unregister | crates/rc-agent/src/mcp.rs:98-106 | a finishing task removes its own entry only |
| McpServer.InvariantAlways | crates/rc-agent/src/mcp.rs:46-122 | every step keeps entries live, pending requests reachable by id unless superseded, answers right, and aborts caused by cancellation |
| McpServer.RegistryAndAnswers | crates/rc-agent/src/mcp.rs:46-122 | each entry names a request that has not unregistered; each request is answered at most once, notifications never (sections 4.1 and 5 of JSON-RPC 2.0) |
| McpServer.DrainedIsSettled | crates/rc-agent/src/mcp.rs:117-122 | at the end the registry is empty and every uncancelled request with an id and a string method has exactly one answer |
| McpServer.CancelledByItsId | crates/rc-agent/src/mcp.rs:79-84 | only a cancellation with its own id cancels a request |
| McpServer.CancelTakes | crates/rc-agent/src/mcp.rs:79-84 | a cancellation that finds its request in flight cancels that task and takes its entry out, and changes nothing else |
| McpServer.LateCancelIsHarmless | crates/rc-agent/src/mcp.rs:98-106 | a cancellation after unregistering touches nothing |
| McpServer.DrainEnds | crates/rc-agent/src/mcp.rs:117-119 | after the input closes every step finishes work and some step is possible until all is done |
| Sorting.SortedUnique | crates/rc-core/src/manifest.rs:33-50 | a sorted arrangement is unique when no two elements tie |
| Sorting.SortDedupCanonical | crates/rc-core/src/fingerprint.rs:126-128 | sorting and deduplicating keeps exactly the set of strings |
| Text.SplitJoin | crates/rc-core/src/roots.rs:162-188 | joining separator-free parts and splitting again gives the parts back |

## Left out

- Network, proxy, TLS, administration, web console, storage, workers and the scheduler.
- TOML but for the pasted list, JSON, regular expressions, gitignore matching, cargo, git, SQLite and the hash function are parameters or maps; reading them is not modelled.
- The Chinese and English message texts beyond their length and the survival of given lines.
- Time limits: the 30-second delay after a failed upload is an abstract instant, and the response cache lifetime is not modelled.
- Machine widths: counters and sizes are unbounded; only the wrap of line numbers to 32 bits, the type byte of an entry and the 64-bit length prefixes are written out.
- Budget.ElidedLength: lines are at most `isize::MAX` bytes long, the limit of a Rust string, and line numbers fit 32 bits.
- Gate.CriticalLinesSurvive: a critical line that holds a carriage return, or of more than 400 bytes, may be changed by the gate itself.
- LogPaging.RawPagesReassemble: pages `gate_log_lines` itself; the hint that turns its line number into a tool argument is not part of this model.
- EnvDep.Collector.Push: cleaning a name and the package tables are parameters; the line patterns that produce sightings are not modelled.
- MultiRoot.ScanOnce: takes the scans of the roots as given, as `AllRoots.ScanRound` hands them over; the warnings are left out.
- AllRoots.ScanAll: opening the indexes, the counts of hashed and reused files over all roots, and the warnings.
- Validation.ScanPassesValidation: assumes that scans list no empty path, as the scanner ensures.
- The list of blobs to reconcile and the count of dirty bytes.
- Manifest.PreimageDecodes: needs paths and hashes without NUL bytes, which the path check does not ensure.
- Profile.Resolve: parsing a profile and looking up a named variant are not modelled; a variant is one more layer.
- Contract.ServerAgrees: both ends inject the contract's default environment; with the switch off on one side the environments are simply different.
- Contract.CanonicalizersAgree: the artifact lines come from one function both ends call, a parameter here.
- Discover.CargoPathDependencies: the order of the reported roots; which directory a workspace is first analysed from is reported beside the answer; what metadata, manifests and configuration say is a parameter that does not change during the run.
- Consent.PastingTheSnippetApproves: the offered directories exist and no symbolic link lies on the way, so canonicalizing an entry is resolving it textually.
- Excludes.Walk: entry names without a backslash; a name that has one is turned into two by the walk.
- Compiling exclude and include patterns, the switch that turns the git baseline off, and the git side of an enumeration.
- Scanner.ScanWith: an edit that restores size and time is invisible to the sweep and to the index, so the clauses about content assume that no stamp comes back after a change, or that a stamp that comes back brings its content back. In the second kind of history a scan or an index is right for sure when nothing is edited during any of its attempts; when only the accepted one is undisturbed, what the refused ones recorded decides, as its contract says; paths may come and go, and excluded ones may do anything. Mode bits leave no trace in either, so an accepted manifest may have them from any moment of the pass. That a file that is there can be read is the assumption `Reads`.
- CrossSweep.CalmExactly: the names that a stat below the anchor skips, by the structural exclusions, are a parameter; for those the sweep over all roots sees nothing.
- Link targets are taken as text; metadata kept beside the stat rows, such as the first base commit, is not modelled.
- Quoting.ListReadsExactly: reads arrays in the form the message writes; other blanks, comments and escapes of TOML are not modelled.
- CanonicalReading.TextsSpellSettings: the artifact lines are a parameter that starts like neither a command nor a variable.
- Delta.ComputeDelta: both keys of a diagnostic are parameters; how spans are stripped from a message is not modelled.
- Delta.OrderChangesNoSummary: assumes that equal keys have equal crates, which holds for the real key unless two files collide in the hash.
- Notices.SpokenExactlyWhenNew: each snapshot holds a category once; the memory theorem needs no such thing.
- McpServer.DrainEnds: a request being handled may take its time, but is assumed to return.
- Adapters, architecture, identifiers, egress normalization, progress, scope resolution and artifact globbing, which are settled by reading one function each.
