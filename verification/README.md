# Runtime daemon: a verified model

The runtime daemon runs on a node and works for a control plane. It claims calls, streams
their replies back in frames, swaps driver processes and accounts while requests are running,
and moves whole workspaces and session files between machines. Two server-side modules, the
object store and the personal schedules, have the same flavour of state and belong to the model.

Each module models one part of the code: values and functions for what is pure, classes whose
methods change fields in place for what the code updates in place. Every such method is proved
against its old state: its new state is a function of it, or the method is a run of the events that
can interleave (everything between two `await`s is one event), or, for what can be cut off between
any two operations on the disk, an invariant holds wherever that happens. The properties are proved
of those functions, over every run of those events, and of that invariant.

| modules | what they model |
|---|---|
| `Wrappers` | what several modules share |
| `Trees`, `Merge`, `Names` | paths, directory trees, `merge_tree` in place, path strings |
| `Git`, `Migration`, `MigrationLimits`, `Restore`, `Reassembly` | what Git reports about a repository; export, clone, overlay, deletions; when the result is the source; putting repositories back, cut off anywhere and tried again |
| `Exports`, `Manifests`, `Staging`, `Moves`, `Installs`, `Sessions` | the export walk, manifest checks, chunked transfer, one whole move, replacing a tree, session files |
| `Layouts`, `Excludes` | `init`: the instruction files, the link to the skills, `.gitignore`, Git's own exclude file, the marker |
| `Frames`, `Delivery`, `Retry` | the frame batcher, delivery to the server's frame endpoint, the retry loop |
| `Claims` | poll rounds, the control lease, the server's claims |
| `Seats`, `Drivers` | accounts and their environment, driver generations, healing |
| `RootChange`, `Worktrees`, `Logs` | the acknowledged root change, session worktrees, log rotation |
| `Objects`, `Schedules` | stored attachments, personal schedules |

`dafny verify dfyconfig.toml` checks everything.

## What the proofs show about the code

Most properties hold for all inputs. These do not, and the model says exactly when they do:

- **Migration.** What arrives is the source at every path the migration answers for if nothing sits
  below a directory that Git lists as an unchanged tracked file, and every path of HEAD that Git
  misses is gone from the disk, or else is spared by the deletion list and hidden by something that
  arrives. For workspaces whose HEADs do not reach into nested repositories this is an
  if-and-only-if (`MigrationLimits.MigrationIsIdentityIff`). Everyday working trees that break it: a
  file removed with `git rm --cached` is lost, the old name after `git mv` comes back (the list of
  deletions leaves out renames), a directory that replaced a staged file is lost. A repository inside
  another one, committed there without being a submodule, is lost as a whole.
- **Manifests.** `validate_manifest` accepts an entry named `.`, which cannot be laid out; every other
  accepted manifest can. A file name with a backslash is exported but refused by the target, so such a
  workspace cannot be moved.
- **Frames.** After a `finish` that failed, a second one can never succeed: its frames follow an end
  mark, which the server refuses. With batches nothing of the batch that holds both end marks is
  stored, so the call stays open. Whatever is lost, served late or met by an older replica, a flush with
  enough requests answered succeeds exactly when nothing follows an end mark.
- **Initialising.** What arrives is not yet what is installed: `finish` runs `init` on the staged tree. It
  refuses a workspace in which `AGENTS.md` and `CLAUDE.md` are different files, or `AGENTS.md` is a link to
  somewhere else, or Git's exclude file is out of reach, and it refuses only after all repositories have
  been put back: no clone is left then, so that no later request for this transfer can succeed. Otherwise
  it rewrites exactly the leaves that `Layouts.Rewritten` lists: two equal instruction files become one, a
  link and a file set aside, and without a `.git` a `.gitignore` and `.claude/skills` appear. What is
  installed is the source exactly when the conditions of the migration hold, provided that this layout was
  there (`Installs.Laid`; in a repository: one of the two names is a link to the other). Each of the two
  if-and-only-ifs of `Moves.Migrate` assumes the other's condition, because `init` can repair what the
  migration lost (`Installs.InitRepairs`).
- **Install.** However often `finish` is tried and wherever each try is cut off, the stage stays until the
  new workspace is in place (a sweep of old stages is the only other thing that removes one); until then the
  old workspace is at the target or set aside, and each file to be moved is in the stage or in a clone, and
  after that at the target. A file that a deletion list names too, and what `init` rewrites, are not
  promised; what was at `CLAUDE.md` may be at a preserved name. Until `init`, the new tree
  is whole in the stage exactly when each repository has its `.git` there. For a workspace that is itself a
  repository there is a moment without: the staged directory has been removed and all is in the clone. A
  try cut off there, or after a first repository was put back, or within `init` with repositories, cannot be
  repeated: the files no longer pass the checks, or the first clone is missing. Without repositories a later
  try succeeds exactly when the listed files are still whole, the listed links fit, and `init` does not refuse
  the stage with them: not so after a listed `CLAUDE.md` has become a link, after a directory of listed skill
  links has become one link, or after a cut between emptying the marker and writing it. A crash between the
  two renames leaves the target without a directory; if there are repositories, no retry can close that gap,
  and a sweep of stages more than six hours old then removes both workspaces.
- **Drivers.** When a seat switch cannot be saved, the next discovery round labels the running driver with
  the seat that was asked for. The stop that heals a driver happens in a thread that looks the driver up
  again: it hits the driver that was found at fault exactly when no seat switch came in between.
- **Root change.** A save that fails after the file was replaced leaves the disk ahead of memory until the
  next save or restart; memory equals disk in exactly all other cases.
- **Log rotation.** The files are the end of everything written, once and in order, if no byte was
  written between copy and cut and no copy failed half-way; what is written in that window is missing
  from then on, and what a failed copy had copied is there twice.
- **Schedules.** A confirmed task passes the check before each run exactly if it has a prompt and a known
  place to deliver to: any private chat, or a group among those listed for its owner. That is judged by what
  is known at the time of the run: once the owner's private chat is another one, a task that goes to the old
  one no longer runs. A draft whose task has changed since is refused, whatever happened in between.
- **Seats.** Back on the default seat the environment is the original one unless that was the empty string.
  Two seats share an environment only if the default one's own variable names the directory of the other.

## Model

| member | source | states |
|---|---|---|
| Merge.MergeTree | runtime_daemon/workspace.py:114-130 | wherever it is cut off nothing is invented and every leaf of the overlay is there or has arrived; not cut off, merging in place leaves at the base exactly the overlay's entries, and the base's where nothing of the overlay that is no directory stands at or above them; terminates on tree height |
| Merge.MergeEntry | runtime_daemon/workspace.py:116-130 | one entry: directories on both sides are merged, anything else replaces what is there; links are leaves; cut off, it has lost nothing |
| Trees.ThroughWhole | runtime_daemon/workspace.py:114-130 | merging two whole trees gives the overlay in closed form |
| Trees.OverlayIdempotent | runtime_daemon/workspace.py:114-115 | merging the same overlay a second time changes nothing |
| Trees.OverlayNotAssociative | runtime_daemon/workspace.py:119-130 | merging is not associative: directory over file over directory |
| Trees.OverlaidWellFormed | runtime_daemon/workspace.py:114-130 | the merge of two directory trees is a directory tree |
| Names.JoinedParts | runtime_daemon/workspace.py:757-758 | the components of a joined path are the path |
| Names.JoinedNormal | runtime_daemon/workspace.py:757-758 | the name of a path is in normal form |
| Names.GitTravels | runtime_daemon/workspace.py:75-85 | `.git` is forbidden to file management but not to a move |
| Git.CleanIffInnermost | runtime_daemon/workspace.py:133-140 | `clean_in_repo` asks the innermost repository only, in both directions |
| Git.CleanFromLocal | runtime_daemon/workspace.py:526-546 | repositories described later in the walk do not change what `clean_in_repo` says about a path above them |
| Exports.Export.Run | runtime_daemon/workspace.py:506-576 | the walk lists exactly the shipped paths, reports exactly the excluded ones, describes each repository it reaches once, and fails exactly over the limits |
| Exports.PartialWithin | runtime_daemon/workspace.py:506-576 | a walk that has gone over the limits has a source over the limits, whatever its order; a whole listing has exactly the source's files and bytes |
| Exports.WalkComplete | runtime_daemon/workspace.py:519-566 | a finished walk has missed no path |
| Exports.EntryVerdict | runtime_daemon/workspace.py:530-566 | the tests of the loop body, in their order, decide whether a path is shipped, reported, descended into or left to the clone |
| Manifests.ValidateManifest | runtime_daemon/workspace.py:746-778 | accepts exactly manifests with few entries, valid, normal and distinct names, no entry below another, sound links and sizes within the limit |
| Manifests.PutAllStaged | runtime_daemon/workspace.py:794-798 | entries that stand apart can be created in any order, with repetitions, and give the tree of their map |
| Manifests.Materialisable | runtime_daemon/workspace.py:746-778 | an accepted manifest can be laid out in every order if and only if it has no entry for `.` |
| Manifests.MaterialisedExactly | runtime_daemon/workspace.py:858-874 | the laid out tree holds the manifest's entries, each with its content, and nothing else |
| Manifests.DotIsAccepted | runtime_daemon/workspace.py:753-757 | an entry for `.` is accepted and cannot be laid out |
| Staging.Stage.Begin | runtime_daemon/workspace.py:780-799 | the first request stores an accepted manifest and creates its empty files, or changes nothing |
| Staging.Stage.Receive | runtime_daemon/workspace.py:807-828 | a chunk is appended exactly when the entry is a file, the offset is what was received and the size is not exceeded; anything else changes nothing; honest chunks keep every staged file a prefix of the source's |
| Staging.CheckFiles | runtime_daemon/workspace.py:858-863 | accepts exactly complete files with the right digest |
| Staging.MakeLinks | runtime_daemon/workspace.py:865-874 | wherever it is cut off, only links of the manifest and directories above them are added; nothing goes wrong over files that do not contradict the manifest; over any directory tree, for entries that stand apart, it fails exactly if a link finds something else in its place or in its way, and otherwise leaves the staged links under what was there |
| Staging.LayOut | runtime_daemon/workspace.py:858-874 | over files that do not contradict the manifest it fails exactly when one is not whole, over any directory tree, for entries that stand apart, exactly when one is not whole or a link does not fit; a file that is not whole is found before any change |
| Staging.LaidOut | runtime_daemon/workspace.py:844-876 | what was received whole is part of the manifest's tree, and with the links it is that tree |
| Restore.RemoveDeleted | runtime_daemon/workspace.py:897-903 | removes exactly the listed files and links that the path check lets through; cut off, some of them |
| Restore.RestoreRepo | runtime_daemon/workspace.py:886-907 | one turn: fails exactly when the clone is unfinished or something that is no directory is in the way; otherwise the overlay on the clone, less the deletions, stands in its place; wherever it is cut off, nothing is invented, and what was staged is in the files or in the clone, apart from deletions |
| Restore.SortDeepest | runtime_daemon/workspace.py:886 | the descriptors, each once, deepest path first |
| Reassembly.RestoreRepos | runtime_daemon/workspace.py:881-907 | from wherever earlier tries have left the stage: fails exactly at a clone that is missing, at the first one without a change; otherwise gives the arrival tree and has used up all clones; and keeps `Held` wherever it stops; without repositories it changes nothing |
| Reassembly.Resumed | runtime_daemon/workspace.py:893-907 | with all files still there, the first turn comes out the same whatever an earlier try had done in it |
| Reassembly.GitAway | runtime_daemon/workspace.py:519-524 | before its turn no `.git` of a repository is among the staged files |
| Reassembly.LeafStays | runtime_daemon/workspace.py:886-907 | what is staged survives all turns, unless a deletion list names it |
| Migration.MigrationIsIdentity | runtime_daemon/workspace.py:506-646 | for any nesting of repositories, clone at HEAD, overlay and deletions, innermost first, give the source's path-to-leaf map: nothing missing, nothing extra |
| MigrationLimits.MigrationIsIdentityIff | runtime_daemon/workspace.py:881-907 | for ordinary workspaces the two conditions are also necessary |
| MigrationLimits.HiddenIsLost | runtime_daemon/workspace.py:537-540 | what lies below a path taken for an unchanged file never arrives |
| MigrationLimits.DeletedIsLost | runtime_daemon/workspace.py:897-903 | a file reported as deleted that still exists is copied and then removed |
| MigrationLimits.SparedComesBack | runtime_daemon/workspace.py:630-632 | a missing path that the deletions spare comes back from the clone |
| MigrationLimits.UncachedFileIsLost | runtime_daemon/workspace.py:630-632 | concrete: `git rm --cached` |
| MigrationLimits.RenamedFileComesBack | runtime_daemon/workspace.py:632 | concrete: `git mv` |
| MigrationLimits.ReplacedDirectoryIsLost | runtime_daemon/workspace.py:630-646 | concrete: a staged file replaced by a directory |
| MigrationLimits.EmbeddedRepoIsLost | runtime_daemon/workspace.py:537-540 | concrete: a repository committed inside another one without being a submodule |
| Moves.ExportedAccepted | runtime_daemon/workspace.py:746-778 | what an export lists the target accepts if and only if no name has a backslash |
| Moves.ExportedMap | runtime_daemon/workspace.py:530-562 | the manifest of an export is the map of the shipped paths, with true sizes and digests |
| Moves.SendFile | coreman/core/bots/workspace_transfer.py:267-308 | sending a file chunk by chunk stages exactly that file |
| Moves.Migrate | coreman/core/bots/workspace_transfer.py:201-308 | the whole sequence of requests, from export to the installed workspace. It succeeds if and only if the workspace is within the limits, no name has a backslash, the target is not another bot's and `init` does not refuse what arrived; then what arrived, initialised, stands at the target. Given the two conditions of the migration it is the source's tree exactly if the layout was there; given the layout (and an ordinary workspace), exactly under the two conditions. Otherwise the target stays as it was, after a refusal by `init` with all clones used up |
| Excludes.ExcludeRead | runtime_daemon/workspace.py:199-225 | after both rewrites the lines that hid the instruction files are gone, the marker and the memory directory are listed, and all other lines are there as before, in their order |
| Excludes.ExcludeHas | runtime_daemon/workspace.py:199-225 | which lines those are: `AGENTS.md` and `/AGENTS.md` go, the marker and the memory directory come |
| Excludes.ExcludeAgain | runtime_daemon/workspace.py:199-225 | rewriting the exclude file a second time leaves it as it is, byte for byte |
| Layouts.Instructions | runtime_daemon/workspace.py:360-397 | refuses exactly two different files or a foreign link at `AGENTS.md`, then without a change; otherwise one file and one link; cut off anywhere, what was at `CLAUDE.md` is there or at a preserved name |
| Layouts.LinkSkills | runtime_daemon/workspace.py:228-250 | outside repositories a directory that holds only links to the common skills is replaced by one link; cut off anywhere, nothing else is touched |
| Layouts.Shield | runtime_daemon/workspace.py:188-225 | both rewrites of Git's exclude file, or a refusal if it is a link, out of reach or no file |
| Layouts.Init | runtime_daemon/workspace.py:334-358 | fails only for the reasons of `Refuses`, and never succeeds despite them; otherwise the tree is `Initialised`; wherever it is cut off or refused, each leaf is there, set aside, or one that `init` rewrites, and new leaves are only at its own places |
| Layouts.TornMarker | runtime_daemon/workspace.py:338-354 | a cut between emptying and writing the marker is a state of `init` that every later one refuses |
| Layouts.InitialisedAt | runtime_daemon/workspace.py:334-397 | a path's leaf differs after `init` if and only if `Rewritten` names it |
| Layouts.InitialisedLeaf | runtime_daemon/workspace.py:334-397 | what is at every path after `init`: a new `AGENTS.md` with the instructions given, or the old `CLAUDE.md` moved there, and the link beside it; the second of two equal files at the first free preserved name; `.gitignore` and the one link to the skills where they were missing; the exclude file rewritten; the marker; and every other leaf as it was |
| Layouts.AcceptsWhen | runtime_daemon/workspace.py:334-397 | `init` accepts a tree if and only if the marker is missing or its own, no two different instruction files and no foreign link stand there, and Git's exclude file can be written |
| Layouts.SkillsToLinkIs | runtime_daemon/workspace.py:228-250 | the skills are turned into one link if and only if, outside a repository, nothing is at `.claude/skills` or a directory of links to the common skills alone |
| Layouts.FreshWorkspace | runtime_daemon/workspace.py:334-397 | concrete: a new workspace has the instructions, the two links, `.gitignore` and the marker, and nothing else |
| Layouts.InitialisedTwice | runtime_daemon/workspace.py:334-397 | a second `init` by the same bot is not refused and changes no leaf |
| Layouts.LandedStays | runtime_daemon/workspace.py:388-397 | what one try of `init` has set aside stays through any later one |
| Layouts.SecondSetAside | runtime_daemon/workspace.py:388-397 | of two equal instruction files the second is at the first free preserved name afterwards, with a link in its place |
| Installs.PutTogether | runtime_daemon/workspace.py:857-876 | checks, links and repositories, cut off anywhere: keeps the leaves; done exactly when all files are whole and all clones there, and then the stage is the arrival tree |
| Installs.Target.Install | runtime_daemon/workspace.py:830-842 | `init`, then the renames: done, the target is the initialised tree; failed, `init` refused and the target is as it was; cut off, `init` or the renames have come some way |
| Installs.Target.Finish | runtime_daemon/workspace.py:830-879 | keeps `Sound` wherever it is cut off: the old workspace stands or is set aside until the new one is in place, and the stage goes only then. Not cut off, it succeeds exactly when the workspace is installed already, or the target is not another bot's and: from a stage that `init` has not touched, all checks pass, all clones are there and `init` does not refuse the arrival tree; without repositories, from any stage, the files are whole, the links fit and `init` does not refuse the stage with them; with repositories, from a stage that `init` has touched, never. After a refusal by `init` no clone is left. A missing first clone leaves target, set-aside and clones as they are |
| Installs.Retries | runtime_daemon/workspace.py:844-879 | the same over any number of tries, each cut off anywhere: success means installed, without success the stage is still there, and no leaf of the manifest is lost; with the first clone gone, a listed file not whole, a link that does not fit or (without repositories) a torn marker, no try succeeds or changes the target |
| Installs.LeavesKept | runtime_daemon/workspace.py:881-907 | wherever any number of tries was cut off, each leaf of the manifest is in the files, in a clone or at the target, or set aside by `init`, or is a link that the next try makes, unless a deletion list names it or `init` rewrites it; only a stage that something else has removed is excepted |
| Installs.WholeWhen | runtime_daemon/workspace.py:881-907 | until `init`, the new tree is whole in the stage if and only if each repository has its `.git` there (or, without repositories, all is laid out) |
| Installs.BareIsRefused | runtime_daemon/workspace.py:904-907 | with the staged directory removed and all in the clone the stage is not whole, and a retry is refused if the manifest lists a file |
| Installs.FittedIsLast | runtime_daemon/workspace.py:838-842 | once `init` has begun, hence also between the renames, the first clone is gone if and only if there are repositories |
| Installs.AliasIsRefused | runtime_daemon/workspace.py:858-863 | a listed `CLAUDE.md` that an earlier try turned into a link fails the checks of every later one |
| Installs.SkillsAreRefused | runtime_daemon/workspace.py:865-874 | listed links below `.claude/skills` no longer fit once that is a link |
| Installs.SweptInTheGap | runtime_daemon/workspace.py:107-111 | a sweep keeps `Sound` if and only if it does not hit the gap with a stage over six hours old, and then both workspaces are removed |
| Installs.ReceivedSound | runtime_daemon/workspace.py:780-828 | files received whole beside clones just made satisfy what every try keeps |
| Installs.InitialisedIdentity | runtime_daemon/workspace.py:334-397 | if the source arrived, it is what is installed exactly if the layout was there; if the layout was there, exactly if it arrived |
| Installs.LaidInRepository | runtime_daemon/workspace.py:360-397 | in a repository the layout was there if and only if one of `AGENTS.md` and `CLAUDE.md` is a link to the other |
| Installs.ConflictIsRefused | runtime_daemon/workspace.py:378-384 | concrete: two different instruction files meet all conditions of the migration and are refused |
| Installs.SecondCopyIsSetAside | runtime_daemon/workspace.py:388-397 | concrete: two equal instruction files arrive as one file, a link and a preserved copy |
| Installs.InitRepairs | runtime_daemon/workspace.py:367-375 | concrete: a link to `CLAUDE.md` taken out of the index is lost by the migration and made again by `init` |
| Sessions.SessionFile.Import | runtime_daemon/agent.py:532-563 | one chunk of a session file: refused without effect, appended, discarded on a wrong digest, or installed whole |
| Sessions.ImportedWhen | runtime_daemon/agent.py:532-563 | any chunk, true or not: refused if and only if it may not be taken, and then without effect; otherwise its bytes join the part file, which is gone once it has its size, and in place of the target if and only if it has the digest |
| Sessions.TargetIsWhole | runtime_daemon/agent.py:532-563 | over any requests that tell the truth, lost, repeated or reordered, and wherever the agent crashes within one, the target is the old file or the source's, and part files are prefixes |
| Sessions.HonestStep | runtime_daemon/agent.py:545-563 | the target changes only in the completing step, and a refused chunk changes nothing |
| Sessions.TargetHasDigest | runtime_daemon/agent.py:555-563 | whatever is sent, the target only takes content with the requested digest, and other transfers are untouched |
| Sessions.ChunksInstall | runtime_daemon/agent.py:515-563 | sending the remaining chunks in order installs the file, also when a crash has left the part file complete |
| Frames.Slices | runtime_daemon/daemon.py:668-669 | the slicing gives pieces of at most 48 KiB, one empty piece for no data |
| Frames.PiecesWhole | runtime_daemon/daemon.py:662-678 | the frames of a flush carry the buffered bytes, once and in order, none over 48 KiB |
| Frames.CutIs | runtime_daemon/daemon.py:650-680 | what a flush makes of the buffer: numbered frames behind those not sent, all full but the last, carrying exactly the bytes, the header on the first alone and the end mark on the last; none if there is nothing to say |
| Frames.FrameBatcher.Add | runtime_daemon/daemon.py:639-648 | adds the bytes, or raises the error of an earlier timed flush and takes nothing |
| Frames.FrameBatcher.Begin | runtime_daemon/daemon.py:662-678 | the buffer becomes numbered frames behind the unsent ones, header on the first, end mark on the last |
| Frames.FrameBatcher.Settle | runtime_daemon/daemon.py:678-690 | sent frames are forgotten only after success; a timed failure is kept for `add` |
| Delivery.Receiver.Post | coreman/api/routers/runtime_protocol.py:707-775 | the frame endpoint: what it stores and answers for every batch |
| Delivery.AcceptExactly | coreman/api/routers/runtime_protocol.py:707-775 | the answer to any frames of a response, and its reason, by what is stored: cancelled, nothing new, a gap or an end mark too early, too long, too crowded for data, a header that contradicts; and that all that is new is stored with its status and header if the answer is 200, and nothing otherwise |
| Delivery.Sender.SendFrames | runtime_daemon/daemon.py:1430-1444 | batches of 32, or frame by frame for good once a 422 came back; `Downgrades`, `ClearRoad` and `StoredIsPrefix` say what comes of it |
| Delivery.Downgrades | runtime_daemon/daemon.py:1430-1444 | a flush gives up batches, for good, if and only if one of them met a replica that does not know them; then all frames are sent one by one, whatever the batches had brought over; otherwise the protocol stays as it was |
| Delivery.LateSlice | coreman/api/routers/runtime_protocol.py:707-775 | a request that is served long after its client gave it up never breaks the stored prefix: what is missing before it keeps it out |
| Delivery.StoredIsPrefix | runtime_daemon/daemon.py:639-690 | over every interleaving of adds, flushes, lost requests, late ones and cancellation (between flushes or between two attempts of one), lost replies and the downgrade the stored bytes are a prefix of those given, in frames 0, 1, 2, ... of at most 48 KiB, none after an end mark |
| Delivery.FinishDeliversAll | runtime_daemon/daemon.py:650-656 | after a successful `finish` everything given is stored, once, in order, end mark last |
| Delivery.StatusTravels | runtime_daemon/daemon.py:639-680 | over every run the first frame a flush makes carries a status if and only if that is the last one given since the flush before, and no other frame does |
| Delivery.StatusArrives | coreman/api/routers/runtime_protocol.py:745-760 | over every run the status the server has is the one its stored frames carry, and they carry no other |
| Delivery.SecondFinishFails | runtime_daemon/daemon.py:1293-1307 | no flush after a second end mark can succeed |
| Delivery.SecondFinishStoresNothing | coreman/api/routers/runtime_protocol.py:727-732 | a batch with both end marks stores nothing, if nothing else reaches the server meanwhile |
| Delivery.ClearRoad | runtime_daemon/daemon.py:662-680 | whatever is lost, served late or answered by an older replica, with enough requests answered for all frames to be sent twice a flush succeeds if and only if nothing follows an end mark |
| Retry.Call | runtime_daemon/daemon.py:860-890 | for all latencies, statuses and Retry-After values: at most 9 requests with retries and 1 without, none at or after the deadline, no sleep past it, each after a failure worth it; a sleep lasts for the growing delay or for Retry-After, whichever is longer, and the next request follows at once; and why it ended |
| Retry.SleepsLongEnough | runtime_daemon/daemon.py:874-888 | each sleep ends at the deadline, or after the delay and after the time the answer asks for, and no later than that |
| Claims.Poller.Begin | runtime_daemon/daemon.py:1446-1459 | finished tasks are dropped, and the poll offers the free slots |
| Claims.Poller.Unanswered | runtime_daemon/daemon.py:1470-1474 | a wait is given up on purpose only without free slots |
| Claims.Poller.Receive | runtime_daemon/daemon.py:1475-1496 | the answer: reported ids leave `abandoned`, cancelled tasks are cancelled, commands are started, or handed back when stopping |
| Claims.Poller.LeaseOver | runtime_daemon/daemon.py:892-897 | an expired lease abandons all tracked calls |
| Claims.EveryCallAccountedFor | runtime_daemon/daemon.py:1446-1502 | over every run up to the final shutdown each received call is exactly one of tracked, ended, abandoned, reported; never more than the maximum are tracked; what the server believes to run is known or its answer was lost |
| Claims.NodeFollows | runtime_daemon/daemon.py:1446-1496 | over every run, by the events alone: a call is tracked since it was commanded until the lease runs out or a poll finds it finished; it is to be cancelled since an answer said so while it was tracked; it is given up until a poll that carried it is answered |
| Claims.PollSays | runtime_daemon/daemon.py:1446-1459 | each poll names as running exactly the tracked, unfinished calls that no answer has asked to cancel, as abandoned exactly what is given up, and offers the rest of the maximum |
| Claims.FinishedFollows | runtime_daemon/daemon.py:1448 | over every run a tracked call counts as finished if and only if its task was seen to end |
| Claims.FlagsFollow | runtime_daemon/daemon.py:1460-1474 | over every run the node waits since its last poll, a slot counts as freed since a task ended after it, and stopping is for good |
| Claims.ServerFollows | coreman/api/routers/runtime_protocol.py:598-704 | over every run a call is claimed since a poll picked it, until it ends or a poll reports it as given up, and then it is over for good |
| Claims.AnswerIsServed | runtime_daemon/daemon.py:1475-1496 | the answer to the poll that waits is what the server last served it, and goes with the wait; a node that stops reports a last time what it gives up |
| Claims.GivenUpUntilReported | runtime_daemon/daemon.py:1475-1480 | an id leaves `abandoned` if and only if a poll that carried it was answered, and then the server has ended the call |
| Claims.InterruptLosesNothing | runtime_daemon/daemon.py:1469-1474 | dropping a wait without free slots loses no command |
| Seats.SeatBook.Activate | runtime_daemon/seats.py:211-219 | the new active seat and its environment, or, when saving fails, the seat alone |
| Seats.EnvironmentFollows | runtime_daemon/seats.py:152-181 | over every run of create, activate and remove the environment is that of the active seat, which exists; never more than 20 seats |
| Seats.SeatsFollow | runtime_daemon/seats.py:183-240 | over every run a seat exists since it was created, or from the start, until it is removed while not in use, and the active one is the last one chosen |
| Seats.VariableFollows | runtime_daemon/seats.py:152-181 | over every run the variable names the directory of the seat chosen, if that exists and is not the default one, and is otherwise what the service had set, an empty value being none |
| Seats.DefaultRestores | runtime_daemon/seats.py:163-181 | back on the default seat the variable has its original value if and only if that was not empty |
| Seats.SameEnvironment | runtime_daemon/seats.py:152-181 | two seats mean the same environment if and only if they are the same or the default's own variable names the directory of the other |
| Drivers.Daemon.ReapRetired | runtime_daemon/daemon.py:991-1008 | the loop keeps and tells exactly what `ReapedExactly` says |
| Drivers.Daemon.RotateDriver | runtime_daemon/daemon.py:978-989 | the running driver is put aside under its generation and a new one started |
| Drivers.Daemon.SwitchSeat | runtime_daemon/daemon.py:449-453 | a seat switch: the new seat's environment first, then the rotation; neither when saving fails |
| Drivers.Daemon.StopDriver | runtime_daemon/daemon.py:1049-1058 | stops whatever driver is current by then |
| Drivers.Daemon.StartDriver | runtime_daemon/daemon.py:936-976 | tags the generation and starts a process unless one lives |
| Drivers.Daemon.Heal | runtime_daemon/daemon.py:1060-1073 | the decision to stop, defer or leave a driver |
| Drivers.ReapedExactly | runtime_daemon/daemon.py:991-1008 | a retired driver stays if and only if it lives and serves a request of its generation; no busy one is told to terminate |
| Drivers.RetiredAreBusy | runtime_daemon/daemon.py:1308-1312 | over every run, after every rotation and every request's end, the retired drivers are exactly those that live and that a request which has begun and not ended was begun on |
| Drivers.RequestsFollow | runtime_daemon/daemon.py:1230-1312 | over every run the table holds exactly the requests that have begun and not ended, each with the generation that was current when it began, if it went to a driver |
| Drivers.GenFollows | runtime_daemon/daemon.py:978-989 | the generation is the number of seat switches |
| Drivers.ProcessesFollow | runtime_daemon/daemon.py:936-1058 | what each event of every run does to each process: started, with the environment and generation of that moment, exactly by a launch when none serves or by a switch; ended by itself or by healing; told to terminate exactly then, or once retired with no running request begun on its generation |
| Drivers.RoundFollows | runtime_daemon/daemon.py:1060-1113 | over every run a healing round goes from looking to stopping exactly when the history says so, then to the launch and the probe; a generation is tagged with the active seat at each launch and switch |
| Drivers.BookFollows | runtime_daemon/daemon.py:449-453 | what each event of every run does to the seats: the choice changes as asked, saved or not, the variable only when it can be saved |
| Drivers.ProcessesAccountedFor | runtime_daemon/daemon.py:978-1008 | every process ever started is current, retired, told to terminate or dead; retired generations are distinct and past; one live process per generation |
| Drivers.SeatOfRequest | runtime_daemon/daemon.py:1276-1290 | while saves succeed, the seat streamed for a request is the one its driver was started with, and the environment is that of the active seat |
| Drivers.UnsavedSwitch | runtime_daemon/daemon.py:936-940 | after a switch that could not be saved the label is right if and only if the seat is the same, or one of the two is the default whose own variable names the directory of the other |
| Drivers.SocketsApart | runtime_daemon/daemon.py:731-734 | socket paths of different providers or generations differ |
| Drivers.RestartInTime | runtime_daemon/daemon.py:1060-1113 | whatever requests, switches and crashes do, at most 32 probes in a row fail to connect before a new process is started, and no restart is deferred more than 30 times |
| Drivers.FaultsInTime | runtime_daemon/daemon.py:1038-1073 | whatever the fault is and whatever probes say in between, at most 31 rounds find a driver at fault before a process is started |
| Drivers.StoppedForCause | runtime_daemon/daemon.py:1038-1073 | over every run, each process that healing stops is preceded by a round that found a live driver without a socket or with two failed probes, with nothing running or 30 rounds waited; it is that driver if and only if no seat was switched since |
| Drivers.CondemnedWhen | runtime_daemon/daemon.py:1038-1073 | over every run a round condemns a driver if and only if, by the history of probes and rounds since it was started, it is at fault and nothing runs or 30 such rounds have passed |
| Drivers.HealHitsTheFaulty | runtime_daemon/daemon.py:1049-1073 | the stop hits the driver that was found faulty if and only if no seat switch came in between |
| RootChange.Daemon.ApplyRootChange | runtime_daemon/daemon.py:769-811 | one heartbeat's request, with every outcome of the save |
| RootChange.RequestTakesEffect | runtime_daemon/daemon.py:769-811 | over every run, a request taken up and saved is acknowledged in memory and on disk, and if it is usable the root of both and of every agent is the one asked for; saved halfway it is on disk alone; in all other cases a heartbeat changes nothing |
| RootChange.OthersTakeEffect | runtime_daemon/daemon.py:769-811 | other saves write what is in memory, and new agents start in the root in force |
| RootChange.TasksFollow | runtime_daemon/daemon.py:781-789 | a task counts as running if and only if it was tracked and has neither ended nor been forgotten since |
| RootChange.RootsAgree | runtime_daemon/daemon.py:769-811 | over every run of heartbeats, failed saves and restarts agents use the configured root, acknowledgements are true, and memory is on disk if and only if no write was left unsettled |
| RootChange.RootWasAsked | runtime_daemon/daemon.py:769-811 | over every run, failed saves and restarts included, the root in memory, on disk and of every agent is the first one or was asked for by a usable request taken up while no tracked task was running |
| RootChange.ChangesOnlyIdle | runtime_daemon/daemon.py:769-811 | over every run the configuration in memory changes at an event other than a restart if and only if a heartbeat's request is taken up, with no tracked task running, and the save is written; a restart reads what is on disk |
| RootChange.NeverReapplied | runtime_daemon/daemon.py:777-779 | a request acknowledged before a restart has no effect after it |
| Worktrees.WorkingCopy.Refresh | runtime_daemon/worktree.py:142-155 | fetch, fast-forward and the loop over idle worktrees |
| Worktrees.WorkingCopy.Ensure | runtime_daemon/worktree.py:111-139 | a worktree on the session's branch, taken up again or started from the remote's default branch |
| Worktrees.EnsuredWhen | runtime_daemon/worktree.py:111-139 | a session has its worktree afterwards if and only if it had one, or its place is free and its branch is there and not checked out, or can be started at the remote's default branch or, without one, at the commit checked out; a branch that is there is taken up as it is; nothing else changes but what was fetched |
| Worktrees.FastForwardWhen | runtime_daemon/worktree.py:148-151 | the main checkout moves along if and only if it is clean, on the remote's default branch, and behind it; the refresh fails if and only if the two have parted |
| Worktrees.RefreshKeepsHistory | runtime_daemon/worktree.py:142-166 | after its fetch a refresh, failed or not, leaves exactly the same commits reachable |
| Worktrees.RefreshRemovesExactly | runtime_daemon/worktree.py:158-166 | a refresh that does not fail at its fast-forward removes exactly the worktrees that are idle, clean, on a session branch and merged into the remote's default branch as just fetched, and with them exactly their branches |
| Worktrees.SessionKeepsCommits | runtime_daemon/worktree.py:129-166 | while the remote's default branch only moves forward, a session that comes back starts from a commit containing all its earlier ones |
| Logs.LogFile.Rotate | runtime_daemon/logs.py:63-85 | the loop over backup numbers, the copy and the cut |
| Logs.RotatedFiles | runtime_daemon/logs.py:63-85 | a log is left alone if and only if it is not over the limit; over it, the live file is empty and number 1 what it was, every other backup is one number higher, and the oldest stays only if there was none to take its place |
| Logs.RotatedContent | runtime_daemon/logs.py:74-84 | a rotation appends the live file to the backups and drops at most the oldest, gaps or not |
| Logs.TornContent | runtime_daemon/logs.py:79-84 | a copy that stops early repeats what was copied |
| Logs.LogIsSuffix | runtime_daemon/logs.py:63-85 | over every run, torn copies and shifts that stop half-way included, backups and live file are the end of all that was copied off and not yet cut, in at most `backups` files; its length is that of what was written, less the bytes lost, plus the bytes repeated; and it is what was written, once and in order, if and only if none was lost and none repeated |
| Logs.LostInTheWindow | runtime_daemon/logs.py:82-84 | concrete: a byte written between copy and cut |
| Logs.RepeatedAfterFailure | runtime_daemon/logs.py:82-84 | concrete: a copy that fails half-way |
| Objects.Store.Receive | coreman/core/object_store.py:86-95 | all chunks, or as many as fit before one exceeds the limit, as a run of write events |
| Objects.JoinedSplit | coreman/core/object_store.py:86-95 | the file holds the bytes of the chunks in their order |
| Objects.Store.Put | coreman/core/object_store.py:68-115 | an upload is the run begin, write, ..., place, with the whole file in place, or ends in a drop that leaves nothing |
| Objects.Store.Commit | coreman/core/object_store.py:104-115 | the commit, with the expiry a day after the upload began; over its 180 seconds the upload has been dropped |
| Objects.Store.SelectDue | coreman/core/object_store.py:119-127 | the query: expired rows that nobody holds, oldest first, at most 500 |
| Objects.Store.FindOld | coreman/core/object_store.py:139-165 | the scan: files over 25 hours old, at most 500, all of them if fewer |
| Objects.Store.Cleanup | coreman/core/object_store.py:117-173 | is a run of unlinks, reaped orphans and, if committed, deleted rows; the rows are the oldest expired ones, the orphans old files without a row |
| Objects.Store.Download | coreman/api/routers/objects.py:24-42 | the whole file is sent only for a link with this object's own signature, within its time and while the object is there; the link of an object is answered with it exactly until the second in which it expires; the file is always there |
| Objects.LinkHonoured | coreman/core/object_store.py:56-66 | over every run of uploads, crashes and cleanups an unexpired object has its whole file, and a link once minted is valid for this object and with its own expiry alone, exactly until the second in which the object expires |
| Objects.GoneAfter | coreman/core/object_store.py:117-138 | `n` expired rows are gone after `n / 500` committed rounds, rounded up, whatever happens meanwhile |
| Objects.CleanUp | coreman/runtime/scheduler/service.py:386-405 | the same of the loop over `cleanup`, with any events of other tasks between its rounds |
| Schedules.MakePlan | coreman/core/personal_schedules.py:198-222 | the sampling loop and the one-off range |
| Schedules.PlanAccepted | coreman/core/personal_schedules.py:200-215 | a plan is accepted if and only if the sampled triggers are an hour apart, or the one time is a minute to thirty days away; what it says, and what is wrong with it otherwise |
| Schedules.ResolveTargets | coreman/core/personal_schedules.py:356-407 | recipients, each once, or the first reason to refuse them |
| Schedules.TargetsAccepted | coreman/core/personal_schedules.py:366-404 | recipients are accepted or not as a set, whatever their order and repetitions |
| Schedules.TargetsAre | coreman/core/personal_schedules.py:366-407 | accepted recipients are exactly those asked for, the owner first |
| Schedules.TargetsGrow | coreman/core/personal_schedules.py:366-373 | recipients named later move none of those before |
| Schedules.OpenedWhen | coreman/core/personal_schedules.py:603-645 | when a draft is stored for confirmation, with the defaults for what is not mentioned, inside groups and outside |
| Schedules.Database.ApplyConfirmed | coreman/core/personal_schedules.py:795-872 | what a confirmation checks, in its order, and writes |
| Schedules.ConfirmedWhen | coreman/core/personal_schedules.py:795-840 | a confirmation succeeds if and only if nothing is against the draft at that time, the task it changes is still there, the actor's, in the version that was seen and not busy, and the task makes no more than ten; otherwise the first of these reasons is given |
| Schedules.ConfirmedWrites | coreman/core/personal_schedules.py:841-872 | what is written: the content of the draft, cut to length, for the same recipients, the first trigger, the place to deliver to, one version further; outside groups the chat is learnt as the actor's own |
| Schedules.StaleDraft | coreman/core/personal_schedules.py:826-832 | no lost update: whatever happens between a draft and its confirmation, the confirmation succeeds only if the task is still exactly what the draft was made from, and is refused for having changed if and only if it has |
| Schedules.CardIsStale | coreman/core/personal_schedules.py:603-667 | the same from the opening of a draft on |
| Schedules.ConfirmedMayRun | coreman/core/personal_schedules.py:878-908 | a task just confirmed passes the check before each run if and only if it has a prompt and a known place to deliver to |
| Schedules.MayRunWhen | coreman/core/personal_schedules.py:878-908 | over every run, and by whatever is known later, a task may run for somebody if and only if that is its owner, who may still use the bot and whose groups its chats still are, and it has a prompt and a place: the private chat as it is then or, if it is not for the owner, a group of theirs |
| Schedules.TasksFollow | coreman/runtime/scheduler/cron.py:38-190 | over every run a task exists from the confirmation that creates it until it is deleted; is on since it was confirmed or resumed until it is switched off or used up; runs since the scheduler started it, which it does only when the owner may run it; and a run at once is outstanding since it was asked for |
| Schedules.ContentStays | coreman/api/routers/self_reminders.py:156-203 | only a confirmation changes what a task is; its next time is the one given when it is resumed or started, and none once it is paused |
| Schedules.DraftRoundTrip | coreman/core/personal_schedules.py:706-719 | a task drafted again and confirmed again, at other times and from any conversation, is the same task if and only if its recipients are distinct with the owner first and its name and prompt are within the length limits |
| Schedules.ConfirmedNeat | coreman/core/personal_schedules.py:816-826 | every confirmed task has such recipients, name and prompt |
| Schedules.NeverMoreThanTen | coreman/core/personal_schedules.py:256-269 | over every serial run of confirmations, pauses, deletions, resumptions, forced and scheduled runs nobody has more than ten enabled tasks, and every task can be drafted and confirmed again unchanged |

## Left out

Of workspaces and sessions:

- File modes, empty directories, modification times, and the inside of `.git` (branches, upstreams, bundles): a move answers for files and links only.
- `describe_repo` and `clone` are assumptions: Git's lists are accurate for HEAD and index, and a clone has HEAD's tree. Which repositories can be described is an input.
- Where links lead, and which paths the check in `path` refuses, are inputs; symbolic-link attacks, permissions and escapes are not modelled.
- Digests are taken to be free of collisions and stand for the content itself; lower-casing covers ASCII only.
- `Merge.MergeTree` iterates over the children in any order: the proof shows that the order does not matter. The same holds for the walk of `export` and for `sorted(deleted)`.
- Exports.Export.Run: `excluded` is a set that is not cut to 1000 entries; file modes are not listed.
- Moves.ExportedAccepted: where the target finds that links lead is not modelled; every exported link passes its checks.
- Moves.Migrate: the clones are given as made; copying a repository that cannot be cloned (`expand`), and a source that changes during the copy, are not modelled.
- Installs.Target.Finish: only `replace`; the record belongs to the request. Removing a directory is one operation, as is making one with those above it, and a temporary file that an interrupted replacement leaves behind is not seen. Between tries nothing else writes to the stage.
- Layouts.Init: the markers that name this bot are an input, as is where a link at `.git` leads; reading and writing succeed.
- Excludes.ExcludeRead: lines end in LF, CR or both, not in the rarer line ends of Unicode; undecodable text, for which `init` fails, is not modelled.
- Installs.LeavesKept: a stage that a sweep has removed holds nothing; a file that is listed and that a deletion list names too is not promised (`MigrationLimits.DeletedIsLost`), nor are the exclude file, the marker and links below `.claude/skills`, which `init` rewrites.
- Installs.SweptInTheGap: the age of the stage is an input.
- `session_export` and `write` of single files: counting and optimistic locking, with easy state.

Of the daemon:

- Timers, sockets, subprocesses, TLS, logins and the HTTP client: their outcomes are events and parameters.
- Delivery.Receiver.Post: the limit on buffered chunks is an outcome (`crowded`); malformed base64 is not modelled; responses and headers are numbers.
- Claims.Poller.Receive: what a started or cancelled task does, and tasks that `cancel_all` dropped and that are still winding down; the bound is about tracked tasks. The final shutdown is not an event.
- Drivers.Daemon.RotateDriver: one provider; the others have their own generations, seats and variables, and entries of their own in the shared list of retired drivers. Reading the generation for a request and recording it is one step.
- Seats.SeatBook.Activate: labels, shared links and the logout of removed accounts.
- RootChange.Daemon.ApplyRootChange: the checks on the new directory are one outcome; a restart is one of the process, not of the machine.
- Worktrees.WorkingCopy.Refresh: Git commands other than the fetch and the fast-forward succeed; cleanliness and idleness are inputs; detached worktrees are never removed, and commits reachable only from them are not counted.
- `LogRotator`'s timer and its list of targets; each log rotates by itself.

Of the server:

- Objects.Store.Put: the temporary file is the upload itself, and goes with it; an upload that its source breaks off is an event (`Drop`), not an outcome; rows hold the content instead of size and digest. The clock never runs backwards, and a commit comes within the 180 seconds of its upload.
- Objects.Store.Cleanup: leftover temporary files are not listed; rows are deleted at the commit, not before it; errors while unlinking are crashes.
- Objects.LinkHonoured: the keyed digest is a value that only the store can make.
- Schedules.TasksFollow: a run that is due while the last one is still going on, a task found invalid, expired or overdue when it is due, and the time at which a one-off task was consumed are not events; a task is resumed only if the console lets it.
- Schedules.ResolveTargets: labels, cards and messages; names and prompts are taken as already stripped; a cron expression is the list of its triggers; times are whole seconds.
- The limit of five pending drafts is an input of `Schedules.Opened`; drafts expire outside the model.
- Database concurrency: transactions are serial. Listings, HTTP handlers, command line, migrations, installers and service managers.
