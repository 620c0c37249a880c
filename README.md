# Warren, modelled in Dafny

Warren is a GTK file manager for Linux with optional Hyprland integration. This project models its
non-graphical core and proves properties of that model.

- **File-operation engine.** An `Operation` record moves through the states Pending, Running,
  Completed, Failed and Cancelled. Seven runners work on it: copy, copy-multiple, move (rename
  first, copy as the fallback), move-multiple, delete, delete-multiple and rename. They run
  against an in-memory filesystem whose primitives can fail. The user's cancel arrives just before
  one of the runners' `IsCancelled` checks. An `OperationQueue` keeps the history of operations, the
  index of running ones, and a bounded number of run slots.
- **Listing and sorting.** `ListDirectory` filters and flags the entries of a directory.
  `SortFiles` puts directories first, then compares by the sort mode's key, and flips the
  comparison for descending order.
- **Path and size helpers.** `GetParentDir`, and the choice of unit and divisor in `FormatSize`.
- **Workspace memory.** The directory last visited on each Hyprland workspace.
- **Hyprland client strings.** The runtime directory, the socket paths, the split of an event line
  and the dispatch commands.
- **Main-window glue.** Key-binding matching, the order in which the key handler tries its
  branches, the Hyprland setup, the event listener and the saving of the current directory.
- **Status-bar and sort-label text**, and the **version strings**.
- **File view.** The state of the file list: the files, the path, the selection and the sort
  options.
- **Configuration.** The defaults, the XDG location rule, the overlay of a parsed file on the
  defaults, the sort-option parsers and the choice of the start directory.

Modules follow the program's packages:

| Module | File | Models |
|---|---|---|
| `Models` | `models.dfy` | `pkg/models` |
| `GoStrings`, `GoPaths` | `gostrings.dfy`, `gopaths.dfy` | the parts of Go's `strings`, `strconv` and `filepath` that are used |
| `Operations` | `operation.dfy` | the operation record |
| `FileSystem` | `filesystem.dfy` | the filesystem model |
| `Copying`, `CopyProofs` | `copying.dfy`, `copyproofs.dfy` | the recursive copy and `calculateSize` |
| `Runners`, `RunnerProofs` | `runners.dfy`, `runnerproofs.dfy` | the `perform*` runners and the factories |
| `Queue` | `queue.dfy` | the queue |
| `Listing` | `listing.dfy` | listing and sorting |
| `FileUtils` | `utils.dfy` | the path and size helpers |
| `Workspace` | `memory.dfy` | the workspace memory |
| `Hyprland` | `client.dfy` | the client strings |
| `UI` | `fileview.dfy` | the file view |
| `Config` | `config.dfy` | the configuration |
| `Keyboard` | `keyboard.dfy` | the key handler |
| `Integration` | `integration.dfy` | the Hyprland glue |
| `StatusBar` | `statusbar.dfy` | the label texts |
| `Version` | `version.dfy` | the version strings |

Parts of the code work by changing state: the operation, the queue, the workspace memory, the file
view, the runners and the loops. These are Dafny classes and methods with loops. Each such method is
proved to leave the state that a function of the old state describes, and the properties are proved
as lemmas about those functions. The parsers and formatters are functions.

Some things come from outside the program:

- environment variables, the home directory, the user id, the operating system and architecture;
- what `os.Stat` finds;
- the contents of the configuration and memory files;
- the active workspace;
- the lines read from the event socket;
- `gdk.KeyvalName`.

All of these are parameters. The model uses unbounded integers. Where the source relies on the range
of `int64`, the contracts state that range explicitly: the results of `strconv.Atoi`, and the
workspace numbers.

## Model

| member | source | states |
|---|---|---|
| Operations.TypeName | internal/fileops/operations.go:29-42 | an operation kind's name is "Unknown" exactly when the kind is not one of Copy, Move, Delete and Rename |
| Operations.StatusName | internal/fileops/operations.go:61-76 | a status's name is "Unknown" exactly when it is not one of the five named statuses |
| Operations.NamesDistinct | internal/fileops/operations.go:29-76 | two different named statuses have different names, and so do two different named kinds |
| Operations.OperationIdInjective | internal/fileops/operations.go:671-673 | two different clock readings in the int64 range give two different operation identifiers |
| Operations.FreshState | internal/fileops/operations.go:128-140 | a new operation is Pending, has zero progress and no error, is not cancelled, and holds exactly the given kind, sources and destination |
| Operations.Operation.constructor | internal/fileops/operations.go:128-140 | the new object holds the record of a new operation |
| Operations.CancelEffect | internal/fileops/operations.go:143-150 | a cancel turns a Pending or a Running operation into a Cancelled one and trips its token; on any other status it changes nothing; a second cancel changes nothing more; no other field changes |
| Operations.Operation.Cancel | internal/fileops/operations.go:143-150 | the object's new record is the cancel of its old record |
| Operations.ProgressEffect | internal/fileops/operations.go:163-174 | the byte counts and the current file are stored; with a positive total the fraction becomes processed/total, so 50 of 100 gives one half; otherwise the old fraction is kept; status, token and error do not change |
| Operations.Operation.UpdateProgress | internal/fileops/operations.go:163-174 | the new record is the progress update of the old one |
| Operations.StatusTimes | internal/fileops/operations.go:177-188 | the start time is set by the first change to Running and is never moved afterwards; every terminal status sets the end time |
| Operations.Operation.SetStatus | internal/fileops/operations.go:177-188 | the new record is the status change of the old one |
| Operations.ErrorEffect | internal/fileops/operations.go:191-197 | recording an error sets the error, the Failed status and the end time in one step, and keeps the start time and the byte counts |
| Operations.Operation.SetError | internal/fileops/operations.go:191-197 | the new record is the error update of the old one |
| Operations.Operation.GetProgress | internal/fileops/operations.go:200-204 | returns the fraction, the byte counts and the current file of the current record |
| Operations.Poll | internal/fileops/operations.go:153-160 | one `IsCancelled` check: the user's cancel, if due at this check, is applied first, and the answer is whether the token is done |
| Copying.Walk | internal/fileops/operations.go:654-668 | a walk that succeeds was started on a path that resolves |
| Copying.CalculateSize | internal/fileops/operations.go:654-668 | returns no error exactly when the walk succeeds, in which case the size is the total of the file and link sizes the walk meets; otherwise it returns the walk's first error |
| Copying.WalkTree | internal/fileops/operations.go:658-665 | the walk of one path adds that tree's total to the running size, or stops with the walk's error |
| Copying.WalkNames | internal/fileops/operations.go:658-665 | the walk over a directory's entries, in order, adds their totals, or stops with the first error |
| Copying.CopyRecursive | internal/fileops/operations.go:340-366 | the filesystem, record, byte count and error left are those the recursive-copy function gives for the old state |
| Copying.CopyDirectory | internal/fileops/operations.go:369-401 | the same, for copying a directory, when no link is at the destination |
| Copying.CopyEach | internal/fileops/operations.go:383-398 | the same, for the loop over a directory's entries: a check before each entry, stopping at the first error |
| Copying.CopyRegular | internal/fileops/operations.go:404-467 | the same, for copying a regular file: open, stat, create, chmod, then the chunk loop over what the open handle reads once the destination exists, which is nothing when the destination is the source itself; a link at the destination is refused |
| Copying.CopyData | internal/fileops/operations.go:432-464 | the same, for the read/write loop: a check, a read of at most one buffer of the file as the handle sees it, a write, then a progress update |
| CopyProofs.RecBytes | internal/fileops/operations.go:340-464 | a successful copy of a tree to a destination outside it adds exactly the bytes of the tree's regular files to the byte count |
| CopyProofs.RecFileContent | internal/fileops/operations.go:404-467 | a regular file that is copied successfully to another path arrives with the source's bytes and mode |
| CopyProofs.CopyOntoItselfEmpties | internal/fileops/operations.go:404-467 | a regular file copied onto itself is truncated by `os.Create` under the open handle: the copy succeeds, the file is left empty with its mode, and no bytes are counted |
| CopyProofs.CheckedCopyKeepsSource | internal/fileops/operations.go:340-366 | as intended: a destination that is the source is refused with nothing changed, and a regular file copied to a destination outside it keeps its bytes and mode |
| CopyProofs.RecLinkContent | internal/fileops/operations.go:350-357 | a symbolic link that is copied successfully becomes a new link with the same target, where nothing was before |
| CopyProofs.RecFacts | internal/fileops/operations.go:340-464 | the recursive copy, when no link is at or under the destination, writes only at the destination and the directories above it, never lowers the byte count, changes no field of the record other than its progress, its status (by a cancel) and its token, and returns the cancellation error exactly when the token is done |
| Runners.PerformCopy | internal/fileops/operations.go:257-289 | the filesystem and record left by `performCopy` are those its specification function gives |
| Runners.SumSizes | internal/fileops/operations.go:300-311 | the loop that adds up the sizes of the sources returns their total or the first source that failed |
| Runners.CopySource | internal/fileops/operations.go:313-331 | one pass of the copy loop leaves the state the function for that pass gives |
| Runners.PerformCopyMultiple | internal/fileops/operations.go:292-337 | the state left by `performCopyMultiple` is the one its specification function gives |
| Runners.PerformMove | internal/fileops/operations.go:470-518 | the state left by `performMove` is the one its specification function gives |
| Runners.MoveSource | internal/fileops/operations.go:530-570 | one pass of the move loop leaves the state the function for that pass gives |
| Runners.MoveSourceByCopy | internal/fileops/operations.go:545-568 | the fallback of one pass of the move loop, after its rename fails, leaves the state its function gives |
| Runners.PerformMoveMultiple | internal/fileops/operations.go:521-575 | the state left by `performMoveMultiple` is the one its specification function gives |
| Runners.PerformDelete | internal/fileops/operations.go:578-606 | the state left by `performDelete` is the one its specification function gives |
| Runners.PerformDeleteMultiple | internal/fileops/operations.go:609-634 | the state left by `performDeleteMultiple` is the one its specification function gives |
| Runners.PerformRename | internal/fileops/operations.go:637-651 | the state left by `performRename` is the one its specification function gives |
| Runners.Complete | internal/fileops/operations.go:330-336 | the end of a multi-source run: one last check, then Completed with progress 1 unless the operation was cancelled |
| Runners.StartCopy | internal/fileops/operations.go:208-212 | `Copy` makes a new operation of kind Copy for the one source and runs `performCopy` on it |
| Runners.StartCopyMultiple | internal/fileops/operations.go:215-219 | `CopyMultiple` makes a new Copy operation for the sources and runs `performCopyMultiple` |
| Runners.StartMove | internal/fileops/operations.go:222-226 | `Move` makes a new Move operation and runs `performMove` |
| Runners.StartMoveMultiple | internal/fileops/operations.go:229-233 | `MoveMultiple` makes a new Move operation for the sources and runs `performMoveMultiple` |
| Runners.StartDelete | internal/fileops/operations.go:236-240 | `Delete` makes a new Delete operation with an empty destination and runs `performDelete` |
| Runners.StartDeleteMultiple | internal/fileops/operations.go:243-247 | `DeleteMultiple` makes a new Delete operation for the paths and runs `performDeleteMultiple` |
| Runners.StartRename | internal/fileops/operations.go:250-254 | `Rename` makes a new Rename operation whose destination is the new path and runs `performRename` |
| RunnerProofs.CopySettles | internal/fileops/operations.go:257-289 | a copy that was not already cancelled ends Completed, Failed or Cancelled; it is Cancelled only when the user cancelled it, and then it keeps the error it had, so a cancel is never overwritten by Failed |
| RunnerProofs.CopyCancelledBeforeStart | internal/fileops/operations.go:257-289 | an operation cancelled while Pending is set Running again by `performCopy`; the copy returns the cancellation error at its first check, and because the context is done the runner records nothing, so the operation is left Running with its end time unchanged and the filesystem untouched |
| RunnerProofs.CheckedStartSettles | internal/fileops/operations.go:257-289 | as intended: with a start that keeps a cancel made while Pending, every copy settles, and the pending-cancelled one stays Cancelled and untouched |
| RunnerProofs.CopyCountsBytes | internal/fileops/operations.go:263-289 | a completed copy of a tree to a destination outside it has processed the bytes of the tree's regular files; the sizes of its links make up the rest of the precomputed total; the progress fraction is processed over total when the total is positive, and otherwise the fraction it had before |
| RunnerProofs.CopyConfined | internal/fileops/operations.go:257-289 | when no link is at or under the destination, `performCopy` changes the filesystem only at the destination and the directories above it; a source outside the destination is left as it was |
| RunnerProofs.TotalsFirstFailure | internal/fileops/operations.go:300-311 | the size loop succeeds exactly when every source's size can be computed; otherwise it reports the first source that fails, with its error |
| RunnerProofs.CopyManySizesFirst | internal/fileops/operations.go:300-311 | when any size fails, nothing is written, and the operation fails with that source and its error |
| RunnerProofs.CopyLoopAppend | internal/fileops/operations.go:313-331 | the sources are copied in order: the loop over two lists is the loop over the first, continued over the second only when the first did not stop it |
| RunnerProofs.CopyLoopConfined | internal/fileops/operations.go:313-331 | each source goes to the destination joined with its base name, so the loop writes nothing outside the destination when no link is under it |
| RunnerProofs.CopyManyConfined | internal/fileops/operations.go:292-337 | a multi-source copy into a directory writes nothing outside that directory when no link is under it |
| RunnerProofs.CopyManySettles | internal/fileops/operations.go:292-337 | a multi-source copy ends like a single copy: terminal, and Cancelled only by the user's cancel |
| RunnerProofs.MoveRenamesFirst | internal/fileops/operations.go:478-486 | when the rename succeeds, the move is just that rename, and it completes with progress 1/1; nothing is left at the source unless the source and destination are the same path |
| RunnerProofs.MoveCancelFails | internal/fileops/operations.go:488-517 | a move never ends Cancelled, because it never checks the cancellation itself; a cancel during the fallback copy makes it Failed |
| RunnerProofs.MoveKeepsSourceUntilDone | internal/fileops/operations.go:488-517 | when the trees do not overlap, a move leaves the source as it was unless it completes or fails to remove the source; a failed removal has taken only nodes of the source's tree, leaves regular files it kept unchanged, and the source path is still there; a move that completes by copying has removed the source |
| RunnerProofs.MoveManyEnds | internal/fileops/operations.go:521-575 | a multi-source move ends in a terminal status, and Cancelled only by the user's cancel |
| RunnerProofs.MoveLoopAppend | internal/fileops/operations.go:530-570 | the sources are moved in order, and a source that stops the loop stops it for the ones after it |
| RunnerProofs.DeleteOutcome | internal/fileops/operations.go:578-606 | `performDelete` never looks at the cancellation and ends Completed or Failed; a failure either leaves the filesystem as it was or has removed only part of the path's tree, the path itself staying; a completion has removed the path and counted its whole size |
| RunnerProofs.DeleteLoopGone | internal/fileops/operations.go:617-631 | after the delete loop, every path it has passed no longer exists |
| RunnerProofs.DeleteManyRemovesAll | internal/fileops/operations.go:609-634 | a multi-path delete that completes has removed every path it was given |
| RunnerProofs.DeleteManySettles | internal/fileops/operations.go:609-634 | a multi-path delete ends in a terminal status, and Cancelled only by the user's cancel |
| RunnerProofs.RenameOutcome | internal/fileops/operations.go:637-651 | a rename completes exactly when `os.Rename` succeeds, and then the tree is at the new path with nothing left at the old one, or, renamed to itself, nothing changed; otherwise it fails with the rename's error and nothing changed |
| RunnerProofs.SelfPasteEmptiesFile | cmd/warren/keyboard.go:284-288 | pasting the file "/a" into "/", its own directory, copies it onto itself: the operation completes and the file's byte is lost |
| Queue.FilterKeeps | internal/fileops/queue.go:117-142 | the filter keeps exactly the operations whose status is among those named, and nothing else |
| Queue.FilterAppend | internal/fileops/queue.go:117-142 | filtering goes element by element, so the history's order is kept |
| Queue.FirstWithId | internal/fileops/queue.go:82-92 | the index it gives is the first operation with that identifier, or the length of the history when there is none |
| Queue.OperationQueue.constructor | internal/fileops/queue.go:27-38 | a bound below one is raised to one; the history, the running index and the slots in use all start empty |
| Queue.OperationQueue.Add | internal/fileops/queue.go:41-47 | the operation is appended to the end of the history, so the count grows by exactly one; nothing else changes |
| Queue.OperationQueue.Admit | internal/fileops/queue.go:50-57 | a slot is taken exactly when one is free, and then the operation is entered in the running index |
| Queue.OperationQueue.Release | internal/fileops/queue.go:76-78 | once the operation is finished, its entry leaves the running index and its slot is given back |
| Queue.OperationQueue.RunningBounded | internal/fileops/queue.go:36 | the running index never holds more entries than the bound |
| Queue.OperationQueue.Get | internal/fileops/queue.go:82-92 | returns the first operation with the identifier, or nothing when there is none |
| Queue.OperationQueue.GetAll | internal/fileops/queue.go:95-102 | returns the history as a value of its own |
| Queue.OperationQueue.GetRunning | internal/fileops/queue.go:105-114 | returns every operation of the running index once |
| Queue.OperationQueue.GetPending | internal/fileops/queue.go:117-128 | returns the Pending operations, in the history's order |
| Queue.OperationQueue.GetCompleted | internal/fileops/queue.go:131-142 | returns the Completed operations, in the history's order |
| Queue.OperationQueue.Collect | internal/fileops/queue.go:117-142 | the loop the filters share gives the filter of the history |
| Queue.OperationQueue.Cancel | internal/fileops/queue.go:145-152 | returns true exactly when `Get` finds the operation, which is then cancelled; every other operation is unchanged |
| Queue.OperationQueue.CancelAll | internal/fileops/queue.go:155-164 | every operation is cancelled, so no operation is left Pending or Running, and the terminal ones are unchanged |
| Queue.OperationQueue.Clear | internal/fileops/queue.go:167-178 | exactly the Pending and Running operations are kept, in their order |
| Queue.OperationQueue.Count | internal/fileops/queue.go:181-185 | the length of the history |
| Queue.OperationQueue.RunningCount | internal/fileops/queue.go:188-192 | the size of the running index, which never exceeds the bound |
| Listing.EntryInfo | internal/fileops/list.go:47-66 | an entry's file keeps its name, size, mode and time; it is a directory or a link exactly when the mode says so, and it has a link target only when it is a link |
| Listing.ListedExactly | internal/fileops/list.go:40-76 | a file is listed exactly when it comes from an entry that can be stat'ed and is shown; a listed file's hidden flag is that of its name, and its path is its name joined to the absolute path; with hidden files off, no listed file is hidden |
| Listing.ListedLength | internal/fileops/list.go:40-76 | never more files than entries, and one file per entry when every entry is kept |
| Listing.ListDirectory | internal/fileops/list.go:15-79 | an empty path is an error; a path with no absolute form is another; a directory that cannot be read gives that error; otherwise the list is the filtered and flagged entries, in the order they were read |
| Listing.GetFileInfo | internal/fileops/list.go:82-123 | an empty path is an error; otherwise it succeeds exactly when `Lstat` does, a missing file is "file does not exist", a permission error "permission denied" and any other failure "cannot access file"; the name and hidden flag come from the path's base name, and the path is the absolute one when there is one |
| Listing.KeyNotLessTransitive | internal/fileops/list.go:133-151 | the key comparison is a total preorder for every mode: names compared lower-cased, then sizes, times, or extensions with ties broken by lower-cased name; an unknown mode compares names |
| Listing.SortLessInOrder | internal/fileops/list.go:128-158 | whatever the closure answers fixes an admissible order, in both sort orders |
| Listing.SortedDirsFirst | internal/fileops/list.go:128-132 | in a sorted list every directory comes before every file, in both sort orders |
| Listing.SortFiles | internal/fileops/list.go:127-159 | the array is permuted and ends sorted: directories first, then keys non-decreasing, or non-increasing in descending order |
| FileUtils.TrimTrailingSlashes | internal/fileops/utils.go:35-37 | trailing slashes are removed, keeping a lone leading one |
| FileUtils.GetParentDir | internal/fileops/utils.go:30-48 | the two loops compute the parent that `ParentDir` describes |
| FileUtils.ParentOfRelativeName | internal/fileops/utils.go:47 | a path without a slash has "." as its parent |
| FileUtils.ParentOfTopLevel | internal/fileops/utils.go:31-43 | the root, and any path whose only slash left after trimming is its first character, have "/" as their parent |
| FileUtils.ParentIsProperPrefix | internal/fileops/utils.go:39-45 | otherwise the parent is a proper prefix of the path, cut just before a slash |
| FileUtils.ParentJoinBase | internal/fileops/utils.go:30-48 | for an absolute path in simple form, the parent joined with the base name gives the path back |
| FileUtils.FormatSizeAsWritten | internal/fileops/utils.go:8-26 | below 1024 the text is the decimal number and " B"; otherwise the divisor is the power of 1024 with 1 <= bytes/div < 1024, and the label is the loop count capped at the last unit |
| FileUtils.FormatSizeMislabelsExbibytes | internal/fileops/utils.go:14-25 | for 2^60 bytes the label is "PB" but the divisor is 2^60, so the size is shown as "1.0 PB" |
| FileUtils.FormatSize | internal/fileops/utils.go:8-26 | as intended: the divisor is always the value of the unit shown |
| Workspace.Lookup | internal/hyprland/memory.go:64-68 | a workspace that was never set gives "" |
| Workspace.MemoryDir | internal/hyprland/memory.go:26-39 | the given directory is used when it is not empty, otherwise the default under home, and nothing when there is no home |
| Workspace.DefaultMemoryDir | internal/hyprland/memory.go:30-36 | that default is `home/.config/warren` |
| Workspace.MemoryPathInDir | internal/hyprland/memory.go:38-39 | the memory file is `hyprland-memory.json` inside the directory |
| Workspace.WorkspaceMemory.constructor | internal/hyprland/memory.go:41-44 | a new memory has an empty map and the given file path |
| Workspace.WorkspaceMemory.Set | internal/hyprland/memory.go:56-60 | `Get` then gives the directory, and no other workspace changes |
| Workspace.WorkspaceMemory.Get | internal/hyprland/memory.go:64-68 | the remembered directory, or "" for a workspace never set |
| Workspace.WorkspaceMemory.Clear | internal/hyprland/memory.go:71-75 | only that workspace is forgotten |
| Workspace.WorkspaceMemory.ClearAll | internal/hyprland/memory.go:78-82 | the map is left empty |
| Workspace.WorkspaceMemory.Load | internal/hyprland/memory.go:102-121 | a file that cannot be read or decoded is an error and changes nothing; a decoded null map becomes an empty map; any other decoded map replaces the current one |
| Workspace.WorkspaceMemory.GetAll | internal/hyprland/memory.go:125-134 | the entry-by-entry copy equals the internal map; it is a value, so changing it cannot affect the memory |
| Workspace.NewWorkspaceMemory | internal/hyprland/memory.go:25-53 | no home is an error, and so is a directory that cannot be made; otherwise the new memory is at the memory path, and a failed load leaves it empty |
| Hyprland.RuntimeDir | internal/hyprland/client.go:64-73 | `$XDG_RUNTIME_DIR/hypr` when that variable is set, otherwise `/run/user/<uid>/hypr` |
| Hyprland.New | internal/hyprland/client.go:77-96 | fails exactly when the instance signature is empty, which is what `IsHyprland` tests; otherwise it fails only when the command socket is missing |
| Hyprland.NewSockets | internal/hyprland/client.go:83-85 | the command socket is `<runtime>/<signature>/.socket.sock` and the event socket `<runtime>/<signature>/.socket2.sock` |
| Hyprland.ParseEvent | internal/hyprland/client.go:178-185 | a line gives no event exactly when it holds no ">>"; otherwise it splits at the first ">>", so Type + ">>" + Data is the line |
| Hyprland.ParseEventUnique | internal/hyprland/client.go:178-185 | the split is the only one with no ">>" in its type |
| Hyprland.EventsOf | internal/hyprland/client.go:177-191 | every event comes from one of the lines |
| Hyprland.ListenEvents | internal/hyprland/client.go:168-194 | the scanner loop hands the handler the event of each line that has one, in order |
| Hyprland.EventsOfSkips | internal/hyprland/client.go:180 | a line without ">>" produces no event |
| Hyprland.EventsOfAppend | internal/hyprland/client.go:177-191 | each line's event follows the events of the lines before it |
| Hyprland.DispatchCommand | internal/hyprland/client.go:197-201 | the text sent is "dispatch " followed by the command |
| Hyprland.SwitchWorkspaceReadsBack | internal/hyprland/client.go:204-206 | `SwitchWorkspace(n)` sends "dispatch workspace " and n, and n reads back from it |
| UI.NextSortMode | internal/ui/fileview.go:288-300 | the next mode is always a named mode, and an unknown mode goes to Name |
| UI.SortModeCycle | internal/ui/fileview.go:288-300 | from any named mode, cycling visits all four modes once each and comes back: Name, Size, ModTime, Extension |
| UI.FlipOrder | internal/ui/fileview.go:317-322 | the new order is a named order, and it is Descending exactly when the old one was Ascending |
| UI.FlipOrderTwice | internal/ui/fileview.go:317-322 | toggling twice restores a named order |
| UI.FileView.constructor | internal/ui/fileview.go:29-36 | a new view selects no row (-1), shows no hidden files, and sorts by Name, ascending |
| UI.FileView.Selected | internal/ui/fileview.go:207-212 | nothing exactly when the index is not a row of the list, otherwise the file at that row |
| UI.FileView.SelectedPath | internal/ui/fileview.go:264-270 | the selected file's path, or "" |
| UI.FileView.LoadDirectory | internal/ui/fileview.go:150-178 | on success the files and the path are replaced, sorted by the view's options, and row 0 is selected (-1 for an empty list); on an error nothing changes |
| UI.FileView.SelectIndex | internal/ui/fileview.go:181-190 | an index outside the list is ignored |
| UI.FileView.SelectNext | internal/ui/fileview.go:193-197 | moves one row down, never past the last row |
| UI.FileView.SelectPrevious | internal/ui/fileview.go:200-204 | moves one row up, never below row 0 |
| UI.FileView.NavigateUp | internal/ui/fileview.go:220-227 | loads the parent directory; at the root, whose parent is itself, nothing changes |
| UI.FileView.NavigateInto | internal/ui/fileview.go:230-241 | an error when nothing is selected or the selection is not a directory, and then nothing changes; otherwise it loads the selected directory |
| UI.FileView.ToggleHidden | internal/ui/fileview.go:244-247 | the option flips whether or not the reload succeeds |
| UI.FileView.CycleSortMode | internal/ui/fileview.go:288-304 | the mode becomes the next one, then the directory is reloaded |
| UI.FileView.ToggleSortOrder | internal/ui/fileview.go:317-326 | the order flips, then the directory is reloaded |
| UI.FileView.SetSortMode | internal/ui/fileview.go:281-284 | both options are stored and nothing is reloaded |
| Config.Dir | internal/config/config.go:73-85 | `$XDG_CONFIG_HOME/warren` when that is set, otherwise `home/.config/warren`, and an error when neither is known |
| Config.Path | internal/config/config.go:88-94 | the file `config.toml` inside `Dir()` |
| Config.OverlayKeepsAbsentKeys | internal/config/config.go:117-120 | for each of the thirteen keys, one the file does not mention keeps the value it had, and one it mentions takes the file's value; an empty file leaves the defaults as they are |
| Config.OverlayLaws | internal/config/config.go:117-120 | laying a file over twice changes nothing more, and a file that gives every key replaces the base |
| Config.Load | internal/config/config.go:100-125 | with no file it gives the defaults; a file that cannot be read or parsed is an error; otherwise it gives the parsed values laid over the defaults |
| Config.LoadSaved | internal/config/config.go:100-153 | what `Save` writes loads back unchanged, and a file that mentions no key loads as the defaults |
| Config.LoadOrDefault | internal/config/config.go:157-165 | the defaults whenever `Load` fails, otherwise what it loaded |
| Config.DefaultSortOptions | internal/config/config.go:46-68 | the default configuration sorts by name, ascending |
| Config.ParseSortMode | internal/config/helpers.go:43-56 | exactly the listed spellings choose Size, ModTime or Extension; anything else, such as "" or "SIZE", gives Name |
| Config.ParseSortOrder | internal/config/helpers.go:59-68 | exactly "descending", "Descending" and "desc" give Descending; everything else gives Ascending |
| Config.GetStartDirectory | internal/config/helpers.go:14-40 | "~" and "" give home, or "/" without one; an absolute path to an existing directory is kept; anything else gives home, or "/" |
| Config.StartDirectoryFallsBack | cmd/warren/main.go:353-361 | a relative path, a missing path and a path that is not a directory all give home, or "/" |
| Keyboard.KeyMatchesConfigCases | cmd/warren/keyboard.go:186-207 | an empty binding never matches; a binding matches the key GDK gives that name; a one-character binding otherwise matches exactly that byte; a longer binding otherwise never matches |
| Keyboard.LetterBindingIsCaseSensitive | cmd/warren/keyboard.go:200-204 | "J" does not match the key 'j' when GDK calls that key "j", and "j" does |
| Keyboard.FirstTriggeredIsFirst | cmd/warren/keyboard.go:34-167 | the search finds nothing exactly when no action from the start on is triggered; otherwise it finds the first triggered action |
| Keyboard.DispatchIsFirstMatch | cmd/warren/keyboard.go:34-167 | the handler's chain of branches picks the first action, in its fixed order, that the key triggers |
| Keyboard.Respond | cmd/warren/keyboard.go:115-164 | yank toggles the selection, and unyanks a file already yanked; paste with nothing yanked starts nothing; delete and rename need a selection and act on it |
| Keyboard.RenameTarget | cmd/warren/keyboard.go:337-339 | a new path exactly on OK with a name that is new and not empty, and that path is the new name joined to the current directory |
| Keyboard.RenameTargetInPlace | cmd/warren/keyboard.go:337-339 | the renamed file stays in the current directory, under its new name |
| Keyboard.HandleKey | cmd/warren/keyboard.go:27-170 | the key is handled exactly when some branch matches; the matching branch's effect on the view, its request, and the saving of the directory after a successful navigation up or into |
| Integration.ConfigDirOrEmpty | cmd/warren/hyprland.go:47-52 | the configuration directory, or "" when it cannot be found |
| Integration.MemoryBesideConfig | cmd/warren/hyprland.go:47-53 | the memory goes into the configuration directory, next to `config.toml`, and has nowhere to go exactly when neither $XDG_CONFIG_HOME nor home is known |
| Integration.SetupHyprland | cmd/warren/hyprland.go:26-69 | nothing when the integration is off or the client cannot be made; workspace memory only when it is on, and it is dropped when its directory cannot be made |
| Integration.WorkspaceIdOf | cmd/warren/hyprland.go:85-102 | an id only for a workspace or movewindow event, always in the int64 range; a movewindow event with fewer than two fields gives none |
| Integration.WorkspaceEventReadsBack | cmd/warren/hyprland.go:86-87 | a workspace event for any int64 workspace names that workspace |
| Integration.MoveWindowEventReadsBack | cmd/warren/hyprland.go:88-98 | a movewindow event `<address>,<workspace>` names that workspace, whatever the address |
| Integration.WorkspaceLineReadsBack | cmd/warren/hyprland.go:76-102 | the line Hyprland writes for a workspace switch parses to that workspace |
| Integration.SwitchTargetCases | cmd/warren/hyprland.go:81-115 | no directory exactly when auto-switch is off, there is no memory, the event names no workspace, or the remembered directory is empty or not an existing directory; otherwise the directory is the one remembered for the event's workspace |
| Integration.HandleEvent | cmd/warren/hyprland.go:76-130 | the view loads exactly the target the event gives, and stays as it is when there is none |
| Integration.StartHyprlandListener | cmd/warren/hyprland.go:73-136 | without a state, or when no event gives a target, the view is untouched; otherwise its path is the old one or some event's target |
| Integration.SaveCurrentDirectory | cmd/warren/hyprland.go:139-158 | nothing happens without a state, a memory or an active workspace; otherwise the memory is set for the active workspace to the current path |
| StatusBar.StatusText | cmd/warren/helpers.go:15-37 | the text is the selected path, or "Ready", followed by the yank indicator, and it is only that first part exactly when nothing is yanked |
| StatusBar.SingleYankShowsBaseName | cmd/warren/helpers.go:27-30 | a single yanked file appends "  [Yanked: <base name>]" |
| StatusBar.YankCountReadsBack | cmd/warren/helpers.go:31-33 | for several files the indicator is "  [Yanked: N files]", and N reads back as their number |
| StatusBar.FormatSortMode | cmd/warren/helpers.go:40-50 | "Sort: " followed by the mode, a space and an arrow, which is "↓" exactly when the order is Descending, and "↑" otherwise |
| StatusBar.SortLabelsDiffer | cmd/warren/helpers.go:44-47 | the two orders give different labels |
| Version.VersionOf | internal/version/version.go:25-31 | a stable version has dots and no dash; with a pre-release it ends in "-" and the pre-release |
| Version.StableVersionReadsBack | internal/version/version.go:25-31 | a stable version splits at its dots into exactly the three numbers |
| Version.Version | internal/version/version.go:9-31 | "0.3.0" |
| Version.Short | internal/version/version.go:39-41 | "v" followed by `Version()` |
| Version.FullVersion | internal/version/version.go:34-36 | "Warren v", the version, then the system and architecture in parentheses |
| Version.ReleasedVersionIsStable | internal/version/version.go:21-31 | the released version has a dot and no dash |
| GoStrings.AtoiIntToString | cmd/warren/hyprland.go:87 | the decimal text of any int64 reads back as the same number |
| GoStrings.LessTransitive | internal/fileops/list.go:136-151 | Go's string order, which the sort keys use, is transitive; `LessTotal` and `LessAsymmetric` state that it is total and asymmetric |
| GoPaths.JoinBase | internal/fileops/operations.go:317 | a name without a slash joined under a directory is found again as the base name |

## Left out

- Goroutines, the mutex of `Operation` and the channel semaphore are left out. Each runner is one sequential method, and admission is an explicit slot counter (`Admit` and `Release`). The busy-wait that watches the status in `runOperation` is not modelled.
- The progress callback is not modelled. The model records the `UpdateProgress` calls on the operation.
- Cancellation is modelled as the user's cancel arriving just before one chosen `IsCancelled` check. It is not modelled as concurrent with the runner.
- The real filesystem is replaced by a map from component lists to nodes, with a set of primitive and path pairs that fail. `os.Stat` inside the copy is applied only to nodes already known not to be links. Paths whose UTF-8 encoding takes 4096 bytes or more fail, as the OS rejects them. A rename fault stands for every failure the model does not separate, such as a cross-device rename. `filepath.Join` is modelled without `Clean`.
- `ModTime`, `StartTime` and `EndTime` are logical clock readings. The identifier takes the clock reading as a parameter.
- `Progress` is the fraction `ProgressNum / ProgressDen`, not a float. `FormatSize` gives the unit and the divisor, not the "%.1f" text.
- TOML decoding and encoding are not modelled. A decoded file is the set of keys it gives values to, and `Save` is the file that gives every key. The JSON bytes of the workspace memory's `Save` and `Load` are not modelled either: `Load` takes what decoding gave. Writing the files is left out.
- Sockets and the JSON queries of the client (`sendCommand`, `GetActiveWorkspace`, `GetWorkspaces`, `GetActiveWindow`) are not modelled. The active workspace is a parameter, with nothing for a query error.
- The GTK, GDK and GLib code is not modelled: windows, dialogs, the list store, the columns, the labels, `setupShortcuts` and `showShortcutsWindow`. `glib.IdleAdd` runs its function at once. `gdk.KeyvalName` is a function parameter. The dialogs are requests that `HandleKey` returns, and opening a file is a request only.
- Log lines are not modelled.
- internal/fileops/debounce.go, internal/fileops/watcher.go and internal/fileops/open.go are not part of this model. They are timers, fsnotify and launching external programs.
- The getters `GetCurrentPath`, `GetFileCount`, `ParentPath`, `GetSortMode` and `GetSortOrder` only read a field. They are fields and functions of `UI.FileView`, and they have no rows.
- `IsHidden` and `IsHyprland` are the one-line predicates `Listing.IsHidden` and `Hyprland.IsHyprland`. Their uses carry the contracts: in `Listing.ListedExactly` and `Listing.GetFileInfo` for `IsHidden`, and in `Hyprland.New` for `IsHyprland`.
- `GoStrings.ToLower` folds ASCII letters only.
- cmd/warren/main.go duplicates `keyMatchesConfig` (main.go:310-331), `parseSortMode` (main.go:365-378), `parseSortOrder` (main.go:381-390) and `getStartDirectory` (main.go:336-362), with the same behaviour as the modelled copies. It also has its own versions of `setupHyprland`, `startHyprlandListener`, `saveCurrentDirectoryToWorkspace` (main.go:394-511), `updateStatusBar` and `formatSortMode` (main.go:274-295). The model has one definition of each, following the files that main.go's tests and the handler use.
- internal/config/config.go has no Hyprland section, so `Integration.HyprlandSettings` is a parameter. It also has no `ToggleSortOrder`, `Yank`, `Delete`, `Paste`, `Rename` and `ShowHelp` bindings, which cmd/warren/keyboard.go reads. `Config.KeybindingsConfig` follows config.go, and `Keyboard.Bindings` has all thirteen.
- internal/ui/fileview.go has none of the yank methods that the key handler calls (`YankSelected`, `ClearYanked`, `GetYanked`). The yanked paths are a parameter, and the yank branch returns the `ToggleYank` request.
- `formatSortMode` calls `String()` on a sort mode, which pkg/models does not define. `StatusBar.FormatSortMode` takes the mode's text as a parameter.
- Four behaviours of the code that a reader might not expect; the model follows the code:
  - A Pending operation cancelled before `performCopy` starts is set Running again by the runner. Its first check returns the cancellation error, which the runner does not record because the context is done, so it is left Running (`RunnerProofs.CopyCancelledBeforeStart`, and a row under "## Findings").
  - A completed copy need not show all its bytes processed. The size walk counts the length of each link's target, the copy adds nothing for a link, and `Completed` comes with no progress update, so a tree with a link completes with `BytesProcessed` below `BytesTotal` and a fraction below 1 (`RunnerProofs.CopyCountsBytes`).
  - A copy whose total is zero, such as one empty file, completes with the fraction it had before, 0 for a new operation, because `UpdateProgress` changes the fraction only for a positive total (`RunnerProofs.CopyCountsBytes`).
  - A move never ends Cancelled: the model proves it fails instead (`RunnerProofs.MoveCancelFails`).
- Delete never looks at the cancellation (`RunnerProofs.DeleteOutcome`).
- Symbolic links are modelled only where the copy meets them as nodes: `Lstat`, `Readlink`, `Symlink`, and `Rename` and `RemoveAll` of a link itself. Paths are resolved on their text, so a path through a linked directory does not resolve. A link at the destination is refused: `os.Create` would truncate and write its target, and `os.MkdirAll` would accept a link to a directory and the copy would then write inside it (`FileSystem.CreateRefusesLink`, `FileSystem.MkdirAllRefusesLink`). The confinement contracts below therefore hold for the model, and in Go only when no link is at or above the destination or under it.
- Copying.CopyRegular: the create step fails on a link at the destination, where `os.Create` follows it.
- Copying.CopyDirectory: the directory step fails on a link at the destination, where `os.MkdirAll` accepts a link to a directory.
- CopyProofs.RecFacts: "writes only at the destination and the directories above it" holds in Go only when no link is at or below the destination.
- RunnerProofs.CopyConfined: holds in Go only when no link is at or below the destination.
- RunnerProofs.CopyLoopConfined: holds in Go only when no link is under the destination directory.
- RunnerProofs.CopyManyConfined: holds in Go only when no link is under the destination directory.
- `RemoveAll` fails only on removal faults. The model does not fail it on a directory that cannot be read, and its error names the path it was given, where `os.RemoveAll` names the first entry it could not remove.
- `Rename` refuses a directory onto an existing directory (EEXIST, even onto itself), a directory onto a non-directory (ENOTDIR) and a tree into its own subtree or onto its own ancestor. Every such refusal is the same error on the old path.
- FileUtils.FormatSizeAsWritten: states the divisor bounds and the capped label, not the "%.1f" text.

## Findings

| source | as written | input that shows it | evidently intended | confidence | as-written member | corrected member |
|---|---|---|---|---|---|---|
| internal/fileops/operations.go:404-467 | `copyFile` opens the source and then calls `os.Create` on the destination; when the destination is the source, that truncates the file under the open handle, the first read reports EOF, and the copy returns no error | a paste of "/a" into "/", its own directory: the operation completes and the file "/a" is left empty | refuse a destination that resolves to the source before creating anything, so that the bytes are kept | not executed | CopyProofs.CopyOntoItselfEmpties, RunnerProofs.SelfPasteEmptiesFile | CopyProofs.CheckedCopyKeepsSource |
| internal/fileops/operations.go:257-289 | `performCopy` sets the status to Running without looking at the context, and a cancellation error is not recorded because the context is done | an operation cancelled while Pending: it is left Running with no end time | leave an operation that is already cancelled as Cancelled | not executed | RunnerProofs.CopyCancelledBeforeStart | RunnerProofs.CheckedStartSettles |
| internal/fileops/utils.go:14-25 | the loop keeps multiplying `div` by 1024 after `exp` reaches the last unit, and only the label index is capped at "PB" | 1152921504606846976 bytes (2^60): the label is "PB" but the divisor is 2^60, so the text reads "1.0 PB" for 1024 PiB | stop the loop at the largest unit, so that the divisor is always that unit's value ("1024.0 PB") | not executed | FileUtils.FormatSizeAsWritten, FileUtils.FormatSizeMislabelsExbibytes | FileUtils.FormatSize |
