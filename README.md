# TagSnap core, modelled in Dafny

TagSnap is a clipboard-capture utility for an Obsidian vault. A pasted Markdown source is saved under its title. A pasted picture is saved with a generated name and gets a note written about it. The application window can be hidden to a system-tray icon and brought back. This project models four parts of it and proves what they promise.

- **The tray/window coordinator** (`window_manager.py`): modules `Win32` and `WindowManagement`.
  - The pystray icon is a record. Its `_hwnd`, `_atom` and `_stopped` attributes may each be missing.
  - `WindowManagement.WindowManager` is a class whose fields are the coordinator's state: `_exiting`, `icon`, `icon_running_event`, `icon_visible` and `icon_thread`.
  - Besides those fields it records the workers started, the workers not yet finished, every native call issued, every line printed, and how often each host callback ran.
  - Each operation that runs under `icon_lock` is one method. The worker thread's body, `_run_icon_safe`, is a method the environment may call once per started worker.
  - Every method is proved equal to a specification function over the whole state, a `Coordinator` value. The properties are lemmas about those functions.
  - A `try` block is a sequence of steps run by `Win32.Execute`. Each step is a native call or an outright `raise`. The block stops at the first step that raises. Whether a call fails is decided by an oracle indexed by the call's position in the trace.
- **Saving a pasted source** (`text_processor.py`): module `SourceNotes`.
  - `process_source` finds the title, deletes the title line, prunes the front matter from the `tags:` line to the `source:` line, and names the file. The title loop and the metadata loop are methods proved against index-based specification functions.
  - `create_md_file` writes the note that links to the source.
- **Saving a picture** (`image_processor.py`): module `ImageNotes`. It covers the generated name, the record `save_image` returns, the note template, and the first-match selection over a list of clipboard file paths.
- **The stand-alone clipboard window** (`image_saver.py`): module `ClipboardCapture`.
  - Class `ClipboardApp` holds the status line, the display area and the files written.
  - Its methods are proved equal to specification functions over an `AppView` value.
- **Python's string operations**: module `PyText` models the ones the code relies on. These are `split`, `join`, `strip`, `lstrip`, `replace`, `lower`, `startswith`, `str(int)`, `[:n]`, `os.path.splitext` and `os.path.join` (Windows flavour).

## Where the code and the design description disagree

The code's behaviour is modelled, and these lemmas state where it differs from the design description:

- **Workers are never joined.** A worker started by `hide_window` is not waited for by `show_window` and may still be running afterwards (`HideThenShow`). After two hides in a row, neither worker is waited for, and both may still be running (`HideTwice`).
- **Quitting is not terminal.** Nothing checks `_exiting`, so `hide_window` after `quit_app` still builds an icon and starts a worker (`HideAfterQuit`).
- **`quit_app` on the main thread leaves the tray icon running.** It only runs `_perform_cleanup`, which invokes the quit callback (`QuitSpec`).
- **One failed teardown step skips the rest.** Cleanup's steps share one `try` block, so a failing `DestroyWindow` skips `UnregisterClassW` (`FailedDestroySkipsUnregister`).

## Model

| member | source | states |
|---|---|---|
| Win32.Reported | window_manager.py:88-90 | an `except` clause prints nothing exactly when nothing was raised or the error is the benign OSError 1400; otherwise it prints one line, the clause's prefix with that exception |
| Win32.Execute | window_manager.py:76-87 | a `try` block issues at most as many calls as it has statements, and all of them when nothing left it by an exception |
| Win32.ExecuteStopsAtFirstRaise | window_manager.py:76-87 | the issued calls are the block's leading statements in order; every issued call but the last succeeded; the block completes exactly when every statement was issued and the last call succeeded; otherwise the exception is the next statement's `raise` or the last call's failure |
| Win32.ExecuteIgnoresStepsAfterRaise | window_manager.py:126-141 | once a statement has raised, the later statements of the block change nothing |
| Win32.FirstOfAppend | window_manager.py:130-138 | the leading statements of a block run the same whatever follows them |
| Win32.ExecuteAppend | window_manager.py:130-138 | a block made of two parts runs the first part, and runs the second after it only if the first raised nothing |
| Win32.ExecuteWithoutFaults | window_manager.py:130-138 | when no call fails, a block of calls issues every call in order and raises nothing |
| Win32.PauseTimeOfPrefix | window_manager.py:136-138 | issuing only some leading calls never spends longer in `time.sleep` than issuing all of them |
| WindowManagement.CreateIconSpec | window_manager.py:53-65 | afterwards an icon exists; an existing icon is kept as it is; otherwise the new icon has a window and a class and no `_stopped` mark |
| WindowManagement.WindowManager.CreateTrayIcon | window_manager.py:53-65 | the new state is `CreateIconSpec` of the old one |
| WindowManagement.WindowManager.constructor | window_manager.py:33-47 | every flag is clear, no worker was started, nothing was called or printed, and then the icon is built as `create_tray_icon` builds it |
| WindowManagement.CleanupPlan | window_manager.py:76-87 | the cleanup block has at most three statements, and none without an icon that has `_hwnd` |
| WindowManagement.CleanupPlanSteps | window_manager.py:77-87 | the only calls are PostMessage, DestroyWindow and UnregisterClass; WM_CLOSE goes first, and only to an icon whose `_stopped` is present and false; DestroyWindow is called exactly for a non-null `_hwnd`; UnregisterClass exactly for a present non-null `_atom`; a missing `_atom` raises AttributeError |
| WindowManagement.CleanupSpec | window_manager.py:74-93 | on every path the icon is gone and `icon_running_event` is clear; nothing else changes but the calls and the printed lines; without an icon, only the flag is cleared |
| WindowManagement.CleanupOnlyAppends | window_manager.py:74-93 | a cleanup only appends at most three native calls and at most one printed line, which carries the cleanup prefix and an error that is not the benign one |
| WindowManagement.CleanupTwice | window_manager.py:74-93 | a second cleanup changes nothing |
| WindowManagement.FailedDestroySkipsUnregister | window_manager.py:82-88 | when DestroyWindow raises, UnregisterClass is not called and the error leaves the block |
| WindowManagement.StoppedCleanupPostsNothing | window_manager.py:77-81 | cleaning up an icon marked stopped never posts a message |
| WindowManagement.CleanupBlockWithoutFaults | window_manager.py:82-87 | when nothing fails, cleaning up a stopped icon destroys its window, then unregisters its class |
| WindowManagement.WindowManager.NativeStep | window_manager.py:79-87 | one statement of a `try` block runs only while no exception is pending, and its effect is the next step of `Execute` |
| WindowManagement.WindowManager.RunCleanupBlock | window_manager.py:76-87 | issues exactly the calls `Execute` of the cleanup plan issues, and returns the exception that left it |
| WindowManagement.WindowManager.CleanupIconResources | window_manager.py:74-93 | the new state is `CleanupSpec` of the old one |
| WindowManagement.MarkStopped | window_manager.py:127-128 | a present icon gets `_stopped` set to true and nothing else; an absent icon stays absent |
| WindowManagement.PumpRounds | window_manager.py:136-138 | `n` rounds are `2n` statements |
| WindowManagement.PumpRoundsAt | window_manager.py:136-138 | within the rounds, the queue is drained at even positions and a 100 ms pause sits at odd positions |
| WindowManagement.PostPlan | window_manager.py:131-134 | exactly two messages are posted |
| WindowManagement.StopPlan | window_manager.py:130-138 | the stop block does something exactly when the icon is present with a non-null `_hwnd` |
| WindowManagement.StopPlanSteps | window_manager.py:130-138 | the stop block is WM_CLOSE, then WM_QUIT to the icon's window, then drain and pause three times |
| WindowManagement.StopSpec | window_manager.py:124-143 | afterwards the icon is gone and the flag is clear; nothing else changes but the calls and the printed lines; without an icon, only the flag is cleared |
| WindowManagement.StopTwice | window_manager.py:124-143 | stopping again right after a stop changes nothing |
| WindowManagement.StopBlockWithoutFaults | window_manager.py:130-138 | when nothing fails, the stop block of a live window issues all eight of its calls |
| WindowManagement.StopWithoutFaults | window_manager.py:124-143 | when nothing fails, a stop issues exactly WM_CLOSE, WM_QUIT, three drain-and-pause rounds, DestroyWindow and UnregisterClass, and prints nothing |
| WindowManagement.StopWaitIsBounded | window_manager.py:136-138 | whatever the native calls do, a stop sleeps at most three times 100 ms |
| WindowManagement.StopOnlyAppends | window_manager.py:124-143 | a stop only appends at most eleven native calls and at most two printed lines |
| WindowManagement.WindowManager.PostStopMessages | window_manager.py:131-134 | the loop over the two message codes issues what `Execute` of the two posts issues, stopping at the first that raises |
| WindowManagement.WindowManager.PumpAndPause | window_manager.py:136-138 | the three rounds of draining and pausing issue what `Execute` of the rounds issues, stopping at the first call that raises |
| WindowManagement.WindowManager.RunLiveStopBlock | window_manager.py:130-138 | for a live window, the posts and then the rounds behave as `Execute` of the whole block |
| WindowManagement.WindowManager.RunStopBlock | window_manager.py:130-138 | issues exactly what `Execute` of the stop plan of the current icon issues |
| WindowManagement.WindowManager.StopTrayIcon | window_manager.py:124-143 | the new state is `StopSpec` of the old one |
| WindowManagement.SyncSpec | window_manager.py:95-99 | a viewable window with the running flag set loses the icon and the flag; otherwise nothing changes |
| WindowManagement.WindowManager.SyncWindowState | window_manager.py:95-99 | the new state is `SyncSpec` of the old one |
| WindowManagement.StartIconSpec | window_manager.py:114-122 | unless the flag is still set, the window is withdrawn, the flag is set and exactly one worker is started; otherwise nothing changes |
| WindowManagement.HideSpec | window_manager.py:108-122 | the window is withdrawn; there is an icon and the flag is set; exactly one new worker is started and recorded as `icon_thread`; a running icon is stopped first (the calls and printed lines are exactly those of `StopSpec`) and replaced by a fresh one; a non-running icon is kept and nothing is called; `_exiting` and the callbacks are untouched |
| WindowManagement.WindowManager.StartIcon | window_manager.py:114-122 | the new state is `StartIconSpec` of the old one |
| WindowManagement.WindowManager.HideWindow | window_manager.py:108-122 | the new state is `HideSpec` of the old one |
| WindowManagement.SafeHideSpec | window_manager.py:101-106 | the window ends up withdrawn; only a viewable window goes to the tray with a new worker; otherwise only the window is withdrawn |
| WindowManagement.WindowManager.SafeHideWindow | window_manager.py:101-106 | the new state is `SafeHideSpec` of the old one |
| WindowManagement.RaiseSpec | window_manager.py:150-162 | the window is viewable and topmost, `icon_visible` is clear, and the show callback ran once if it is set |
| WindowManagement.ShowSpec | window_manager.py:145-162 | the icon is always stopped and gone, with exactly the calls and printed lines of `StopSpec`; a window that was not viewable is deiconified; then topmost, focus and lift are requested, and the reset is scheduled after 200 ms; `icon_visible` is clear; the show callback ran once if it is set; workers and `_exiting` are untouched |
| WindowManagement.WindowManager.RaiseWindow | window_manager.py:150-162 | the new state is `RaiseSpec` of the old one |
| WindowManagement.WindowManager.ShowWindow | window_manager.py:145-162 | the new state is `ShowSpec` of the old one |
| WindowManagement.WorkerLoopSpec | window_manager.py:166-176 | the loop leaves the window, `_exiting` and the worker count untouched |
| WindowManagement.RunWorkerSpec | window_manager.py:164-177 | on every exit path the icon is gone, the flag is clear and the worker has ended; the window and `_exiting` are untouched |
| WindowManagement.WorkerLoopTrace | window_manager.py:166-176 | the icon loop is run exactly for a present icon not marked stopped, and leaves the icon marked stopped |
| WindowManagement.WorkerCleansUpAfterLoop | window_manager.py:173-177 | a worker's calls are those of its loop, then those of the cleanup of the icon the loop leaves |
| WindowManagement.WorkerTrace | window_manager.py:164-177 | a worker issues `RunIcon` if its icon is live, then the cleanup of the icon marked stopped |
| WindowManagement.WorkerRunsLoopOnlyForLiveIcon | window_manager.py:167-169 | a worker's first call is `RunIcon` exactly when its icon is present and not marked stopped |
| WindowManagement.WorkerNeverPostsMessages | window_manager.py:173-177 | a worker never posts a message, because it marks the icon stopped before cleaning up |
| WindowManagement.WindowManager.RunIconBlock | window_manager.py:169 | running pystray's loop is one call that returns or raises |
| WindowManagement.WindowManager.RunLoopThenMark | window_manager.py:166-176 | the new state is `WorkerLoopSpec` of the old one |
| WindowManagement.WindowManager.RunIconSafe | window_manager.py:164-177 | the new state is `RunWorkerSpec` of the old one |
| WindowManagement.PerformCleanupSpec | window_manager.py:191-194 | the quit callback runs once if it is set, and nothing else changes |
| WindowManagement.WindowManager.PerformCleanup | window_manager.py:191-194 | the new state is `PerformCleanupSpec` of the old one |
| WindowManagement.QuitSpec | window_manager.py:179-189 | `_exiting` is set; on the main thread only the quit callback runs; off it, `_perform_cleanup` is queued for idle time, a running icon is stopped, and nothing else happens when none is running |
| WindowManagement.WindowManager.QuitApp | window_manager.py:179-189 | the new state is `QuitSpec` of the old one |
| WindowManagement.HideThenShow | window_manager.py:108-162 | hide then show leaves no icon and a clear flag; the window is viewable after exactly the requests withdraw, deiconify, topmost, focus and lift; the show callback ran once; the hide's worker is not waited for and may still be running |
| WindowManagement.HideTwice | window_manager.py:108-122 | two hides replace the first icon with the second, set the flag and start two workers, neither of which is waited for, so both may still be running |
| WindowManagement.HideAfterQuit | window_manager.py:108-122 | after `quit_app`, a hide still builds an icon and starts a worker |
| WindowManagement.WorkerAfterShowDoesNothingNative | window_manager.py:164-177 | a worker that runs after the show that stopped its icon issues no native call, prints nothing and ends |
| WindowManagement.TkWindow.Withdraw | window_manager.py:115 | the window is no longer viewable and the request is recorded |
| WindowManagement.TkWindow.Deiconify | window_manager.py:151 | the window is viewable and the request is recorded |
| WindowManagement.TkWindow.SetTopmost | window_manager.py:153 | the topmost attribute takes the value and the request is recorded |
| WindowManagement.TkWindow.FocusForce | window_manager.py:154 | only the request is recorded |
| WindowManagement.TkWindow.Lift | window_manager.py:155 | only the request is recorded |
| WindowManagement.TkWindow.After | window_manager.py:157 | the callback is queued with its delay |
| WindowManagement.TkWindow.AfterIdle | window_manager.py:184 | the callback is queued for idle time |
| PyText.Split | text_processor.py:17 | `split('\n')` yields at least one piece, and no piece holds the separator |
| PyText.JoinSplit | text_processor.py:17 | joining the pieces of a split gives the text back |
| PyText.SplitJoin | text_processor.py:32 | splitting a join of separator-free lines gives the lines back |
| PyText.SplitLinesThenText | text_processor.py:78-84 | a template of separator-free lines followed by a text splits into those lines, then the text's own lines |
| PyText.LStripChars | text_processor.py:22 | `lstrip('# ')` drops exactly the leading run of `#` and space |
| PyText.Strip | text_processor.py:20 | `strip()` is no longer than the text and neither starts nor ends with white space |
| PyText.StripEmptyIffAllSpace | text_processor.py:20 | `strip()` leaves nothing exactly when the text is all white space |
| PyText.LStripDropsLeadingSpace | text_processor.py:20 | `lstrip()` drops exactly a leading run of white space |
| PyText.RStripDropsTrailingSpace | text_processor.py:20 | `rstrip()` drops exactly a trailing run of white space |
| PyText.ReplaceCharAt | text_processor.py:66 | `replace('/', '_')` changes exactly the `/` characters, position by position |
| PyText.ReplaceCharAppend | text_processor.py:66 | replacing in a concatenation replaces in each part |
| PyText.ReplaceAbsentChar | text_processor.py:66 | replacing a character the text does not hold changes nothing |
| PyText.Take | image_processor.py:17 | `hex[:6]` is the first six characters, or the whole string when it is shorter |
| PyText.Decimal | image_processor.py:17 | `str(n)` is a non-empty string of digits with no leading zero unless `n` is 0 |
| PyText.DecimalRoundTrip | image_processor.py:17 | reading the digits of `str(n)` back gives `n` |
| PyText.LastIndexIn | image_processor.py:63 | the last position holding a character of the set, with none after it, or -1 |
| PyText.Extension | image_processor.py:63 | `os.path.splitext(p)[1]` is never longer than the path |
| PyText.ExtensionIsSuffix | image_processor.py:63 | a non-empty extension is a dot and what follows it at the end of the path, with no separator in it |
| PyText.Lower | image_processor.py:63 | `lower()` keeps the length |
| PyText.LowerAt | image_processor.py:63 | `lower()` works character by character |
| PyText.LowerTwice | image_processor.py:63 | lower-casing twice is lower-casing once |
| PyText.ExtensionOfLower | image_processor.py:63 | the extension of the lower-cased path is the lower-cased extension |
| PyText.JoinPath | image_processor.py:18-19 | `os.path.join(dir, name)` is the directory, then at most one backslash, then the name; no backslash follows a directory that already ends in a separator |
| PyText.JoinPathInserts | image_processor.py:18-19 | a backslash goes between the directory and the name when the directory is non-empty and ends in neither a separator nor a drive's colon |
| PyText.JoinPathAppend | image_processor.py:18-19 | joining a name and appending to it is the same as joining the longer name |
| SourceNotes.HeadingTitle | text_processor.py:22 | the title is no longer than its line and neither starts nor ends with white space |
| SourceNotes.FirstHeadingFrom | text_processor.py:19-24 | the first line from a position on whose stripped form starts with `# `, with no such line before it; none exactly when no line qualifies |
| SourceNotes.FindTitle | text_processor.py:15-24 | the loop stops at the first heading line whatever title it gives; a title is found exactly when such a line exists, and it is that line's title |
| SourceNotes.FindClose | text_processor.py:36 | the first closing `\n---` at or after a position, with none before it; none exactly when no fence follows |
| SourceNotes.FrontMatter | text_processor.py:36 | a block is found only in a text that begins with `---\n`; it ends at the first `\n---` after that; none when no such fence exists |
| SourceNotes.ScanMetadata | text_processor.py:46-52 | a `source:` index is found only together with a `tags:` index |
| SourceNotes.ScanStep | text_processor.py:46-52 | one turn of the loop either stops at a `source:` line with the last `tags:` line before it, or goes on knowing one line more |
| SourceNotes.ScanMetadataFinds | text_processor.py:42-52 | the loop stops at the first `source:` line that follows a `tags:` line, with the last `tags:` line before it; it finds none exactly when no such line exists |
| SourceNotes.DeletedRange | text_processor.py:55-56 | the deleted lines start before the `source:` line, which lies inside the block |
| SourceNotes.DeletedRangeIsTagsToSource | text_processor.py:42-56 | lines are deleted from the last `tags:` line before the first `source:` line that follows a `tags:` line, up to that `source:` line; nothing is deleted exactly when no `source:` line follows a `tags:` line |
| SourceNotes.LocateTagsToSource | text_processor.py:42-52 | the loop's `(tags_idx, source_idx)` are those `ScanMetadata` gives |
| SourceNotes.KeptLines | text_processor.py:56 | the lines before the deleted range are kept in place; the `source:` line and everything after it move up, unchanged |
| SourceNotes.PruneFrontMatter | text_processor.py:35-63 | the front-matter step yields `Prune` of the text |
| SourceNotes.PruneKeepsPlainText | text_processor.py:35-38 | a text that does not open with `---\n` is written as it is |
| SourceNotes.BlockLinesHaveNoFence | text_processor.py:36-40 | no line of the matched block after its first begins with `---`, because such a line would have closed the block earlier |
| SourceNotes.KeptLinesHaveNoFence | text_processor.py:56 | the kept lines still have no line after the first that begins with `---` |
| SourceNotes.PrunedFrontMatterReparses | text_processor.py:55-63 | reading the pruned text again finds a block whose lines are exactly the kept lines, followed by the same text as before |
| SourceNotes.ClosesAtFirstFence | text_processor.py:36 | the lazy search stops at the first fence |
| SourceNotes.SourceFileName | text_processor.py:66 | the file name is relative and has no drive |
| SourceNotes.SourceFileNameHasNoSlash | text_processor.py:66 | no `/` survives in the file name |
| SourceNotes.SourceFileNameParts | text_processor.py:66 | the file name is `source_`, the title with every `/` turned into `_`, then `.md` |
| SourceNotes.ProcessSource | text_processor.py:13-72 | the method yields `ProcessSourceSpec`: the first heading's title, the text without the title line and pruned, the file path, and `ValueError` or the write failure on the error paths |
| SourceNotes.SavedUnderFirstTitle | text_processor.py:13-72 | the source is refused for a missing title exactly when there is no heading or the first heading's title is empty, even when a later heading has a title; it is saved exactly when it is not refused and the write succeeds; then the title is the first heading's and names the file |
| SourceNotes.TitleLineRemoved | text_processor.py:29-32 | splitting the re-joined text gives every line but the title line, in order |
| SourceNotes.CreateMdFile | text_processor.py:74-90 | the note is written to the given path with no newline translation; a write failure comes back with the `Markdown文件创建失败: ` prefix, exactly when one occurs |
| SourceNotes.NoteLines | text_processor.py:78-84 | the note's lines are `---`, the category, tags and created lines, the link line, `---`, then the summary's own lines |
| SourceNotes.LinkMissesSavedFile | text_processor.py:82 | for the title `a/b`, the link the note writes is not the saved source's name |
| SourceNotes.SavedTargetIsFixedTitle | text_processor.py:66 | the saved source is what the link names for the title with every `/` replaced |
| SourceNotes.LinkedNoteReachesSavedFile | text_processor.py:82 | the corrected link names the saved source for every title, and gives the same note as the original when the title has no `/` |
| SourceNotes.BackslashTitleLeavesSourceDir | text_processor.py:66-67 | for the title `a\b` the file name keeps the `\`, and the path's last separator is not the one after the source directory |
| SourceNotes.SafeSourceFileName | text_processor.py:66 | the corrected file name is relative, has no drive and holds neither `/` nor `\` |
| SourceNotes.SafeNameStaysInSourceDir | text_processor.py:66-67 | with the corrected name, the path is the source directory, one backslash and the name, and that backslash is its last separator, whatever the title |
| SourceNotes.SafeNameKeepsPlainTitles | text_processor.py:66 | for a title without `\` the corrected name is the name as written |
| ImageNotes.ImageNameParts | image_processor.py:17 | the name is `image_`, the seconds in decimal, `_`, then the first six hex characters |
| ImageNotes.ImageNameInjective | image_processor.py:17 | equal names come from equal seconds and equal leading hex characters |
| ImageNotes.ImageNameIsRelative | image_processor.py:17-19 | a generated name with any suffix joins onto a directory as it is |
| ImageNotes.ImageNameHasNoSlash | image_processor.py:17 | a generated name holds neither `/` nor `\` |
| ImageNotes.SaveImage | image_processor.py:13-31 | the record carries the generated name, the picture's path `<name>.png` joined onto the images directory, the note's path `<name>.md` joined onto the note directory, and `images/<name>.png` as the relative path; a save failure comes back with the `图片保存失败: ` prefix, exactly when one occurs |
| ImageNotes.SavedPathsUnderNoteDir | image_processor.py:17-19 | under a note directory that ends in neither a separator nor a drive's colon, the note is `<dir>\<name>.md` and the picture `<dir>\images\<name>.png`, and the name holds no separator |
| ImageNotes.JoinOntoImagesDir | image_processor.py:18 | a name joined onto the images directory gets a backslash before it |
| ImageNotes.ImagesDirHasNoSlash | image_processor.py:10 | the images directory of a slash-free note directory is slash-free |
| ImageNotes.BackslashedSeparator | image_processor.py:28 | reading a `/` between two slash-free parts as a backslash joins them with one |
| ImageNotes.BackslashedImagePath | image_processor.py:18-28 | read with backslashes, `images/<file>` under a slash-free directory is where the picture is saved |
| ImageNotes.RelativePathReachesImage | image_processor.py:17-28 | the relative path in the record, read from the note directory, reaches the saved picture |
| ImageNotes.ImageNoteLines | image_processor.py:37-43 | the note's lines are the front matter, the `![[path]]` embed, then the summary's own lines |
| ImageNotes.CreateMdFile | image_processor.py:33-49 | the note is written to the given path with no newline translation; a write failure comes back with the `Markdown文件创建失败: ` prefix, exactly when one occurs |
| ImageNotes.IsImagePathIgnoresCase | image_processor.py:63 | whether a path counts as a picture does not depend on its case |
| ImageNotes.UpperCaseExtension | image_processor.py:63 | the extension of `a.PNG` is `.PNG` |
| ImageNotes.UpperCaseExtensionIsImage | image_processor.py:63 | `a.PNG` counts as a picture |
| ImageNotes.DotFileIsNotImage | image_processor.py:63 | a file named `.png` has no extension and does not count |
| ImageNotes.FirstAccepted | image_processor.py:62-68 | the first path from a position on that the test accepts, with none before it; none exactly when no path is accepted |
| ImageNotes.FirstImageIsFirstLoadable | image_processor.py:59-68 | a list yields a picture exactly when one of its paths is an existing file with a whitelisted extension that opens, and then it is the earliest such path's picture |
| ImageNotes.HandleFilePaths | image_processor.py:59-68 | the loop returns `FirstImage`: it skips paths that do not qualify and paths that fail to open |
| ImageNotes.ProcessClipboardImage | image_processor.py:51-57 | a list goes through the path loop, a picture comes back unchanged, and anything else yields nothing |
| ClipboardCapture.EmbedTargetParts | image_saver.py:121 | the embed is `images`, `/`, then the picture's file name |
| ClipboardCapture.PicturePathParts | image_saver.py:113 | the picture's path is the note directory, a backslash, then `images\<name>.png` |
| ClipboardCapture.EmbedReachesPicture | image_saver.py:110-121 | the note sits in the note directory, and its embed, read from there, names the saved picture for every generated name |
| ClipboardCapture.CreateMdFile | image_saver.py:155-170 | the note is written to the given path with no newline translation; a write failure comes back as it is, exactly when one occurs |
| ClipboardCapture.SameNoteAsProcessor | image_saver.py:155-170 | this note is the one the processor's `create_md_file` writes; only the processor prefixes its error |
| ClipboardCapture.StatusReturnsToReady | image_saver.py:150-153 | with no other reset pending, a status message stays until its own timer fires; then `就绪` is back, and nothing else has changed |
| ClipboardCapture.EarlierResetCutsMessageShort | image_saver.py:150-153 | no reset is ever cancelled: a message shown while an earlier reset is pending gives way to `就绪` when that earlier timer fires, and its own reset is still pending |
| ClipboardCapture.HandleImageShowsPicture | image_saver.py:106-126 | whatever else fails, the picture is on display unless preparing it for display raises |
| ClipboardCapture.HandleImageWrites | image_saver.py:108-126 | nothing is written when the save fails; only the picture when the model or the note fails; otherwise the picture, then its note at `<name>.md`, whose embed reaches the picture |
| ClipboardCapture.HandleImageStatus | image_saver.py:106-126 | the status is the saved name when everything succeeds, the failure with the `保存失败: ` prefix otherwise, and a display failure has the last word |
| ClipboardCapture.ShowImageReports | image_saver.py:133-148 | showing a picture schedules nothing, or reports its failure |
| ClipboardCapture.SaveAttemptReports | image_saver.py:108-121 | an attempt whose save fails changes nothing and carries the failure; once the picture is saved, its name is reported |
| ClipboardCapture.FailureReported | image_saver.py:124-126 | the `except` branch reports the failure |
| ClipboardCapture.HandleImageReports | image_saver.py:106-126 | handling a picture always reports on the status line |
| ClipboardCapture.NoPictureInFiles | image_saver.py:92-104 | a list with no usable picture writes nothing and reports `未找到有效图片文件` |
| ClipboardCapture.OnlyFirstPictureHandled | image_saver.py:96-101 | only the first path that qualifies and opens is handled, and the loop ends there |
| ClipboardCapture.PasteAlwaysReports | image_saver.py:69-90 | every paste reports on the status line and schedules the return to `就绪` |
| ClipboardCapture.PasteFallsBackToText | image_saver.py:75-88 | with an empty grab, the clipboard's text is shown; when Tk cannot read it, `剪贴板内容无法识别` is reported |
| ClipboardCapture.ClipboardApp.constructor | image_saver.py:45-67 | the status line reads `就绪`, nothing is shown and nothing is scheduled or written |
| ClipboardCapture.ClipboardApp.UpdateStatus | image_saver.py:150-153 | the new view is `UpdateStatusSpec` of the old one |
| ClipboardCapture.ClipboardApp.ResetStatus | image_saver.py:153 | the new view is `ResetStatusSpec` of the old one |
| ClipboardCapture.ClipboardApp.ShowText | image_saver.py:128-131 | the new view is `ShowTextSpec` of the old one |
| ClipboardCapture.ClipboardApp.ShowImage | image_saver.py:133-148 | the new view is `ShowImageSpec` of the old one |
| ClipboardCapture.ClipboardApp.HandleImage | image_saver.py:106-126 | the new view is `HandleImageSpec` of the old one |
| ClipboardCapture.ClipboardApp.HandleFilePaths | image_saver.py:92-104 | the new view is `HandleFilePathsSpec` of the old one |
| ClipboardCapture.ClipboardApp.PasteContent | image_saver.py:69-90 | the new view is `PasteSpec` of the old one |

## Left out

- Threads and `icon_lock` are not modelled: each locked operation is one atomic method, and a worker's body is a method the environment calls. No interleaving of a worker with a locked operation is modelled. A consequence: no state the class reaches has `_stopped` present and false, because the worker's body sets it to false and, after `icon.run()`, to true in one step. So the `PostMessageW(WM_CLOSE)` branch of `_cleanup_icon_resources` (window_manager.py:77-81) is reached only from a state built by hand. In the program it is the ordinary case: a cleanup on the main thread while a worker is inside `icon.run()` (window_manager.py:167-169).
- Win32 calls through ctypes (`PostMessageW`, `DestroyWindow`, `UnregisterClassW`) are native calls whose failure comes from an oracle. The `MSG` structure is not modelled.
- `_pump_messages` (window_manager.py:21-30) is one native call. Its `PeekMessageW`/`DispatchMessageW` loop depends on the message queue, which is not modelled.
- pystray is not modelled. `icon.run()` is one call that returns or raises. The icon's picture (`icon.png`, or a black square when that fails to open) and its menu have no effect on the coordinator, so they are not modelled.
- `time.sleep` only records its duration; no clock advances.
- Tk callbacks queued with `after`/`after_idle` are recorded, not run. The exception is the status reset in `ClipboardCapture.ClipboardApp.ResetStatus`, which models the event loop firing the earliest timer.
- The `root.protocol`/`root.bind` registrations in `WindowManager.__init__` (window_manager.py:50-51) are not modelled. The operations they bind are methods anyone may call.
- `_run_icon` (window_manager.py:67-72) is not modelled: nothing calls it, and the attribute it sets is never read.
- WindowManagement.WindowManager.RunIconSafe: requires that the worker was started and has not ended. That is how the environment runs a worker body, once per started thread.
- `print` becomes a list of reported lines. The console is not modelled.
- SourceNotes.PruneFrontMatter: `re.sub` treats backslashes in the replacement as escapes; the model inserts the rebuilt block literally, which agrees for metadata without backslashes.
- `process_source` writes in text mode without `newline='\n'`, which turns each `\n` into `\r\n` on Windows. This is recorded as a flag on the written file; the text itself is kept untranslated.
- File writes, `os.path.isfile`, `Image.open`, `image.save`, `datetime.now`, `time.time` and `uuid.uuid4` are parameters: a fault to raise, an existence and opening oracle, today's date, the whole seconds and the hex string.
- The `os.makedirs` calls in the constructors of `TextProcessor` and `ImageProcessor` are not modelled. The directories are taken to exist, and their names are parameters.
- The Gemini model's three answers in `handle_image` (image_saver.py:118-120) are given as an opaque result: the three strings, or the text of the first exception. `Gemini_model` and its prompts are not modelled.
- The scaling in `ClipboardApp.show_image` (image_saver.py:137-142) uses floating point and PIL. It is reduced to "preparing the picture for display may raise"; the size of the shown picture is not modelled.
- Widget layout, the window title and the icon bitmap in `ClipboardApp.__init__` are not modelled.
- PyText.Lower: lower-cases the ASCII letters only. Python's `str.lower` also lower-cases other scripts. No character outside ASCII lower-cases to a letter of the extension whitelist, so whether a path counts as a picture is the same either way.
- PyText.JoinPath: models `os.path.join` only for a second part that is relative and has no drive. Every name the core joins is such a name.
- SourceNotes.SourceFileName: other characters Windows refuses in file names (`:`, `*`, `?`, `"`, `<`, `>`, `|`) are kept as the code keeps them; what opening such a path does is not modelled.
- PyText.Split: models `str.split` only for a one-character separator, the only kind the core uses.
- ImageNotes.ImageName: takes the seconds as a natural number, so a clock before 1970 is not modelled.
- main.py, config.py, ui_components.py and gemini_handler.py are not part of this model.

## Findings

| source | as written | input that shows it | evidently intended | confidence | as-written member | corrected member |
|---|---|---|---|---|---|---|
| text_processor.py:82 | the note links to `source/source_<title>` with the title unchanged, while the source is saved as `source_<title with every / replaced by _>.md` (text_processor.py:66) | title `a/b`: the link is `source/source_a/b`, the saved file is `source_a_b.md` | the link names the file the source was saved under, `source/source_a_b` | high; not executed | SourceNotes.LinkMissesSavedFile | SourceNotes.LinkedNoteReachesSavedFile |
| text_processor.py:66 | the file name replaces only `/`, although Windows reads `\` as a separator too | title `a\b`: the path is `<source_dir>\source_a\b.md`, a file `b.md` in a subdirectory `source_a`, not a file directly in the source directory | both separators are replaced, so the file is `source_a_b.md` directly in the source directory | medium; not executed | SourceNotes.BackslashTitleLeavesSourceDir | SourceNotes.SafeNameStaysInSourceDir |
