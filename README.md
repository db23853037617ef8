# A verified model of the scraping back end

The back end in `backend/server.js` drives a headless browser through a
property registry. It walks a list of tables and the rows of each table. For
each row it clicks the row and saves the HTML of the tab it has focused, under a name built from the row's
cells. Progress goes to a log that observers follow over server-sent events.
While its busy flag is up, the server refuses a second job. The job can be aborted, and a maintenance
window blocks new jobs every night. A second route packs a finished job
folder into a ZIP archive.

This project models that controller in Dafny:

- `LogBus` (`logbus.dfy`) holds `logMessage`, the entry buffer and the
  `/stream` subscriber registry. It is a class `Bus` with a `seq` of entries
  and a `seq` of client records, each with an id and an outbox of frames.
- `Maintenance` (`maintenance.dfy`) is the nightly gate, as a predicate over a
  time of day.
- `RowRange` (`rowrange.dfy`) parses the start and last row numbers and gives
  the loop's end index.
- `Filename` (`filename.dfy`) derives the file name of a row: the cell name,
  the character filter and the fallback name.
- `Sentinel` (`sentinel.dfy`) is the error-keyword check.
- `ScraperSpec` (`scraper_spec.dfy`) is a functional specification of the
  whole controller over a `World` value: the busy flag, whether a driver is
  held, the log, the subscribers and the output directory. It covers
  `/scrape`, `/abort`, the background task with its table loop, row loop,
  `catch` and `finally`, and `/create-zip`.
- `Server` (`server.dfy`) is the controller as a class. The module-level
  variables are its fields. Each route and each loop of the task is a method,
  proved to leave exactly the state the matching `ScraperSpec` function gives.
- `ScraperProps` (`scraper_props.dfy`) proves what the controller promises about
  that specification.

The browser is an oracle, `Browser`, given to the task as input. It says
whether the driver starts, whether the login page opens, and for each table
either a timeout or the rows. For each row it gives the page source, the cell
texts or the error reading them, and the document that is saved. The other
driver calls inside the loops (opening and switching tabs, the click on the
row, closing tabs) always succeed in the model. Each of the three `quit` calls
has its own outcome: `Browser.stopQuit` for the keyword stop (line 256),
`Browser.finalQuit` for the `finally` block (line 312), and, for each `/abort`,
the value stored with it in `Env.aborts` (line 332). An `/abort` that arrives
while the task runs is modelled as an entry of `Env.aborts`, keyed by a
checkpoint. The task checks the busy flag at two kinds of point: before each
table and before each row. An abort takes effect at the next such point.

The file system reports the failures the source can meet. `mkdir` with
`recursive` fails with EEXIST when the folder name is taken by a file or an
archive, and `unlink` fails with EISDIR when the old archive's name is a
directory. Other failures of either call are given as inputs.

## Model

| member | source | states |
|---|---|---|
| LogBus.FormatShape | backend/server.js:67-73 | the message is the tail of its entry; the entry equals the message exactly for INFO and SUCCESS; WARNING and ERROR carry the `[LEVEL] ` tag in front |
| LogBus.FrameShape | backend/server.js:80 | a frame is `data: `, then the entry, then a blank line, and is 8 characters longer than the entry |
| LogBus.FrameInjective | backend/server.js:80 | distinct entries are written as distinct frames |
| LogBus.BroadcastAt | backend/server.js:79-81 | after one broadcast, every client has its old outbox plus the one frame; ids, order and count are kept |
| LogBus.Bus.constructor | backend/server.js:42-43 | the buffer and the registry start empty |
| LogBus.Bus.Log | backend/server.js:67-81 | exactly one formatted entry is appended to the buffer, earlier entries are kept, and every registered client gets that entry's frame |
| LogBus.Bus.Clear | backend/server.js:170 | the buffer is emptied and the subscribers are untouched |
| LogBus.Bus.Connect | backend/server.js:53-58 | the new client goes last with an empty outbox, so nothing is replayed; the buffer is unchanged |
| LogBus.Bus.Disconnect | backend/server.js:61-63 | the registry becomes `RemoveById` of the old one; the buffer is unchanged |
| LogBus.RemoveById | backend/server.js:62 | a client survives exactly when it was registered and its id differs from the closed one |
| LogBus.RemoveByIdAppend | backend/server.js:62 | filtering distributes over concatenation, so the survivors keep their relative order |
| LogBus.RemoveAbsentIdIsIdentity | backend/server.js:62 | closing an id no client has leaves the registry unchanged |
| LogBus.FramesAt | backend/server.js:79-81 | the k-th frame of a run of entries carries the k-th entry |
| LogBus.DeliverAllAppend | backend/server.js:76-81 | logging two runs of entries one after the other delivers the same as logging their concatenation |
| LogBus.DeliverAllKeepsLength | backend/server.js:79-81 | logging never adds or drops a subscriber |
| LogBus.DeliverAllAt | backend/server.js:79-81 | after a run of entries, the client at position k holds its old frames followed by the frames of exactly that run, in order |
| LogBus.DeliverAllAppendsFrames | backend/server.js:79-81 | the same for every connected client at once |
| LogBus.NewClientSeesOnlyLaterEntries | backend/server.js:53-58 | a client that connects and then sees a run logged holds exactly that run's frames: earlier entries are not replayed |
| Maintenance.IsInMaintenanceWindow | backend/server.js:135-155 | the gate is closed exactly when the time of day is at or after 22:58:00 or before 00:31:00 |
| Maintenance.WindowSpansMidnight | backend/server.js:138-152 | the closed times are [22:58:00, 24:00:00) together with [00:00:00, 00:31:00) |
| Maintenance.WindowExamples | backend/server.js:143-154 | 23:15 and 00:15 are blocked; 01:00, 12:00 and 22:57:59 are open; both edges at 22:58:00 and 00:31:00 fall as stated |
| Common.NatToString | backend/server.js:276 | the rendering of a number is a non-empty run of decimal digits with no leading zero; its value is stated by `NatToStringValue` |
| Common.DigitChar | backend/server.js:276 | the character of a digit stands for that digit |
| Common.NatToStringValue | backend/server.js:276 | the decimal value of the rendering of n is n, so the rendering is the number itself |
| RowRange.StartIndex | backend/server.js:192 | a start of at least 1 becomes start-1; a start that is absent, falsy, not a number, or at most 1 becomes 0 |
| RowRange.EndIndex | backend/server.js:233 | the end never exceeds the row count; an absent or zero last row means the row count; otherwise the end is the smaller of the last row and the row count |
| RowRange.IndicesAreRange | backend/server.js:236 | the row loop visits every integer of [from, to) once, in increasing order; `ScraperProps.RowLoopLogsRowsInOrder` proves the loop processes exactly these indices |
| RowRange.ProcessedRowsAreRequestedRange | backend/server.js:192-236 | every processed row exists in the table, and a row is processed exactly when it lies between the parsed start and end; `ScraperProps.RequestedRowsAreLogged` proves these are the rows an admitted job's table logs |
| RowRange.RangeExample | backend/server.js:233-236 | rows 5 to 20 of a 50-row table are the sixteen indices 4 through 19 |
| Filename.Sanitize | backend/server.js:273 | every kept character is in `[A-Za-z0-9_.-]`, and the result is never longer than the input |
| Filename.SanitizeAppend | backend/server.js:273 | the filter works character by character: kept characters keep their order and nothing replaces a dropped one |
| Filename.SanitizeKeepsAllowed | backend/server.js:273 | a name made only of allowed characters passes unchanged |
| Filename.SanitizeIdempotent | backend/server.js:273 | filtering twice gives the same name as filtering once |
| Filename.SanitizeOneChar | backend/server.js:273 | a single disallowed character is dropped and an allowed one is kept |
| Filename.SanitizeDropsOne | backend/server.js:273 | a disallowed character between an allowed prefix and a rest is dropped and nothing else changes |
| Filename.RowFilename | backend/server.js:266-273 | the name of a readable row uses only allowed characters and ends in `.pdf`; its exact form is stated by `RowFilenameByCell` and `MissingCellIsUnknown` |
| Filename.SanitizeJoin | backend/server.js:271-273 | filtering three parts joined by an allowed separator and followed by an allowed extension is filtering each part on its own |
| Filename.RowFilenameByCell | backend/server.js:266-273 | the name of a readable row is the filtered first, second and third cell, joined by underscores, then `.pdf`; a missing cell counts as `unknown` |
| Filename.MissingCellIsUnknown | backend/server.js:266-273 | a row with fewer than three cells has `unknown` in place of the third cell |
| Filename.CleanCellsKeptVerbatim | backend/server.js:266-273 | three clean cells appear verbatim in the name, joined by underscores |
| Filename.SanitizeDropsTwo | backend/server.js:273 | two disallowed characters between allowed runs are both dropped and the runs close up |
| Filename.FilenameExample | backend/server.js:266-273 | the cells "W#1", "P/2", "North" give `W1_P2_North.pdf` |
| Filename.MissingCellsExample | backend/server.js:266-273 | a row without cells is named `unknown_unknown_unknown.pdf` |
| Filename.FallbackFilename | backend/server.js:276 | the fallback name uses only allowed characters, starts with `table` and ends in `.pdf`; the numbers in it are stated by `FallbackFilenameNumbers` |
| Filename.FallbackFilenameNumbers | backend/server.js:276 | the fallback name is `table`, the decimal digits of tableIdx+1, `_row`, the decimal digits of index+1, then `.pdf`; both numbers are written with no leading zero |
| Filename.FallbackDistinguishesRows | backend/server.js:276 | distinct rows of one table get distinct fallback names |
| Filename.NatToStringInjective | backend/server.js:276 | distinct row numbers render differently |
| Sentinel.ToLower | backend/server.js:252 | lower-casing keeps the length and maps each character on its own |
| Sentinel.Includes | backend/server.js:252 | `includes` is true exactly when the needle occurs at some position of the text |
| Sentinel.AnyIncluded | backend/server.js:252 | `some` is true exactly when some keyword of the list is included |
| Sentinel.IsFatalMeansKeywordOccurs | backend/server.js:246-252 | a page is fatal exactly when some keyword occurs somewhere in its lower-cased source |
| Sentinel.ToLowerIdempotent | backend/server.js:252 | lower-casing twice is lower-casing once |
| Sentinel.IsFatalIgnoresCase | backend/server.js:252 | a page and its lower-cased copy are judged alike |
| Sentinel.KeywordAnywhereIsFatal | backend/server.js:246-252 | any page that shows a keyword anywhere, in any letter case, is fatal |
| Sentinel.SessionExpiredIsFatal | backend/server.js:246-252 | "Session Expired" or "SESSION EXPIRED" anywhere in a page makes it fatal |
| Sentinel.ShortPageIsNotFatal | backend/server.js:246-252 | a page shorter than five characters, the shortest keyword, is never fatal |
| ScraperSpec.Scrape | backend/server.js:158-193 | a job is admitted exactly when the answer is 200 "Scraping started"; the flag is up afterwards exactly when it was up before or a job was admitted |
| ScraperSpec.Abort | backend/server.js:327-338 | after `/abort` the flag is down; the driver is kept exactly when one was held and this abort's own `quit` failed; the output directory is untouched |
| ScraperSpec.RowsFrom | backend/server.js:236-297 | a row loop that ends in a keyword stop leaves the flag down and no driver |
| ScraperSpec.RowStep | backend/server.js:237-297 | the same for one row and the rest of the loop |
| ScraperSpec.Table | backend/server.js:209-233 | a table that ends in a keyword stop leaves the flag down and no driver |
| ScraperSpec.TablesFrom | backend/server.js:206-305 | a table loop that ends in a keyword stop leaves the flag down and no driver |
| ScraperSpec.Cleanup | backend/server.js:308-319 | the `finally` block lowers the flag; the driver is kept exactly when one was held and the final `quit` failed; the output directory is untouched |
| ScraperSpec.Run | backend/server.js:196-319 | every exit of the background task leaves the flag down, and a driver is still held only if the final `quit` (line 312) failed |
| Server.ScraperServer.constructor | backend/server.js:36-43 | at start-up there is no job, no driver, no history and no subscriber |
| Server.ScraperServer.Stream | backend/server.js:53-58 | a new subscriber is appended and nothing else changes |
| Server.ScraperServer.StreamClosed | backend/server.js:61-63 | the subscribers with that id leave and nothing else changes |
| Server.ScraperServer.Scrape | backend/server.js:158-193 | the new state, response and admitted job are those of `ScraperSpec.Scrape`, with the `mkdir` failure, EEXIST included, given by the disk |
| Server.ScraperServer.Abort | backend/server.js:327-340 | the new state is `ScraperSpec.Abort` of the old one, and the answer is always 200 "Operation aborted" |
| Server.ScraperServer.Checkpoint | backend/server.js:207 | an abort that arrives before a checkpoint runs first |
| Server.ScraperServer.Run | backend/server.js:196-319 | the new state is `ScraperSpec.Run` of the old one |
| Server.ScraperServer.Body | backend/server.js:197-305 | the new state and exit are those of `ScraperSpec.Body` |
| Server.ScraperServer.Tables | backend/server.js:206-305 | the table loop and the completion message give the state and exit of `TablesFrom` from table 0 |
| Server.ScraperServer.TablePass | backend/server.js:207-230 | one table pass either ends the loop as `TablesFrom` does, or leaves the rest of the loop equal to `TablesFrom` from the next table |
| Server.ScraperServer.Table | backend/server.js:209-233 | the new state and exit are those of `ScraperSpec.Table` |
| Server.ScraperServer.Rows | backend/server.js:236-297 | the row loop gives the state and exit of `RowsFrom` |
| Server.ScraperServer.Row | backend/server.js:237-290 | one row pass either ends the loop as `RowStep` does, or leaves the rest of the loop equal to `RowStep` |
| Server.ScraperServer.SaveRow | backend/server.js:262-290 | the new state is `ScraperSpec.SaveRow` of the old one |
| Server.ScraperServer.CreateZip | backend/server.js:344-355 | the new state and response are those of `ScraperSpec.CreateZip` |
| Server.ScraperServer.CheckFolder | backend/server.js:357-375 | the new state and response are those of `ScraperSpec.CheckFolder` |
| Server.ScraperServer.ArchiveFolder | backend/server.js:377-401 | the new state and response are those of `ScraperSpec.ArchiveFolder`, with the `unlink` failure, EISDIR included, given by the disk |
| ScraperProps.ExtendsRefl | backend/server.js:67-81 | a state extends itself |
| ScraperProps.LogExtends | backend/server.js:67-81 | `Log` appends one entry and sends its frame to every subscriber |
| ScraperProps.ExtendsTrans | backend/server.js:67-81 | a run of logging steps extends the history by the concatenation of their entries |
| ScraperProps.LogTwiceExtends | backend/server.js:67-81 | two entries in a row only append |
| ScraperProps.AbortExtends | backend/server.js:327-338 | `/abort` only appends to the log bus |
| ScraperProps.AtCheckpointExtends | backend/server.js:207 | a checkpoint only appends to the log bus |
| ScraperProps.SaveRowEffect | backend/server.js:262-290 | `SaveRow` keeps the flag and the driver, writes exactly the row's document under the row's name into the job folder, and only appends to the log |
| ScraperProps.SaveRowLog | backend/server.js:276-290 | `SaveRow` logs the extraction ERROR when the cells could not be read, then the SUCCESS entry naming the saved file, and nothing else |
| ScraperProps.SavedRowLog | backend/server.js:239-290 | reporting a row and saving it adds exactly that row's entries |
| ScraperProps.RowsLogStep | backend/server.js:236 | the entries of the rows from i on are row i's entries followed by those from i+1 on |
| ScraperProps.RowLoopLogsRowsInOrder | backend/server.js:236-290 | with no abort and no fatal page, the row loop logs, for each index j of `Indices(i, end)` in order, "Processing row j+1" followed by that row's save entries, and nothing else |
| ScraperProps.TableLogsRequestedRows | backend/server.js:209-290 | a loaded table left alone logs its opening entries and then, in order, the entries of the rows between the parsed start and end |
| ScraperProps.RequestedRowsAreLogged | backend/server.js:158-290 | for a job `/scrape` admitted, a loaded table left alone logs, in order, exactly the rows `RowIndices` gives for the request's start and last row |
| ScraperProps.WriteFileEffect | backend/server.js:289 | writing adds the name to the folder and changes no other entry of the output directory |
| ScraperProps.RowsFromExtends | backend/server.js:236-297 | the row loop only appends to the log bus |
| ScraperProps.TableExtends | backend/server.js:209-233 | a table only appends to the log bus |
| ScraperProps.TablesFromExtends | backend/server.js:206-305 | the table loop only appends to the log bus |
| ScraperProps.BodyExtends | backend/server.js:197-305 | `Body`, the `try` block, only appends to the log bus |
| ScraperProps.CleanupExtends | backend/server.js:308-319 | `Cleanup`, the `finally` block, only appends to the log bus |
| ScraperProps.RunExtends | backend/server.js:196-319 | the whole task never removes or rewrites an entry, and every subscriber is sent exactly the frames of the entries it logged |
| ScraperProps.RunReachesEverySubscriber | backend/server.js:196-319 | a subscriber connected for the whole run ends with its old frames followed by the frames of exactly the run's new entries |
| ScraperProps.SavedNamesStep | backend/server.js:236-290 | the names saved from row i on are row i's name plus those saved from row i+1 on |
| ScraperProps.RowLoopSavesEveryRow | backend/server.js:236-297 | with no abort and no fatal page, the row loop finishes with the flag up and the driver kept; the folder gains exactly the names of the rows in range, and no other entry of the output directory changes |
| ScraperProps.TableSavesRequestedRows | backend/server.js:219-297 | a loaded table left alone finishes with the flag up and the driver kept, and the job folder gains exactly the names of the rows between the parsed start and end |
| ScraperProps.TimeoutSkipsTable | backend/server.js:219-230 | a table whose rows never appear adds one WARNING after its opening entry, and the loop goes on with the next table |
| ScraperProps.FatalRowStopsJob | backend/server.js:252-260 | a fatal page logs its row entry and one ERROR naming row index+1, lowers the flag, releases the driver when its `quit` (line 256) succeeds, and ends the loop with `Stopped` |
| ScraperProps.StoppedTableEndsLoop | backend/server.js:206-260 | a table that stops on a fatal page ends the table loop with its own state, so no later table is opened |
| ScraperProps.FatalRowEndsRun | backend/server.js:197-319 | a fatal first row ends `Body` with `Stopped` after exactly the login, table, row and ERROR entries, with the flag down and the driver quit; `Run` adds nothing after it |
| ScraperProps.StoppedRunLogsNothingMore | backend/server.js:259-319 | after a keyword stop the `finally` block changes nothing, so the ERROR entry is the run's last |
| ScraperProps.AbortWithoutDriver | backend/server.js:327-330 | an abort with no driver only lowers the flag |
| ScraperProps.AbortIdempotent | backend/server.js:327-338 | an abort after one that quit the driver changes nothing |
| ScraperProps.AbortBeforeTableEndsLoop | backend/server.js:206-207 | an abort before a table ends the loop with the completion entry; that table and later ones are not opened |
| ScraperProps.AbortBeforeRowEndsInTypeError | backend/server.js:236-300 | an abort before the first row whose own `quit` succeeds leaves `driver` null, so the table's `driver.close()` throws and the task ends in its `catch` |
| ScraperProps.ScrapeAdmitsExactly | backend/server.js:158-193 | `/scrape` admits a job exactly when nothing runs, the gate is open, the three fields are truthy, `mkdir` reports no error and the folder name is free or already a directory (else EEXIST); it answers 200 exactly then |
| ScraperProps.AdmittedJob | backend/server.js:170-193 | an admitted job starts on a history holding only the save location, keeps what the folder held, and carries the parsed start row and the raw last row |
| ScraperProps.RefusedBeforeClearing | backend/server.js:160-167 | while a job runs (400) or while the gate is closed (503), `/scrape` changes nothing |
| ScraperProps.RefusedRequestWipesHistory | backend/server.js:169-189 | a request refused for its fields or its folder still empties the log, and the flag ends down |
| ScraperProps.SingleJob | backend/server.js:160-171 | once a job is admitted, every further `/scrape` is refused with 400 while the flag is up |
| ScraperProps.RunFreesTheSlot | backend/server.js:308-309 | after the task, `/scrape` is never refused as busy, and a well-formed request outside the window is admitted exactly when its folder name is free or a directory |
| ScraperProps.ArchiveFolderEffect | backend/server.js:377-401 | `ArchiveFolder` succeeds exactly when there is no old `<folder>.zip`, or `unlink` reports no error and that name is not a directory (else EISDIR), and the archiver did not fail; on success the archive holds the given files; the rest of the output directory never changes |
| ScraperProps.CreateZipSucceedsExactly | backend/server.js:344-401 | `CreateZip` answers 200 exactly when the name is truthy, names a directory, and removing the old archive (EISDIR included) and archiving do not fail; then only the archive entry changes |
| ScraperProps.CreateZipRefusals | backend/server.js:348-367 | the refusals of `CreateZip` and `CheckFolder` come in order: 400 for no name, 404 for no folder, 400 for a non-directory, and a refused request leaves the output directory alone |
| ScraperProps.CreateZipIdempotent | backend/server.js:377-410 | zipping a folder twice leaves the output directory as zipping it once |
| ScraperProps.CreateZipExtends | backend/server.js:344-401 | `/create-zip` leaves the job alone and only appends to the log bus |
| ScraperProps.CheckFolderExtends | backend/server.js:354-375 | `CheckFolder` leaves the job alone and only appends to the log bus |
| ScraperProps.ArchiveExtends | backend/server.js:377-401 | archiving leaves the job alone and only appends to the log bus |

## Left out

- Selenium is not modelled. Starting the driver, loading a table, reading a row and `quit` are an oracle (`Browser`).
- Failures of the other driver calls inside the table and row loops are not modelled: opening and switching tabs (lines 210-214, 280), re-fetching the rows and clicking one (lines 240-241), reading the page source (line 245), and closing tabs (lines 293-302). Such a throw, for example a click on a row that vanished after the re-fetch, would end the task in the `catch` at line 307; the model has no input that produces it, and these calls always succeed. The tab bookkeeping itself is left out.
- Only one null-driver failure is modelled: the `driver.close()` after a row loop that an abort interrupted (line 300). Other driver calls that would meet a null driver after an abort are not modelled.
- Which tab's HTML is saved, and which tab's source the keyword check reads, is up to the oracle: `RowPage.document` and `RowPage.pageSource` are given. In the source, the switch at line 280 goes to a handle captured at line 213, before the row is clicked, so it is the table's tab rather than a tab the row opened.
- How subscribers parse the frames is not modelled. The model states what is written to each stream. In server-sent events a line break ends the `data:` field, so an entry that contains one, such as an interpolated error message spanning lines, reaches an `EventSource` cut off at its first line break.
- The Chrome options (lines 88-116) are configuration only.
- The settling delays (`setTimeout`) have no logical effect.
- Concurrency is not modelled. An `/abort` that runs while the task is suspended inside an `await` is modelled as acting just before the next flag check. It does not pre-empt a row that is half done.
- An `/abort` followed by a new `/scrape` while the old task still waits at an `await` is not modelled. The flag is shared, so the new job is admitted; the old task then goes on with the new driver, and its `finally` lowers the new job's flag and quits the new job's driver. The model runs one task at a time, so `SingleJob` holds only while the flag is up.
- ScraperSpec.Scrape: a `folderName` that is truthy but not a string (such as `5` in the JSON body) is not modelled, since the request carries it as `Option<string>`. In the source, such a value passes the check at line 176. It then makes `path.join` at line 182 throw outside the `try`, after the log was wiped (line 170) and the flag raised (line 171). No 400 is sent, and the flag stays up, so every later `/scrape` is refused as busy until an `/abort`.
- Express, CORS, the SSE response headers, the error middleware (lines 10-33, 46-51) and `app.listen` are not modelled.
- The Luxon conversion to Asia/Kolkata time is not modelled. The gate takes the local time of day, to the second; milliseconds are ignored.
- `parseInt` is not modelled. The request carries each index already parsed, as `Option<int>`, where `None` means absent, falsy or not a number.
- Lower-casing covers ASCII letters only. Unicode case mapping is not modelled.
- The file system is a map from names under `pdf_output` to folders, files and archives. The absolute save path is written as `pdf_output/`, and `path.join` normalisation of the folder name is not modelled.
- A failing `writeFileSync` (line 289) is not modelled.
- Three parts of `/create-zip` are not modelled: the partial archive left by a failing archiver, the outer `catch` at lines 412-415, and a second response on the same request.
- The `/create-zip` archiver is abstracted to one of two outcomes: success, or one error. The compression itself is not modelled.
- `console.log` output is not modelled.
- Collisions between `Date.now()` ids of two `/stream` connections are not modelled. Closing one connection removes every client with that id, as `filter` does.
- The React front end and its API wrapper are not part of this model.
- ScraperSpec.RowsFrom, ScraperSpec.RowStep, ScraperSpec.Table and ScraperSpec.TablesFrom: their own contracts state only the keyword-stop cleanup. Everything else they do is stated by the lemmas of `ScraperProps` and by the `Server` methods proved equal to them.
