/** The job controller of the scraping back end, as functions over a snapshot
    of its state: the busy flag, whether a browser driver is held, the log
    bus, and the output directory. Each function gives the state a route or
    the background task leaves behind; the class in module Server is proved
    to leave exactly that state.

    The browser is an oracle fixed in advance: whether the driver starts,
    whether the login page opens, for each table either a row-location
    timeout or its rows (each with the page source seen after the click,
    the cell texts or the error reading them, and the captured document),
    and whether `quit` fails. Requests to `/abort` that arrive while the
    task runs are given as the loop checkpoints they precede. */
module ScraperSpec {
  import opened Common
  import opened LogBus
  import opened Maintenance
  import opened RowRange
  import opened Filename
  import opened Sentinel

  // ---------------------------------------------------------------- state

  /** What is under the output root `pdf_output`: a job folder of saved
      files, a plain file, or a ZIP archive holding a copy of a folder's files. */
  datatype Node = Dir(files: map<string, string>) | File(content: string) | Archive(entries: map<string, string>)

  /** The state of the back end: `isScrapingActive`, `driver !== null`,
      `logMessages`, `clients`, and the output directory keyed by name. */
  datatype World = World(
    active: bool,
    driver: bool,
    log: seq<string>,
    clients: seq<Client>,
    disk: map<string, Node>)

  /** `logMessage(msg, level)`. */
  function Log(w: World, level: Level, msg: string): World {
    var entry := Format(level, msg);
    w.(log := w.log + [entry], clients := Broadcast(w.clients, Frame(entry)))
  }

  /** The saved files of a folder; none if it is not a directory. */
  function FilesIn(disk: map<string, Node>, folder: string): map<string, string> {
    if folder in disk && disk[folder].Dir? then disk[folder].files else map[]
  }

  /** `fs.writeFileSync(path.join(saveDir, name), content)`. */
  function WriteFile(disk: map<string, Node>, folder: string, name: string, content: string): map<string, Node> {
    disk[folder := Dir(FilesIn(disk, folder)[name := content])]
  }

  /** `fs.mkdirSync(saveDir, { recursive: true })` when it succeeds: an
      existing directory is kept with its files. */
  function MakeDir(disk: map<string, Node>, folder: string): map<string, Node> {
    if folder in disk && disk[folder].Dir? then disk else disk[folder := Dir(map[])]
  }

  /** A directory can be made, or is already there, under this name:
      nothing else has taken it. */
  predicate CanHoldFolder(disk: map<string, Node>, folder: string) {
    folder !in disk || disk[folder].Dir?
  }

  /** How `fs.mkdirSync(saveDir, { recursive: true })` fails, if it does:
      with the error the file system reports (`mkdirError`), or because a
      file or archive already has the name. */
  function MkdirFailure(disk: map<string, Node>, folder: string, mkdirError: Option<string>): Option<string> {
    if mkdirError.Some? then mkdirError
    else if !CanHoldFolder(disk, folder) then Some("EEXIST: file already exists, mkdir '" + SavePath(folder) + "'")
    else None
  }

  /** How `fs.unlinkSync` of an existing entry fails, if it does: with the
      error the file system reports (`unlinkError`), or because the entry is
      a directory. */
  function UnlinkFailure(disk: map<string, Node>, name: string, unlinkError: Option<string>): Option<string>
    requires name in disk
  {
    if unlinkError.Some? then unlinkError
    else if disk[name].Dir? then Some("EISDIR: illegal operation on a directory, unlink '" + SavePath(name) + "'")
    else None
  }

  /** `path.join(SAVE_DIR, name)`, with the output root written relatively. */
  function SavePath(name: string): string {
    "pdf_output/" + name
  }

  // ------------------------------------------------------------- messages

  function SavedToMsg(folder: string): string { "PDFs will be saved to: " + SavePath(folder) }
  function InitErrorMsg(e: string): string { "Error initializing ChromeDriver: " + e }
  const OpenedLoginMsg := "Opened login page"
  function OpeningTableMsg(t: nat): string { "Opening table URL " + NatToString(t + 1) }
  function FoundRowsMsg(n: nat, t: nat): string {
    "Found " + NatToString(n) + " rows in table " + NatToString(t + 1)
  }
  function TableTimeoutMsg(t: nat): string {
    "Table " + NatToString(t + 1) + " took too long to load or has too much data. Skipping this table."
  }
  function ProcessingRowMsg(i: nat): string { "Processing row " + NatToString(i + 1) }
  function UnexpectedContentMsg(i: nat): string {
    "Error: Unexpected content detected on row " + NatToString(i + 1) + ". Stopping automation."
  }
  function ExtractionErrorMsg(e: string): string { "Error extracting row data: " + e }
  function SavedMsg(name: string): string { " Saved: " + name }
  function CompletedMsg(folder: string): string {
    " Scraping completed. PDFs saved in 'pdf_output/" + folder + "' folder."
  }
  function CaughtMsg(e: string): string { "Error: " + e }
  const BrowserClosedMsg := "Browser closed"
  const AbortClosedMsg := "Browser closed due to abort request"
  function CloseErrorMsg(e: string): string { "Error closing browser: " + e }
  /** The TypeError of `driver.close()` once an abort has set `driver` to null. */
  const NullDriverError := "Cannot read properties of null (reading 'close')"

  // ------------------------------------------------------------ requests

  datatype Response = Response(status: int, message: string)

  /** A `/scrape` body. A string field is `None` when absent; an index field
      is `None` when absent, falsy or not a number, else `parseInt` of it. */
  datatype ScrapeRequest = ScrapeRequest(
    loginUrl: Option<string>,
    urls: Option<seq<string>>,
    folderName: Option<string>,
    startIndex: Option<int>,
    lastIndex: Option<int>)

  /** JavaScript truthiness of a string field: present and non-empty. */
  predicate Present(s: Option<string>) {
    s.Some? && s.value != ""
  }

  /** An admitted job: what the background task closes over. */
  datatype Job = Job(loginUrl: string, urls: seq<string>, folderName: string, startIdx: nat, lastIdx: Option<int>)

  const BusyMsg := "A scraping operation is already in progress."
  const MaintenanceMsg := "Website under maintenance. Please try again after 12:31 AM IST."
  const MissingFieldsMsg := "Login URL, table URLs, and folder name are required."
  function MkdirErrorMsg(e: string): string { "Error creating save directory: " + e }
  const StartedMsg := "Scraping started. Check the logs for updates."
  const AbortedMsg := "Operation aborted"

  /** The synchronous part of `/scrape`: the busy flag, then the maintenance
      gate, then (after clearing the log and raising the flag) the required
      fields, then the output folder. `mkdirError` is an error
      the file system reports to `fs.mkdirSync`, if any. */
  function Scrape(w: World, req: ScrapeRequest, now: TimeOfDay, mkdirError: Option<string>): (r: (World, Response, Option<Job>))
    requires ValidTime(now)
    ensures r.2.Some? <==> r.1 == Response(200, StartedMsg)
    ensures r.0.active <==> w.active || r.2.Some?
  {
    if w.active then (w, Response(400, BusyMsg), None)
    else if IsInMaintenanceWindow(now) then (w, Response(503, MaintenanceMsg), None)
    else
      var w1 := w.(log := [], active := true);
      if !Present(req.loginUrl) || req.urls.None? || !Present(req.folderName) then
        (w1.(active := false), Response(400, MissingFieldsMsg), None)
      else if MkdirFailure(w1.disk, req.folderName.value, mkdirError).Some? then
        var e := MkdirFailure(w1.disk, req.folderName.value, mkdirError).value;
        (w1.(active := false), Response(400, MkdirErrorMsg(e)), None)
      else
        var folder := req.folderName.value;
        var w2 := Log(w1.(disk := MakeDir(w1.disk, folder)), Info, SavedToMsg(folder));
        var job := Job(req.loginUrl.value, req.urls.value, folder, StartIndex(req.startIndex), req.lastIndex);
        (w2, Response(200, StartedMsg), Some(job))
  }

  /** `/abort`: lower the flag and, if a driver is held, quit it. */
  function Abort(w: World, quitError: Option<string>): (r: World)
    ensures !r.active
    ensures r.driver <==> w.driver && quitError.Some?
    ensures r.disk == w.disk
  {
    var w1 := w.(active := false);
    if !w1.driver then w1
    else match quitError
      case None => Log(w1.(driver := false), Info, AbortClosedMsg)
      case Some(e) => Log(w1, Error, CloseErrorMsg(e))
  }

  // ------------------------------------------------------ background task

  /** What reading a row's cells gave. */
  datatype Extraction = Cells(texts: seq<string>) | ExtractionFailed(reason: string)

  /** One row as the browser shows it after the click. */
  datatype RowPage = RowPage(pageSource: string, extraction: Extraction, document: string)

  /** Locating the rows of a table: the 10-second wait ran out, or these rows. */
  datatype TableLoad = TimedOut | Loaded(rows: seq<RowPage>)

  /** What the browser does: whether the driver starts and the login page
      opens, what each table shows, and how the two `quit` calls of the task
      end: the one after a fatal page (`stopQuit`) and the one in the
      `finally` block (`finalQuit`). */
  datatype Browser = Browser(
    initError: Option<string>,
    loginError: Option<string>,
    load: nat -> TableLoad,
    stopQuit: Option<string>,
    finalQuit: Option<string>)

  /** The places where the task reads the busy flag. */
  datatype Checkpoint = BeforeTable(tableIdx: nat) | BeforeRow(tableIdx: nat, index: nat)

  /** The job, the browser, and the `/abort` requests that arrive while the
      task runs: each just before the checkpoint it is keyed by, with how
      its own `quit` call ends. */
  datatype Env = Env(job: Job, browser: Browser, aborts: map<Checkpoint, Option<string>>)

  /** How the body of the task's `try` block ended. */
  datatype Exit = Finished | Stopped | Threw(message: string)

  /** An `/abort` that arrives just before a checkpoint runs first. */
  function AtCheckpoint(w: World, env: Env, cp: Checkpoint): World {
    if cp in env.aborts then Abort(w, env.aborts[cp]) else w
  }

  /** The name a row is saved under. */
  function RowName(tableIdx: nat, index: nat, page: RowPage): string {
    match page.extraction
    case Cells(texts) => RowFilename(texts)
    case ExtractionFailed(_) => FallbackFilename(tableIdx, index)
  }

  /** Name a row that passed the sentinel, save its document into the job
      folder, and report it. */
  function SaveRow(w: World, env: Env, t: nat, i: nat, page: RowPage): World {
    var w1 := if page.extraction.Cells? then w else Log(w, Error, ExtractionErrorMsg(page.extraction.reason));
    var name := RowName(t, i, page);
    Log(w1.(disk := WriteFile(w1.disk, env.job.folderName, name, page.document)), Success, SavedMsg(name))
  }

  /** The row loop of table `t` from row `i` on, up to `end`. */
  function RowsFrom(w: World, env: Env, t: nat, rows: seq<RowPage>, i: nat, end: int): (r: (World, Exit))
    requires end <= |rows|
    ensures r.1.Stopped? ==> !r.0.active && !r.0.driver
    decreases end - i, 1
  {
    if i >= end then (w, Finished) else RowStep(w, env, t, rows, i, end)
  }

  /** Row `i` and the rest of the loop: after the checkpoint, report the row,
      stop the job on a fatal page, else save the row and go on. */
  function RowStep(w: World, env: Env, t: nat, rows: seq<RowPage>, i: nat, end: int): (r: (World, Exit))
    requires i < end <= |rows|
    ensures r.1.Stopped? ==> !r.0.active && !r.0.driver
    decreases end - i, 0
  {
    var w1 := AtCheckpoint(w, env, BeforeRow(t, i));
    if !w1.active then (w1, Finished)
    else
      var w2 := Log(w1, Info, ProcessingRowMsg(i));
      var page := rows[i];
      if IsFatal(page.pageSource) then
        var w3 := Log(w2, Error, UnexpectedContentMsg(i)).(active := false);
        if !w3.driver then (w3, Stopped)
        else match env.browser.stopQuit
          case None => (w3.(driver := false), Stopped)
          case Some(e) => (w3, Threw(e))
      else
        RowsFrom(SaveRow(w2, env, t, i, page), env, t, rows, i + 1, end)
  }

  /** One table from its URL being opened: `Finished` means go on with the next table. */
  function Table(w: World, env: Env, t: nat): (r: (World, Exit))
    ensures r.1.Stopped? ==> !r.0.active && !r.0.driver
  {
    var w1 := Log(w, Info, OpeningTableMsg(t));
    match env.browser.load(t)
    case TimedOut => (Log(w1, Warning, TableTimeoutMsg(t)), Finished)
    case Loaded(rows) =>
      var w2 := Log(w1, Info, FoundRowsMsg(|rows|, t));
      var r := RowsFrom(w2, env, t, rows, env.job.startIdx, EndIndex(env.job.lastIdx, |rows|));
      if r.1.Finished? && !r.0.driver then (r.0, Threw(NullDriverError)) else r
  }

  /** The table loop from table `t` on, then the completion message. */
  function TablesFrom(w: World, env: Env, t: nat): (r: (World, Exit))
    ensures r.1.Stopped? ==> !r.0.active && !r.0.driver
    decreases |env.job.urls| - t
  {
    if t >= |env.job.urls| then (Log(w, Success, CompletedMsg(env.job.folderName)), Finished)
    else
      var w1 := AtCheckpoint(w, env, BeforeTable(t));
      if !w1.active then (Log(w1, Success, CompletedMsg(env.job.folderName)), Finished)
      else
        var r := Table(w1, env, t);
        if r.1.Finished? then TablesFrom(r.0, env, t + 1) else r
  }

  /** The `try` block of the task: start the driver, open the login page, run the tables. */
  function Body(w: World, env: Env): (World, Exit) {
    match env.browser.initError
    case Some(e) => (Log(w, Error, InitErrorMsg(e)), Threw(e))
    case None =>
      var w1 := w.(driver := true);
      match env.browser.loginError
      case Some(e) => (w1, Threw(e))
      case None => TablesFrom(Log(w1, Info, OpenedLoginMsg), env, 0)
  }

  /** The `finally` block: lower the flag and quit a held driver. */
  function Cleanup(w: World, quitError: Option<string>): (r: World)
    ensures !r.active
    ensures r.driver <==> w.driver && quitError.Some?
    ensures r.disk == w.disk
  {
    var w1 := w.(active := false);
    if !w1.driver then w1
    else match quitError
      case None => Log(w1.(driver := false), Info, BrowserClosedMsg)
      case Some(e) => Log(w1, Error, CloseErrorMsg(e))
  }

  /** The whole background task: body, `catch`, `finally`. Every exit
      lowers the flag, and the driver is released unless `quit` fails. */
  function Run(w: World, env: Env): (r: World)
    ensures !r.active
    ensures r.driver ==> env.browser.finalQuit.Some?
  {
    var r := Body(w, env);
    var w1 := if r.1.Threw? then Log(r.0, Error, CaughtMsg(r.1.message)) else r.0;
    Cleanup(w1, env.browser.finalQuit)
  }

  // -------------------------------------------------------------- archive

  function ZipName(folder: string): string { folder + ".zip" }
  const NoFolderMsg := "No folder name provided"
  const FolderRequiredMsg := "Folder name is required"
  function CheckingMsg(folder: string): string { "Checking folder path: " + SavePath(folder) }
  function NotFoundMsg(folder: string): string { "Folder not found: " + SavePath(folder) }
  function NotDirMsg(folder: string): string { "Path exists but is not a directory: " + SavePath(folder) }
  function FoundFilesMsg(n: nat): string { "Found " + NatToString(n) + " files in the folder" }
  function CreatingZipMsg(folder: string): string { "Creating zip at: " + SavePath(ZipName(folder)) }
  const RemovedZipMsg := "Removed existing zip file"
  function RemoveZipErrorMsg(e: string): string { "Error removing existing zip: " + e }
  function ZipErrorMsg(e: string): string { "Error during zip creation: " + e }
  const ZipCreatedMsg := "ZIP file created successfully"
  function ZipCreatedResponse(folder: string): string {
    "ZIP file created successfully at pdf_output/" + folder + ".zip"
  }

  /** `/create-zip`: a missing name, then a missing folder, then a path that
      is not a directory are refused in that order; then an old archive is
      removed and the folder's files are archived. `unlinkError` and
      `archiveError` are what removing the old archive and archiving throw. */
  function CreateZip(w: World, folderName: Option<string>, unlinkError: Option<string>, archiveError: Option<string>): (World, Response)
  {
    if !Present(folderName) then (Log(w, Error, NoFolderMsg), Response(400, FolderRequiredMsg))
    else CheckFolder(Log(w, Info, CheckingMsg(folderName.value)), folderName.value, unlinkError, archiveError)
  }

  /** The existence and directory checks, then the archive. */
  function CheckFolder(w: World, folder: string, unlinkError: Option<string>, archiveError: Option<string>): (World, Response)
  {
    if folder !in w.disk then (Log(w, Error, NotFoundMsg(folder)), Response(404, "Folder not found"))
    else if !w.disk[folder].Dir? then (Log(w, Error, NotDirMsg(folder)), Response(400, "Invalid folder path"))
    else
      var files := w.disk[folder].files;
      ArchiveFolder(Log(Log(w, Info, FoundFilesMsg(|files|)), Info, CreatingZipMsg(folder)),
                    folder, files, unlinkError, archiveError)
  }

  /** Replace `<folder>.zip` by an archive of `files`, the folder's contents. */
  function ArchiveFolder(w: World, folder: string, files: map<string, string>,
                         unlinkError: Option<string>, archiveError: Option<string>): (World, Response)
  {
    var zip := ZipName(folder);
    if zip in w.disk && UnlinkFailure(w.disk, zip, unlinkError).Some? then
      var e := UnlinkFailure(w.disk, zip, unlinkError).value;
      (Log(w, Error, RemoveZipErrorMsg(e)), Response(500, "Error removing existing zip file: " + e))
    else
      var w1 := if zip in w.disk then Log(w.(disk := w.disk - {zip}), Info, RemovedZipMsg) else w;
      match archiveError
      case Some(e) => (Log(w1, Error, ZipErrorMsg(e)), Response(500, "Error creating ZIP file: " + e))
      case None =>
        (Log(w1.(disk := w1.disk[zip := Archive(files)]), Success, ZipCreatedMsg),
         Response(200, ZipCreatedResponse(folder)))
  }
}
