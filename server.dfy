/** The back end as one object: the module-level variables of the server
    become fields, each route and the background task a method, and each
    method is proved to leave the state the matching function of module
    ScraperSpec gives. */
module Server {
  import opened Common
  import opened LogBus
  import opened Maintenance
  import opened RowRange
  import opened Filename
  import opened Sentinel
  import opened ScraperSpec

  class ScraperServer {
    /** `isScrapingActive` */
    var active: bool
    /** `driver !== null` */
    var driver: bool
    /** The output root `pdf_output` and what is in it. */
    var disk: map<string, Node>
    /** `logMessages` and `clients`. */
    const bus: Bus

    ghost function Snapshot(): World
      reads this, bus
    {
      World(active, driver, bus.messages, bus.clients, disk)
    }

    /** Start-up: no job, no driver, no history, no observers; the output
        root holds what earlier runs left there. */
    constructor (existing: map<string, Node>)
      ensures Snapshot() == World(false, false, [], [], existing)
      ensures fresh(bus)
    {
      active := false;
      driver := false;
      disk := existing;
      bus := new Bus();
    }

    /** `GET /stream`: a new observer with identifier `id` (the connection
        time in the source) joins; it sees only entries logged from now on. */
    method Stream(id: int)
      modifies bus
      ensures Snapshot() == old(Snapshot()).(clients := old(Snapshot()).clients + [Client(id, [])])
    {
      bus.Connect(id);
    }

    /** The observer's connection closes: every observer with that identifier leaves. */
    method StreamClosed(id: int)
      modifies bus
      ensures Snapshot() == old(Snapshot()).(clients := RemoveById(old(Snapshot()).clients, id))
    {
      bus.Disconnect(id);
    }

    /** `POST /scrape` up to its response; the job it admits is what `Run`
        then executes. */
    method Scrape(req: ScrapeRequest, now: TimeOfDay, mkdirError: Option<string>) returns (resp: Response, job: Option<Job>)
      requires ValidTime(now)
      modifies this, bus
      ensures (Snapshot(), resp, job) == ScraperSpec.Scrape(old(Snapshot()), req, now, mkdirError)
    {
      if active {
        return Response(400, BusyMsg), None;
      }
      if IsInMaintenanceWindow(now) {
        return Response(503, MaintenanceMsg), None;
      }
      bus.Clear();
      active := true;
      if !Present(req.loginUrl) || req.urls.None? || !Present(req.folderName) {
        active := false;
        return Response(400, MissingFieldsMsg), None;
      }
      var folder := req.folderName.value;
      var failure := MkdirFailure(disk, folder, mkdirError);
      if failure.Some? {
        active := false;
        return Response(400, MkdirErrorMsg(failure.value)), None;
      }
      disk := MakeDir(disk, folder);
      bus.Log(SavedToMsg(folder), Info);
      resp := Response(200, StartedMsg);
      job := Some(Job(req.loginUrl.value, req.urls.value, folder, StartIndex(req.startIndex), req.lastIndex));
    }

    /** `POST /abort`. */
    method Abort(quitError: Option<string>) returns (resp: Response)
      modifies this, bus
      ensures Snapshot() == ScraperSpec.Abort(old(Snapshot()), quitError)
      ensures resp == Response(200, AbortedMsg)
    {
      active := false;
      if driver {
        match quitError
        case None =>
          driver := false;
          bus.Log(AbortClosedMsg, Info);
        case Some(e) =>
          bus.Log(CloseErrorMsg(e), Error);
      }
      resp := Response(200, AbortedMsg);
    }

    /** An `/abort` that the environment delivers just before `cp`. */
    method Checkpoint(env: Env, cp: ScraperSpec.Checkpoint)
      modifies this, bus
      ensures Snapshot() == AtCheckpoint(old(Snapshot()), env, cp)
    {
      if cp in env.aborts {
        var _ := Abort(env.aborts[cp]);
      }
    }

    /** The background task started by an admitted `/scrape`. */
    method Run(env: Env)
      modifies this, bus
      ensures Snapshot() == ScraperSpec.Run(old(Snapshot()), env)
    {
      var exit := Body(env);
      if exit.Threw? {
        bus.Log(CaughtMsg(exit.message), Error);
      }
      active := false;
      if driver {
        match env.browser.finalQuit
        case None =>
          driver := false;
          bus.Log(BrowserClosedMsg, Info);
        case Some(e) =>
          bus.Log(CloseErrorMsg(e), Error);
      }
    }

    /** The `try` block of the task: driver, login page, then the tables. */
    method Body(env: Env) returns (exit: Exit)
      modifies this, bus
      ensures (Snapshot(), exit) == ScraperSpec.Body(old(Snapshot()), env)
    {
      if env.browser.initError.Some? {
        bus.Log(InitErrorMsg(env.browser.initError.value), Error);
        return Threw(env.browser.initError.value);
      }
      driver := true;
      if env.browser.loginError.Some? {
        return Threw(env.browser.loginError.value);
      }
      bus.Log(OpenedLoginMsg, Info);
      exit := Tables(env);
    }

    /** The table loop, then the completion message. */
    method Tables(env: Env) returns (exit: Exit)
      modifies this, bus
      ensures (Snapshot(), exit) == TablesFrom(old(Snapshot()), env, 0)
    {
      var t := 0;
      while t < |env.job.urls|
        invariant 0 <= t <= |env.job.urls|
        invariant TablesFrom(Snapshot(), env, t) == TablesFrom(old(Snapshot()), env, 0)
        decreases |env.job.urls| - t
      {
        var done;
        done, exit := TablePass(env, t);
        if done {
          return;
        }
        t := t + 1;
      }
      bus.Log(CompletedMsg(env.job.folderName), Success);
      exit := Finished;
    }

    /** One pass of the table loop: `done` when the task leaves the loop at
        table `t` (an abort ends it with the completion message), otherwise
        what is left is the loop from table `t + 1`. */
    method TablePass(env: Env, t: nat) returns (done: bool, exit: Exit)
      requires t < |env.job.urls|
      modifies this, bus
      ensures done ==> (Snapshot(), exit) == TablesFrom(old(Snapshot()), env, t)
      ensures !done ==> TablesFrom(Snapshot(), env, t + 1) == TablesFrom(old(Snapshot()), env, t)
    {
      Checkpoint(env, BeforeTable(t));
      if !active {
        bus.Log(CompletedMsg(env.job.folderName), Success);
        return true, Finished;
      }
      exit := Table(env, t);
      done := !exit.Finished?;
    }

    /** One table: open it, locate its rows or skip it, run the row loop. */
    method Table(env: Env, t: nat) returns (exit: Exit)
      modifies this, bus
      ensures (Snapshot(), exit) == ScraperSpec.Table(old(Snapshot()), env, t)
    {
      bus.Log(OpeningTableMsg(t), Info);
      match env.browser.load(t)
      case TimedOut =>
        bus.Log(TableTimeoutMsg(t), Warning);
        exit := Finished;
      case Loaded(rows) =>
        bus.Log(FoundRowsMsg(|rows|, t), Info);
        exit := Rows(env, t, rows, env.job.startIdx, EndIndex(env.job.lastIdx, |rows|));
        if exit.Finished? && !driver {
          exit := Threw(NullDriverError);
        }
    }

    /** The row loop of table `t`, from `start` up to `end`. */
    method Rows(env: Env, t: nat, rows: seq<RowPage>, start: nat, end: int) returns (exit: Exit)
      requires end <= |rows|
      modifies this, bus
      ensures (Snapshot(), exit) == RowsFrom(old(Snapshot()), env, t, rows, start, end)
    {
      var i := start;
      while i < end
        invariant start <= i
        invariant i <= end || i == start
        invariant RowsFrom(Snapshot(), env, t, rows, i, end) == RowsFrom(old(Snapshot()), env, t, rows, start, end)
        decreases end - i
      {
        var done;
        done, exit := Row(env, t, rows, i, end);
        if done {
          return;
        }
        i := i + 1;
      }
      exit := Finished;
    }

    /** One pass of the row loop: `done` when the loop ends at row `i`,
        otherwise what is left is the loop from row `i + 1`. */
    method Row(env: Env, t: nat, rows: seq<RowPage>, i: nat, end: int) returns (done: bool, exit: Exit)
      requires i < end <= |rows|
      modifies this, bus
      ensures done ==> (Snapshot(), exit) == RowStep(old(Snapshot()), env, t, rows, i, end)
      ensures !done ==> RowsFrom(Snapshot(), env, t, rows, i + 1, end) == RowStep(old(Snapshot()), env, t, rows, i, end)
    {
      Checkpoint(env, BeforeRow(t, i));
      if !active {
        return true, Finished;
      }
      bus.Log(ProcessingRowMsg(i), Info);
      var page := rows[i];
      if IsFatal(page.pageSource) {
        bus.Log(UnexpectedContentMsg(i), Error);
        active := false;
        if driver {
          match env.browser.stopQuit
          case None =>
            driver := false;
          case Some(e) =>
            return true, Threw(e);
        }
        return true, Stopped;
      }
      SaveRow(env, t, i, page);
      done, exit := false, Finished;
    }

    /** Name a row, save its document, report it. */
    method SaveRow(env: Env, t: nat, i: nat, page: RowPage)
      modifies this, bus
      ensures Snapshot() == ScraperSpec.SaveRow(old(Snapshot()), env, t, i, page)
    {
      if page.extraction.ExtractionFailed? {
        bus.Log(ExtractionErrorMsg(page.extraction.reason), Error);
      }
      var name := RowName(t, i, page);
      disk := WriteFile(disk, env.job.folderName, name, page.document);
      bus.Log(SavedMsg(name), Success);
    }

    /** `POST /create-zip`. */
    method CreateZip(folderName: Option<string>, unlinkError: Option<string>, archiveError: Option<string>) returns (resp: Response)
      modifies this, bus
      ensures (Snapshot(), resp) == ScraperSpec.CreateZip(old(Snapshot()), folderName, unlinkError, archiveError)
    {
      if !Present(folderName) {
        bus.Log(NoFolderMsg, Error);
        return Response(400, FolderRequiredMsg);
      }
      bus.Log(CheckingMsg(folderName.value), Info);
      resp := CheckFolder(folderName.value, unlinkError, archiveError);
    }

    /** The existence and directory checks, then the archive. */
    method CheckFolder(folder: string, unlinkError: Option<string>, archiveError: Option<string>) returns (resp: Response)
      modifies this, bus
      ensures (Snapshot(), resp) == ScraperSpec.CheckFolder(old(Snapshot()), folder, unlinkError, archiveError)
    {
      if folder !in disk {
        bus.Log(NotFoundMsg(folder), Error);
        return Response(404, "Folder not found");
      }
      if !disk[folder].Dir? {
        bus.Log(NotDirMsg(folder), Error);
        return Response(400, "Invalid folder path");
      }
      var files := disk[folder].files;
      bus.Log(FoundFilesMsg(|files|), Info);
      bus.Log(CreatingZipMsg(folder), Info);
      resp := ArchiveFolder(folder, files, unlinkError, archiveError);
    }

    /** Remove an old archive of `folder`, then archive `files` in its place. */
    method ArchiveFolder(folder: string, files: map<string, string>,
                         unlinkError: Option<string>, archiveError: Option<string>) returns (resp: Response)
      modifies this, bus
      ensures (Snapshot(), resp) == ScraperSpec.ArchiveFolder(old(Snapshot()), folder, files, unlinkError, archiveError)
    {
      var zip := ZipName(folder);
      if zip in disk {
        var failure := UnlinkFailure(disk, zip, unlinkError);
        if failure.Some? {
          bus.Log(RemoveZipErrorMsg(failure.value), Error);
          return Response(500, "Error removing existing zip file: " + failure.value);
        }
        disk := disk - {zip};
        bus.Log(RemovedZipMsg, Info);
      }
      match archiveError
      case Some(e) =>
        bus.Log(ZipErrorMsg(e), Error);
        resp := Response(500, "Error creating ZIP file: " + e);
      case None =>
        disk := disk[zip := Archive(files)];
        bus.Log(ZipCreatedMsg, Success);
        resp := Response(200, ZipCreatedResponse(folder));
    }
  }
}
