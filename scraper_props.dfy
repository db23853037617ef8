/** Properties of the job controller: what the routes admit and refuse, how
    the background task ends, what it writes to disk and to the log bus. */
module ScraperProps {
  import opened Common
  import opened LogBus
  import opened Maintenance
  import opened RowRange
  import opened Filename
  import opened Sentinel
  import opened ScraperSpec

  // ------------------------------------------------------------ the log bus

  /** `w2` is `w1` with some entries logged: the history only grows, and
      every subscriber of `w1` has been sent exactly the new entries' frames. */
  predicate Extends(w1: World, w2: World) {
    && |w1.log| <= |w2.log|
    && w2.log[..|w1.log|] == w1.log
    && w2.clients == DeliverAll(w1.clients, w2.log[|w1.log|..])
  }

  lemma ExtendsRefl(w: World)
    ensures Extends(w, w)
  {
    assert w.log[|w.log|..] == [];
  }

  lemma LogExtends(w: World, level: Level, msg: string)
    ensures Extends(w, Log(w, level, msg))
  {
    var w2 := Log(w, level, msg);
    assert w2.log[|w.log|..] == [Format(level, msg)];
  }

  lemma ExtendsTrans(a: World, b: World, c: World)
    requires Extends(a, b) && Extends(b, c)
    ensures Extends(a, c)
  {
    var ab, bc := b.log[|a.log|..], c.log[|b.log|..];
    assert c.log[|a.log|..] == ab + bc by {
      assert c.log == b.log + bc;
      assert b.log == a.log + ab;
    }
    DeliverAllAppend(a.clients, ab, bc);
  }

  lemma LogTwiceExtends(w: World, l1: Level, m1: string, l2: Level, m2: string)
    ensures Extends(w, Log(Log(w, l1, m1), l2, m2))
  {
    LogExtends(w, l1, m1);
    LogExtends(Log(w, l1, m1), l2, m2);
    ExtendsTrans(w, Log(w, l1, m1), Log(Log(w, l1, m1), l2, m2));
  }

  /** An `/abort` only appends to the history. */
  lemma AbortExtends(w: World, quitError: Option<string>)
    ensures Extends(w, Abort(w, quitError))
  {
    ExtendsRefl(w);
    if w.driver {
      LogExtends(w.(active := false), Info, AbortClosedMsg);
      LogExtends(w.(active := false), Error, CloseErrorMsg(if quitError.Some? then quitError.value else ""));
    }
  }

  lemma AtCheckpointExtends(w: World, env: Env, cp: Checkpoint)
    ensures Extends(w, AtCheckpoint(w, env, cp))
  {
    if cp in env.aborts {
      AbortExtends(w, env.aborts[cp]);
    } else {
      ExtendsRefl(w);
    }
  }

  /** Saving a row writes exactly one file, under the row's name into the
      job folder, keeps the flag and the driver, and only appends to the log. */
  lemma SaveRowEffect(w: World, env: Env, t: nat, i: nat, page: RowPage)
    ensures var w2 := SaveRow(w, env, t, i, page);
            && w2.active == w.active && w2.driver == w.driver
            && w2.disk == WriteFile(w.disk, env.job.folderName, RowName(t, i, page), page.document)
            && Extends(w, w2)
  {
    var w1 := if page.extraction.Cells? then w else Log(w, Error, ExtractionErrorMsg(page.extraction.reason));
    var name := RowName(t, i, page);
    var w2 := w1.(disk := WriteFile(w1.disk, env.job.folderName, name, page.document));
    if page.extraction.Cells? {
      ExtendsRefl(w);
    } else {
      LogExtends(w, Error, ExtractionErrorMsg(page.extraction.reason));
    }
    LogExtends(w2, Success, SavedMsg(name));
    ExtendsTrans(w, w2, SaveRow(w, env, t, i, page));
  }

  /** Writing a file adds its name to the folder and changes no other entry. */
  lemma WriteFileEffect(disk: map<string, Node>, folder: string, name: string, content: string)
    ensures FilesIn(WriteFile(disk, folder, name, content), folder).Keys == FilesIn(disk, folder).Keys + {name}
    ensures WriteFile(disk, folder, name, content) - {folder} == disk - {folder}
  {
  }

  lemma {:induction false} RowsFromExtends(w: World, env: Env, t: nat, rows: seq<RowPage>, i: nat, end: int)
    requires end <= |rows|
    ensures Extends(w, RowsFrom(w, env, t, rows, i, end).0)
    decreases end - i
  {
    if i >= end {
      ExtendsRefl(w);
    } else {
      var w1 := AtCheckpoint(w, env, BeforeRow(t, i));
      AtCheckpointExtends(w, env, BeforeRow(t, i));
      if w1.active {
        var w2 := Log(w1, Info, ProcessingRowMsg(i));
        var page := rows[i];
        if IsFatal(page.pageSource) {
          LogTwiceExtends(w1, Info, ProcessingRowMsg(i), Error, UnexpectedContentMsg(i));
          ExtendsTrans(w, w1, Log(w2, Error, UnexpectedContentMsg(i)));
        } else {
          var w5 := SaveRow(w2, env, t, i, page);
          LogExtends(w1, Info, ProcessingRowMsg(i));
          SaveRowEffect(w2, env, t, i, page);
          ExtendsTrans(w, w1, w2);
          ExtendsTrans(w, w2, w5);
          RowsFromExtends(w5, env, t, rows, i + 1, end);
          ExtendsTrans(w, w5, RowsFrom(w5, env, t, rows, i + 1, end).0);
        }
      }
    }
  }

  lemma TableExtends(w: World, env: Env, t: nat)
    ensures Extends(w, Table(w, env, t).0)
  {
    var w1 := Log(w, Info, OpeningTableMsg(t));
    LogExtends(w, Info, OpeningTableMsg(t));
    match env.browser.load(t)
    case TimedOut =>
      LogExtends(w1, Warning, TableTimeoutMsg(t));
      ExtendsTrans(w, w1, Table(w, env, t).0);
    case Loaded(rows) =>
      var w2 := Log(w1, Info, FoundRowsMsg(|rows|, t));
      LogExtends(w1, Info, FoundRowsMsg(|rows|, t));
      ExtendsTrans(w, w1, w2);
      RowsFromExtends(w2, env, t, rows, env.job.startIdx, EndIndex(env.job.lastIdx, |rows|));
      ExtendsTrans(w, w2, Table(w, env, t).0);
  }

  lemma {:induction false} TablesFromExtends(w: World, env: Env, t: nat)
    ensures Extends(w, TablesFrom(w, env, t).0)
    decreases |env.job.urls| - t
  {
    if t >= |env.job.urls| {
      LogExtends(w, Success, CompletedMsg(env.job.folderName));
    } else {
      var w1 := AtCheckpoint(w, env, BeforeTable(t));
      AtCheckpointExtends(w, env, BeforeTable(t));
      if !w1.active {
        LogExtends(w1, Success, CompletedMsg(env.job.folderName));
        ExtendsTrans(w, w1, TablesFrom(w, env, t).0);
      } else {
        var r := Table(w1, env, t);
        TableExtends(w1, env, t);
        ExtendsTrans(w, w1, r.0);
        if r.1.Finished? {
          TablesFromExtends(r.0, env, t + 1);
          ExtendsTrans(w, r.0, TablesFrom(w, env, t).0);
        }
      }
    }
  }

  lemma BodyExtends(w: World, env: Env)
    ensures Extends(w, Body(w, env).0)
  {
    match env.browser.initError
    case Some(e) =>
      LogExtends(w, Error, InitErrorMsg(e));
    case None =>
      var w1 := w.(driver := true);
      ExtendsRefl(w);
      if env.browser.loginError.None? {
        LogExtends(w1, Info, OpenedLoginMsg);
        TablesFromExtends(Log(w1, Info, OpenedLoginMsg), env, 0);
        ExtendsTrans(w, Log(w1, Info, OpenedLoginMsg), Body(w, env).0);
      }
  }

  lemma CleanupExtends(w: World, quitError: Option<string>)
    ensures Extends(w, Cleanup(w, quitError))
  {
    ExtendsRefl(w);
    LogExtends(w.(active := false), Info, BrowserClosedMsg);
    LogExtends(w.(active := false), Error, CloseErrorMsg(if quitError.Some? then quitError.value else ""));
  }

  /** The background task never removes or rewrites an entry, and every
      subscriber connected throughout it receives, in order, the frame of
      each entry it logs: a run is a pure append to the log bus. */
  lemma RunExtends(w: World, env: Env)
    ensures Extends(w, Run(w, env))
  {
    var b := Body(w, env);
    BodyExtends(w, env);
    var w2 := if b.1.Threw? then Log(b.0, Error, CaughtMsg(b.1.message)) else b.0;
    assert Extends(b.0, w2) by {
      LogExtends(b.0, Error, CaughtMsg(if b.1.Threw? then b.1.message else ""));
      ExtendsRefl(b.0);
    }
    ExtendsTrans(w, b.0, w2);
    CleanupExtends(w2, env.browser.finalQuit);
    ExtendsTrans(w, w2, Run(w, env));
  }

  /** A subscriber that stays connected during a whole run ends with its
      old frames followed by the frames of exactly the entries the run logged. */
  lemma RunReachesEverySubscriber(w: World, env: Env, k: nat)
    requires k < |w.clients|
    ensures |Run(w, env).log| >= |w.log|
    ensures |Run(w, env).clients| == |w.clients|
    ensures Run(w, env).clients[k]
         == w.clients[k].(outbox := w.clients[k].outbox + Frames(Run(w, env).log[|w.log|..]))
  {
    RunExtends(w, env);
    DeliverAllAt(w.clients, Run(w, env).log[|w.log|..], k);
  }

  // ------------------------------------------------------------- the rows

  /** No `/abort` arrives before any row of `[i, end)` of table `t`. */
  predicate NoRowAborts(env: Env, t: nat, i: nat, end: int) {
    forall j: nat :: i <= j < end ==> BeforeRow(t, j) !in env.aborts
  }

  /** No page of `[i, end)` trips the sentinel. */
  predicate NoFatalRows(rows: seq<RowPage>, i: nat, end: int)
    requires end <= |rows|
  {
    forall j: nat :: i <= j < end ==> !IsFatal(rows[j].pageSource)
  }

  /** The names rows `[i, end)` of table `t` are saved under. */
  function SavedNames(t: nat, rows: seq<RowPage>, i: nat, end: int): set<string>
    requires end <= |rows|
  {
    set j: nat | i <= j < end :: RowName(t, j, rows[j])
  }

  lemma SavedNamesStep(t: nat, rows: seq<RowPage>, i: nat, end: int)
    requires i < end <= |rows|
    ensures SavedNames(t, rows, i, end) == {RowName(t, i, rows[i])} + SavedNames(t, rows, i + 1, end)
  {
  }

  /** Left alone, the row loop visits every row of `[i, end)` in turn: it
      runs to its end, keeps the job and the driver, saves a file under each
      row's name into the job folder and touches no other entry of the
      output directory. */
  lemma {:induction false} RowLoopSavesEveryRow(w: World, env: Env, t: nat, rows: seq<RowPage>, i: nat, end: int)
    requires end <= |rows|
    requires w.active
    requires NoRowAborts(env, t, i, end) && NoFatalRows(rows, i, end)
    ensures RowsFrom(w, env, t, rows, i, end).1 == Finished
    ensures RowsFrom(w, env, t, rows, i, end).0.active
    ensures RowsFrom(w, env, t, rows, i, end).0.driver == w.driver
    ensures FilesIn(RowsFrom(w, env, t, rows, i, end).0.disk, env.job.folderName).Keys
         == FilesIn(w.disk, env.job.folderName).Keys + SavedNames(t, rows, i, end)
    ensures RowsFrom(w, env, t, rows, i, end).0.disk - {env.job.folderName} == w.disk - {env.job.folderName}
    decreases end - i
  {
    var folder := env.job.folderName;
    if i >= end {
      assert SavedNames(t, rows, i, end) == {};
    } else {
      var page := rows[i];
      assert BeforeRow(t, i) !in env.aborts;
      assert !IsFatal(page.pageSource);
      var w2 := Log(w, Info, ProcessingRowMsg(i));
      var w5 := SaveRow(w2, env, t, i, page);
      assert RowsFrom(w, env, t, rows, i, end) == RowsFrom(w5, env, t, rows, i + 1, end);
      SaveRowEffect(w2, env, t, i, page);
      WriteFileEffect(w.disk, folder, RowName(t, i, page), page.document);
      RowLoopSavesEveryRow(w5, env, t, rows, i + 1, end);
      SavedNamesStep(t, rows, i, end);
    }
  }

  /** The entries one saved row adds to the log, in order: the row's
      progress entry, an ERROR if its cells could not be read, and the
      entry naming the saved file. */
  function RowEntries(t: nat, i: nat, page: RowPage): seq<string> {
    [Format(Info, ProcessingRowMsg(i))]
    + (if page.extraction.Cells? then [] else [Format(Error, ExtractionErrorMsg(page.extraction.reason))])
    + [Format(Success, SavedMsg(RowName(t, i, page)))]
  }

  /** The entries of the rows `idx`, one row after the other. */
  function RowsLog(t: nat, rows: seq<RowPage>, idx: seq<int>): seq<string>
    requires forall j :: j in idx ==> 0 <= j < |rows|
  {
    if idx == [] then []
    else
      assert idx[0] in idx && forall j :: j in idx[1..] ==> j in idx;
      RowEntries(t, idx[0], rows[idx[0]]) + RowsLog(t, rows, idx[1..])
  }

  /** Reporting row `i` and saving it adds exactly that row's entries. */
  lemma SavedRowLog(w: World, env: Env, t: nat, i: nat, page: RowPage)
    ensures SaveRow(Log(w, Info, ProcessingRowMsg(i)), env, t, i, page).log == w.log + RowEntries(t, i, page)
  {
    LogThenSave(w, env, t, i, page, Info, ProcessingRowMsg(i));
  }

  lemma LogThenSave(w: World, env: Env, t: nat, i: nat, page: RowPage, level: Level, msg: string)
    ensures SaveRow(Log(w, level, msg), env, t, i, page).log
         == w.log + ([Format(level, msg)] + (if page.extraction.Cells? then [] else [Format(Error, ExtractionErrorMsg(page.extraction.reason))])
            + [Format(Success, SavedMsg(RowName(t, i, page)))])
  {
    SaveRowLog(Log(w, level, msg), env, t, i, page);
  }

  /** Saving a row logs the extraction error, if any, then the saved name. */
  lemma SaveRowLog(w: World, env: Env, t: nat, i: nat, page: RowPage)
    ensures SaveRow(w, env, t, i, page).log
         == w.log + (if page.extraction.Cells? then [] else [Format(Error, ExtractionErrorMsg(page.extraction.reason))])
            + [Format(Success, SavedMsg(RowName(t, i, page)))]
  {
  }

  lemma RowsLogStep(t: nat, rows: seq<RowPage>, i: nat, end: int)
    requires i < end <= |rows|
    ensures RowsLog(t, rows, Indices(i, end)) == RowEntries(t, i, rows[i]) + RowsLog(t, rows, Indices(i + 1, end))
  {
    var idx := Indices(i, end);
    assert idx[0] == i && idx[1..] == Indices(i + 1, end);
  }

  lemma RowsLogJoin(w: World, w5: World, r: World, t: nat, rows: seq<RowPage>, i: nat, end: int)
    requires i < end <= |rows|
    requires w5.log == w.log + RowEntries(t, i, rows[i])
    requires r.log == w5.log + RowsLog(t, rows, Indices(i + 1, end))
    ensures r.log == w.log + RowsLog(t, rows, Indices(i, end))
  {
    RowsLogStep(t, rows, i, end);
  }

  /** A row that is left alone and passes the sentinel is saved and the loop
      goes on with the next one. */
  lemma SavedRowStep(w: World, env: Env, t: nat, rows: seq<RowPage>, i: nat, end: int)
    requires i < end <= |rows|
    requires w.active && BeforeRow(t, i) !in env.aborts && !IsFatal(rows[i].pageSource)
    ensures RowsFrom(w, env, t, rows, i, end)
         == RowsFrom(SaveRow(Log(w, Info, ProcessingRowMsg(i)), env, t, i, rows[i]), env, t, rows, i + 1, end)
  {
  }

  /** Left alone, the row loop logs the rows of `Indices(i, end)` in that
      order, each with exactly its own entries, and nothing else. */
  lemma {:induction false} RowLoopLogsRowsInOrder(w: World, env: Env, t: nat, rows: seq<RowPage>, i: nat, end: int)
    requires end <= |rows|
    requires w.active
    requires NoRowAborts(env, t, i, end) && NoFatalRows(rows, i, end)
    ensures RowsFrom(w, env, t, rows, i, end).0.log == w.log + RowsLog(t, rows, Indices(i, end))
    decreases end - i
  {
    if i >= end {
      assert Indices(i, end) == [];
    } else {
      assert BeforeRow(t, i) !in env.aborts;
      assert !IsFatal(rows[i].pageSource);
      var w5 := SaveRow(Log(w, Info, ProcessingRowMsg(i)), env, t, i, rows[i]);
      SavedRowStep(w, env, t, rows, i, end);
      SaveRowEffect(Log(w, Info, ProcessingRowMsg(i)), env, t, i, rows[i]);
      SavedRowLog(w, env, t, i, rows[i]);
      RowLoopLogsRowsInOrder(w5, env, t, rows, i + 1, end);
      RowsLogJoin(w, w5, RowsFrom(w5, env, t, rows, i + 1, end).0, t, rows, i, end);
    }
  }

  /** A loaded table left alone logs its opening entries and then the rows
      that `RowRange.RowIndices` names for the job's start and last row, in
      order. */
  lemma TableLogsRequestedRows(w: World, env: Env, t: nat)
    requires env.browser.load(t).Loaded?
    requires w.active && w.driver
    requires var rows := env.browser.load(t).rows;
             NoRowAborts(env, t, env.job.startIdx, EndIndex(env.job.lastIdx, |rows|))
             && NoFatalRows(rows, env.job.startIdx, EndIndex(env.job.lastIdx, |rows|))
    ensures var rows := env.browser.load(t).rows;
            Table(w, env, t).0.log
              == w.log + [Format(Info, OpeningTableMsg(t)), Format(Info, FoundRowsMsg(|rows|, t))]
                 + RowsLog(t, rows, Indices(env.job.startIdx, EndIndex(env.job.lastIdx, |rows|)))
  {
    var rows := env.browser.load(t).rows;
    var w2 := Log(Log(w, Info, OpeningTableMsg(t)), Info, FoundRowsMsg(|rows|, t));
    var start, end := env.job.startIdx, EndIndex(env.job.lastIdx, |rows|);
    RowLoopSavesEveryRow(w2, env, t, rows, start, end);
    RowLoopLogsRowsInOrder(w2, env, t, rows, start, end);
    LogTwiceLog(w, Info, OpeningTableMsg(t), Info, FoundRowsMsg(|rows|, t));
    assert Table(w, env, t) == RowsFrom(w2, env, t, rows, start, end);
  }

  /** Two entries logged in a row are appended in that order. */
  lemma LogTwiceLog(w: World, l1: Level, m1: string, l2: Level, m2: string)
    ensures Log(Log(w, l1, m1), l2, m2).log == w.log + [Format(l1, m1), Format(l2, m2)]
  {
  }

  /** For a job `/scrape` admitted, the rows a loaded table left alone logs
      are those `RowRange.RowIndices` gives for the request's start and last
      row, in order. */
  lemma RequestedRowsAreLogged(w: World, req: ScrapeRequest, now: TimeOfDay, wt: World, env: Env, t: nat)
    requires ValidTime(now)
    requires Scrape(w, req, now, None).2 == Some(env.job)
    requires env.browser.load(t).Loaded?
    requires wt.active && wt.driver
    requires var rows := env.browser.load(t).rows;
             NoRowAborts(env, t, env.job.startIdx, EndIndex(env.job.lastIdx, |rows|))
             && NoFatalRows(rows, env.job.startIdx, EndIndex(env.job.lastIdx, |rows|))
    ensures var rows := env.browser.load(t).rows;
            Table(wt, env, t).0.log
              == wt.log + [Format(Info, OpeningTableMsg(t)), Format(Info, FoundRowsMsg(|rows|, t))]
                 + RowsLog(t, rows, RowIndices(req.startIndex, req.lastIndex, |rows|))
  {
    AdmittedJob(w, req, now);
    TableLogsRequestedRows(wt, env, t);
  }

  /** A table whose rows load and that is left alone has every row of the
      requested range saved (see RowRange.ProcessedRowsAreRequestedRange for
      which rows those are), and the loop goes on with the next table. */
  lemma TableSavesRequestedRows(w: World, env: Env, t: nat)
    requires env.browser.load(t).Loaded?
    requires w.active && w.driver
    requires var rows := env.browser.load(t).rows;
             NoRowAborts(env, t, env.job.startIdx, EndIndex(env.job.lastIdx, |rows|))
             && NoFatalRows(rows, env.job.startIdx, EndIndex(env.job.lastIdx, |rows|))
    ensures Table(w, env, t).1 == Finished
    ensures Table(w, env, t).0.active && Table(w, env, t).0.driver
    ensures var rows := env.browser.load(t).rows;
            FilesIn(Table(w, env, t).0.disk, env.job.folderName).Keys
              == FilesIn(w.disk, env.job.folderName).Keys
                 + SavedNames(t, rows, env.job.startIdx, EndIndex(env.job.lastIdx, |rows|))
  {
    var rows := env.browser.load(t).rows;
    var w2 := Log(Log(w, Info, OpeningTableMsg(t)), Info, FoundRowsMsg(|rows|, t));
    RowLoopSavesEveryRow(w2, env, t, rows, env.job.startIdx, EndIndex(env.job.lastIdx, |rows|));
  }

  /** A table whose rows never appear is skipped after a warning: the loop
      goes on with the next table, and nothing is saved for this one. */
  lemma TimeoutSkipsTable(w: World, env: Env, t: nat)
    requires t < |env.job.urls|
    requires w.active && BeforeTable(t) !in env.aborts
    requires env.browser.load(t).TimedOut?
    ensures TablesFrom(w, env, t)
         == TablesFrom(Log(Log(w, Info, OpeningTableMsg(t)), Warning, TableTimeoutMsg(t)), env, t + 1)
  {
  }

  /** A fatal page ends the job on the spot: after the row's two entries
      the flag is lowered, the driver quit, and no further row or table is
      touched (the loop exits with `Stopped`). */
  lemma FatalRowStopsJob(w: World, env: Env, t: nat, rows: seq<RowPage>, i: nat, end: int)
    requires i < end <= |rows|
    requires w.active && BeforeRow(t, i) !in env.aborts
    requires IsFatal(rows[i].pageSource)
    requires env.browser.stopQuit.None?
    ensures RowsFrom(w, env, t, rows, i, end)
         == (Log(Log(w, Info, ProcessingRowMsg(i)), Error, UnexpectedContentMsg(i)).(active := false, driver := false), Stopped)
  {
  }

  /** Once the sentinel has stopped the job, the `finally` block finds the
      flag down and no driver, so the run logs nothing more: the fatal row's
      ERROR entry is the run's last. */
  lemma StoppedRunLogsNothingMore(w: World, env: Env)
    requires Body(w, env).1.Stopped?
    ensures Run(w, env) == Body(w, env).0
  {
  }

  /** A table that stops on a fatal page ends the table loop with its own
      state: no later table is opened and nothing more is logged there. */
  lemma StoppedTableEndsLoop(w: World, env: Env, t: nat)
    requires t < |env.job.urls|
    requires w.active && BeforeTable(t) !in env.aborts
    requires Table(w, env, t).1.Stopped?
    ensures TablesFrom(w, env, t) == Table(w, env, t)
  {
  }

  /** A fatal first row ends the whole run: after the login entry, the
      table's two entries, the row entry and the ERROR, the task stops with
      the flag down and the driver quit, opens no other table, and its
      `finally` block adds nothing. */
  lemma FatalRowEndsRun(w: World, env: Env)
    requires env.browser.initError.None? && env.browser.loginError.None?
    requires |env.job.urls| > 0 && w.active && BeforeTable(0) !in env.aborts
    requires env.browser.load(0).Loaded?
    requires var rows, s := env.browser.load(0).rows, env.job.startIdx;
             && s < EndIndex(env.job.lastIdx, |rows|)
             && BeforeRow(0, s) !in env.aborts && IsFatal(rows[s].pageSource)
    requires env.browser.stopQuit.None?
    ensures var rows, s := env.browser.load(0).rows, env.job.startIdx;
            var w1 := Log(Log(Log(w.(driver := true), Info, OpenedLoginMsg), Info, OpeningTableMsg(0)), Info, FoundRowsMsg(|rows|, 0));
            Body(w, env) == (Log(Log(w1, Info, ProcessingRowMsg(s)), Error, UnexpectedContentMsg(s)).(active := false, driver := false), Stopped)
    ensures Run(w, env) == Body(w, env).0
  {
    var rows, s := env.browser.load(0).rows, env.job.startIdx;
    var w0 := Log(w.(driver := true), Info, OpenedLoginMsg);
    var w1 := Log(Log(w0, Info, OpeningTableMsg(0)), Info, FoundRowsMsg(|rows|, 0));
    FatalRowStopsJob(w1, env, 0, rows, s, EndIndex(env.job.lastIdx, |rows|));
    assert Table(w0, env, 0) == RowsFrom(w1, env, 0, rows, s, EndIndex(env.job.lastIdx, |rows|));
    StoppedTableEndsLoop(w0, env, 0);
    StoppedRunLogsNothingMore(w, env);
  }

  // ---------------------------------------------------------------- abort

  /** An abort with no driver only lowers the flag. */
  lemma AbortWithoutDriver(w: World, quitError: Option<string>)
    requires !w.driver
    ensures Abort(w, quitError) == w.(active := false)
  {
  }

  /** Once an abort has quit the driver, aborting again changes nothing. */
  lemma AbortIdempotent(w: World, again: Option<string>)
    ensures Abort(Abort(w, None), again) == Abort(w, None)
  {
  }

  /** An abort before a table ends the loop: the run reports completion
      without opening that table or any later one. */
  lemma AbortBeforeTableEndsLoop(w: World, env: Env, t: nat)
    requires t < |env.job.urls| && BeforeTable(t) in env.aborts
    ensures TablesFrom(w, env, t)
         == (Log(Abort(w, env.aborts[BeforeTable(t)]), Success, CompletedMsg(env.job.folderName)), Finished)
  {
  }

  /** An abort before a row that quits the driver makes the table's
      `driver.close()` throw, so the run ends in the catch block. */
  lemma AbortBeforeRowEndsInTypeError(w: World, env: Env, t: nat)
    requires t < |env.job.urls|
    requires w.active && BeforeTable(t) !in env.aborts
    requires env.browser.load(t).Loaded?
    requires var rows := env.browser.load(t).rows;
             env.job.startIdx < EndIndex(env.job.lastIdx, |rows|)
             && BeforeRow(t, env.job.startIdx) in env.aborts
             && env.aborts[BeforeRow(t, env.job.startIdx)].None?
    ensures TablesFrom(w, env, t).1 == Threw(NullDriverError)
  {
    var rows := env.browser.load(t).rows;
    var start, end := env.job.startIdx, EndIndex(env.job.lastIdx, |rows|);
    var w2 := Log(Log(w, Info, OpeningTableMsg(t)), Info, FoundRowsMsg(|rows|, t));
    assert RowsFrom(w2, env, t, rows, start, end) == RowStep(w2, env, t, rows, start, end);
    assert !RowStep(w2, env, t, rows, start, end).0.driver;
  }

  // --------------------------------------------------------------- scrape

  /** `/scrape` admits a job exactly when nothing runs, the gate is open,
      the three required fields are truthy and the folder could be made
      (nothing but a directory has its name, and the file system reports
      no error); it answers 200 exactly then. */
  lemma ScrapeAdmitsExactly(w: World, req: ScrapeRequest, now: TimeOfDay, mkdirError: Option<string>)
    requires ValidTime(now)
    ensures Scrape(w, req, now, mkdirError).2.Some? <==>
              && !w.active && !IsInMaintenanceWindow(now)
              && Present(req.loginUrl) && req.urls.Some? && Present(req.folderName)
              && mkdirError.None? && CanHoldFolder(w.disk, req.folderName.value)
    ensures Scrape(w, req, now, mkdirError).2.Some? <==> Scrape(w, req, now, mkdirError).1.status == 200
  {
  }

  /** An admitted job starts on a fresh history holding only the save
      location, keeps whatever the folder already held, and carries the
      0-based start row and the raw last row of the request. */
  lemma AdmittedJob(w: World, req: ScrapeRequest, now: TimeOfDay)
    requires ValidTime(now)
    requires Scrape(w, req, now, None).2.Some?
    ensures var (w2, _, job) := Scrape(w, req, now, None);
            && w2.log == [Format(Info, SavedToMsg(req.folderName.value))]
            && w2.driver == w.driver
            && job.value.folderName == req.folderName.value
            && job.value.urls == req.urls.value
            && job.value.startIdx == StartIndex(req.startIndex)
            && job.value.lastIdx == req.lastIndex
            && job.value.folderName in w2.disk && w2.disk[job.value.folderName].Dir?
            && FilesIn(w2.disk, job.value.folderName) == FilesIn(w.disk, job.value.folderName)
  {
  }

  /** While a job runs, and while the gate is closed, `/scrape` changes nothing. */
  lemma RefusedBeforeClearing(w: World, req: ScrapeRequest, now: TimeOfDay, mkdirError: Option<string>)
    requires ValidTime(now)
    requires w.active || IsInMaintenanceWindow(now)
    ensures Scrape(w, req, now, mkdirError).0 == w
    ensures Scrape(w, req, now, mkdirError).1.status == (if w.active then 400 else 503)
  {
  }

  /** A request refused for its fields or its folder still wipes the
      history, since the log is cleared before the fields are checked. */
  lemma RefusedRequestWipesHistory(w: World, req: ScrapeRequest, now: TimeOfDay, mkdirError: Option<string>)
    requires ValidTime(now)
    requires !w.active && !IsInMaintenanceWindow(now)
    requires Scrape(w, req, now, mkdirError).2.None?
    ensures Scrape(w, req, now, mkdirError).0 == w.(log := [])
    ensures Scrape(w, req, now, mkdirError).1.status == 400
  {
  }

  /** At most one job: once one is admitted, every further `/scrape` is
      refused with 400 until the task lowers the flag. */
  lemma SingleJob(w: World, req: ScrapeRequest, now: TimeOfDay, mkdirError: Option<string>,
                  req2: ScrapeRequest, now2: TimeOfDay, mkdirError2: Option<string>)
    requires ValidTime(now) && ValidTime(now2)
    requires Scrape(w, req, now, mkdirError).2.Some?
    ensures var w2 := Scrape(w, req, now, mkdirError).0;
            Scrape(w2, req2, now2, mkdirError2) == (w2, Response(400, BusyMsg), None)
  {
  }

  /** After the task, a new job can be admitted again. */
  lemma RunFreesTheSlot(w: World, env: Env, req: ScrapeRequest, now: TimeOfDay)
    requires ValidTime(now) && !IsInMaintenanceWindow(now)
    requires Present(req.loginUrl) && req.urls.Some? && Present(req.folderName)
    ensures Scrape(Run(w, env), req, now, None).1 != Response(400, BusyMsg)
    ensures Scrape(Run(w, env), req, now, None).1 == Response(200, StartedMsg)
            <==> CanHoldFolder(Run(w, env).disk, req.folderName.value)
  {
  }

  // ------------------------------------------------------------ create-zip

  /** Archiving succeeds exactly when an old entry of the archive's name,
      if any, could be removed (it is no directory and unlinking worked) and
      archiving worked; the archive then holds `files`. On a
      failure only the archive's own entry may have changed. */
  lemma ArchiveFolderEffect(w: World, folder: string, files: map<string, string>,
                            unlinkError: Option<string>, archiveError: Option<string>)
    ensures var (w2, resp) := ArchiveFolder(w, folder, files, unlinkError, archiveError);
            && (resp.status == 200 <==>
                  (ZipName(folder) !in w.disk || (unlinkError.None? && !w.disk[ZipName(folder)].Dir?)) && archiveError.None?)
            && (resp.status == 200 ==> w2.disk == w.disk[ZipName(folder) := Archive(files)])
            && w2.disk - {ZipName(folder)} == w.disk - {ZipName(folder)}
  {
    var zip := ZipName(folder);
    if zip in w.disk && UnlinkFailure(w.disk, zip, unlinkError).None? && archiveError.None? {
      assert (w.disk - {zip})[zip := Archive(files)] == w.disk[zip := Archive(files)];
    }
  }

  /** `/create-zip` succeeds exactly when the name is truthy, names a
      directory, an old entry of the archive's name (if any) is no
      directory and could be removed, and archiving
      worked; the archive then holds exactly the folder's files, and no
      other entry of the output directory changes. */
  lemma CreateZipSucceedsExactly(w: World, folderName: Option<string>, unlinkError: Option<string>, archiveError: Option<string>)
    ensures CreateZip(w, folderName, unlinkError, archiveError).1.status == 200 <==>
              && Present(folderName) && folderName.value in w.disk && w.disk[folderName.value].Dir?
              && (ZipName(folderName.value) !in w.disk
                  || (unlinkError.None? && !w.disk[ZipName(folderName.value)].Dir?))
              && archiveError.None?
    ensures CreateZip(w, folderName, unlinkError, archiveError).1.status == 200 ==>
              CreateZip(w, folderName, unlinkError, archiveError).0.disk
              == w.disk[ZipName(folderName.value) := Archive(w.disk[folderName.value].files)]
  {
    if Present(folderName) {
      var folder := folderName.value;
      if folder in w.disk && w.disk[folder].Dir? {
        var files := w.disk[folder].files;
        var w2 := Log(Log(Log(w, Info, CheckingMsg(folder)), Info, FoundFilesMsg(|files|)), Info, CreatingZipMsg(folder));
        assert CreateZip(w, folderName, unlinkError, archiveError) == ArchiveFolder(w2, folder, files, unlinkError, archiveError);
        ArchiveFolderEffect(w2, folder, files, unlinkError, archiveError);
      }
    }
  }

  /** The refusals, in the order they are checked; a refused request leaves
      the output directory alone. */
  lemma CreateZipRefusals(w: World, folderName: Option<string>, unlinkError: Option<string>, archiveError: Option<string>)
    ensures !Present(folderName) ==> CreateZip(w, folderName, unlinkError, archiveError) == (Log(w, Error, NoFolderMsg), Response(400, FolderRequiredMsg))
    ensures Present(folderName) && folderName.value !in w.disk ==>
              CreateZip(w, folderName, unlinkError, archiveError).1 == Response(404, "Folder not found")
    ensures Present(folderName) && folderName.value in w.disk && !w.disk[folderName.value].Dir? ==>
              CreateZip(w, folderName, unlinkError, archiveError).1 == Response(400, "Invalid folder path")
    ensures Present(folderName) && !(folderName.value in w.disk && w.disk[folderName.value].Dir?) ==>
              CreateZip(w, folderName, unlinkError, archiveError).0.disk == w.disk
  {
  }

  /** Zipping a folder twice leaves the output directory as zipping it once. */
  lemma CreateZipIdempotent(w: World, folder: string)
    requires folder != ""
    ensures var once := CreateZip(w, Some(folder), None, None).0;
            CreateZip(once, Some(folder), None, None).0.disk == once.disk
  {
    var zip := ZipName(folder);
    assert zip != folder by {
      assert |zip| == |folder| + 4;
    }
    var once := CreateZip(w, Some(folder), None, None).0;
    if folder in w.disk && w.disk[folder].Dir? {
      CreateZipSucceedsExactly(w, Some(folder), None, None);
      assert once.disk[folder] == w.disk[folder];
      CreateZipSucceedsExactly(once, Some(folder), None, None);
    } else {
      CreateZipRefusals(w, Some(folder), None, None);
      CreateZipRefusals(once, Some(folder), None, None);
    }
  }

  /** `/create-zip` leaves the job alone and only appends to the log bus. */
  lemma CreateZipExtends(w: World, folderName: Option<string>, unlinkError: Option<string>, archiveError: Option<string>)
    ensures var w2 := CreateZip(w, folderName, unlinkError, archiveError).0;
            w2.active == w.active && w2.driver == w.driver && Extends(w, w2)
  {
    if !Present(folderName) {
      LogExtends(w, Error, NoFolderMsg);
    } else {
      var w1 := Log(w, Info, CheckingMsg(folderName.value));
      LogExtends(w, Info, CheckingMsg(folderName.value));
      CheckFolderExtends(w1, folderName.value, unlinkError, archiveError);
      ExtendsTrans(w, w1, CreateZip(w, folderName, unlinkError, archiveError).0);
    }
  }

  lemma CheckFolderExtends(w: World, folder: string, unlinkError: Option<string>, archiveError: Option<string>)
    ensures var w2 := CheckFolder(w, folder, unlinkError, archiveError).0;
            w2.active == w.active && w2.driver == w.driver && Extends(w, w2)
  {
    if folder !in w.disk {
      LogExtends(w, Error, NotFoundMsg(folder));
    } else if !w.disk[folder].Dir? {
      LogExtends(w, Error, NotDirMsg(folder));
    } else {
      var files := w.disk[folder].files;
      var w2 := Log(Log(w, Info, FoundFilesMsg(|files|)), Info, CreatingZipMsg(folder));
      LogTwiceExtends(w, Info, FoundFilesMsg(|files|), Info, CreatingZipMsg(folder));
      ArchiveExtends(w2, folder, files, unlinkError, archiveError);
      ExtendsTrans(w, w2, CheckFolder(w, folder, unlinkError, archiveError).0);
    }
  }

  lemma ArchiveExtends(w: World, folder: string, files: map<string, string>,
                       unlinkError: Option<string>, archiveError: Option<string>)
    ensures var w2 := ArchiveFolder(w, folder, files, unlinkError, archiveError).0;
            w2.active == w.active && w2.driver == w.driver && Extends(w, w2)
  {
    var zip := ZipName(folder);
    if zip in w.disk && UnlinkFailure(w.disk, zip, unlinkError).Some? {
      LogExtends(w, Error, RemoveZipErrorMsg(UnlinkFailure(w.disk, zip, unlinkError).value));
    } else {
      var w1 := if zip in w.disk then Log(w.(disk := w.disk - {zip}), Info, RemovedZipMsg) else w;
      if zip in w.disk {
        LogExtends(w.(disk := w.disk - {zip}), Info, RemovedZipMsg);
      } else {
        ExtendsRefl(w);
      }
      match archiveError
      case Some(e) =>
        LogExtends(w1, Error, ZipErrorMsg(e));
        ExtendsTrans(w, w1, Log(w1, Error, ZipErrorMsg(e)));
      case None =>
        LogExtends(w1.(disk := w1.disk[zip := Archive(files)]), Success, ZipCreatedMsg);
        ExtendsTrans(w, w1, ArchiveFolder(w, folder, files, unlinkError, archiveError).0);
    }
  }
}
