/**
 * The data-loading pipeline of helper_files/data_pipeline.py and its older
 * variant DataPipeline.py: CSV files are copied into the database's secure
 * import folder, then each SQL script runs, with the secure path
 * substituted for its placeholder, statement by statement in one
 * transaction.
 */
module SqlPipeline {
  import opened Wrappers
  import opened Text
  import opened PosixPath

  const Placeholder := "{SECURE_PRIV_PATH}"

  // ---------------------------------------------------------------------------
  // Preparing a script
  // ---------------------------------------------------------------------------

  /** The secure path as written into SQL: every backslash becomes a forward slash. */
  function SqlSafePath(path: string): (r: string)
    ensures |r| == |path| && '\\' !in r
  {
    ReplaceChar(path, '\\', '/')
  }

  /**
   * The script with the placeholder replaced, when a non-empty secure path
   * is given. Without a secure path, or without the placeholder, the script
   * is unchanged.
   */
  function Substitute(content: string, securePath: Option<string>): (r: string)
    ensures securePath.None? || securePath == Some("") || !Occurs(Placeholder, content) ==> r == content
  {
    if securePath.Some? && securePath.value != "" then
      var safe := SqlSafePath(securePath.value);
      ReplaceAllAbsent(content, Placeholder, safe);
      ReplaceAll(content, Placeholder, safe)
    else content
  }

  /** The cleaned pieces that are not empty, in order. */
  function NonEmptyCleaned(parts: seq<string>, clean: string -> string): (r: seq<string>)
    ensures |r| <= |parts|
  {
    if parts == [] then []
    else (if clean(parts[0]) != "" then [clean(parts[0])] else []) + NonEmptyCleaned(parts[1..], clean)
  }

  /**
   * The statements of a script: split on `;`, stripped, empty ones dropped.
   * No statement is empty, none holds a `;`, and none starts or ends with
   * whitespace.
   */
  function Statements(content: string): (stmts: seq<string>)
    ensures forall st :: st in stmts ==> IsStatement(st)
  {
    NonEmptyStrippedShape(Split(content, ';'));
    NonEmptyCleaned(Split(content, ';'), Strip)
  }

  lemma {:induction false} NonEmptyCleanedAppend(a: seq<string>, b: seq<string>, clean: string -> string)
    ensures NonEmptyCleaned(a + b, clean) == NonEmptyCleaned(a, clean) + NonEmptyCleaned(b, clean)
  {
    if a != [] {
      assert (a + b)[1..] == a[1..] + b;
      NonEmptyCleanedAppend(a[1..], b, clean);
    } else {
      assert a + b == b;
    }
  }

  /** A statement as sent to the server: non-empty, without `;`, without surrounding whitespace. */
  predicate IsStatement(st: string) {
    st != "" && ';' !in st && !IsSpace(st[0]) && !IsSpace(st[|st| - 1])
  }

  lemma {:induction false} NonEmptyStrippedShape(parts: seq<string>)
    requires forall i :: 0 <= i < |parts| ==> ';' !in parts[i]
    ensures forall st :: st in NonEmptyCleaned(parts, Strip) ==> IsStatement(st)
  {
    if parts != [] {
      NonEmptyStrippedShape(parts[1..]);
      StripKeepsOut(parts[0], ';');
    }
  }

  /** Two scripts joined by `;` have the statements of the first followed by those of the second. */
  lemma StatementsConcat(a: string, b: string)
    ensures Statements(a + ";" + b) == Statements(a) + Statements(b)
  {
    SplitAround(a, b, ';');
    NonEmptyCleanedAppend(Split(a, ';'), Split(b, ';'), Strip);
  }

  /** A script of whitespace only has no statements. */
  lemma {:induction false} BlankHasNoStatements(content: string)
    requires forall k :: 0 <= k < |content| ==> IsSpace(content[k])
    ensures Statements(content) == []
  {
    SplitAbsent(content, ';');
    StripEmpty(content);
  }

  // ---------------------------------------------------------------------------
  // Running a script
  // ---------------------------------------------------------------------------

  /** How the script's transaction ends. */
  datatype Ending = Committed | RolledBack | Untouched

  /** What running a script did: its result, the statements sent, and the transaction's end. */
  datatype ScriptRun = ScriptRun(ok: bool, executed: seq<string>, ending: Ending)

  /**
   * Executing statements in order until one fails: whether none failed, and
   * the statements sent, the failing one included.
   */
  function Execution(stmts: seq<string>, fails: string -> bool): (bool, seq<string>) {
    if stmts == [] then (true, [])
    else
      var prev := Execution(stmts[..|stmts| - 1], fails);
      if !prev.0 then prev else (!fails(stmts[|stmts| - 1]), stmts)
  }

  /**
   * The statements sent are a prefix of the script's; the run succeeds iff
   * no statement fails, and a failed run sent exactly the statements up to
   * the first failing one.
   */
  lemma {:induction false} ExecutionFacts(stmts: seq<string>, fails: string -> bool)
    ensures var (ok, sent) := Execution(stmts, fails);
            && |sent| <= |stmts| && sent == stmts[..|sent|]
            && (ok <==> forall j :: 0 <= j < |stmts| ==> !fails(stmts[j]))
            && (ok ==> sent == stmts)
            && (!ok ==> sent != [] && fails(sent[|sent| - 1])
                        && forall j :: 0 <= j < |sent| - 1 ==> !fails(sent[j]))
  {
    if stmts != [] {
      var init := stmts[..|stmts| - 1];
      ExecutionFacts(init, fails);
      var (ok, sent) := Execution(init, fails);
      if !ok {
        assert stmts[..|sent|] == init[..|sent|];
      } else {
        assert forall j :: 0 <= j < |stmts| - 1 ==> stmts[j] == init[j];
      }
    }
  }

  /** Once a prefix has failed, the later statements are never sent. */
  lemma {:induction false} FailedStaysFailed(stmts: seq<string>, fails: string -> bool, i: nat)
    requires i <= |stmts| && !Execution(stmts[..i], fails).0
    ensures Execution(stmts, fails) == Execution(stmts[..i], fails)
    decreases |stmts| - i
  {
    if i < |stmts| {
      assert stmts[..i + 1][..i] == stmts[..i];
      FailedStaysFailed(stmts, fails, i + 1);
    } else {
      assert stmts[..i] == stmts;
    }
  }

  /** The statement loop of `run_sql_script`, stopping at the first failure. */
  method ExecuteStatements(stmts: seq<string>, fails: string -> bool) returns (ok: bool, sent: seq<string>)
    ensures (ok, sent) == Execution(stmts, fails)
  {
    sent := [];
    var i := 0;
    while i < |stmts|
      invariant 0 <= i <= |stmts|
      invariant sent == stmts[..i]
      invariant Execution(stmts[..i], fails) == (true, sent)
    {
      assert stmts[..i + 1][..i] == stmts[..i];
      sent := sent + [stmts[i]];
      assert sent == stmts[..i + 1];
      if fails(stmts[i]) {
        FailedStaysFailed(stmts, fails, i + 1);
        return false, sent;
      }
      i := i + 1;
    }
    assert stmts[..i] == stmts;
    ok := true;
  }

  /**
   * `run_sql_script`: a failed connection or a missing file fails without
   * executing anything; a script without statements succeeds; otherwise the
   * statements run in order up to the first failure, which rolls back, and
   * a script whose statements all succeed is committed.
   */
  function ScriptSpec(connects: bool, content: Option<string>, securePath: Option<string>,
                      fails: string -> bool): ScriptRun
  {
    if !connects || content.None? then ScriptRun(false, [], Untouched)
    else RunOf(Statements(Substitute(content.value, securePath)), fails)
  }

  /** Running the statements of a script over an open connection. */
  function RunOf(stmts: seq<string>, fails: string -> bool): ScriptRun {
    if stmts == [] then ScriptRun(true, [], Untouched)
    else
      var (ok, sent) := Execution(stmts, fails);
      ScriptRun(ok, sent, if ok then Committed else RolledBack)
  }

  /**
   * Over an open connection the run succeeds iff no statement fails, sends a
   * prefix of the statements, stops at the first failing one and rolls back,
   * and commits only when it sent something and succeeded.
   */
  lemma RunOfFacts(stmts: seq<string>, fails: string -> bool)
    ensures var r := RunOf(stmts, fails);
            && (r.ok <==> forall st :: st in stmts ==> !fails(st))
            && |r.executed| <= |stmts| && r.executed == stmts[..|r.executed|]
            && (!r.ok ==> r.ending == RolledBack && r.executed != [] && fails(r.executed[|r.executed| - 1])
                          && forall j :: 0 <= j < |r.executed| - 1 ==> !fails(r.executed[j]))
            && (r.ending == Committed <==> r.ok && r.executed != [])
  {
    ExecutionFacts(stmts, fails);
    if RunOf(stmts, fails).ok {
      forall st | st in stmts ensures !fails(st) {
        var j :| 0 <= j < |stmts| && stmts[j] == st;
      }
    }
  }

  method RunSqlScript(connects: bool, content: Option<string>, securePath: Option<string>, fails: string -> bool)
    returns (r: ScriptRun)
    ensures r == ScriptSpec(connects, content, securePath, fails)
  {
    if !connects || content.None? {
      return ScriptRun(false, [], Untouched);
    }
    var sqlContent := content.value;
    if securePath.Some? && securePath.value != "" {
      sqlContent := ReplaceAll(sqlContent, Placeholder, SqlSafePath(securePath.value));
    }
    var statements := Statements(sqlContent);
    if statements == [] {
      return ScriptRun(true, [], Untouched);
    }
    var ok, sent := ExecuteStatements(statements, fails);
    r := ScriptRun(ok, sent, if ok then Committed else RolledBack);
  }

  /**
   * A script succeeds iff the connection and the file are there and none of
   * its statements fails; a failed script stops at the first failing
   * statement and rolls back; only a script that sent something commits.
   */
  lemma ScriptRunShape(connects: bool, content: Option<string>, securePath: Option<string>, fails: string -> bool)
    ensures var r := ScriptSpec(connects, content, securePath, fails);
            && (r.ok <==> connects && content.Some?
                          && forall st :: st in Statements(Substitute(content.value, securePath)) ==> !fails(st))
            && (connects && content.Some? ==>
                  var stmts := Statements(Substitute(content.value, securePath));
                  && |r.executed| <= |stmts| && r.executed == stmts[..|r.executed|]
                  && (!r.ok ==> r.ending == RolledBack && r.executed != [] && fails(r.executed[|r.executed| - 1])
                                && forall j :: 0 <= j < |r.executed| - 1 ==> !fails(r.executed[j])))
            && (r.ending == Committed <==> r.ok && r.executed != [])
  {
    if connects && content.Some? {
      RunOfFacts(Statements(Substitute(content.value, securePath)), fails);
    }
  }

  // ---------------------------------------------------------------------------
  // Copying CSV files
  // ---------------------------------------------------------------------------

  /** The source folder, resolved against the project root. */
  function SourceFolder(projectRoot: string, folder: string): (r: string)
    ensures folder != [] && folder[0] == '/' ==> r == folder
  {
    PathJoin(projectRoot, folder)
  }

  /** The state of the file system that the copy consults. */
  datatype Folders = Folders(sourceExists: bool, destExists: bool, listing: seq<string>,
                             inDest: string -> bool, copyFails: string -> bool)

  predicate IsCsv(name: string) {
    EndsWith(name, ".csv")
  }

  /** A file the newer copy has to copy: a CSV file not yet at the destination. */
  predicate Pending(f: Folders, name: string) {
    IsCsv(name) && !f.inDest(name)
  }

  /**
   * The newer copy loop over `names`: None once a pending file fails to
   * copy, otherwise the files copied, in listing order.
   */
  function Copied(names: seq<string>, f: Folders): Option<seq<string>> {
    if names == [] then Some([])
    else
      var prev := Copied(names[..|names| - 1], f);
      var name := names[|names| - 1];
      if prev.None? then None
      else if !Pending(f, name) then prev
      else if f.copyFails(name) then None
      else Some(prev.value + [name])
  }

  /**
   * The copy succeeds iff no pending file fails, and then it copied exactly
   * the pending files.
   */
  lemma {:induction false} CopiedFacts(names: seq<string>, f: Folders)
    ensures Copied(names, f).Some? <==>
              forall j :: 0 <= j < |names| && Pending(f, names[j]) ==> !f.copyFails(names[j])
    ensures Copied(names, f).Some? ==>
              forall n :: n in Copied(names, f).value <==> n in names && Pending(f, n)
  {
    if names != [] {
      var init := names[..|names| - 1];
      CopiedFacts(init, f);
      assert names == init + [names[|names| - 1]];
    }
  }

  lemma {:induction false} CopyFailureStays(names: seq<string>, f: Folders, i: nat)
    requires i <= |names| && Copied(names[..i], f).None?
    ensures Copied(names, f).None?
    decreases |names| - i
  {
    if i < |names| {
      assert names[..i + 1][..i] == names[..i];
      CopyFailureStays(names, f, i + 1);
    } else {
      assert names[..i] == names;
    }
  }

  /**
   * `move_csv_files` (helper_files/data_pipeline.py): a missing folder or a
   * failed copy gives `(false, [])`, otherwise the CSV files not yet at the
   * destination are copied and listed.
   */
  function MoveSpec(f: Folders): (bool, seq<string>) {
    if !f.sourceExists || !f.destExists then (false, [])
    else
      match Copied(f.listing, f)
      case None => (false, [])
      case Some(moved) => (true, moved)
  }

  method MoveCsvFiles(f: Folders) returns (ok: bool, moved: seq<string>)
    ensures (ok, moved) == MoveSpec(f)
  {
    if !f.sourceExists || !f.destExists {
      return false, [];
    }
    moved := [];
    var i := 0;
    while i < |f.listing|
      invariant 0 <= i <= |f.listing|
      invariant Copied(f.listing[..i], f) == Some(moved)
    {
      assert f.listing[..i + 1][..i] == f.listing[..i];
      var filename := f.listing[i];
      if IsCsv(filename) {
        if !f.inDest(filename) {
          if f.copyFails(filename) {
            CopyFailureStays(f.listing, f, i + 1);
            return false, [];
          }
          moved := moved + [filename];
        }
      }
      i := i + 1;
    }
    assert f.listing[..i] == f.listing;
    ok := true;
  }

  /**
   * A failed copy reports no files; a successful one lists exactly the CSV
   * files of the source that were not already at the destination.
   */
  lemma MoveResult(f: Folders)
    ensures var (ok, moved) := MoveSpec(f);
            && (ok <==> f.sourceExists && f.destExists
                        && forall j :: 0 <= j < |f.listing| && Pending(f, f.listing[j]) ==> !f.copyFails(f.listing[j]))
            && (!ok ==> moved == [])
            && (ok ==> forall n :: n in moved <==> n in f.listing && IsCsv(n) && !f.inDest(n))
  {
    CopiedFacts(f.listing, f);
  }

  /** The older copy loop: every CSV file is attempted, a failed copy is skipped. */
  function LegacyCopied(names: seq<string>, f: Folders): seq<string> {
    if names == [] then []
    else
      var name := names[|names| - 1];
      LegacyCopied(names[..|names| - 1], f) + (if IsCsv(name) && !f.copyFails(name) then [name] else [])
  }

  /** `move_csv_files` (DataPipeline.py): a missing folder gives no files. */
  function LegacyMoveSpec(f: Folders): seq<string> {
    if !f.sourceExists || !f.destExists then [] else LegacyCopied(f.listing, f)
  }

  method MoveCsvFilesLegacy(f: Folders) returns (moved: seq<string>)
    ensures moved == LegacyMoveSpec(f)
  {
    if !f.sourceExists || !f.destExists {
      return [];
    }
    moved := [];
    var i := 0;
    while i < |f.listing|
      invariant 0 <= i <= |f.listing|
      invariant moved == LegacyCopied(f.listing[..i], f)
    {
      assert f.listing[..i + 1][..i] == f.listing[..i];
      var filename := f.listing[i];
      if IsCsv(filename) && !f.copyFails(filename) {
        moved := moved + [filename];
      }
      i := i + 1;
    }
    assert f.listing[..i] == f.listing;
  }

  /** The older copy lists exactly the CSV files whose copy went through. */
  lemma {:induction false} LegacyCopiedFacts(names: seq<string>, f: Folders)
    ensures forall n :: n in LegacyCopied(names, f) <==> n in names && IsCsv(n) && !f.copyFails(n)
  {
    if names != [] {
      LegacyCopiedFacts(names[..|names| - 1], f);
      assert names == names[..|names| - 1] + [names[|names| - 1]];
    }
  }

  // ---------------------------------------------------------------------------
  // The pipeline
  // ---------------------------------------------------------------------------

  /**
   * The script loop of `load_data_pipeline`: the number of scripts run, and
   * whether all succeeded; it stops after the first script that fails.
   */
  function ScriptsRun(scripts: seq<string>, runScript: string -> bool): (bool, nat) {
    if scripts == [] then (true, 0)
    else
      var prev := ScriptsRun(scripts[..|scripts| - 1], runScript);
      if !prev.0 then prev else (runScript(scripts[|scripts| - 1]), |scripts|)
  }

  lemma {:induction false} ScriptsRunFacts(scripts: seq<string>, runScript: string -> bool)
    ensures var (ok, ran) := ScriptsRun(scripts, runScript);
            && ran <= |scripts|
            && (ok <==> forall j :: 0 <= j < |scripts| ==> runScript(scripts[j]))
            && (ok ==> ran == |scripts|)
            && (!ok ==> ran > 0 && !runScript(scripts[ran - 1]) && forall j :: 0 <= j < ran - 1 ==> runScript(scripts[j]))
  {
    if scripts != [] {
      ScriptsRunFacts(scripts[..|scripts| - 1], runScript);
    }
  }

  lemma {:induction false} ScriptFailureStays(scripts: seq<string>, runScript: string -> bool, i: nat)
    requires i <= |scripts| && !ScriptsRun(scripts[..i], runScript).0
    ensures ScriptsRun(scripts, runScript) == ScriptsRun(scripts[..i], runScript)
    decreases |scripts| - i
  {
    if i < |scripts| {
      assert scripts[..i + 1][..i] == scripts[..i];
      ScriptFailureStays(scripts, runScript, i + 1);
    } else {
      assert scripts[..i] == scripts;
    }
  }

  /**
   * `load_data_pipeline` (helper_files/data_pipeline.py): fails when the
   * configuration is missing, the secure path is unknown or empty, or the
   * copy fails; an empty list of copied files does not stop it; then the
   * result is that of the script loop. `runScript` is `run_sql_script` for
   * each named script.
   */
  function PipelineSpec(configLoaded: bool, securePath: Option<string>, folders: Folders,
                        scripts: seq<string>, runScript: string -> bool): (bool, nat)
  {
    if !configLoaded || securePath.None? || securePath.value == "" then (false, 0)
    else if !MoveSpec(folders).0 then (false, 0)
    else ScriptsRun(scripts, runScript)
  }

  method LoadDataPipeline(configLoaded: bool, securePath: Option<string>, folders: Folders,
                          scripts: seq<string>, runScript: string -> bool) returns (ok: bool, ran: nat)
    ensures (ok, ran) == PipelineSpec(configLoaded, securePath, folders, scripts, runScript)
  {
    if !configLoaded || securePath.None? || securePath.value == "" {
      return false, 0;
    }
    var copied, _ := MoveCsvFiles(folders);
    if !copied {
      return false, 0;
    }
    ok, ran := RunScripts(scripts, runScript);
  }

  /** The loop over script names, breaking on the first failure. */
  method RunScripts(scripts: seq<string>, runScript: string -> bool) returns (ok: bool, ran: nat)
    ensures (ok, ran) == ScriptsRun(scripts, runScript)
  {
    ok := true;
    ran := 0;
    while ran < |scripts|
      invariant 0 <= ran <= |scripts|
      invariant ScriptsRun(scripts[..ran], runScript) == (true, ran)
    {
      assert scripts[..ran + 1][..ran] == scripts[..ran];
      if !runScript(scripts[ran]) {
        ScriptFailureStays(scripts, runScript, ran + 1);
        return false, ran + 1;
      }
      ran := ran + 1;
    }
    assert scripts[..ran] == scripts;
  }

  /**
   * `load_data_pipeline` (DataPipeline.py): as the newer one, but the older
   * copy reports no failure, and an empty list of copied files stops it.
   */
  function LegacyPipelineSpec(configLoaded: bool, securePath: Option<string>, folders: Folders,
                              scripts: seq<string>, runScript: string -> bool): (bool, nat)
  {
    if !configLoaded || securePath.None? || securePath.value == "" then (false, 0)
    else if LegacyMoveSpec(folders) == [] then (false, 0)
    else ScriptsRun(scripts, runScript)
  }

  method LoadDataPipelineLegacy(configLoaded: bool, securePath: Option<string>, folders: Folders,
                                scripts: seq<string>, runScript: string -> bool) returns (ok: bool, ran: nat)
    ensures (ok, ran) == LegacyPipelineSpec(configLoaded, securePath, folders, scripts, runScript)
  {
    if !configLoaded || securePath.None? || securePath.value == "" {
      return false, 0;
    }
    var moved := MoveCsvFilesLegacy(folders);
    if moved == [] {
      return false, 0;
    }
    ok, ran := RunScripts(scripts, runScript);
  }

  /**
   * The pipeline succeeds iff its preconditions hold and every script
   * succeeds; the two versions differ only in how the copy step gates it.
   */
  lemma PipelineResult(configLoaded: bool, securePath: Option<string>, folders: Folders,
                       scripts: seq<string>, runScript: string -> bool)
    ensures var ready := configLoaded && securePath.Some? && securePath.value != "";
            var allOk := forall j :: 0 <= j < |scripts| ==> runScript(scripts[j]);
            && (PipelineSpec(configLoaded, securePath, folders, scripts, runScript).0 <==>
                  ready && MoveSpec(folders).0 && allOk)
            && (LegacyPipelineSpec(configLoaded, securePath, folders, scripts, runScript).0 <==>
                  ready && LegacyMoveSpec(folders) != [] && allOk)
  {
    ScriptsRunFacts(scripts, runScript);
  }

  /**
   * When every CSV file is already at the destination, the newer pipeline
   * still runs the scripts, while the older one copies them all again.
   */
  lemma NothingNewStillRuns(configLoaded: bool, securePath: Option<string>, folders: Folders,
                            scripts: seq<string>, runScript: string -> bool)
    requires configLoaded && securePath.Some? && securePath.value != ""
    requires folders.sourceExists && folders.destExists
    requires forall j :: 0 <= j < |folders.listing| ==> folders.inDest(folders.listing[j])
    ensures MoveSpec(folders) == (true, [])
    ensures PipelineSpec(configLoaded, securePath, folders, scripts, runScript) == ScriptsRun(scripts, runScript)
  {
    NothingPendingCopiesNothing(folders.listing, folders);
  }

  lemma {:induction false} NothingPendingCopiesNothing(names: seq<string>, f: Folders)
    requires forall j :: 0 <= j < |names| ==> f.inDest(names[j])
    ensures Copied(names, f) == Some([])
  {
    if names != [] {
      NothingPendingCopiesNothing(names[..|names| - 1], f);
    }
  }
}
