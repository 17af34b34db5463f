/**
 * DatabaseFix.FixDatabaseAsync: before the application opens its database
 * it probes that the folder is writable, then keeps a valid database file,
 * runs the schema script on a database without a Tasks table, deletes a
 * database that cannot be opened (and its -wal and -shm sidecars) and
 * recreates it, and creates a missing one.
 *
 * The filesystem is a map from existing paths to what SQLite makes of each
 * file; which deletions fail and whether the folder is writable are fixed
 * properties of the filesystem; whether SQLite's ReadWriteCreate open and the
 * schema script succeed is the environment SqliteEnv.
 */
module DatabaseFix {

  type Path = string

  /**
   * What SQLite makes of a file opened read-only: a database with a Tasks
   * table, a database without one, or a file that cannot be opened or
   * queried (any file that is not a database, such as the probe file).
   */
  datatype FileStatus = Valid | NoTasksTable | Unopenable

  const DbFileName: string := "TimeTracking.db"
  const ProbeFileName: string := "test_write.tmp"

  /** Path.Combine for a folder without a trailing separator, on Windows. */
  function Combine(folder: Path, name: string): (p: Path)
    ensures |p| == |folder| + 1 + |name|
    ensures p[..|folder|] == folder && p[|folder|] == '\\' && p[|folder| + 1..] == name
  {
    folder + "\\" + name
  }

  function DbPath(folder: Path): Path { Combine(folder, DbFileName) }
  function WalPath(folder: Path): Path { DbPath(folder) + "-wal" }
  function ShmPath(folder: Path): Path { DbPath(folder) + "-shm" }
  function ProbePath(folder: Path): Path { Combine(folder, ProbeFileName) }

  /** The four paths the procedure touches are pairwise different. */
  lemma PathsDistinct(folder: Path)
    ensures ProbePath(folder) != DbPath(folder)
    ensures ProbePath(folder) != WalPath(folder) && ProbePath(folder) != ShmPath(folder)
    ensures DbPath(folder) != WalPath(folder) && DbPath(folder) != ShmPath(folder)
    ensures WalPath(folder) != ShmPath(folder)
  {
    var db := DbPath(folder);
    assert |ProbePath(folder)| == |folder| + 15 && |db| == |folder| + 16;
    assert |WalPath(folder)| == |db| + 4 && |ShmPath(folder)| == |db| + 4;
    assert WalPath(folder)[|db| + 1] == 'w' && ShmPath(folder)[|db| + 1] == 's';
  }

  /** The effectful steps, in the order they are attempted. */
  datatype Step =
    | WriteProbe(path: Path)
    | Delete(path: Path)
    | OpenReadOnly(path: Path)
    | OpenReadWriteCreate(path: Path)
    | RunSchemaScript(path: Path)

  datatype FixError =
    | FolderNotWritable       // the InvalidOperationException "Cannot write to application folder"
    | CorruptedUndeletable    // the InvalidOperationException "Database is corrupted and cannot be deleted"
    | OpenFailed              // the ReadWriteCreate open threw
    | SchemaScriptFailed      // the schema script threw

  datatype FixResult = UsedExisting | CreatedSchema | Failed(error: FixError)

  /** Whether SQLite's ReadWriteCreate open and the schema script succeed. */
  datatype SqliteEnv = SqliteEnv(createOpens: bool, scriptSucceeds: bool)

  /** Outcome of one call: its result, the files afterwards and the steps attempted. */
  datatype FixRun = FixRun(result: FixResult, files: map<Path, FileStatus>, log: seq<Step>)

  /** The steps and the result of the create path alone. */
  function CreateSteps(db: Path, env: SqliteEnv): seq<Step>
  {
    if env.createOpens then [OpenReadWriteCreate(db), RunSchemaScript(db)] else [OpenReadWriteCreate(db)]
  }

  function CreateResult(env: SqliteEnv): FixResult
  {
    if !env.createOpens then Failed(OpenFailed)
    else if !env.scriptSucceeds then Failed(SchemaScriptFailed)
    else CreatedSchema
  }

  /**
   * The create path: open with ReadWriteCreate (which creates an empty
   * database if the file is missing), then run the schema script, after
   * which the database has its Tasks table.
   */
  function CreatePath(files: map<Path, FileStatus>, db: Path, env: SqliteEnv, log: seq<Step>): FixRun
  {
    if !env.createOpens then FixRun(Failed(OpenFailed), files, log + [OpenReadWriteCreate(db)])
    else
      var created := if db in files then files else files[db := NoTasksTable];
      var log' := log + [OpenReadWriteCreate(db), RunSchemaScript(db)];
      if !env.scriptSucceeds then FixRun(Failed(SchemaScriptFailed), created, log')
      else FixRun(CreatedSchema, created[db := Valid], log')
  }

  /** Reference definition of FixDatabaseAsync on a filesystem. */
  function FixSpec(files: map<Path, FileStatus>, writable: bool, locked: set<Path>, folder: Path, env: SqliteEnv): FixRun
  {
    var probe, db := ProbePath(folder), DbPath(folder);
    if !writable || (probe in files && probe in locked) then FixRun(Failed(FolderNotWritable), files, [WriteProbe(probe)])
    else if probe in locked then FixRun(Failed(FolderNotWritable), files[probe := Unopenable], [WriteProbe(probe), Delete(probe)])
    else AfterProbe(files - {probe}, locked, db, env, [WriteProbe(probe), Delete(probe)])
  }

  /** What follows a successful probe: keep, repair, or create the database `db`. */
  function AfterProbe(files: map<Path, FileStatus>, locked: set<Path>, db: Path, env: SqliteEnv, log: seq<Step>): FixRun
  {
    if db !in files then CreatePath(files, db, env, log)
    else
      var log1 := log + [OpenReadOnly(db)];
      match files[db]
      case Valid => FixRun(UsedExisting, files, log1)
      case NoTasksTable => CreatePath(files, db, env, log1)
      case Unopenable =>
        var d := DeleteCorrupted(files, locked, db, log1);
        if !d.deleted then FixRun(Failed(CorruptedUndeletable), d.files, d.log)
        else CreatePath(d.files, db, env, d.log)
  }

  /** Outcome of deleting a corrupted database and its sidecars. */
  datatype Deletion = Deletion(deleted: bool, files: map<Path, FileStatus>, log: seq<Step>)

  /**
   * Delete the database file, then its -wal file if it exists, then its
   * -shm file if it exists, stopping at the first deletion that throws.
   */
  function DeleteCorrupted(files: map<Path, FileStatus>, locked: set<Path>, db: Path, log: seq<Step>): Deletion
  {
    var wal, shm := db + "-wal", db + "-shm";
    var log1 := log + [Delete(db)];
    if db in files && db in locked then Deletion(false, files, log1)
    else
      var files1 := files - {db};
      var log2 := if wal in files1 then log1 + [Delete(wal)] else log1;
      if wal in files1 && wal in locked then Deletion(false, files1, log2)
      else
        var files2 := files1 - {wal};
        var log3 := if shm in files2 then log2 + [Delete(shm)] else log2;
        if shm in files2 && shm in locked then Deletion(false, files2, log3)
        else Deletion(true, files2 - {shm}, log3)
  }

  /** The filesystem the procedure works on. */
  class FileSystem {
    /** The existing files and what SQLite makes of each. */
    var files: map<Path, FileStatus>
    /** Whether the folder can be created and written into. */
    const writable: bool
    /** Files whose deletion throws (in use by another process, read-only). */
    const locked: set<Path>

    constructor (files: map<Path, FileStatus>, writable: bool, locked: set<Path>)
      ensures this.files == files && this.writable == writable && this.locked == locked
    {
      this.files := files;
      this.writable := writable;
      this.locked := locked;
    }

    /** File.Exists. */
    method Exists(p: Path) returns (b: bool)
      ensures b == (p in files)
    {
      b := p in files;
    }

    /** File.WriteAllText of a text file; `ok` is false when it throws: the folder is not writable or the file exists and is locked. */
    method WriteAllText(p: Path) returns (ok: bool)
      modifies this`files
      ensures ok == (writable && !(p in old(files) && p in locked))
      ensures files == if ok then old(files)[p := Unopenable] else old(files)
    {
      ok := writable && !(p in files && p in locked);
      if ok {
        files := files[p := Unopenable];
      }
    }

    /** File.Delete; `ok` is false when it throws, which only an existing locked file does. */
    method Delete(p: Path) returns (ok: bool)
      modifies this`files
      ensures ok == !(p in old(files) && p in locked)
      ensures files == if ok then old(files) - {p} else old(files)
    {
      ok := !(p in files && p in locked);
      if ok {
        files := files - {p};
      }
    }

    /** Open read-only and look for the Tasks table. */
    method OpenReadOnly(p: Path) returns (status: FileStatus)
      requires p in files
      ensures status == files[p]
    {
      status := files[p];
    }

    /** The effect of a successful ReadWriteCreate open: a missing file becomes an empty database. */
    method OpenOrCreate(p: Path)
      modifies this`files
      ensures files == if p in old(files) then old(files) else old(files)[p := NoTasksTable]
    {
      if p !in files {
        files := files[p := NoTasksTable];
      }
    }

    /** The effect of a successful schema script: the database has its tables. */
    method ApplySchema(p: Path)
      modifies this`files
      ensures files == old(files)[p := Valid]
    {
      files := files[p := Valid];
    }
  }

  /**
   * FixDatabaseAsync in `folder` (the current directory); every exception
   * it throws is a Failed result. It does what FixSpec defines.
   */
  method FixDatabaseAsync(fs: FileSystem, folder: Path, env: SqliteEnv) returns (result: FixResult, log: seq<Step>)
    modifies fs
    ensures FixSpec(old(fs.files), fs.writable, fs.locked, folder, env) == FixRun(result, fs.files, log)
  {
    var dbPath := Combine(folder, DbFileName);
    ghost var files := fs.files;

    // Check folder permissions.
    var testFile := Combine(folder, ProbeFileName);
    log := [WriteProbe(testFile)];
    var written := fs.WriteAllText(testFile);
    if !written {
      return Failed(FolderNotWritable), log;
    }
    log := [WriteProbe(testFile), Delete(testFile)];
    var deleted := fs.Delete(testFile);
    if !deleted {
      return Failed(FolderNotWritable), log;
    }
    assert fs.files == files - {testFile};
    assert FixSpec(files, fs.writable, fs.locked, folder, env) == AfterProbe(fs.files, fs.locked, dbPath, env, log);
    result, log := RepairDatabase(fs, dbPath, env, log);
  }

  /** The part of FixDatabaseAsync after the probe; it does what AfterProbe defines. */
  method RepairDatabase(fs: FileSystem, dbPath: Path, env: SqliteEnv, log: seq<Step>) returns (result: FixResult, log': seq<Step>)
    modifies fs
    ensures AfterProbe(old(fs.files), fs.locked, dbPath, env, log) == FixRun(result, fs.files, log')
  {
    log' := log;
    var needToCreateDatabase := false;
    var dbExists := fs.Exists(dbPath);
    if dbExists {
      log' := log' + [OpenReadOnly(dbPath)];
      var status := fs.OpenReadOnly(dbPath);
      if status == NoTasksTable {
        needToCreateDatabase := true;
      } else if status == Unopenable {
        needToCreateDatabase := true;
        var ok;
        ok, log' := DeleteCorruptedFiles(fs, dbPath, log');
        if !ok {
          return Failed(CorruptedUndeletable), log';
        }
      }
    } else {
      needToCreateDatabase := true;
    }

    if needToCreateDatabase {
      result, log' := CreateDatabase(fs, dbPath, env, log');
    } else {
      result := UsedExisting;
    }
  }

  /** The deletion step of FixDatabaseAsync; it does what DeleteCorrupted defines. */
  method DeleteCorruptedFiles(fs: FileSystem, dbPath: Path, log: seq<Step>) returns (ok: bool, log': seq<Step>)
    modifies fs
    ensures DeleteCorrupted(old(fs.files), fs.locked, dbPath, log) == Deletion(ok, fs.files, log')
  {
    ghost var files := fs.files;
    log' := log + [Delete(dbPath)];
    ok := fs.Delete(dbPath);
    if !ok {
      return;
    }
    var walPath := dbPath + "-wal";
    var shmPath := dbPath + "-shm";
    var walExists := fs.Exists(walPath);
    if walExists {
      log' := log' + [Delete(walPath)];
      ok := fs.Delete(walPath);
      if !ok {
        return;
      }
    }
    assert fs.files == files - {dbPath} - {walPath};
    var shmExists := fs.Exists(shmPath);
    if shmExists {
      log' := log' + [Delete(shmPath)];
      ok := fs.Delete(shmPath);
      if !ok {
        return;
      }
    }
    assert fs.files == files - {dbPath} - {walPath} - {shmPath};
  }

  /** The create step of FixDatabaseAsync; it does what CreatePath defines. */
  method CreateDatabase(fs: FileSystem, dbPath: Path, env: SqliteEnv, log: seq<Step>) returns (result: FixResult, log': seq<Step>)
    modifies fs
    ensures CreatePath(old(fs.files), dbPath, env, log) == FixRun(result, fs.files, log')
  {
    log' := log + [OpenReadWriteCreate(dbPath)];
    if !env.createOpens {
      return Failed(OpenFailed), log';
    }
    fs.OpenOrCreate(dbPath);
    log' := log' + [RunSchemaScript(dbPath)];
    if !env.scriptSucceeds {
      return Failed(SchemaScriptFailed), log';
    }
    fs.ApplySchema(dbPath);
    result := CreatedSchema;
  }

  // ----- properties of FixSpec -----

  /**
   * The probe fails exactly when the folder is not writable or the probe
   * file cannot be deleted; then the procedure stops with
   * FolderNotWritable, having touched only the probe file.
   */
  lemma ProbeFailureTouchesOnlyProbe(files: map<Path, FileStatus>, writable: bool, locked: set<Path>, folder: Path, env: SqliteEnv)
    ensures var r := FixSpec(files, writable, locked, folder, env);
      r.result == Failed(FolderNotWritable) <==> (!writable || ProbePath(folder) in locked)
    ensures var r := FixSpec(files, writable, locked, folder, env);
      r.result == Failed(FolderNotWritable) ==>
        (forall i :: 0 <= i < |r.log| ==> r.log[i].path == ProbePath(folder)) &&
        (forall p :: p != ProbePath(folder) ==> (p in r.files <==> p in files)) &&
        (forall p :: p != ProbePath(folder) && p in files ==> r.files[p] == files[p])
  {
    PathsDistinct(folder);
  }

  /** After a probe that succeeded, the probe file no longer exists. */
  lemma ProbeFileRemoved(files: map<Path, FileStatus>, writable: bool, locked: set<Path>, folder: Path, env: SqliteEnv)
    requires FixSpec(files, writable, locked, folder, env).result != Failed(FolderNotWritable)
    ensures ProbePath(folder) !in FixSpec(files, writable, locked, folder, env).files
  {
    PathsDistinct(folder);
  }

  /**
   * An existing database that opens and has a Tasks table is kept: only the
   * probe file goes away, nothing is deleted and no schema script runs.
   * Conversely, the procedure keeps the existing file only in this case.
   */
  lemma ValidDatabaseLeftAlone(files: map<Path, FileStatus>, writable: bool, locked: set<Path>, folder: Path, env: SqliteEnv)
    ensures var r := FixSpec(files, writable, locked, folder, env);
      r.result == UsedExisting <==>
        writable && ProbePath(folder) !in locked && DbPath(folder) in files && files[DbPath(folder)] == Valid
    ensures var r := FixSpec(files, writable, locked, folder, env);
      r.result == UsedExisting ==>
        r.files == files - {ProbePath(folder)} &&
        r.log == [WriteProbe(ProbePath(folder)), Delete(ProbePath(folder)), OpenReadOnly(DbPath(folder))]
  {
    PathsDistinct(folder);
  }

  /**
   * An existing database without a Tasks table is not deleted: the create
   * path runs on it and, if it succeeds, the database now has the table.
   */
  lemma NoTasksTableNotDeleted(files: map<Path, FileStatus>, writable: bool, locked: set<Path>, folder: Path, env: SqliteEnv)
    requires writable && ProbePath(folder) !in locked
    requires DbPath(folder) in files && files[DbPath(folder)] == NoTasksTable
    ensures var r := FixSpec(files, writable, locked, folder, env);
      && r.result == CreateResult(env)
      && r.log == [WriteProbe(ProbePath(folder)), Delete(ProbePath(folder)), OpenReadOnly(DbPath(folder))]
                  + CreateSteps(DbPath(folder), env)
      && DbPath(folder) in r.files
      && (forall p :: p != ProbePath(folder) ==> (p in r.files <==> p in files))
  {
    PathsDistinct(folder);
  }

  /** The create path appends its steps, returns CreateResult and adds at most the database file. */
  lemma CreatePathShape(files: map<Path, FileStatus>, db: Path, env: SqliteEnv, log: seq<Step>)
    ensures var r := CreatePath(files, db, env, log);
      && r.result == CreateResult(env)
      && r.log == log + CreateSteps(db, env)
      && r.files.Keys == (if env.createOpens then files.Keys + {db} else files.Keys)
      && (forall p :: p != db && p in files ==> r.files[p] == files[p])
      && (r.result == CreatedSchema ==> r.files[db] == Valid)
  {
  }

  /** When no deletion throws, DeleteCorrupted removes the database and both sidecars. */
  lemma DeleteCorruptedSucceeds(files: map<Path, FileStatus>, locked: set<Path>, db: Path, log: seq<Step>)
    requires db !in locked
    requires db + "-wal" in files ==> db + "-wal" !in locked
    requires db + "-shm" in files ==> db + "-shm" !in locked
    ensures var d := DeleteCorrupted(files, locked, db, log);
      var wal, shm := db + "-wal", db + "-shm";
      && d.deleted
      && d.files == files - {db, wal, shm}
      && d.log == log + [Delete(db)] + (if wal in files then [Delete(wal)] else []) + (if shm in files then [Delete(shm)] else [])
  {
    var wal, shm := db + "-wal", db + "-shm";
    assert db != wal && db != shm && wal != shm by {
      assert |wal| == |shm| == |db| + 4 && wal[|db| + 1] != shm[|db| + 1];
    }
    assert files - {db} - {wal} - {shm} == files - {db, wal, shm};
  }

  /**
   * A database that cannot be opened is deleted together with its -wal and
   * -shm files, each sidecar only if it exists; then the create path runs.
   */
  lemma UnopenableDeletedWithSidecars(files: map<Path, FileStatus>, writable: bool, locked: set<Path>, folder: Path, env: SqliteEnv)
    requires writable && ProbePath(folder) !in locked
    requires DbPath(folder) in files && files[DbPath(folder)] == Unopenable
    requires DbPath(folder) !in locked
    requires WalPath(folder) in files ==> WalPath(folder) !in locked
    requires ShmPath(folder) in files ==> ShmPath(folder) !in locked
    ensures var r := FixSpec(files, writable, locked, folder, env);
      var db, wal, shm := DbPath(folder), WalPath(folder), ShmPath(folder);
      && r.result == CreateResult(env)
      && r.log == [WriteProbe(ProbePath(folder)), Delete(ProbePath(folder)), OpenReadOnly(db), Delete(db)]
                  + (if wal in files then [Delete(wal)] else [])
                  + (if shm in files then [Delete(shm)] else [])
                  + CreateSteps(db, env)
      && wal !in r.files && shm !in r.files
      && (env.createOpens ==> db in r.files)
      && (!env.createOpens ==> db !in r.files)
      && (forall p :: p !in {ProbePath(folder), db, wal, shm} ==> (p in r.files <==> p in files))
  {
    var probe, db, wal, shm := ProbePath(folder), DbPath(folder), WalPath(folder), ShmPath(folder);
    PathsDistinct(folder);
    var files0 := files - {probe};
    var log1 := [WriteProbe(probe), Delete(probe), OpenReadOnly(db)];
    assert [WriteProbe(probe), Delete(probe)] + [OpenReadOnly(db)] == log1;
    DeleteCorruptedSucceeds(files0, locked, db, log1);
    var d := DeleteCorrupted(files0, locked, db, log1);
    assert FixSpec(files, writable, locked, folder, env) == CreatePath(d.files, db, env, d.log);
    CreatePathShape(d.files, db, env, d.log);
    assert (wal in files0) == (wal in files) && (shm in files0) == (shm in files);
  }

  /**
   * If one of those deletions throws, the procedure stops with
   * CorruptedUndeletable and makes no attempt to recreate the database.
   */
  lemma FailedDeletionStopsRecreation(files: map<Path, FileStatus>, writable: bool, locked: set<Path>, folder: Path, env: SqliteEnv)
    requires writable && ProbePath(folder) !in locked
    requires DbPath(folder) in files && files[DbPath(folder)] == Unopenable
    requires DbPath(folder) in locked ||
             (WalPath(folder) in files && WalPath(folder) in locked) ||
             (ShmPath(folder) in files && ShmPath(folder) in locked)
    ensures var r := FixSpec(files, writable, locked, folder, env);
      && r.result == Failed(CorruptedUndeletable)
      && (forall i :: 0 <= i < |r.log| ==> !r.log[i].OpenReadWriteCreate? && !r.log[i].RunSchemaScript?)
  {
    PathsDistinct(folder);
  }

  /** A missing database always takes the create path, and nothing is deleted but the probe file. */
  lemma MissingDatabaseCreated(files: map<Path, FileStatus>, writable: bool, locked: set<Path>, folder: Path, env: SqliteEnv)
    requires writable && ProbePath(folder) !in locked
    requires DbPath(folder) !in files
    ensures var r := FixSpec(files, writable, locked, folder, env);
      && r.result == CreateResult(env)
      && r.log == [WriteProbe(ProbePath(folder)), Delete(ProbePath(folder))] + CreateSteps(DbPath(folder), env)
      && (forall p :: p != ProbePath(folder) && p != DbPath(folder) ==> (p in r.files <==> p in files))
  {
    PathsDistinct(folder);
  }

  /** Whenever the procedure succeeds, the database file exists and has its Tasks table. */
  lemma SuccessLeavesValidDatabase(files: map<Path, FileStatus>, writable: bool, locked: set<Path>, folder: Path, env: SqliteEnv)
    requires !FixSpec(files, writable, locked, folder, env).result.Failed?
    ensures DbPath(folder) in FixSpec(files, writable, locked, folder, env).files
    ensures FixSpec(files, writable, locked, folder, env).files[DbPath(folder)] == Valid
  {
    PathsDistinct(folder);
  }
}
