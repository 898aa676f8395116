/** Where the store lives: the storage folder, the entries file inside it and
    the hooks directory beside that file. */
module Paths {
  import opened Errors

  /** The environment the folder is derived from. `storageFolder` is the value
      of PAGE_STORAGE_FOLDER (None when it is unset or not valid Unicode);
      `dataDir` is the per-user data directory of the application, None when
      the platform has no home directory to derive one from. */
  datatype Env = Env(storageFolder: Option<string>, dataDir: Option<string>)

  const EntriesFileName: string := "entries.toml.age"
  const HooksDirName: string := "hooks"

  /** The storage folder: the override variable verbatim when it is set, else
      the per-user data directory, else an error. */
  function StorageDir(env: Env): (r: Result<string>)
    ensures env.storageFolder.Some? ==> r == Ok(env.storageFolder.value)
    ensures env.storageFolder.None? && env.dataDir.Some? ==> r == Ok(env.dataDir.value)
    ensures r.Err? <==> env.storageFolder.None? && env.dataDir.None?
    ensures r.Err? ==> r.error == NoStorageFolder
  {
    match env.storageFolder
    case Some(f) => Ok(f)
    case None =>
      match env.dataDir
      case Some(d) => Ok(d)
      case None => Err(NoStorageFolder)
  }

  /** What joining a relative component onto `dir` puts in front of it: nothing
      for an empty path, `dir` itself when it already ends in a separator, and
      `dir` followed by one separator otherwise. */
  function JoinPrefix(dir: string): string
  {
    if dir == [] then []
    else if dir[|dir| - 1] == '/' then dir
    else dir + "/"
  }

  /** Joining a relative component `name` onto the path `dir`. */
  function Join(dir: string, name: string): (p: string)
    ensures |p| >= |name| && p[|p| - |name|..] == name
    ensures |p| >= |dir| && p[..|dir|] == dir
  {
    JoinPrefix(dir) + name
  }

  /** The entries file, `<storage folder>/entries.toml.age`. */
  function EntriesFile(env: Env): (r: Result<string>)
    ensures r.Err? <==> StorageDir(env).Err?
  {
    match StorageDir(env)
    case Err(e) => Err(e)
    case Ok(dir) => Ok(Join(dir, EntriesFileName))
  }

  /** The hooks directory, `<storage folder>/hooks`. */
  function HooksDir(env: Env): (r: Result<string>)
    ensures r.Err? <==> StorageDir(env).Err?
  {
    match StorageDir(env)
    case Err(e) => Err(e)
    case Ok(dir) => Ok(Join(dir, HooksDirName))
  }

  /** Joining onto one folder keeps distinct names distinct. */
  lemma JoinInjective(dir: string, a: string, b: string)
    requires Join(dir, a) == Join(dir, b)
    ensures a == b
  {
    var pre := JoinPrefix(dir);
    assert a == Join(dir, a)[|pre|..];
    assert b == Join(dir, b)[|pre|..];
  }

  /** The entries file and the hooks directory are siblings in the storage
      folder: both are that folder joined with a name, the names differ, and so
      do the two paths. With the override set, the folder is its value. */
  lemma EntriesFileAndHooksDir(env: Env)
    requires StorageDir(env).Ok?
    ensures EntriesFile(env) == Ok(Join(StorageDir(env).value, "entries.toml.age"))
    ensures HooksDir(env) == Ok(Join(StorageDir(env).value, "hooks"))
    ensures EntriesFile(env).value != HooksDir(env).value
    ensures env.storageFolder.Some? ==>
      EntriesFile(env).value[..|env.storageFolder.value|] == env.storageFolder.value
  {
    var dir := StorageDir(env).value;
    if EntriesFile(env).value == HooksDir(env).value {
      JoinInjective(dir, EntriesFileName, HooksDirName);
      assert false;
    }
  }

  /** Nothing inside the hooks directory is the entries file: saving the store
      never overwrites a hook script. */
  lemma HookPathIsNotEntriesFile(env: Env, hook: string)
    requires StorageDir(env).Ok?
    ensures Join(HooksDir(env).value, hook) != EntriesFile(env).value
  {
    var pre := JoinPrefix(StorageDir(env).value);
    var hookPath := Join(HooksDir(env).value, hook);
    var entries := EntriesFile(env).value;
    assert HooksDir(env).value == pre + HooksDirName;
    assert hookPath == pre + (HooksDirName + JoinPrefix(HooksDirName)[|HooksDirName|..] + hook) by {
      assert JoinPrefix(HooksDirName) == HooksDirName + "/";
    }
    assert entries == pre + EntriesFileName;
    assert hookPath[|pre|] == 'h';
    assert entries[|pre|] == 'e';
  }
}
