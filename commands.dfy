/** The commands: each runs the pre_load hook, resolves the passphrase, loads
    the store, changes the entry map in memory, saves it and runs the
    post_save hook, stopping at the first failure; `init` creates the store
    and `show` and `list` only read it. */
module Commands {
  import opened Errors
  import opened Paths
  import opened Utilities
  import opened Entries
  import Hooks

  datatype Attribute = Password | Username | Url

  /** The milestones of a command, in order. `Saved` marks a completed write
      of the entries file; the others mark that the step was started. */
  datatype Step = HookCalled(hook: Hooks.Hook) | PassphraseRead | Loaded | Saved | FileCreated

  /** What a command can observe and change: the files (path to contents) and
      directories on disk, the keyring entry, the lines written to standard
      output, the clipboard, the entry map in memory and the milestones. */
  datatype World = World(
    files: map<string, Bytes>, dirs: set<string>, keyring: Keyring,
    stdout: seq<string>, clipboard: Option<string>,
    entries: map<string, Entry>, trace: seq<Step>)

  /** The fixed collaborators: the environment, the cipher and the codec. */
  datatype Context = Context(env: Env, cipher: Cipher, format: Format)

  /** How the outside world answers during one command: what the pre_load and
      post_save scripts produce if they are run, the hidden passphrase prompt,
      the overwrite question and the hidden entry-password prompt (None where
      reading fails). */
  datatype Answers = Answers(
    preLoad: Hooks.ProcessOutput, passphrase: Option<string>,
    confirm: Option<string>, password: Option<string>,
    postSave: Hooks.ProcessOutput)

  function Existing(w: World): set<string>
  {
    w.files.Keys + w.dirs
  }

  function OverwritePrompt(name: string): string
  {
    "Entry '" + name + "' already exists. Overwrite (y/N)?"
  }

  function PasswordPrompt(name: string): string
  {
    "Password for '" + name + "': "
  }

  // ---------------------------------------------------------------------
  // The steps a command is made of.

  function HookStep(w: World, ctx: Context, hook: Hooks.Hook, event: Hooks.HookEvent, output: Hooks.ProcessOutput): (World, Outcome)
  {
    var run := Hooks.HookSpec(hook, event, ctx.env, Existing(w), output);
    (w.(stdout := w.stdout + run.echoed, trace := w.trace + [HookCalled(hook)]), run.outcome)
  }

  function PassphraseStep(w: World, noKeyring: bool, answer: Option<string>): (World, Result<string>)
  {
    var r := GetPassphrase(noKeyring, w.keyring, answer);
    var shown := if SecretPrompt(PassphrasePrompt) in r.accesses then [PassphrasePrompt] else [];
    (w.(keyring := r.keyring, stdout := w.stdout + shown, trace := w.trace + [PassphraseRead]), r.passphrase)
  }

  /** The contents of the file at `path`, None when there is no such file. */
  function Contents(w: World, path: string): Option<Bytes>
  {
    if path in w.files then Some(w.files[path]) else None
  }

  function LoadStep(w: World, ctx: Context, passphrase: string): (World, Outcome)
  {
    var w' := w.(trace := w.trace + [Loaded]);
    match EntriesFile(ctx.env)
    case Err(e) => (w', Fail(e))
    case Ok(path) =>
      match Decode(Contents(w, path), passphrase, ctx.cipher, ctx.format)
      case Err(e) => (w', Fail(e))
      case Ok(s) => (w'.(entries := s.entries), Pass)
  }

  function SaveStep(w: World, ctx: Context, passphrase: string): (World, Outcome)
  {
    match Encode(Storage(w.entries), passphrase, ctx.cipher, ctx.format)
    case Err(e) => (w, Fail(e))
    case Ok(bytes) =>
      match EntriesFile(ctx.env)
      case Err(e) => (w, Fail(e))
      case Ok(path) => (w.(files := w.files[path := bytes], trace := w.trace + [Saved]), Pass)
  }

  /** The overwrite question: Ok(true) when the answer confirms it. */
  function ConfirmStep(w: World, name: string, answer: Option<string>): (World, Result<bool>)
  {
    var w' := w.(stdout := w.stdout + [OverwritePrompt(name)]);
    match ReadStdin(answer)
    case Err(e) => (w', Err(e))
    case Ok(line) => (w', Ok(Accepts(line)))
  }

  function PasswordStep(w: World, name: string, answer: Option<string>): (World, Result<string>)
  {
    var w' := w.(stdout := w.stdout + [PasswordPrompt(name)]);
    match answer
    case None => (w', Err(PromptFailed))
    case Some(p) => (w', Ok(p))
  }

  /** Showing a value on the terminal or putting it on the clipboard. */
  function RevealStep(w: World, text: string, onScreen: bool): World
  {
    if onScreen then w.(stdout := w.stdout + [text]) else w.(clipboard := Some(text))
  }

  /** The common start: pre_load hook, passphrase, load. The passphrase on success. */
  function OpenStep(w: World, ctx: Context, event: Hooks.HookEvent, noKeyring: bool, ans: Answers): (World, Result<string>)
  {
    var (w1, hooked) := HookStep(w, ctx, Hooks.PreLoad, event, ans.preLoad);
    if hooked.Fail? then (w1, Err(hooked.error))
    else
      var (w2, p) := PassphraseStep(w1, noKeyring, ans.passphrase);
      if p.Err? then (w2, p)
      else
        var (w3, loaded) := LoadStep(w2, ctx, p.value);
        if loaded.Fail? then (w3, Err(loaded.error)) else (w3, p)
  }

  /** The common end: save, then the post_save hook. */
  function CommitStep(w: World, ctx: Context, event: Hooks.HookEvent, passphrase: string, ans: Answers): (World, Outcome)
  {
    var (w1, saved) := SaveStep(w, ctx, passphrase);
    if saved.Fail? then (w1, saved)
    else HookStep(w1, ctx, Hooks.PostSave, event, ans.postSave)
  }

  // ---------------------------------------------------------------------
  // The commands, as functions of the world before them.

  function NewEntrySpec(w: World, ctx: Context, name: string, username: Option<string>, url: Option<string>,
                        noKeyring: bool, ans: Answers): (World, Outcome)
  {
    var (w1, p) := OpenStep(w, ctx, Hooks.NewEntry, noKeyring, ans);
    if p.Err? then (w1, Fail(p.error))
    else NewEntryLoaded(w1, ctx, name, username, url, p.value, ans)
  }

  /** `new_entry` once the store is loaded: a taken name needs a confirmed
      overwrite, a refusal ends the command successfully. */
  function NewEntryLoaded(w: World, ctx: Context, name: string, username: Option<string>, url: Option<string>,
                          passphrase: string, ans: Answers): (World, Outcome)
  {
    if name in w.entries then
      var (w1, yes) := ConfirmStep(w, name, ans.confirm);
      if yes.Err? then (w1, Fail(yes.error))
      else if !yes.value then (w1, Pass)
      else NewEntryStore(w1, ctx, name, username, url, passphrase, ans)
    else NewEntryStore(w, ctx, name, username, url, passphrase, ans)
  }

  function NewEntryStore(w: World, ctx: Context, name: string, username: Option<string>, url: Option<string>,
                         passphrase: string, ans: Answers): (World, Outcome)
  {
    var (w1, password) := PasswordStep(w, name, ans.password);
    if password.Err? then (w1, Fail(password.error))
    else CommitStep(w1.(entries := w1.entries[name := Entry(password.value, username, url)]), ctx, Hooks.NewEntry, passphrase, ans)
  }

  /** The entry names `list` may print: each name once, in any order. */
  ghost predicate Enumerates(printed: seq<string>, names: set<string>)
  {
    && |printed| == |names|
    && (forall i :: 0 <= i < |printed| ==> printed[i] in names)
    && (forall i, j :: 0 <= i < j < |printed| ==> printed[i] != printed[j])
  }

  /** `after` is `before` with every entry name printed once, in some order,
      and nothing else changed. */
  ghost predicate Listed(before: World, after: World)
  {
    && |after.stdout| >= |before.stdout| && after.stdout[..|before.stdout|] == before.stdout
    && after == before.(stdout := after.stdout)
    && Enumerates(after.stdout[|before.stdout|..], before.entries.Keys)
  }

  function ShowSpec(w: World, ctx: Context, name: string, attribute: Attribute, onScreen: bool,
                    noKeyring: bool, ans: Answers): (World, Outcome)
  {
    var (w1, p) := OpenStep(w, ctx, Hooks.ShowEntry, noKeyring, ans);
    if p.Err? then (w1, Fail(p.error))
    else ShowLoaded(w1, name, attribute, onScreen)
  }

  /** `show` once the store is loaded: the password always, the user name and
      URL only when the entry has one. */
  function ShowLoaded(w: World, name: string, attribute: Attribute, onScreen: bool): (World, Outcome)
  {
    if name !in w.entries then (w, Fail(NotFound(name)))
    else
      var e := w.entries[name];
      match attribute
      case Password => (RevealStep(w, e.password, onScreen), Pass)
      case Username => (if e.username.Some? then RevealStep(w, e.username.value, onScreen) else w, Pass)
      case Url => (if e.url.Some? then RevealStep(w, e.url.value, onScreen) else w, Pass)
  }

  function EditSpec(w: World, ctx: Context, entryName: string, newName: Option<string>,
                    username: Option<string>, url: Option<string>, noPrompt: bool,
                    noKeyring: bool, ans: Answers): (World, Outcome)
  {
    var (w1, p) := OpenStep(w, ctx, Hooks.EditEntry, noKeyring, ans);
    if p.Err? then (w1, Fail(p.error))
    else EditLoaded(w1, ctx, entryName, newName, username, url, noPrompt, p.value, ans)
  }

  /** `edit` once the store is loaded: take the entry out, settle its name
      (a rename onto another taken name needs a confirmed overwrite), and put
      the edited entry back under it. */
  function EditLoaded(w: World, ctx: Context, entryName: string, newName: Option<string>,
                      username: Option<string>, url: Option<string>, noPrompt: bool,
                      passphrase: string, ans: Answers): (World, Outcome)
  {
    if entryName !in w.entries then (w, Fail(NotFound(entryName)))
    else
      var previous := w.entries[entryName];
      var w1 := w.(entries := w.entries - {entryName});
      match newName
      case None => EditStore(w1, ctx, entryName, previous, username, url, noPrompt, passphrase, ans)
      case Some(nm) =>
        if nm != entryName && nm in w1.entries then
          var (w2, yes) := ConfirmStep(w1, nm, ans.confirm);
          if yes.Err? then (w2, Fail(yes.error))
          else if !yes.value then (w2, Pass)
          else EditStore(w2.(entries := w2.entries - {nm}), ctx, nm, previous, username, url, noPrompt, passphrase, ans)
        else EditStore(w1, ctx, nm, previous, username, url, noPrompt, passphrase, ans)
  }

  /** The edited entry: the given user name and URL, or else the old ones;
      the old password with `noPrompt`, or else the typed one. */
  function EditStore(w: World, ctx: Context, name: string, previous: Entry, username: Option<string>, url: Option<string>,
                     noPrompt: bool, passphrase: string, ans: Answers): (World, Outcome)
  {
    var user := if username.Some? then username else previous.username;
    var link := if url.Some? then url else previous.url;
    var (w1, password) := if noPrompt then (w, Ok(previous.password)) else PasswordStep(w, name, ans.password);
    if password.Err? then (w1, Fail(password.error))
    else CommitStep(w1.(entries := w1.entries[name := Entry(password.value, user, link)]), ctx, Hooks.EditEntry, passphrase, ans)
  }

  function RemoveSpec(w: World, ctx: Context, name: string, noKeyring: bool, ans: Answers): (World, Outcome)
  {
    var (w1, p) := OpenStep(w, ctx, Hooks.RemoveEntry, noKeyring, ans);
    if p.Err? then (w1, Fail(p.error))
    else RemoveLoaded(w1, ctx, name, p.value, ans)
  }

  /** `remove` once the store is loaded: a missing name is an error, a present
      one is taken out and the map committed. */
  function RemoveLoaded(w: World, ctx: Context, name: string, passphrase: string, ans: Answers): (World, Outcome)
  {
    if name !in w.entries then (w, Fail(NotFound(name)))
    else CommitStep(w.(entries := w.entries - {name}), ctx, Hooks.RemoveEntry, passphrase, ans)
  }

  function InitSpec(w: World, ctx: Context, noKeyring: bool, ans: Answers): (World, Outcome)
  {
    match StorageDir(ctx.env)
    case Err(e) => (w, Fail(e))
    case Ok(dir) =>
      var w1 := w.(dirs := w.dirs + {dir});
      match EntriesFile(ctx.env)
      case Err(e) => (w1, Fail(e))
      case Ok(path) =>
        if path in Existing(w1) then
          (w1.(stdout := w1.stdout + ["Entries file " + path + " already exists"]), Pass)
        else
          var w2 := w1.(files := w1.files[path := []], stdout := w1.stdout + ["Created entries file " + path],
                        trace := w1.trace + [FileCreated]);
          var (w3, p) := PassphraseStep(w2, noKeyring, ans.passphrase);
          if p.Err? then (w3, Fail(p.error))
          else
            match ctx.format.parse("")
            case None => (w3, Fail(ParseFailed))
            case Some(s) => SaveStep(w3.(entries := s.entries), ctx, p.value)
  }

  // ---------------------------------------------------------------------
  // The program state and the commands as methods on it.

  class Page {
    const env: Env
    const cipher: Cipher
    const format: Format
    var files: map<string, Bytes>
    var dirs: set<string>
    var keyring: Keyring
    var stdout: seq<string>
    var clipboard: Option<string>
    var entries: map<string, Entry>
    ghost var trace: seq<Step>

    ghost function State(): World
      reads this
    {
      World(files, dirs, keyring, stdout, clipboard, entries, trace)
    }

    function Ctx(): Context
    {
      Context(env, cipher, format)
    }

    constructor(env: Env, cipher: Cipher, format: Format, files: map<string, Bytes>, dirs: set<string>, keyring: Keyring)
      ensures Ctx() == Context(env, cipher, format)
      ensures State() == World(files, dirs, keyring, [], None, map[], [])
    {
      this.env := env;
      this.cipher := cipher;
      this.format := format;
      this.files := files;
      this.dirs := dirs;
      this.keyring := keyring;
      this.stdout := [];
      this.clipboard := None;
      this.entries := map[];
      this.trace := [];
    }

    method FireHook(hook: Hooks.Hook, event: Hooks.HookEvent, output: Hooks.ProcessOutput) returns (o: Outcome)
      modifies this
      ensures (State(), o) == HookStep(old(State()), Ctx(), hook, event, output)
    {
      var run := Hooks.RunHook(hook, event, env, files.Keys + dirs, output);
      stdout := stdout + run.echoed;
      trace := trace + [HookCalled(hook)];
      o := run.outcome;
    }

    method ObtainPassphrase(noKeyring: bool, answer: Option<string>) returns (p: Result<string>)
      modifies this
      ensures (State(), p) == PassphraseStep(old(State()), noKeyring, answer)
    {
      var r := GetPassphrase(noKeyring, keyring, answer);
      if SecretPrompt(PassphrasePrompt) in r.accesses {
        stdout := stdout + [PassphrasePrompt];
      } else {
        assert stdout == stdout + [];
      }
      keyring := r.keyring;
      trace := trace + [PassphraseRead];
      p := r.passphrase;
    }

    /** `load_entries`, replacing the entry map in memory on success. */
    method LoadEntries(passphrase: string) returns (o: Outcome)
      modifies this
      ensures (State(), o) == LoadStep(old(State()), Ctx(), passphrase)
    {
      trace := trace + [Loaded];
      var path := EntriesFile(env);
      if path.Err? {
        return Fail(path.error);
      }
      var contents := if path.value in files then Some(files[path.value]) else None;
      var s := Decode(contents, passphrase, cipher, format);
      if s.Err? {
        return Fail(s.error);
      }
      entries := s.value.entries;
      o := Pass;
    }

    /** `save_entries`: the entry map itself is left as it is. */
    method SaveEntries(passphrase: string) returns (o: Outcome)
      modifies this
      ensures (State(), o) == SaveStep(old(State()), Ctx(), passphrase)
    {
      var bytes := Encode(Storage(entries), passphrase, cipher, format);
      if bytes.Err? {
        return Fail(bytes.error);
      }
      var path := EntriesFile(env);
      if path.Err? {
        return Fail(path.error);
      }
      files := files[path.value := bytes.value];
      trace := trace + [Saved];
      o := Pass;
    }

    method Confirm(name: string, answer: Option<string>) returns (yes: Result<bool>)
      modifies this
      ensures (State(), yes) == ConfirmStep(old(State()), name, answer)
    {
      var msg := OverwritePrompt(name);
      stdout := stdout + [msg];
      var line := ReadStdin(answer);
      if line.Err? {
        return Err(line.error);
      }
      yes := Ok(Accepts(line.value));
    }

    method AskPassword(name: string, answer: Option<string>) returns (p: Result<string>)
      modifies this
      ensures (State(), p) == PasswordStep(old(State()), name, answer)
    {
      stdout := stdout + [PasswordPrompt(name)];
      if answer.None? {
        return Err(PromptFailed);
      }
      p := Ok(answer.value);
    }

    method Reveal(text: string, onScreen: bool)
      modifies this
      ensures State() == RevealStep(old(State()), text, onScreen)
    {
      if onScreen {
        stdout := stdout + [text];
      } else {
        clipboard := Some(text);
      }
    }

    method OpenStore(event: Hooks.HookEvent, noKeyring: bool, ans: Answers) returns (p: Result<string>)
      modifies this
      ensures (State(), p) == OpenStep(old(State()), Ctx(), event, noKeyring, ans)
    {
      var hooked := FireHook(Hooks.PreLoad, event, ans.preLoad);
      if hooked.Fail? {
        return Err(hooked.error);
      }
      p := ObtainPassphrase(noKeyring, ans.passphrase);
      if p.Err? {
        return;
      }
      var loaded := LoadEntries(p.value);
      if loaded.Fail? {
        return Err(loaded.error);
      }
    }

    method CommitStore(event: Hooks.HookEvent, passphrase: string, ans: Answers) returns (o: Outcome)
      modifies this
      ensures (State(), o) == CommitStep(old(State()), Ctx(), event, passphrase, ans)
    {
      o := SaveEntries(passphrase);
      if o.Fail? {
        return;
      }
      o := FireHook(Hooks.PostSave, event, ans.postSave);
    }

    method Init(noKeyring: bool, ans: Answers) returns (o: Outcome)
      modifies this
      ensures (State(), o) == InitSpec(old(State()), Ctx(), noKeyring, ans)
    {
      var dir := StorageDir(env);
      if dir.Err? {
        return Fail(dir.error);
      }
      dirs := dirs + {dir.value};
      var path := EntriesFile(env).value;
      if path in files.Keys + dirs {
        stdout := stdout + ["Entries file " + path + " already exists"];
        return Pass;
      }
      files := files[path := []];
      stdout := stdout + ["Created entries file " + path];
      trace := trace + [FileCreated];
      var p := ObtainPassphrase(noKeyring, ans.passphrase);
      if p.Err? {
        return Fail(p.error);
      }
      var empty := format.parse("");
      if empty.None? {
        return Fail(ParseFailed);
      }
      entries := empty.value.entries;
      o := SaveEntries(p.value);
    }

    method NewEntry(name: string, username: Option<string>, url: Option<string>, noKeyring: bool, ans: Answers)
      returns (o: Outcome)
      modifies this
      ensures (State(), o) == NewEntrySpec(old(State()), Ctx(), name, username, url, noKeyring, ans)
    {
      var p := OpenStore(Hooks.NewEntry, noKeyring, ans);
      if p.Err? {
        return Fail(p.error);
      }
      o := NewEntryAfterLoad(name, username, url, p.value, ans);
    }

    method NewEntryAfterLoad(name: string, username: Option<string>, url: Option<string>, passphrase: string, ans: Answers)
      returns (o: Outcome)
      modifies this
      ensures (State(), o) == NewEntryLoaded(old(State()), Ctx(), name, username, url, passphrase, ans)
    {
      if name in entries {
        var yes := Confirm(name, ans.confirm);
        if yes.Err? {
          return Fail(yes.error);
        }
        if !yes.value {
          return Pass;
        }
      }
      var password := AskPassword(name, ans.password);
      if password.Err? {
        return Fail(password.error);
      }
      entries := entries[name := Entry(password.value, username, url)];
      o := CommitStore(Hooks.NewEntry, passphrase, ans);
    }

    /** `list`: every entry name is printed once, in an order the map chooses. */
    method List(noKeyring: bool, ans: Answers) returns (o: Outcome)
      modifies this
      ensures var (w1, p) := OpenStep(old(State()), Ctx(), Hooks.ListEntries, noKeyring, ans);
        && (p.Err? ==> o == Fail(p.error) && State() == w1)
        && (p.Ok? ==> o == Pass && Listed(w1, State()))
    {
      var p := OpenStore(Hooks.ListEntries, noKeyring, ans);
      if p.Err? {
        return Fail(p.error);
      }
      PrintNames();
      return Pass;
    }

    /** Printing each key of the entry map on a line of its own. */
    method PrintNames()
      modifies this
      ensures Listed(old(State()), State())
    {
      ghost var before := stdout;
      ghost var start := State();
      var remaining := entries.Keys;
      while remaining != {}
        invariant remaining <= entries.Keys
        invariant |stdout| >= |before| && stdout[..|before|] == before
        invariant |stdout[|before|..]| + |remaining| == |entries.Keys|
        invariant forall i :: 0 <= i < |stdout[|before|..]| ==> stdout[|before|..][i] in entries.Keys - remaining
        invariant forall i, j :: 0 <= i < j < |stdout[|before|..]| ==> stdout[|before|..][i] != stdout[|before|..][j]
        invariant State() == start.(stdout := stdout)
        decreases |remaining|
      {
        var name :| name in remaining;
        stdout := stdout + [name];
        remaining := remaining - {name};
      }
    }

    method Show(name: string, attribute: Attribute, onScreen: bool, noKeyring: bool, ans: Answers) returns (o: Outcome)
      modifies this
      ensures (State(), o) == ShowSpec(old(State()), Ctx(), name, attribute, onScreen, noKeyring, ans)
    {
      var p := OpenStore(Hooks.ShowEntry, noKeyring, ans);
      if p.Err? {
        return Fail(p.error);
      }
      if name !in entries {
        return Fail(NotFound(name));
      }
      var e := entries[name];
      match attribute {
        case Password =>
          Reveal(e.password, onScreen);
        case Username =>
          if e.username.Some? {
            Reveal(e.username.value, onScreen);
          }
        case Url =>
          if e.url.Some? {
            Reveal(e.url.value, onScreen);
          }
      }
      o := Pass;
    }

    method Edit(entryName: string, newName: Option<string>, username: Option<string>, url: Option<string>,
                noPrompt: bool, noKeyring: bool, ans: Answers) returns (o: Outcome)
      modifies this
      ensures (State(), o) == EditSpec(old(State()), Ctx(), entryName, newName, username, url, noPrompt, noKeyring, ans)
    {
      var p := OpenStore(Hooks.EditEntry, noKeyring, ans);
      if p.Err? {
        return Fail(p.error);
      }
      o := EditAfterLoad(entryName, newName, username, url, noPrompt, p.value, ans);
    }

    method EditAfterLoad(entryName: string, newName: Option<string>, username: Option<string>, url: Option<string>,
                         noPrompt: bool, passphrase: string, ans: Answers) returns (o: Outcome)
      modifies this
      ensures (State(), o) == EditLoaded(old(State()), Ctx(), entryName, newName, username, url, noPrompt, passphrase, ans)
    {
      if entryName !in entries {
        return Fail(NotFound(entryName));
      }
      var entry := entries[entryName];
      entries := entries - {entryName};
      var name := entryName;
      if newName.Some? {
        var nm := newName.value;
        if nm != entryName && nm in entries {
          var yes := Confirm(nm, ans.confirm);
          if yes.Err? {
            return Fail(yes.error);
          }
          if !yes.value {
            return Pass;
          }
          entries := entries - {nm};
        }
        name := nm;
      }
      o := StoreEdited(name, entry, username, url, noPrompt, passphrase, ans);
    }

    /** Putting the edited entry back under `name` and committing. */
    method StoreEdited(name: string, entry: Entry, username: Option<string>, url: Option<string>,
                       noPrompt: bool, passphrase: string, ans: Answers) returns (o: Outcome)
      modifies this
      ensures (State(), o) == EditStore(old(State()), Ctx(), name, entry, username, url, noPrompt, passphrase, ans)
    {
      var user := if username.Some? then username else entry.username;
      var link := if url.Some? then url else entry.url;
      var password := entry.password;
      if !noPrompt {
        var typed := AskPassword(name, ans.password);
        if typed.Err? {
          return Fail(typed.error);
        }
        password := typed.value;
      }
      entries := entries[name := Entry(password, user, link)];
      o := CommitStore(Hooks.EditEntry, passphrase, ans);
    }

    method Remove(name: string, noKeyring: bool, ans: Answers) returns (o: Outcome)
      modifies this
      ensures (State(), o) == RemoveSpec(old(State()), Ctx(), name, noKeyring, ans)
    {
      var p := OpenStore(Hooks.RemoveEntry, noKeyring, ans);
      if p.Err? {
        return Fail(p.error);
      }
      if name !in entries {
        return Fail(NotFound(name));
      }
      entries := entries - {name};
      o := CommitStore(Hooks.RemoveEntry, p.value, ans);
    }
  }
}
