/** What the commands promise: the order of their milestones, what they write
    to disk and when, and how each one changes the entry map. */
module CommandLaws {
  import opened Errors
  import opened Paths
  import opened Utilities
  import opened Entries
  import Hooks
  import opened Commands

  /** The milestones of `new_entry`, `edit` and `remove` when all goes well. */
  const MutationScript: seq<Step> := [HookCalled(Hooks.PreLoad), PassphraseRead, Loaded, Saved, HookCalled(Hooks.PostSave)]

  /** The milestones of opening the store, and so of `show` and `list`. */
  const ReadScript: seq<Step> := [HookCalled(Hooks.PreLoad), PassphraseRead, Loaded]

  const CommitScript: seq<Step> := [Saved, HookCalled(Hooks.PostSave)]

  /** The milestones of `init` when it creates the store. */
  const InitScript: seq<Step> := [FileCreated, PassphraseRead, Saved]

  ghost predicate Extends(before: World, after: World)
  {
    |before.trace| <= |after.trace| && after.trace[..|before.trace|] == before.trace
  }

  /** The milestones added are the first ones of `script`, in its order. */
  ghost predicate Follows(before: World, after: World, script: seq<Step>)
  {
    Extends(before, after) && after.trace[|before.trace|..] <= script
  }

  /** The files change only by a completed save, and that save wrote the
      encrypted entry map, as it stands at the end, to the entries file. */
  ghost predicate WrittenAs(before: World, after: World, ctx: Context, p: Result<string>)
    requires Extends(before, after)
  {
    && (Saved !in after.trace[|before.trace|..] ==> after.files == before.files)
    && (Saved in after.trace[|before.trace|..] ==>
          && p.Ok? && EntriesFile(ctx.env).Ok?
          && Encode(Storage(after.entries), p.value, ctx.cipher, ctx.format).Ok?
          && after.files == before.files[EntriesFile(ctx.env).value := Encode(Storage(after.entries), p.value, ctx.cipher, ctx.format).value])
  }

  // ---------------------------------------------------------------------
  // The shared start and end.

  lemma FollowsWith(w: World, x: World, added: seq<Step>, script: seq<Step>)
    requires added <= script && x.trace == w.trace + added
    ensures Follows(w, x, script)
  {
    assert x.trace[..|w.trace|] == w.trace;
    assert x.trace[|w.trace|..] == added;
  }

  /** A hook step adds its milestone and echoed lines and changes nothing
      else. */
  lemma HookStepFrame(w: World, ctx: Context, hook: Hooks.Hook, event: Hooks.HookEvent, output: Hooks.ProcessOutput)
    ensures var w1 := HookStep(w, ctx, hook, event, output).0;
      && w1.trace == w.trace + [HookCalled(hook)]
      && w1.files == w.files && w1.dirs == w.dirs && w1.keyring == w.keyring
      && w1.clipboard == w.clipboard && w1.entries == w.entries
  {
  }

  lemma PassphraseStepFrame(w: World, noKeyring: bool, answer: Option<string>)
    ensures var w1 := PassphraseStep(w, noKeyring, answer).0;
      && w1.trace == w.trace + [PassphraseRead]
      && w1.files == w.files && w1.dirs == w.dirs && w1.clipboard == w.clipboard && w1.entries == w.entries
  {
  }

  lemma LoadStepFrame(w: World, ctx: Context, passphrase: string)
    ensures var (w1, loaded) := LoadStep(w, ctx, passphrase);
      && w1.trace == w.trace + [Loaded]
      && w1.files == w.files && w1.dirs == w.dirs && w1.clipboard == w.clipboard
      && (loaded.Pass? ==> (EntriesFile(ctx.env).Ok? &&
            Decode(Contents(w, EntriesFile(ctx.env).value), passphrase, ctx.cipher, ctx.format) == Ok(Storage(w1.entries))))
  {
  }

  /** Opening runs the pre_load hook, then resolves the passphrase, then loads,
      stopping at the first failure; it changes no file, directory or
      clipboard, and on success the map in memory is the decoded file. */
  lemma OpenFacts(w: World, ctx: Context, event: Hooks.HookEvent, noKeyring: bool, ans: Answers)
    ensures var (o, p) := OpenStep(w, ctx, event, noKeyring, ans);
      && o.files == w.files && o.dirs == w.dirs && o.clipboard == w.clipboard
      && Follows(w, o, ReadScript)
      && (p.Ok? ==> o.trace == w.trace + ReadScript)
      && (p.Ok? ==> (EntriesFile(ctx.env).Ok? &&
            Decode(Contents(w, EntriesFile(ctx.env).value), p.value, ctx.cipher, ctx.format) == Ok(Storage(o.entries))))
  {
    OpenTrace(w, ctx, event, noKeyring, ans);
    OpenLoad(w, ctx, event, noKeyring, ans);
  }

  lemma OpenTrace(w: World, ctx: Context, event: Hooks.HookEvent, noKeyring: bool, ans: Answers)
    ensures var (o, p) := OpenStep(w, ctx, event, noKeyring, ans);
      && Follows(w, o, ReadScript)
      && (p.Ok? ==> o.trace == w.trace + ReadScript)
  {
    var (o, p) := OpenStep(w, ctx, event, noKeyring, ans);
    var (w1, hooked) := HookStep(w, ctx, Hooks.PreLoad, event, ans.preLoad);
    HookStepFrame(w, ctx, Hooks.PreLoad, event, ans.preLoad);
    ReadPrefixes(w.trace);
    if hooked.Fail? {
      FollowsWith(w, o, ReadScript[..1], ReadScript);
    } else {
      var (w2, q) := PassphraseStep(w1, noKeyring, ans.passphrase);
      PassphraseStepFrame(w1, noKeyring, ans.passphrase);
      if q.Err? {
        FollowsWith(w, o, ReadScript[..2], ReadScript);
      } else {
        LoadStepFrame(w2, ctx, q.value);
        FollowsWith(w, o, ReadScript, ReadScript);
      }
    }
  }

  /** The milestones of opening, one step at a time. */
  lemma ReadPrefixes(t: seq<Step>)
    ensures t + [HookCalled(Hooks.PreLoad)] == t + ReadScript[..1]
    ensures t + ReadScript[..1] + [PassphraseRead] == t + ReadScript[..2]
    ensures t + ReadScript[..2] + [Loaded] == t + ReadScript
    ensures ReadScript[..1] <= ReadScript && ReadScript[..2] <= ReadScript
  {
    assert ReadScript[..1] == [HookCalled(Hooks.PreLoad)];
    assert ReadScript[..2] == [HookCalled(Hooks.PreLoad), PassphraseRead];
  }

  lemma OpenLoad(w: World, ctx: Context, event: Hooks.HookEvent, noKeyring: bool, ans: Answers)
    ensures var (o, p) := OpenStep(w, ctx, event, noKeyring, ans);
      && o.files == w.files && o.dirs == w.dirs && o.clipboard == w.clipboard
      && (p.Ok? ==> (EntriesFile(ctx.env).Ok? &&
            Decode(Contents(w, EntriesFile(ctx.env).value), p.value, ctx.cipher, ctx.format) == Ok(Storage(o.entries))))
  {
    var (w1, hooked) := HookStep(w, ctx, Hooks.PreLoad, event, ans.preLoad);
    HookStepFrame(w, ctx, Hooks.PreLoad, event, ans.preLoad);
    if hooked.Pass? {
      var (w2, q) := PassphraseStep(w1, noKeyring, ans.passphrase);
      PassphraseStepFrame(w1, noKeyring, ans.passphrase);
      if q.Ok? {
        LoadStepFrame(w2, ctx, q.value);
        assert Contents(w2, EntriesFile(ctx.env).value) == Contents(w, EntriesFile(ctx.env).value);
      }
    }
  }

  /** Committing saves, then runs the post_save hook only if the save
      succeeded; the map in memory is what was written. */
  lemma CommitFacts(w: World, ctx: Context, event: Hooks.HookEvent, passphrase: string, ans: Answers)
    ensures var (c, r) := CommitStep(w, ctx, event, passphrase, ans);
      && c.entries == w.entries && c.dirs == w.dirs && c.keyring == w.keyring && c.clipboard == w.clipboard
      && Follows(w, c, CommitScript)
      && WrittenAs(w, c, ctx, Ok(passphrase))
      && (r.Pass? ==> c.trace == w.trace + CommitScript)
  {
    var (w1, saved) := SaveStep(w, ctx, passphrase);
    if saved.Pass? {
      assert w1.trace[|w.trace|..] == [Saved];
      assert w1.trace == w.trace + [Saved];
      assert CommitStep(w, ctx, event, passphrase, ans).0.trace == w.trace + CommitScript;
    } else {
      assert w1.trace[|w.trace|..] == [];
    }
  }

  /** A run that stopped before committing wrote nothing. */
  lemma StoppedEarly(w: World, x: World, ctx: Context, p: Result<string>)
    requires Follows(w, x, ReadScript) && x.files == w.files
    ensures Follows(w, x, MutationScript) && WrittenAs(w, x, ctx, p)
  {
    var s := x.trace[|w.trace|..];
    assert s <= ReadScript;
    assert forall i :: 0 <= i < |s| ==> s[i] == ReadScript[i];
    assert Saved !in s;
  }

  /** Reading and then committing is the whole mutation script. */
  lemma Composed(t: seq<Step>)
    ensures t + ReadScript + CommitScript == t + MutationScript
  {
    assert ReadScript + CommitScript == MutationScript;
  }

  /** A run that opened the store, changed only the map and committed. */
  lemma OpenedThenCommitted(w: World, m: World, c: World, ctx: Context, p: Result<string>)
    requires m.trace == w.trace + ReadScript && m.files == w.files
    requires Follows(m, c, CommitScript) && WrittenAs(m, c, ctx, p)
    ensures Follows(w, c, MutationScript) && WrittenAs(w, c, ctx, p)
    ensures c.trace[|w.trace|..] == ReadScript + c.trace[|m.trace|..]
  {
    assert c.trace[..|m.trace|] == m.trace;
    assert c.trace[|w.trace|..] == ReadScript + c.trace[|m.trace|..] by {
      assert c.trace == m.trace + c.trace[|m.trace|..];
    }
    assert Saved !in ReadScript;
  }

  // ---------------------------------------------------------------------
  // Milestone order and writes of each command.

  /** What follows the load in `new_entry`, `edit` and `remove`: either it
      stops with no milestone and no write, or it commits. */
  ghost predicate CommitsOrStops(m: World, c: World, ctx: Context, passphrase: string)
  {
    Follows(m, c, CommitScript) && WrittenAs(m, c, ctx, Ok(passphrase))
  }

  lemma StopsHere(m: World, c: World, ctx: Context, passphrase: string)
    requires c.trace == m.trace && c.files == m.files
    ensures CommitsOrStops(m, c, ctx, passphrase)
  {
    FollowsWith(m, c, [], CommitScript);
  }

  /** The edited entry: the given user name and URL or else the old ones, and
      the old password with `noPrompt` or else the typed one. */
  function Edited(previous: Entry, username: Option<string>, url: Option<string>, noPrompt: bool, typed: Option<string>): Entry
    requires noPrompt || typed.Some?
  {
    Entry(if noPrompt then previous.password else typed.value,
          if username.Some? then username else previous.username,
          if url.Some? then url else previous.url)
  }

  /** Storing a new entry: the password prompt comes first, then the commit
      of the map with exactly that name set. */
  lemma NewEntryStoreFacts(m: World, ctx: Context, name: string, username: Option<string>, url: Option<string>,
                           passphrase: string, ans: Answers)
    ensures var (c, r) := NewEntryStore(m, ctx, name, username, url, passphrase, ans);
      && CommitsOrStops(m, c, ctx, passphrase)
      && (r.Pass? ==> c.trace == m.trace + CommitScript)
      && |c.stdout| > |m.stdout| && c.stdout[..|m.stdout|] == m.stdout && c.stdout[|m.stdout|] == PasswordPrompt(name)
      && (ans.password.Some? ==> c.entries == m.entries[name := Entry(ans.password.value, username, url)])
  {
    var (m1, password) := PasswordStep(m, name, ans.password);
    if password.Err? {
      StopsHere(m, m1, ctx, passphrase);
    } else {
      var m2 := m1.(entries := m1.entries[name := Entry(password.value, username, url)]);
      CommitFacts(m2, ctx, Hooks.NewEntry, passphrase, ans);
      StdoutGrows(m2, ctx, Hooks.NewEntry, passphrase, ans);
    }
  }

  lemma NewEntryLoadedFacts(m: World, ctx: Context, name: string, username: Option<string>, url: Option<string>,
                            passphrase: string, ans: Answers)
    ensures var (c, r) := NewEntryLoaded(m, ctx, name, username, url, passphrase, ans);
      && CommitsOrStops(m, c, ctx, passphrase)
      && (r.Pass? ==> (c.trace == m.trace + CommitScript || (c.trace == m.trace && name in m.entries)))
  {
    if name in m.entries {
      var (m1, yes) := ConfirmStep(m, name, ans.confirm);
      if yes.Err? || !yes.value {
        StopsHere(m, m1, ctx, passphrase);
      } else {
        NewEntryStoreFacts(m1, ctx, name, username, url, passphrase, ans);
      }
    } else {
      NewEntryStoreFacts(m, ctx, name, username, url, passphrase, ans);
    }
  }

  lemma EditStoreFacts(m: World, ctx: Context, name: string, previous: Entry, username: Option<string>, url: Option<string>,
                       noPrompt: bool, passphrase: string, ans: Answers)
    ensures var (c, r) := EditStore(m, ctx, name, previous, username, url, noPrompt, passphrase, ans);
      && CommitsOrStops(m, c, ctx, passphrase)
      && (r.Pass? ==> c.trace == m.trace + CommitScript)
      && |c.stdout| >= |m.stdout| && c.stdout[..|m.stdout|] == m.stdout
      && (noPrompt || ans.password.Some? ==> c.entries == m.entries[name := Edited(previous, username, url, noPrompt, ans.password)])
  {
    var (m1, password) := if noPrompt then (m, Ok(previous.password)) else PasswordStep(m, name, ans.password);
    if password.Err? {
      StopsHere(m, m1, ctx, passphrase);
    } else {
      var m2 := m1.(entries := m1.entries[name := Edited(previous, username, url, noPrompt, ans.password)]);
      CommitFacts(m2, ctx, Hooks.EditEntry, passphrase, ans);
      StdoutGrows(m2, ctx, Hooks.EditEntry, passphrase, ans);
    }
  }

  lemma EditLoadedFacts(m: World, ctx: Context, entryName: string, newName: Option<string>,
                        username: Option<string>, url: Option<string>, noPrompt: bool, passphrase: string, ans: Answers)
    ensures var (c, r) := EditLoaded(m, ctx, entryName, newName, username, url, noPrompt, passphrase, ans);
      && CommitsOrStops(m, c, ctx, passphrase)
      && (r.Pass? ==> (c.trace == m.trace + CommitScript ||
            (c.trace == m.trace && newName.Some? && newName.value != entryName && newName.value in m.entries)))
  {
    if entryName !in m.entries {
      StopsHere(m, m, ctx, passphrase);
    } else {
      var previous := m.entries[entryName];
      var m1 := m.(entries := m.entries - {entryName});
      if newName.Some? && newName.value != entryName && newName.value in m1.entries {
        var (m2, yes) := ConfirmStep(m1, newName.value, ans.confirm);
        if yes.Err? || !yes.value {
          StopsHere(m, m2, ctx, passphrase);
        } else {
          EditStoreFacts(m2.(entries := m2.entries - {newName.value}), ctx, newName.value, previous, username, url, noPrompt, passphrase, ans);
        }
      } else {
        var name := if newName.Some? then newName.value else entryName;
        EditStoreFacts(m1, ctx, name, previous, username, url, noPrompt, passphrase, ans);
      }
    }
  }

  /** `new_entry` runs pre_load before the passphrase and the load, saves only
      after that, and runs post_save only after a completed save; the only
      file it writes is the entries file, with the final map. A success
      without a save is a declined overwrite. */
  lemma NewEntryDiscipline(w: World, ctx: Context, name: string, username: Option<string>, url: Option<string>,
                           noKeyring: bool, ans: Answers)
    ensures var (w', r) := NewEntrySpec(w, ctx, name, username, url, noKeyring, ans);
      var (o, p) := OpenStep(w, ctx, Hooks.NewEntry, noKeyring, ans);
      && Follows(w, w', MutationScript) && WrittenAs(w, w', ctx, p)
      && (r.Pass? ==> (w'.trace == w.trace + MutationScript || (w'.trace == w.trace + ReadScript && name in o.entries)))
  {
    var (o, p) := OpenStep(w, ctx, Hooks.NewEntry, noKeyring, ans);
    OpenFacts(w, ctx, Hooks.NewEntry, noKeyring, ans);
    if p.Err? {
      StoppedEarly(w, o, ctx, p);
    } else {
      NewEntryLoadedFacts(o, ctx, name, username, url, p.value, ans);
      var (c, r) := NewEntryLoaded(o, ctx, name, username, url, p.value, ans);
      OpenedThenCommitted(w, o, c, ctx, p);
      Composed(w.trace);
    }
  }

  /** `edit` keeps the same order and write discipline; a success without a
      save is a declined rename onto another existing name. */
  lemma EditDiscipline(w: World, ctx: Context, entryName: string, newName: Option<string>,
                       username: Option<string>, url: Option<string>, noPrompt: bool, noKeyring: bool, ans: Answers)
    ensures var (w', r) := EditSpec(w, ctx, entryName, newName, username, url, noPrompt, noKeyring, ans);
      var (o, p) := OpenStep(w, ctx, Hooks.EditEntry, noKeyring, ans);
      && Follows(w, w', MutationScript) && WrittenAs(w, w', ctx, p)
      && (r.Pass? ==> (w'.trace == w.trace + MutationScript ||
            (w'.trace == w.trace + ReadScript && newName.Some? && newName.value != entryName && newName.value in o.entries)))
  {
    var (o, p) := OpenStep(w, ctx, Hooks.EditEntry, noKeyring, ans);
    OpenFacts(w, ctx, Hooks.EditEntry, noKeyring, ans);
    if p.Err? {
      StoppedEarly(w, o, ctx, p);
    } else {
      EditLoadedFacts(o, ctx, entryName, newName, username, url, noPrompt, p.value, ans);
      var (c, r) := EditLoaded(o, ctx, entryName, newName, username, url, noPrompt, p.value, ans);
      OpenedThenCommitted(w, o, c, ctx, p);
      Composed(w.trace);
    }
  }

  /** `remove` keeps the same order and write discipline, and a success always
      saved. */
  lemma RemoveDiscipline(w: World, ctx: Context, name: string, noKeyring: bool, ans: Answers)
    ensures var (w', r) := RemoveSpec(w, ctx, name, noKeyring, ans);
      var (o, p) := OpenStep(w, ctx, Hooks.RemoveEntry, noKeyring, ans);
      && Follows(w, w', MutationScript) && WrittenAs(w, w', ctx, p)
      && (r.Pass? ==> w'.trace == w.trace + MutationScript)
  {
    var (o, p) := OpenStep(w, ctx, Hooks.RemoveEntry, noKeyring, ans);
    var (c, r) := RemoveSpec(w, ctx, name, noKeyring, ans);
    OpenFacts(w, ctx, Hooks.RemoveEntry, noKeyring, ans);
    if p.Err? {
      assert c == o;
      StoppedEarly(w, o, ctx, p);
    } else {
      assert (c, r) == RemoveLoaded(o, ctx, name, p.value, ans);
      RemoveLoadedFacts(o, ctx, name, p.value, ans);
      OpenedThenCommitted(w, o, c, ctx, p);
      Composed(w.trace);
    }
  }

  lemma RemoveLoadedFacts(m: World, ctx: Context, name: string, passphrase: string, ans: Answers)
    ensures var (c, r) := RemoveLoaded(m, ctx, name, passphrase, ans);
      && CommitsOrStops(m, c, ctx, passphrase)
      && (r.Pass? ==> c.trace == m.trace + CommitScript)
      && (name in m.entries ==> c.entries == m.entries - {name})
      && (name !in m.entries ==> r == Fail(NotFound(name)) && c == m)
  {
    if name !in m.entries {
      StopsHere(m, m, ctx, passphrase);
    } else {
      CommitFacts(m.(entries := m.entries - {name}), ctx, Hooks.RemoveEntry, passphrase, ans);
    }
  }

  /** A completed save can be loaded back, with the same passphrase, as the
      map the command ended with. */
  lemma ReloadAfterWrite(before: World, after: World, ctx: Context, p: Result<string>)
    requires Extends(before, after) && WrittenAs(before, after, ctx, p)
    requires Saved in after.trace[|before.trace|..]
    requires CipherRoundTrips(ctx.cipher) && FormatRoundTrips(ctx.format)
    ensures p.Ok? && LoadStep(after, ctx, p.value) == (after.(trace := after.trace + [Loaded]), Pass)
  {
    LoadAfterSave(Storage(after.entries), p.value, ctx.cipher, ctx.format);
  }

  // ---------------------------------------------------------------------
  // How each command changes the entry map.

  lemma StdoutGrows(w: World, ctx: Context, event: Hooks.HookEvent, passphrase: string, ans: Answers)
    ensures var c := CommitStep(w, ctx, event, passphrase, ans).0;
      |c.stdout| >= |w.stdout| && c.stdout[..|w.stdout|] == w.stdout
  {
  }

  /** `new_entry` under a new name adds exactly that name, with the typed
      password and the given user name and URL, without asking to overwrite. */
  lemma NewEntryOnAbsentName(w: World, ctx: Context, name: string, username: Option<string>, url: Option<string>,
                             noKeyring: bool, ans: Answers)
    requires OpenStep(w, ctx, Hooks.NewEntry, noKeyring, ans).1.Ok?
    requires name !in OpenStep(w, ctx, Hooks.NewEntry, noKeyring, ans).0.entries
    requires ans.password.Some?
    ensures var (w', r) := NewEntrySpec(w, ctx, name, username, url, noKeyring, ans);
      var o := OpenStep(w, ctx, Hooks.NewEntry, noKeyring, ans).0;
      && w'.entries == o.entries[name := Entry(ans.password.value, username, url)]
      && w'.entries.Keys == o.entries.Keys + {name}
      && |w'.stdout| > |o.stdout| && w'.stdout[|o.stdout|] == PasswordPrompt(name)
  {
    var (o, p) := OpenStep(w, ctx, Hooks.NewEntry, noKeyring, ans);
    NewEntryStoreFacts(o, ctx, name, username, url, p.value, ans);
  }

  /** `new_entry` under a taken name asks first; a confirmed overwrite replaces
      that one entry and leaves the set of names as it was. Stated for the
      world `m` right after the load. */
  lemma NewEntryOverwriteAccepted(m: World, ctx: Context, name: string, username: Option<string>, url: Option<string>,
                                  passphrase: string, ans: Answers)
    requires name in m.entries
    requires ans.confirm.Some? && Accepts(Trim(ans.confirm.value)) && ans.password.Some?
    ensures var (c, r) := NewEntryLoaded(m, ctx, name, username, url, passphrase, ans);
      && c.entries == m.entries[name := Entry(ans.password.value, username, url)]
      && c.entries.Keys == m.entries.Keys
      && |c.stdout| > |m.stdout| + 1
      && c.stdout[|m.stdout|] == OverwritePrompt(name) && c.stdout[|m.stdout| + 1] == PasswordPrompt(name)
  {
    var m1 := ConfirmStep(m, name, ans.confirm).0;
    assert m1.stdout == m.stdout + [OverwritePrompt(name)];
    NewEntryStoreFacts(m1, ctx, name, username, url, passphrase, ans);
    var c := NewEntryStore(m1, ctx, name, username, url, passphrase, ans).0;
    assert c.stdout[|m.stdout|] == c.stdout[..|m1.stdout|][|m.stdout|];
  }

  /** A declined overwrite is a success that saves nothing, runs no post_save
      hook, asks for no password and leaves the stored entry as it was. */
  lemma NewEntryOverwriteDeclined(w: World, ctx: Context, name: string, username: Option<string>, url: Option<string>,
                                  noKeyring: bool, ans: Answers)
    requires OpenStep(w, ctx, Hooks.NewEntry, noKeyring, ans).1.Ok?
    requires name in OpenStep(w, ctx, Hooks.NewEntry, noKeyring, ans).0.entries
    requires ans.confirm.Some? && !Accepts(Trim(ans.confirm.value))
    ensures var (w', r) := NewEntrySpec(w, ctx, name, username, url, noKeyring, ans);
      var o := OpenStep(w, ctx, Hooks.NewEntry, noKeyring, ans).0;
      && r == Pass
      && w'.files == w.files
      && w'.trace == w.trace + ReadScript
      && w'.entries == o.entries
      && w'.stdout == o.stdout + [OverwritePrompt(name)]
  {
    OpenFacts(w, ctx, Hooks.NewEntry, noKeyring, ans);
  }

  /** `edit` of a name that is not there fails with NotFound and does nothing
      after the load. */
  lemma EditMissing(w: World, ctx: Context, entryName: string, newName: Option<string>,
                    username: Option<string>, url: Option<string>, noPrompt: bool, noKeyring: bool, ans: Answers)
    requires OpenStep(w, ctx, Hooks.EditEntry, noKeyring, ans).1.Ok?
    requires entryName !in OpenStep(w, ctx, Hooks.EditEntry, noKeyring, ans).0.entries
    ensures var (w', r) := EditSpec(w, ctx, entryName, newName, username, url, noPrompt, noKeyring, ans);
      && r == Fail(NotFound(entryName))
      && w' == OpenStep(w, ctx, Hooks.EditEntry, noKeyring, ans).0
      && w'.files == w.files
      && Saved !in w'.trace[|w.trace|..]
  {
    OpenFacts(w, ctx, Hooks.EditEntry, noKeyring, ans);
  }

  /** `edit` without a new name, or with its own name as the new one, replaces
      the entry in place. Stated for the world `m` right after the load. */
  lemma EditInPlace(m: World, ctx: Context, entryName: string, newName: Option<string>,
                    username: Option<string>, url: Option<string>, noPrompt: bool, passphrase: string, ans: Answers)
    requires newName.None? || newName == Some(entryName)
    requires entryName in m.entries
    requires noPrompt || ans.password.Some?
    ensures var (c, r) := EditLoaded(m, ctx, entryName, newName, username, url, noPrompt, passphrase, ans);
      var e := Edited(m.entries[entryName], username, url, noPrompt, ans.password);
      && c.entries == m.entries[entryName := e]
      && c.entries.Keys == m.entries.Keys
  {
    var previous := m.entries[entryName];
    var e := Edited(previous, username, url, noPrompt, ans.password);
    EditStoreFacts(m.(entries := m.entries - {entryName}), ctx, entryName, previous, username, url, noPrompt, passphrase, ans);
    PutBack(m.entries, entryName, e);
  }

  lemma PutBack(entries: map<string, Entry>, name: string, e: Entry)
    ensures (entries - {name})[name := e] == entries[name := e]
  {
  }

  lemma RenameOnto(entries: map<string, Entry>, from: string, to: string, e: Entry)
    requires from != to && from in entries && to in entries
    ensures (entries - {from} - {to})[to := e] == (entries - {from})[to := e]
    ensures from !in (entries - {from})[to := e] && to in (entries - {from})[to := e]
    ensures |(entries - {from})[to := e]| == |entries| - 1
  {
    assert (entries - {from})[to := e].Keys == entries.Keys - {from};
  }

  /** Renaming onto a free name moves the entry: the old name is gone, the new
      one holds the edited entry, and every other entry stays. */
  lemma EditRenameToFreeName(w: World, ctx: Context, entryName: string, nm: string,
                             username: Option<string>, url: Option<string>, noPrompt: bool, noKeyring: bool, ans: Answers)
    requires nm != entryName
    requires OpenStep(w, ctx, Hooks.EditEntry, noKeyring, ans).1.Ok?
    requires entryName in OpenStep(w, ctx, Hooks.EditEntry, noKeyring, ans).0.entries
    requires nm !in OpenStep(w, ctx, Hooks.EditEntry, noKeyring, ans).0.entries
    requires noPrompt || ans.password.Some?
    ensures var (w', r) := EditSpec(w, ctx, entryName, Some(nm), username, url, noPrompt, noKeyring, ans);
      var o := OpenStep(w, ctx, Hooks.EditEntry, noKeyring, ans).0;
      var e := Edited(o.entries[entryName], username, url, noPrompt, ans.password);
      && w'.entries == (o.entries - {entryName})[nm := e]
      && w'.entries.Keys == o.entries.Keys - {entryName} + {nm}
  {
    var (o, p) := OpenStep(w, ctx, Hooks.EditEntry, noKeyring, ans);
    EditStoreFacts(o.(entries := o.entries - {entryName}), ctx, nm, o.entries[entryName], username, url, noPrompt, p.value, ans);
  }

  /** Renaming onto another existing name asks first; when confirmed, that
      entry is replaced, the old name is gone, and the map has one entry
      fewer. Stated for the world `m` right after the load. */
  lemma EditRenameCollisionAccepted(m: World, ctx: Context, entryName: string, nm: string,
                                    username: Option<string>, url: Option<string>, noPrompt: bool, passphrase: string, ans: Answers)
    requires nm != entryName && entryName in m.entries && nm in m.entries
    requires ans.confirm.Some? && Accepts(Trim(ans.confirm.value))
    requires noPrompt || ans.password.Some?
    ensures var (c, r) := EditLoaded(m, ctx, entryName, Some(nm), username, url, noPrompt, passphrase, ans);
      var e := Edited(m.entries[entryName], username, url, noPrompt, ans.password);
      && c.entries == (m.entries - {entryName})[nm := e]
      && entryName !in c.entries && nm in c.entries
      && |c.entries| == |m.entries| - 1
      && |c.stdout| > |m.stdout| && c.stdout[|m.stdout|] == OverwritePrompt(nm)
  {
    var previous := m.entries[entryName];
    var e := Edited(previous, username, url, noPrompt, ans.password);
    var m3 := m.(entries := m.entries - {entryName} - {nm}, stdout := m.stdout + [OverwritePrompt(nm)]);
    CollisionConfirmed(m, ctx, entryName, nm, username, url, noPrompt, passphrase, ans);
    EditStoreFacts(m3, ctx, nm, previous, username, url, noPrompt, passphrase, ans);
    RenameOnto(m.entries, entryName, nm, e);
    var c := EditStore(m3, ctx, nm, previous, username, url, noPrompt, passphrase, ans).0;
    assert c.stdout[|m.stdout|] == c.stdout[..|m3.stdout|][|m.stdout|];
  }

  /** A confirmed rename onto a taken name stores the entry under that name,
      after the question, in the map without both names. */
  lemma CollisionConfirmed(m: World, ctx: Context, entryName: string, nm: string,
                           username: Option<string>, url: Option<string>, noPrompt: bool, passphrase: string, ans: Answers)
    requires nm != entryName && entryName in m.entries && nm in m.entries
    requires ans.confirm.Some? && Accepts(Trim(ans.confirm.value))
    ensures EditLoaded(m, ctx, entryName, Some(nm), username, url, noPrompt, passphrase, ans)
         == EditStore(m.(entries := m.entries - {entryName} - {nm}, stdout := m.stdout + [OverwritePrompt(nm)]),
                      ctx, nm, m.entries[entryName], username, url, noPrompt, passphrase, ans)
  {
    var m1 := m.(entries := m.entries - {entryName});
    assert nm in m1.entries;
    var (m2, yes) := ConfirmStep(m1, nm, ans.confirm);
    assert yes == Ok(true);
  }

  /** A declined rename onto another existing name is a success that saves
      nothing and runs no post_save hook. */
  lemma EditRenameCollisionDeclined(w: World, ctx: Context, entryName: string, nm: string,
                                    username: Option<string>, url: Option<string>, noPrompt: bool, noKeyring: bool, ans: Answers)
    requires nm != entryName
    requires OpenStep(w, ctx, Hooks.EditEntry, noKeyring, ans).1.Ok?
    requires entryName in OpenStep(w, ctx, Hooks.EditEntry, noKeyring, ans).0.entries
    requires nm in OpenStep(w, ctx, Hooks.EditEntry, noKeyring, ans).0.entries
    requires ans.confirm.Some? && !Accepts(Trim(ans.confirm.value))
    ensures var (w', r) := EditSpec(w, ctx, entryName, Some(nm), username, url, noPrompt, noKeyring, ans);
      && r == Pass && w'.files == w.files && w'.trace == w.trace + ReadScript
  {
    OpenFacts(w, ctx, Hooks.EditEntry, noKeyring, ans);
  }

  /** Giving an entry its own name as the new one is the same as giving no new
      name: there is never an overwrite question. */
  lemma EditSameNameNeverPrompts(w: World, ctx: Context, entryName: string,
                                 username: Option<string>, url: Option<string>, noPrompt: bool, noKeyring: bool, ans: Answers)
    ensures EditSpec(w, ctx, entryName, Some(entryName), username, url, noPrompt, noKeyring, ans)
         == EditSpec(w, ctx, entryName, None, username, url, noPrompt, noKeyring, ans)
  {
  }

  /** `remove` of a present name deletes only that name and saves. */
  lemma RemovePresent(w: World, ctx: Context, name: string, noKeyring: bool, ans: Answers)
    requires OpenStep(w, ctx, Hooks.RemoveEntry, noKeyring, ans).1.Ok?
    requires name in OpenStep(w, ctx, Hooks.RemoveEntry, noKeyring, ans).0.entries
    ensures var (w', r) := RemoveSpec(w, ctx, name, noKeyring, ans);
      var o := OpenStep(w, ctx, Hooks.RemoveEntry, noKeyring, ans).0;
      && w'.entries == o.entries - {name}
      && |w'.entries| == |o.entries| - 1
  {
    var (o, p) := OpenStep(w, ctx, Hooks.RemoveEntry, noKeyring, ans);
    RemoveLoadedFacts(o, ctx, name, p.value, ans);
  }

  /** `remove` of an absent name fails with NotFound and saves nothing. */
  lemma RemoveAbsent(w: World, ctx: Context, name: string, noKeyring: bool, ans: Answers)
    requires OpenStep(w, ctx, Hooks.RemoveEntry, noKeyring, ans).1.Ok?
    requires name !in OpenStep(w, ctx, Hooks.RemoveEntry, noKeyring, ans).0.entries
    ensures var (w', r) := RemoveSpec(w, ctx, name, noKeyring, ans);
      && r == Fail(NotFound(name)) && w'.files == w.files
      && w' == OpenStep(w, ctx, Hooks.RemoveEntry, noKeyring, ans).0
  {
    OpenFacts(w, ctx, Hooks.RemoveEntry, noKeyring, ans);
  }

  /** The value `show` reveals for an attribute, if any. */
  function Shown(e: Entry, attribute: Attribute): Option<string>
  {
    match attribute
    case Password => Some(e.password)
    case Username => e.username
    case Url => e.url
  }

  /** `show` writes nothing and saves nothing; a missing name fails with
      NotFound. For a present name it succeeds and reveals the password
      always, and the user name or URL only when the entry has one: on the
      terminal as one more line, or else on the clipboard. */
  lemma ShowIsReadOnly(w: World, ctx: Context, name: string, attribute: Attribute, onScreen: bool, noKeyring: bool, ans: Answers)
    ensures var (w', r) := ShowSpec(w, ctx, name, attribute, onScreen, noKeyring, ans);
      var (o, p) := OpenStep(w, ctx, Hooks.ShowEntry, noKeyring, ans);
      && w'.files == w.files && w'.dirs == w.dirs && w'.entries == o.entries && w'.keyring == o.keyring
      && Follows(w, w', ReadScript)
      && (p.Ok? && name !in o.entries ==> r == Fail(NotFound(name)) && w' == o)
      && (p.Ok? && name in o.entries ==>
            var v := Shown(o.entries[name], attribute);
            && r == Pass
            && (attribute == Password ==> v == Some(o.entries[name].password))
            && w'.stdout == o.stdout + (if onScreen && v.Some? then [v.value] else [])
            && w'.clipboard == (if !onScreen && v.Some? then v else o.clipboard))
  {
    var (o, p) := OpenStep(w, ctx, Hooks.ShowEntry, noKeyring, ans);
    OpenFacts(w, ctx, Hooks.ShowEntry, noKeyring, ans);
    if p.Ok? {
      ShowLoadedFacts(o, name, attribute, onScreen);
    }
  }

  lemma ShowLoadedFacts(m: World, name: string, attribute: Attribute, onScreen: bool)
    ensures var (c, r) := ShowLoaded(m, name, attribute, onScreen);
      && c == m.(stdout := c.stdout, clipboard := c.clipboard)
      && (name !in m.entries ==> r == Fail(NotFound(name)) && c == m)
      && (name in m.entries ==>
            var v := Shown(m.entries[name], attribute);
            && r == Pass
            && c.stdout == m.stdout + (if onScreen && v.Some? then [v.value] else [])
            && c.clipboard == (if !onScreen && v.Some? then v else m.clipboard))
  {
  }

  /** `list` prints nothing but the names after opening the store. */
  lemma ListedNamesOnly(before: World, after: World)
    requires Listed(before, after)
    ensures after.files == before.files && after.entries == before.entries && after.trace == before.trace
    ensures forall i :: |before.stdout| <= i < |after.stdout| ==> after.stdout[i] in before.entries
    ensures |after.stdout| == |before.stdout| + |before.entries|
  {
    var printed := after.stdout[|before.stdout|..];
    forall i | |before.stdout| <= i < |after.stdout| ensures after.stdout[i] in before.entries {
      assert after.stdout[i] == printed[i - |before.stdout|];
    }
  }

  // ---------------------------------------------------------------------
  // Initialisation.

  /** With the entries file already there, `init` says so and does nothing
      else: no passphrase is asked and no file is written. */
  lemma InitWhenPresent(w: World, ctx: Context, noKeyring: bool, ans: Answers)
    requires EntriesFile(ctx.env).Ok? && EntriesFile(ctx.env).value in Existing(w)
    ensures var (w', r) := InitSpec(w, ctx, noKeyring, ans);
      var path := EntriesFile(ctx.env).value;
      && r == Pass && w'.files == w.files && w'.keyring == w.keyring && w'.trace == w.trace
      && w'.stdout == w.stdout + ["Entries file " + path + " already exists"]
  {
  }

  /** Without it, `init` creates the storage folder and a zero-length entries
      file, then asks for the passphrase and saves the empty table over it;
      no other file is touched. */
  lemma InitWhenAbsent(w: World, ctx: Context, noKeyring: bool, ans: Answers)
    requires EntriesFile(ctx.env).Ok? && EntriesFile(ctx.env).value !in Existing(w)
    ensures var (w', r) := InitSpec(w, ctx, noKeyring, ans);
      var path := EntriesFile(ctx.env).value;
      var p := PassphraseStep(w, noKeyring, ans.passphrase).1;
      && StorageDir(ctx.env).value in w'.dirs
      && Follows(w, w', InitScript) && w'.trace[|w.trace|..][0] == FileCreated
      && |w'.stdout| > |w.stdout| && w'.stdout[|w.stdout|] == "Created entries file " + path
      && path in w'.files
      && (Saved !in w'.trace[|w.trace|..] ==> w'.files == w.files[path := []])
      && (Saved in w'.trace[|w.trace|..] ==>
            && p.Ok? && ctx.format.parse("").Some?
            && Encode(ctx.format.parse("").value, p.value, ctx.cipher, ctx.format).Ok?
            && w'.files == w.files[path := Encode(ctx.format.parse("").value, p.value, ctx.cipher, ctx.format).value])
      && (r.Pass? ==> Saved in w'.trace[|w.trace|..])
  {
    var (w', r) := InitSpec(w, ctx, noKeyring, ans);
    var path := EntriesFile(ctx.env).value;
    var w1 := w.(dirs := w.dirs + {StorageDir(ctx.env).value});
    var w2 := w1.(files := w1.files[path := []], stdout := w1.stdout + ["Created entries file " + path],
                  trace := w1.trace + [FileCreated]);
    var (w3, p) := PassphraseStep(w2, noKeyring, ans.passphrase);
    PassphraseStepFrame(w2, noKeyring, ans.passphrase);
    InitPrefixes(w.trace);
    assert p == PassphraseStep(w, noKeyring, ans.passphrase).1;
    if p.Ok? && ctx.format.parse("").Some? {
      var s := ctx.format.parse("").value;
      assert Storage(s.entries) == s;
      var w4 := w3.(entries := s.entries);
      if SaveStep(w4, ctx, p.value).1.Pass? {
        FollowsWith(w, w', InitScript, InitScript);
      } else {
        FollowsWith(w, w', InitScript[..2], InitScript);
      }
    } else {
      FollowsWith(w, w', InitScript[..2], InitScript);
    }
  }

  /** The milestones of `init`, one step at a time. */
  lemma InitPrefixes(t: seq<Step>)
    ensures t + [FileCreated] + [PassphraseRead] == t + InitScript[..2]
    ensures t + InitScript[..2] + [Saved] == t + InitScript
    ensures InitScript[..2] <= InitScript && InitScript[..2][0] == FileCreated && Saved !in InitScript[..2]
  {
    assert InitScript[..2] == [FileCreated, PassphraseRead];
  }

  /** An `init` that never reaches the save (stopped by a refused passphrase,
      a failing codec or a failing cipher after creating the file) leaves the
      zero-length sentinel, which loads as the empty store whatever the
      passphrase; a
      completed one, under a codec that parses the empty text as the empty
      table, leaves a file that loads with its passphrase as the empty store. */
  lemma InitThenLoad(w: World, ctx: Context, noKeyring: bool, ans: Answers, other: string)
    requires EntriesFile(ctx.env).Ok? && EntriesFile(ctx.env).value !in Existing(w)
    requires CipherRoundTrips(ctx.cipher) && FormatRoundTrips(ctx.format) && ctx.format.parse("") == Some(EmptyStorage)
    ensures var (w', r) := InitSpec(w, ctx, noKeyring, ans);
      var path := EntriesFile(ctx.env).value;
      var p := PassphraseStep(w, noKeyring, ans.passphrase).1;
      && (Saved !in w'.trace[|w.trace|..] ==> Decode(Contents(w', path), other, ctx.cipher, ctx.format) == Ok(EmptyStorage))
      && (r.Pass? ==> p.Ok? && Decode(Contents(w', path), p.value, ctx.cipher, ctx.format) == Ok(EmptyStorage))
  {
    InitWhenAbsent(w, ctx, noKeyring, ans);
    var (w', r) := InitSpec(w, ctx, noKeyring, ans);
    var p := PassphraseStep(w, noKeyring, ans.passphrase).1;
    if r.Pass? {
      LoadAfterSave(EmptyStorage, p.value, ctx.cipher, ctx.format);
    }
  }
}
