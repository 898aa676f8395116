/** Hooks: optional scripts in the hooks directory that run before the store
    is loaded and after it is saved, with the event name as their argument and
    their output echoed line by line. */
module Hooks {
  import opened Errors
  import opened Paths

  datatype Hook = PreLoad | PostSave

  datatype HookEvent = NewEntry | ListEntries | ShowEntry | EditEntry | RemoveEntry

  function HookName(h: Hook): string
  {
    match h
    case PreLoad => "pre_load"
    case PostSave => "post_save"
  }

  function EventName(e: HookEvent): string
  {
    match e
    case NewEntry => "new_entry"
    case ListEntries => "list_entries"
    case ShowEntry => "show_entry"
    case EditEntry => "edit_entry"
    case RemoveEntry => "remove_entry"
  }

  /** The two hooks have the script names "pre_load" and "post_save", and the
      five events five different argument strings. */
  lemma NamesAreDistinct()
    ensures HookName(PreLoad) == "pre_load" && HookName(PostSave) == "post_save"
    ensures forall a: Hook, b: Hook :: a != b ==> HookName(a) != HookName(b)
    ensures forall a: HookEvent, b: HookEvent :: a != b ==> EventName(a) != EventName(b)
  {
    forall a: HookEvent, b: HookEvent | a != b ensures EventName(a) != EventName(b) {
      assert EventName(a)[0] != EventName(b)[0];
    }
  }

  // ---------------------------------------------------------------------
  // Splitting captured output into lines, as `str::lines` does: lines end at
  // "\n" (a "\r" just before it is dropped too), and the last line need not
  // be terminated.

  /** The index of the first "\n" in `s`, or |s| when there is none. */
  function NewlineIndex(s: string): (k: nat)
    ensures k <= |s| && '\n' !in s[..k]
    ensures k < |s| ==> s[k] == '\n'
  {
    if s == [] || s[0] == '\n' then 0
    else
      var k := 1 + NewlineIndex(s[1..]);
      assert s[..k] == [s[0]] + s[1..][..k - 1];
      k
  }

  function StripCarriageReturn(line: string): string
  {
    if line != [] && line[|line| - 1] == '\r' then line[..|line| - 1] else line
  }

  function Lines(s: string): (r: seq<string>)
    ensures forall i :: 0 <= i < |r| ==> '\n' !in r[i]
    decreases |s|
  {
    if s == [] then []
    else
      var k := NewlineIndex(s);
      if k == |s| then [s]
      else
        var line := StripCarriageReturn(s[..k]);
        assert '\n' !in line by {
          if line != s[..k] { assert line == s[..k][..k - 1]; }
        }
        [line] + Lines(s[k + 1..])
  }

  /** The lines, each followed by a newline. */
  function Terminated(lines: seq<string>): string
  {
    if lines == [] then [] else lines[0] + "\n" + Terminated(lines[1..])
  }

  /** For output without carriage returns, the lines are the text itself: put
      back together with their newlines they give `s`, with one newline added
      when the last line was unterminated. */
  lemma {:induction false} LinesRebuild(s: string)
    requires '\r' !in s
    ensures Terminated(Lines(s)) == WithFinalNewline(s)
    decreases |s|
  {
    if s != [] {
      var k := NewlineIndex(s);
      if k == |s| {
        assert s[..k] == s;
        assert Lines(s) == [s];
        TerminatedCons(s, []);
      } else {
        var line, rest := s[..k], s[k + 1..];
        NoCarriageReturnIn(s, k);
        LinesRebuild(rest);
        TerminatedCons(line, Lines(rest));
        assert s == line + "\n" + rest;
        FinalNewlineAfter(line, rest);
      }
    }
  }

  /** `s` ending in a newline: itself if it is empty or already ends in one. */
  function WithFinalNewline(s: string): string
  {
    if s == [] || s[|s| - 1] == '\n' then s else s + "\n"
  }

  lemma FinalNewlineAfter(line: string, rest: string)
    ensures WithFinalNewline(line + "\n" + rest) == line + "\n" + WithFinalNewline(rest)
  {
    var s := line + "\n" + rest;
    if rest != [] {
      assert s[|s| - 1] == rest[|rest| - 1];
    }
  }

  lemma TerminatedCons(line: string, lines: seq<string>)
    ensures Terminated([line] + lines) == line + "\n" + Terminated(lines)
  {
    assert ([line] + lines)[1..] == lines;
  }

  /** Without carriage returns, the line before the first newline is kept
      whole and the rest has none either. */
  lemma NoCarriageReturnIn(s: string, k: nat)
    requires '\r' !in s && k == NewlineIndex(s) < |s|
    ensures Lines(s) == [s[..k]] + Lines(s[k + 1..])
    ensures '\r' !in s[k + 1..]
  {
    var line := s[..k];
    assert StripCarriageReturn(line) == line by {
      if line != [] { assert line[|line| - 1] == s[k - 1]; }
    }
    assert Lines(s) == [StripCarriageReturn(line)] + Lines(s[k + 1..]);

  }

  /** A line ended by "\r\n" loses both characters; a "\r" that does not
      precede a newline stays part of the line. */
  lemma CarriageReturns(line: string, rest: string)
    requires '\n' !in line
    ensures Lines(line + "\r\n" + rest) == [line] + Lines(rest)
    ensures Lines(line + "\r") == [line + "\r"]
  {
    var s := line + "\r\n" + rest;
    FirstNewline(line + "\r", rest);
    assert s == (line + "\r") + "\n" + rest;
    assert s[..|line| + 1] == line + "\r" && s[|line| + 2..] == rest;
    assert StripCarriageReturn(line + "\r") == line;
    var t := line + "\r";
    assert '\n' !in t;
    assert NewlineIndex(t) == |t|;
  }

  /** The first newline of `x + "\n" + y`, for `x` without one, ends `x`. */
  lemma {:induction false} FirstNewline(x: string, y: string)
    requires '\n' !in x
    ensures NewlineIndex(x + "\n" + y) == |x|
  {
    var s := x + "\n" + y;
    if x != [] {
      assert s[0] == x[0];
      assert s[1..] == x[1..] + "\n" + y;
      FirstNewline(x[1..], y);
    }
  }

  /** Each line echoed with the hook's name in front. */
  function Tagged(name: string, lines: seq<string>): (r: seq<string>)
    ensures |r| == |lines|
    ensures forall i :: 0 <= i < |lines| ==> r[i] == name + ": " + lines[i]
  {
    seq(|lines|, i requires 0 <= i < |lines| => name + ": " + lines[i])
  }

  // ---------------------------------------------------------------------
  // Running a hook.

  /** What the script process produced: each stream as text, None when it is
      not valid UTF-8, and whether it exited successfully; or NotSpawned when
      the process could not be started or waited for. */
  datatype ProcessOutput =
    | Finished(stdout: Option<string>, stderr: Option<string>, success: bool)
    | NotSpawned

  /** The program started, its arguments, and its working directory. */
  datatype Invocation = Invocation(program: string, args: seq<string>, cwd: string)

  /** The result of `run_hook`, the lines it echoed in order, and the process it
      started (None when it started none). */
  datatype HookRun = HookRun(outcome: Outcome, echoed: seq<string>, invocation: Option<Invocation>)

  function Banner(hook: Hook): string
  {
    "Running " + HookName(hook) + " hook"
  }

  /** The path of a hook's script, when the storage folder is known. */
  function ScriptPath(env: Env, hook: Hook): Result<string>
  {
    match HooksDir(env)
    case Err(e) => Err(e)
    case Ok(dir) => Ok(Join(dir, HookName(hook)))
  }

  /** The hook protocol. `existing` holds the paths that exist on disk;
      `output` is what the script process yields if it is started. */
  function HookSpec(hook: Hook, event: HookEvent, env: Env, existing: set<string>, output: ProcessOutput): HookRun
  {
    match ScriptPath(env, hook)
    case Err(e) => HookRun(Fail(e), [], None)
    case Ok(path) =>
      if path !in existing then HookRun(Pass, [], None)
      else
        var name := HookName(hook);
        match StorageDir(env)
        case Err(e) => HookRun(Fail(e), [Banner(hook)], None)
        case Ok(cwd) =>
          var inv := Some(Invocation(path, [EventName(event)], cwd));
          match output
          case NotSpawned => HookRun(Fail(SpawnFailed), [Banner(hook)], inv)
          case Finished(out, err, success) =>
            if out.None? || err.None? then HookRun(Fail(InvalidUtf8), [Banner(hook)], inv)
            else
              var echoed := [Banner(hook)] + Tagged(name, Lines(out.value)) + Tagged(name, Lines(err.value));
              HookRun(if success then Pass else Fail(HookFailed(name)), echoed, inv)
  }

  /** `run_hook`: look for the script, announce it, run it, echo its standard
      output and then its standard error line by line, and fail when it exited
      unsuccessfully. */
  method RunHook(hook: Hook, event: HookEvent, env: Env, existing: set<string>, output: ProcessOutput)
    returns (run: HookRun)
    ensures run == HookSpec(hook, event, env, existing, output)
  {
    var path := ScriptPath(env, hook);
    if path.Err? {
      return HookRun(Fail(path.error), [], None);
    }
    if path.value !in existing {
      return HookRun(Pass, [], None);
    }
    var name := HookName(hook);
    var echoed := [Banner(hook)];
    var cwd := StorageDir(env);
    if cwd.Err? {
      return HookRun(Fail(cwd.error), echoed, None);
    }
    var inv := Some(Invocation(path.value, [EventName(event)], cwd.value));
    if output.NotSpawned? {
      return HookRun(Fail(SpawnFailed), echoed, inv);
    }
    if output.stdout.None? || output.stderr.None? {
      return HookRun(Fail(InvalidUtf8), echoed, inv);
    }
    echoed := EchoLines(echoed, name, Lines(output.stdout.value));
    echoed := EchoLines(echoed, name, Lines(output.stderr.value));
    if !output.success {
      return HookRun(Fail(HookFailed(name)), echoed, inv);
    }
    return HookRun(Pass, echoed, inv);
  }

  /** Printing `lines` one by one, each tagged with `name`, after what has
      been printed so far. */
  method EchoLines(printed: seq<string>, name: string, lines: seq<string>) returns (r: seq<string>)
    ensures r == printed + Tagged(name, lines)
  {
    r := printed;
    for i := 0 to |lines|
      invariant r == printed + Tagged(name, lines[..i])
    {
      r := r + [name + ": " + lines[i]];
      assert Tagged(name, lines[..i + 1]) == Tagged(name, lines[..i]) + [name + ": " + lines[i]];
    }
    assert lines[..|lines|] == lines;
  }

  /** An absent script is a silent success: nothing is echoed, nothing runs. */
  lemma AbsentHookIsNoop(hook: Hook, event: HookEvent, env: Env, existing: set<string>, output: ProcessOutput)
    requires ScriptPath(env, hook).Ok? && ScriptPath(env, hook).value !in existing
    ensures HookSpec(hook, event, env, existing, output) == HookRun(Pass, [], None)
  {
  }

  /** A present script is started as `<hooks dir>/<hook name> <event name>` in
      the storage folder, and nothing else is ever started. */
  lemma HookInvocation(hook: Hook, event: HookEvent, env: Env, existing: set<string>, output: ProcessOutput)
    ensures var run := HookSpec(hook, event, env, existing, output);
      run.invocation.Some? ==>
        && run.invocation.value.program == Join(HooksDir(env).value, HookName(hook))
        && run.invocation.value.program in existing
        && run.invocation.value.args == [EventName(event)]
        && run.invocation.value.cwd == StorageDir(env).value
  {
  }

  /** The echo order of a script that ran with valid output: the banner, then
      every standard-output line tagged with the hook name, then every
      standard-error line the same way; and every line is echoed before an
      unsuccessful exit is reported as "<name> hook failed". */
  lemma EchoOrder(hook: Hook, event: HookEvent, env: Env, existing: set<string>, out: string, err: string, success: bool)
    requires ScriptPath(env, hook).Ok? && ScriptPath(env, hook).value in existing
    ensures var run := HookSpec(hook, event, env, existing, Finished(Some(out), Some(err), success));
      var name := HookName(hook);
      var o, e := Lines(out), Lines(err);
      && |run.echoed| == 1 + |o| + |e|
      && run.echoed[0] == "Running " + name + " hook"
      && (forall i :: 0 <= i < |o| ==> run.echoed[1 + i] == name + ": " + o[i])
      && run.echoed[1 + |o|..] == Tagged(name, e)
      && (run.outcome.Fail? <==> !success)
      && (!success ==> run.outcome.error == HookFailed(name) && Message(run.outcome.error) == Some(name + " hook failed"))
  {
    EchoedOnSuccess(hook, event, env, existing, out, err, success);
    TaggedEcho(Banner(hook), HookName(hook), Lines(out), Lines(err));
  }

  /** With valid output, what is echoed is the banner and both streams' tagged
      lines, and the outcome is the exit status. */
  lemma EchoedOnSuccess(hook: Hook, event: HookEvent, env: Env, existing: set<string>, out: string, err: string, success: bool)
    requires ScriptPath(env, hook).Ok? && ScriptPath(env, hook).value in existing
    ensures var run := HookSpec(hook, event, env, existing, Finished(Some(out), Some(err), success));
      && run.echoed == [Banner(hook)] + Tagged(HookName(hook), Lines(out)) + Tagged(HookName(hook), Lines(err))
      && run.outcome == (if success then Pass else Fail(HookFailed(HookName(hook))))
  {
  }

  lemma TaggedEcho(banner: string, name: string, o: seq<string>, e: seq<string>)
    ensures var echoed := [banner] + Tagged(name, o) + Tagged(name, e);
      && |echoed| == 1 + |o| + |e| && echoed[0] == banner
      && (forall i :: 0 <= i < |o| ==> echoed[1 + i] == name + ": " + o[i])
      && echoed[1 + |o|..] == Tagged(name, e)
  {
    var x, y := Tagged(name, o), Tagged(name, e);
    var echoed := [banner] + x + y;
    forall i | 0 <= i < |o| ensures echoed[1 + i] == name + ": " + o[i] {
      assert echoed[1 + i] == x[i];
    }
    assert echoed[1 + |o|..] == y;
  }

  /** Output that is not UTF-8 fails the hook before its exit status is looked
      at, and after only the banner has been echoed. */
  lemma InvalidOutputFailsFirst(hook: Hook, event: HookEvent, env: Env, existing: set<string>,
                                out: Option<string>, err: Option<string>, success: bool)
    requires ScriptPath(env, hook).Ok? && ScriptPath(env, hook).value in existing
    requires out.None? || err.None?
    ensures HookSpec(hook, event, env, existing, Finished(out, err, success)).outcome == Fail(InvalidUtf8)
    ensures HookSpec(hook, event, env, existing, Finished(out, err, success)).echoed == [Banner(hook)]
  {
  }
}
