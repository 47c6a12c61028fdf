/**
  The launcher's `main` (src/main.rs:77-140): update the toolchain, validate and load the
  manifest, install the application with cargo, spawn it. Every answer the operating
  system gives (spawning, waiting, the command line, the file system, the parsed
  manifest) is an input, `Env`; what the launcher does is a trace of `Event`s and an
  `Outcome`. Any failure goes through `expect_fancy` or `panic_fancy` and ends the run.
*/
module Launcher {
  import opened Wrappers
  import opened Panic
  import opened DebugFormat
  import Install

  // ---------------------------------------------------------------- platform and paths

  /** The target the launcher is compiled for (`cfg!(target_os = "windows")`). */
  datatype Platform = Windows | OtherOs

  /** `EXE_EXT`: the executable extension, without its dot. */
  function ExeExt(p: Platform): (e: string)
    ensures p == Windows ==> e == "exe"
    ensures p != Windows ==> e == ""
  {
    if p == Windows then "exe" else ""
  }

  /** `format!("{install_root}/bin/{}.{EXE_EXT}", name)`: the dot is written even when `EXE_EXT` is empty. */
  function AppPath(installRoot: string, name: string, p: Platform): string
  {
    installRoot + "/bin/" + name + "." + ExeExt(p)
  }

  /** The application is looked for in the `bin` directory of the install root, under its manifest name. */
  lemma AppPathLayout(installRoot: string, name: string, p: Platform)
    ensures var app := AppPath(installRoot, name, p);
      && app[..|installRoot| + 5] == installRoot + "/bin/"
      && app[|installRoot| + 5..|installRoot| + 5 + |name|] == name
      && app[|installRoot| + 5 + |name|..] == (if p == Windows then ".exe" else ".")
  {
    var app := AppPath(installRoot, name, p);
    assert app == (installRoot + "/bin/") + (name + ("." + ExeExt(p)));
  }

  /** Different applications under one install root never share a path. */
  lemma AppPathInjective(installRoot: string, n1: string, n2: string, p: Platform)
    requires AppPath(installRoot, n1, p) == AppPath(installRoot, n2, p)
    ensures n1 == n2
  {
    AppPathLayout(installRoot, n1, p);
    AppPathLayout(installRoot, n2, p);
    var app := AppPath(installRoot, n1, p);
    var tail := if p == Windows then 4 else 1;
    assert |app| == |installRoot| + 5 + |n1| + tail == |installRoot| + 5 + |n2| + tail;
  }

  /** The index of the last `.` in `s`, if there is one. */
  function LastDot(s: string): (i: Option<nat>)
    ensures i.Some? ==> i.value < |s| && s[i.value] == '.'
    ensures i.Some? ==> forall j :: i.value < j < |s| ==> s[j] != '.'
    ensures i.None? ==> forall j :: 0 <= j < |s| ==> s[j] != '.'
    decreases |s|
  {
    if s == [] then None
    else if s[|s| - 1] == '.' then Some(|s| - 1)
    else LastDot(s[..|s| - 1])
  }

  /**
    `Path::extension` given the path's `file_name`: the text after the last dot, except
    when there is no dot, when the only dot is the first character, or when the name
    is `..`.
  */
  function Extension(fileName: Option<string>): Option<string>
  {
    match fileName
    case None => None
    case Some(name) =>
      if name == ".." then None
      else match LastDot(name)
        case None => None
        case Some(i) => if i == 0 then None else Some(name[i + 1..])
  }

  /**
    The extension is the text after a dot that is not the first character and has no dot
    after it; a name other than `..` with such a dot always has one.
  */
  lemma ExtensionAfterLastDot(fileName: Option<string>)
    ensures var ext := Extension(fileName);
      ext.Some? ==> fileName.Some? && fileName.value != ".." && var n := fileName.value;
      && |ext.value| + 2 <= |n| && n[|n| - |ext.value|..] == ext.value && n[|n| - |ext.value| - 1] == '.'
      && forall j :: 0 <= j < |ext.value| ==> ext.value[j] != '.'
    ensures fileName.Some? && fileName.value != ".." && (exists j :: 0 < j < |fileName.value| && fileName.value[j] == '.')
      ==> Extension(fileName).Some?
  {
  }

  /** The launcher accepts a manifest exactly when its file name ends in `.o2` after at least one character. */
  lemma ExtensionIsO2(name: string)
    ensures Extension(Some(name)) == Some("o2") <==> |name| >= 4 && name[|name| - 3..] == ".o2"
  {
    var n := |name|;
    if n >= 4 && name[n - 3..] == ".o2" {
      assert name[n - 3] == name[n - 3..][0] == '.';
      assert name[n - 2] == name[n - 3..][1] == 'o';
      assert name[n - 1] == name[n - 3..][2] == '2';
      var i := LastDot(name);
      assert i.Some? && i.value == n - 3;
      assert name != "..";
      assert name[n - 2..] == name[n - 3..][1..] == "o2";
    }
    if Extension(Some(name)) == Some("o2") {
      assert name != "..";
      var i := LastDot(name).value;
      assert i != 0 && name[i + 1..] == "o2";
      assert |name[i + 1..]| == 2;
      assert i == |name| - 3;
      assert name[|name| - 3..] == [name[i]] + name[i + 1..];
      assert name[i] == '.';
    }
  }

  // ---------------------------------------------------------------- inputs, events, outcome

  /** `ExitStatus`: the exit code, absent when the process was ended by a signal. */
  datatype ExitStatus = ExitStatus(code: Option<int>)

  /**
    The answers the launcher gets from the system, one per call in `main`. Errors are
    given by their `Display` text.
  */
  datatype Env = Env(
    platform: Platform,
    rustupSpawn: Result<(), string>,      // Command::spawn of `rustup update`
    rustupWait: Result<ExitStatus, string>, // Child::wait of it
    arg1: Option<string>,                 // env::args().nth(1)
    isFile: bool,                         // Path::is_file of the manifest path
    fileName: Option<string>,             // Path::file_name of the manifest path
    open: Result<(), string>,             // File::open of the manifest
    parse: Result<Install.Manifest, string>,      // ron::de::from_reader of it
    installRoot: string,                  // the directory holding the launcher's executable
    cargoSpawn: Result<(), string>,       // Command::spawn of `cargo install`
    cargoWait: Result<ExitStatus, string>,  // Child::wait of it
    appSpawn: Result<(), string>)         // Command::spawn of the application

  /** What the launcher asks of the system, in the order it asks. */
  datatype Event =
    | Spawn(program: string, args: seq<string>, noWindow: bool)
    | Wait(program: string)
    | OpenManifest(path: string)
    | ReadManifest(path: string)

  datatype Outcome = Completed | Aborted(msg: string)

  datatype Run = Run(trace: seq<Event>, outcome: Outcome)

  const Rustup: string := "rustup"
  const Cargo: string := "cargo"

  const RustupSpawnMsg: string := "Failed to spawn 'rustup update'. Is Rustup installed?"
  const RustupWaitMsg: string := "'rustup update' failed"
  const NoPathMsg: string := "No manifest path found"
  const NotAFileMsg: string := "Supplied manifest path does not lead to a file"
  const ForeignExtMsg: string := "Foreign file extension"
  const CargoSpawnMsg: string := "Failed to spawn 'cargo install'. Is Cargo installed?"
  const CargoWaitMsg: string := "'cargo install' failed"

  function OpenMsg(path: string): string
  {
    "Failed to open manifest at '" + DebugQuote(path) + "'"
  }

  function ReadMsg(path: string): string
  {
    "Failed to read manifest at '" + DebugQuote(path) + "'. Is the file corrupted?"
  }

  function AppSpawnMsg(app: string): string
  {
    "Failed to spawn " + app
  }

  /** Where the parts of the two manifest messages sit: the fixed text and the path in its `{:?}` form. */
  lemma MessageLayout(path: string)
    ensures var m := OpenMsg(path);
      && |m| == 29 + |DebugQuote(path)| && m[..28] == "Failed to open manifest at '"
      && m[28..|m| - 1] == DebugQuote(path) && m[|m| - 1] == '\''
    ensures var m := ReadMsg(path);
      && |m| == 28 + |DebugQuote(path)| + 25 && m[..28] == "Failed to read manifest at '"
      && m[28..28 + |DebugQuote(path)|] == DebugQuote(path) && m[28 + |DebugQuote(path)|..] == "'. Is the file corrupted?"
  {
    var q := DebugQuote(path);
    assert OpenMsg(path) == "Failed to open manifest at '" + (q + "'");
    assert ReadMsg(path) == "Failed to read manifest at '" + (q + "'. Is the file corrupted?");
  }

  /** The message of a failed application spawn is its fixed text and the application path as it is. */
  lemma AppSpawnMsgLayout(app: string)
    ensures var m := AppSpawnMsg(app);
      |m| == 16 + |app| && m[..16] == "Failed to spawn " && m[16..] == app
  {
  }

  /** The two manifest messages name the path unambiguously: equal messages mean equal paths. */
  lemma ManifestMsgsNamePath(p1: string, p2: string)
    ensures OpenMsg(p1) == OpenMsg(p2) ==> p1 == p2
    ensures ReadMsg(p1) == ReadMsg(p2) ==> p1 == p2
  {
    MessageLayout(p1);
    MessageLayout(p2);
    if OpenMsg(p1) == OpenMsg(p2) {
      var m := OpenMsg(p1);
      assert DebugQuote(p1) == m[28..|m| - 1] == DebugQuote(p2);
      DebugQuoteInjective(p1, p2);
    }
    if ReadMsg(p1) == ReadMsg(p2) {
      var m := ReadMsg(p1);
      assert |DebugQuote(p1)| == |DebugQuote(p2)|;
      assert DebugQuote(p1) == m[28..28 + |DebugQuote(p1)|] == DebugQuote(p2);
      DebugQuoteInjective(p1, p2);
    }
  }

  /** The `Display` of an error given by its text. */
  const Show: string -> string := (e: string) => e

  // ---------------------------------------------------------------- abort-on-first-failure

  /**
    One phase of `main`: the events it causes, then the abort message of its
    `expect_fancy` or `panic_fancy`, if it aborts.
  */
  datatype Step = Step(events: seq<Event>, abort: Option<string>)

  function Verdict<T>(f: Fancy<T>): (v: Option<string>)
    ensures v.Some? <==> f.Abort?
    ensures v.Some? ==> v.value == f.msg
  {
    if f.Abort? then Some(f.msg) else None
  }

  /** Runs phases in order; the first that aborts ends the run, and no later phase happens. */
  function RunPipeline(steps: seq<Step>): Run
  {
    if steps == [] then Run([], Completed)
    else if steps[0].abort.Some? then Run(steps[0].events, Aborted(steps[0].abort.value))
    else
      var rest := RunPipeline(steps[1..]);
      Run(steps[0].events + rest.trace, rest.outcome)
  }

  /** Every event of every phase, in order. */
  function AllEvents(steps: seq<Step>): seq<Event>
  {
    if steps == [] then [] else steps[0].events + AllEvents(steps[1..])
  }

  lemma {:induction false} AllEventsAppend(a: seq<Step>, b: seq<Step>)
    ensures AllEvents(a + b) == AllEvents(a) + AllEvents(b)
  {
    if a != [] {
      assert (a + b)[1..] == a[1..] + b;
      AllEventsAppend(a[1..], b);
    } else {
      assert a + b == b;
    }
  }

  /** Phases after a completed run of `a` continue its trace. */
  lemma {:induction false} PipelineThen(a: seq<Step>, b: seq<Step>)
    requires RunPipeline(a).outcome.Completed?
    ensures RunPipeline(a + b) == Run(RunPipeline(a).trace + RunPipeline(b).trace, RunPipeline(b).outcome)
  {
    if a == [] {
      assert a + b == b;
    } else {
      assert (a + b)[0] == a[0] && (a + b)[1..] == a[1..] + b;
      PipelineThen(a[1..], b);
      var ra, rb := RunPipeline(a[1..]), RunPipeline(b);
      assert a[0].events + (ra.trace + rb.trace) == (a[0].events + ra.trace) + rb.trace;
    }
  }

  /** Two completed lists of phases followed by a third. */
  lemma PipelineThenThen(a: seq<Step>, b: seq<Step>, c: seq<Step>, ta: seq<Event>, tb: seq<Event>)
    requires RunPipeline(a) == Run(ta, Completed) && RunPipeline(b) == Run(tb, Completed)
    ensures RunPipeline(a + (b + c)) == Run((ta + tb) + RunPipeline(c).trace, RunPipeline(c).outcome)
  {
    PipelineThen(b, c);
    PipelineThen(a, b + c);
  }

  /** Phases after an aborted run of `a` never happen. */
  lemma {:induction false} PipelineStops(a: seq<Step>, b: seq<Step>)
    requires RunPipeline(a).outcome.Aborted?
    ensures RunPipeline(a + b) == RunPipeline(a)
  {
    assert (a + b)[0] == a[0] && (a + b)[1..] == a[1..] + b;
    if a[0].abort.None? {
      PipelineStops(a[1..], b);
    }
  }

  /**
    Running two lists of phases one after the other: if the first list aborts, the second
    never starts; otherwise the run is the first list's events followed by the second's run.
  */
  lemma PipelineAppend(a: seq<Step>, b: seq<Step>)
    ensures (forall i :: 0 <= i < |a| ==> a[i].abort.None?) ==>
      RunPipeline(a + b) == Run(AllEvents(a) + RunPipeline(b).trace, RunPipeline(b).outcome)
    ensures (exists i :: 0 <= i < |a| && a[i].abort.Some?) ==> RunPipeline(a + b) == RunPipeline(a)
  {
    PipelineCompleted(a);
    if RunPipeline(a).outcome.Completed? {
      PipelineThen(a, b);
    } else {
      PipelineStops(a, b);
    }
  }

  /** A run completes exactly when no phase aborts, and then it has caused every event of every phase. */
  lemma {:induction false} PipelineCompleted(steps: seq<Step>)
    ensures RunPipeline(steps).outcome.Completed? <==> forall i :: 0 <= i < |steps| ==> steps[i].abort.None?
    ensures RunPipeline(steps).outcome.Completed? ==> RunPipeline(steps).trace == AllEvents(steps)
  {
    if steps != [] {
      PipelineCompleted(steps[1..]);
      if steps[0].abort.None? {
        forall i | 0 <= i < |steps[1..]| ensures steps[1..][i] == steps[i + 1] { }
      }
    }
  }

  /**
    A run that meets its first aborting phase at `k` aborts with that phase's message,
    and its trace is the events of phases `0..k` and nothing more.
  */
  lemma {:induction false} PipelineAbortsAtFirstFailure(steps: seq<Step>, k: nat)
    requires k < |steps| && steps[k].abort.Some?
    requires forall i :: 0 <= i < k ==> steps[i].abort.None?
    ensures RunPipeline(steps) == Run(AllEvents(steps[..k + 1]), Aborted(steps[k].abort.value))
  {
    if k == 0 {
      assert steps[..1] == [steps[0]];
      assert AllEvents([steps[0]]) == steps[0].events + AllEvents([]);
    } else {
      PipelineAbortsAtFirstFailure(steps[1..], k - 1);
      assert steps[..k + 1] == [steps[0]] + steps[1..][..k];
      assert AllEvents(steps[..k + 1]) == steps[0].events + AllEvents(steps[1..][..k]);
    }
  }

  /** Whatever happens, the trace is a prefix of all events of all phases: nothing is done out of order. */
  lemma {:induction false} PipelineTraceIsPrefix(steps: seq<Step>)
    ensures RunPipeline(steps).trace <= AllEvents(steps)
  {
    if steps != [] && steps[0].abort.None? {
      PipelineTraceIsPrefix(steps[1..]);
    }
  }

  // ---------------------------------------------------------------- the phases of main

  /** Updating the toolchain: `rustup update` is spawned, then waited on. */
  function UpdateSteps(env: Env): seq<Step>
  {
    [ Step([Spawn(Rustup, ["update"], false)], Verdict(ExpectResult(env.rustupSpawn, RustupSpawnMsg, Show))),
      Step([Wait(Rustup)], Verdict(ExpectResult(env.rustupWait, RustupWaitMsg, Show))) ]
  }

  /**
    Loading the manifest: its path is taken from the command line, must lead to a file
    and have the extension `o2`; the file is then opened and read.
  */
  function LoadSteps(env: Env): seq<Step>
  {
    [Step([], Verdict(ExpectOption(env.arg1, NoPathMsg)))] + match env.arg1
      case None => []
      case Some(path) =>
        [ Step([], if env.isFile then None else Verdict(PanicFancy<()>(NotAFileMsg))),
          Step([], if Extension(env.fileName) == Some("o2") then None else Verdict(PanicFancy<()>(ForeignExtMsg))),
          Step([OpenManifest(path)], Verdict(ExpectResult(env.open, OpenMsg(path), Show))),
          Step([ReadManifest(path)], Verdict(ExpectResult(env.parse, ReadMsg(path), Show))) ]
  }

  /** Installing the manifest's application with cargo, then spawning it without waiting. */
  function InstallSteps(env: Env, m: Install.Manifest): seq<Step>
  {
    var app := AppPath(env.installRoot, m.name, env.platform);
    [ Step([Spawn(Cargo, Install.InstallArgs(env.installRoot, m.path, m.features), false)],
        Verdict(ExpectResult(env.cargoSpawn, CargoSpawnMsg, Show))),
      Step([Wait(Cargo)], Verdict(ExpectResult(env.cargoWait, CargoWaitMsg, Show))),
      Step([Spawn(app, [], env.platform == Windows)], Verdict(ExpectResult(env.appSpawn, AppSpawnMsg(app), Show))) ]
  }

  /**
    Every phase of `main`, in order. The install phases need the manifest; when there is
    none, loading has aborted and the run never gets there.
  */
  function Steps(env: Env): seq<Step>
  {
    UpdateSteps(env) + LoadSteps(env) + match env.parse
      case Err(_) => []
      case Ok(m) => InstallSteps(env, m)
  }

  /** The run `whole` is `trace` followed by the run of the phases `rest`. */
  ghost predicate Resumes(whole: Run, trace: seq<Event>, rest: seq<Step>)
  {
    whole == Run(trace + RunPipeline(rest).trace, RunPipeline(rest).outcome)
  }

  /** Before any phase has run, the run is the run of all phases. */
  lemma Begin(steps: seq<Step>)
    ensures Resumes(RunPipeline(steps), [], steps)
  {
    assert [] + RunPipeline(steps).trace == RunPipeline(steps).trace;
  }

  /**
    One phase further: if it aborts, the run ends with its events and message; otherwise
    the run is the trace so far, its events, and the run of the phases after it.
  */
  lemma Next(whole: Run, trace: seq<Event>, rest: seq<Step>)
    requires Resumes(whole, trace, rest) && rest != []
    ensures rest[0].abort.Some? ==> whole == Run(trace + rest[0].events, Aborted(rest[0].abort.value))
    ensures rest[0].abort.None? ==> Resumes(whole, trace + rest[0].events, rest[1..])
  {
    if rest[0].abort.None? {
      assert trace + (rest[0].events + RunPipeline(rest[1..]).trace)
        == (trace + rest[0].events) + RunPipeline(rest[1..]).trace;
    }
  }

  /** After the last phase the run is complete and its trace is all that happened. */
  lemma End(whole: Run, trace: seq<Event>)
    requires Resumes(whole, trace, [])
    ensures whole == Run(trace, Completed)
  {
    assert trace + [] == trace;
  }

  // ---------------------------------------------------------------- main

  /** "Updating Rust (Rustup)": spawn `rustup update` and wait for it; its exit status is not looked at. */
  method UpdateRust(env: Env) returns (trace: seq<Event>, outcome: Outcome)
    ensures Run(trace, outcome) == RunPipeline(UpdateSteps(env))
  {
    // The phases not yet run: the whole run is `trace` followed by the run of `rest`.
    ghost var whole, rest := RunPipeline(UpdateSteps(env)), UpdateSteps(env);
    Begin(rest);
    trace := [];

    Next(whole, trace, rest);
    trace := trace + [Spawn(Rustup, ["update"], false)];
    var child := ExpectResult(env.rustupSpawn, RustupSpawnMsg, Show);
    if child.Abort? {
      return trace, Aborted(child.msg);
    }
    rest := rest[1..];

    Next(whole, trace, rest);
    trace := trace + [Wait(Rustup)];
    var status := ExpectResult(env.rustupWait, RustupWaitMsg, Show);
    if status.Abort? {
      return trace, Aborted(status.msg);
    }
    rest := rest[1..];

    End(whole, trace);
    outcome := Completed;
  }

  /** "Deserializing Manifest": validate the path argument, then open and read the manifest. */
  method LoadManifest(env: Env) returns (trace: seq<Event>, manifest: Fancy<Install.Manifest>)
    ensures manifest.Value? ==> env.parse == Ok(manifest.value)
    ensures Run(trace, if manifest.Value? then Completed else Aborted(manifest.msg)) == RunPipeline(LoadSteps(env))
  {
    ghost var whole, rest := RunPipeline(LoadSteps(env)), LoadSteps(env);
    Begin(rest);
    trace := [];

    Next(whole, trace, rest);
    var arg := ExpectOption(env.arg1, NoPathMsg);
    if arg.Abort? {
      return trace, Abort(arg.msg);
    }
    rest := rest[1..];
    var path := arg.value;

    Next(whole, trace, rest);
    if !env.isFile {
      return trace, PanicFancy(NotAFileMsg);
    }
    rest := rest[1..];

    Next(whole, trace, rest);
    if Extension(env.fileName) != Some("o2") {
      return trace, PanicFancy(ForeignExtMsg);
    }
    rest := rest[1..];

    Next(whole, trace, rest);
    trace := trace + [OpenManifest(path)];
    var file := ExpectResult(env.open, OpenMsg(path), Show);
    if file.Abort? {
      return trace, Abort(file.msg);
    }
    rest := rest[1..];

    Next(whole, trace, rest);
    trace := trace + [ReadManifest(path)];
    manifest := ExpectResult(env.parse, ReadMsg(path), Show);
    if manifest.Abort? {
      return;
    }
    rest := rest[1..];

    End(whole, trace);
  }

  /**
    "Installing Application (Cargo)" and "Spawning Application": build the install
    arguments, spawn `cargo install` and wait for it (its exit status is not looked at),
    then spawn the application without waiting for it.
  */
  method InstallAndSpawn(env: Env, m: Install.Manifest) returns (trace: seq<Event>, outcome: Outcome)
    ensures Run(trace, outcome) == RunPipeline(InstallSteps(env, m))
  {
    ghost var whole, rest := RunPipeline(InstallSteps(env, m)), InstallSteps(env, m);
    Begin(rest);
    trace := [];

    var install := Install.BuildInstallArgs(env.installRoot, m.path, m.features);
    Next(whole, trace, rest);
    trace := trace + [Spawn(Cargo, install, false)];
    var child := ExpectResult(env.cargoSpawn, CargoSpawnMsg, Show);
    if child.Abort? {
      return trace, Aborted(child.msg);
    }
    rest := rest[1..];

    Next(whole, trace, rest);
    trace := trace + [Wait(Cargo)];
    var status := ExpectResult(env.cargoWait, CargoWaitMsg, Show);
    if status.Abort? {
      return trace, Aborted(status.msg);
    }
    rest := rest[1..];

    var app := AppPath(env.installRoot, m.name, env.platform);
    Next(whole, trace, rest);
    trace := trace + [Spawn(app, [], env.platform == Windows)];
    var launched := ExpectResult(env.appSpawn, AppSpawnMsg(app), Show);
    if launched.Abort? {
      return trace, Aborted(launched.msg);
    }
    rest := rest[1..];

    End(whole, trace);
    outcome := Completed;
  }

  /**
    What `main` does, written out case by case: the first request the system refuses
    decides the abort message, and nothing is asked of the system after it.
  */
  function Expected(env: Env): Run
  {
    var update := [Spawn(Rustup, ["update"], false), Wait(Rustup)];
    if env.rustupSpawn.Err? then Run([Spawn(Rustup, ["update"], false)], Aborted(RustupSpawnMsg + "\n" + env.rustupSpawn.error))
    else if env.rustupWait.Err? then Run(update, Aborted(RustupWaitMsg + "\n" + env.rustupWait.error))
    else if env.arg1.None? then Run(update, Aborted(NoPathMsg))
    else if !env.isFile then Run(update, Aborted(NotAFileMsg))
    else if Extension(env.fileName) != Some("o2") then Run(update, Aborted(ForeignExtMsg))
    else
      var path := env.arg1.value;
      var load := update + [OpenManifest(path), ReadManifest(path)];
      if env.open.Err? then Run(update + [OpenManifest(path)], Aborted(OpenMsg(path) + "\n" + env.open.error))
      else if env.parse.Err? then Run(load, Aborted(ReadMsg(path) + "\n" + env.parse.error))
      else
        var m := env.parse.value;
        var cargo := Spawn(Cargo, Install.InstallArgs(env.installRoot, m.path, m.features), false);
        var app := AppPath(env.installRoot, m.name, env.platform);
        var all := [cargo, Wait(Cargo), Spawn(app, [], env.platform == Windows)];
        if env.cargoSpawn.Err? then Run(load + [cargo], Aborted(CargoSpawnMsg + "\n" + env.cargoSpawn.error))
        else if env.cargoWait.Err? then Run(load + [cargo, Wait(Cargo)], Aborted(CargoWaitMsg + "\n" + env.cargoWait.error))
        else if env.appSpawn.Err? then Run(load + all, Aborted(AppSpawnMsg(app) + "\n" + env.appSpawn.error))
        else Run(load + all, Completed)
  }

  /** The update phases, case by case. */
  lemma UpdateRun(env: Env)
    ensures var r, update := RunPipeline(UpdateSteps(env)), [Spawn(Rustup, ["update"], false), Wait(Rustup)];
      && (env.rustupSpawn.Err? ==> r == Run([Spawn(Rustup, ["update"], false)], Aborted(RustupSpawnMsg + "\n" + env.rustupSpawn.error)))
      && (env.rustupSpawn.Ok? && env.rustupWait.Err? ==> r == Run(update, Aborted(RustupWaitMsg + "\n" + env.rustupWait.error)))
      && (env.rustupSpawn.Ok? && env.rustupWait.Ok? ==> r == Run(update, Completed))
  {
    var whole, rest := RunPipeline(UpdateSteps(env)), UpdateSteps(env);
    Begin(rest);
    Next(whole, [], rest);
    if env.rustupSpawn.Ok? {
      Next(whole, rest[0].events, rest[1..]);
      if env.rustupWait.Ok? {
        End(whole, rest[0].events + rest[1].events);
      }
    }
  }

  /** The loading phases, case by case. */
  lemma LoadRun(env: Env)
    ensures var r := RunPipeline(LoadSteps(env));
      && (env.arg1.None? ==> r == Run([], Aborted(NoPathMsg)))
      && (env.arg1.Some? && !env.isFile ==> r == Run([], Aborted(NotAFileMsg)))
      && (env.arg1.Some? && env.isFile && Extension(env.fileName) != Some("o2") ==> r == Run([], Aborted(ForeignExtMsg)))
      && (env.arg1.Some? && env.isFile && Extension(env.fileName) == Some("o2") ==>
            var path := env.arg1.value;
            && (env.open.Err? ==> r == Run([OpenManifest(path)], Aborted(OpenMsg(path) + "\n" + env.open.error)))
            && (env.open.Ok? && env.parse.Err? ==>
                  r == Run([OpenManifest(path), ReadManifest(path)], Aborted(ReadMsg(path) + "\n" + env.parse.error)))
            && (env.open.Ok? && env.parse.Ok? ==> r == Run([OpenManifest(path), ReadManifest(path)], Completed)))
  {
    var whole, rest := RunPipeline(LoadSteps(env)), LoadSteps(env);
    Begin(rest);
    var trace := [];
    Next(whole, trace, rest);
    if env.arg1.None? { return; }
    rest := rest[1..];
    Next(whole, trace, rest);
    if !env.isFile { return; }
    rest := rest[1..];
    Next(whole, trace, rest);
    if Extension(env.fileName) != Some("o2") { return; }
    rest := rest[1..];
    Next(whole, trace, rest);
    if env.open.Err? { return; }
    trace, rest := trace + rest[0].events, rest[1..];
    Next(whole, trace, rest);
    if env.parse.Err? { return; }
    trace, rest := trace + rest[0].events, rest[1..];
    End(whole, trace);
  }

  /** The install and spawn phases, case by case. */
  lemma InstallRun(env: Env, m: Install.Manifest)
    ensures var cargo := Spawn(Cargo, Install.InstallArgs(env.installRoot, m.path, m.features), false);
      var app := AppPath(env.installRoot, m.name, env.platform);
      var all := [cargo, Wait(Cargo), Spawn(app, [], env.platform == Windows)];
      RunPipeline(InstallSteps(env, m)) ==
        if env.cargoSpawn.Err? then Run([cargo], Aborted(CargoSpawnMsg + "\n" + env.cargoSpawn.error))
        else if env.cargoWait.Err? then Run([cargo, Wait(Cargo)], Aborted(CargoWaitMsg + "\n" + env.cargoWait.error))
        else if env.appSpawn.Err? then Run(all, Aborted(AppSpawnMsg(app) + "\n" + env.appSpawn.error))
        else Run(all, Completed)
  {
    var whole, rest := RunPipeline(InstallSteps(env, m)), InstallSteps(env, m);
    Begin(rest);
    var trace := [];
    Next(whole, trace, rest);
    if env.cargoSpawn.Err? { return; }
    trace, rest := trace + rest[0].events, rest[1..];
    Next(whole, trace, rest);
    if env.cargoWait.Err? { return; }
    trace, rest := trace + rest[0].events, rest[1..];
    Next(whole, trace, rest);
    if env.appSpawn.Err? { return; }
    trace, rest := trace + rest[0].events, rest[1..];
    End(whole, trace);
  }

  /** `Expected` when updating the toolchain fails. */
  lemma UpdateAbortIsExpected(env: Env)
    requires env.rustupSpawn.Err? || env.rustupWait.Err?
    ensures RunPipeline(Steps(env)) == Expected(env)
  {
    var u, rest := UpdateSteps(env), LoadSteps(env) + if env.parse.Ok? then InstallSteps(env, env.parse.value) else [];
    assert Steps(env) == u + rest;
    UpdateRun(env);
    PipelineStops(u, rest);
  }

  /** When loading aborts after the update, the run is the two update requests followed by the loading phases' run. */
  lemma UpdatedThenLoadAborts(env: Env)
    requires env.rustupSpawn.Ok? && env.rustupWait.Ok?
    requires RunPipeline(LoadSteps(env)).outcome.Aborted?
    ensures RunPipeline(Steps(env)) ==
      Run([Spawn(Rustup, ["update"], false), Wait(Rustup)] + RunPipeline(LoadSteps(env)).trace, RunPipeline(LoadSteps(env)).outcome)
  {
    var u, l := UpdateSteps(env), LoadSteps(env);
    var i := if env.parse.Ok? then InstallSteps(env, env.parse.value) else [];
    assert Steps(env) == u + (l + i);
    UpdateRun(env);
    assert RunPipeline(u) == Run([Spawn(Rustup, ["update"], false), Wait(Rustup)], Completed);
    PipelineStops(l, i);
    PipelineThen(u, l + i);
  }

  /** `Expected` when the toolchain is updated but loading the manifest fails. */
  lemma LoadAbortIsExpected(env: Env)
    requires env.rustupSpawn.Ok? && env.rustupWait.Ok?
    requires RunPipeline(LoadSteps(env)).outcome.Aborted?
    ensures RunPipeline(Steps(env)) == Expected(env)
  {
    UpdatedThenLoadAborts(env);
    LoadRun(env);
  }

  /** Once the manifest is loaded, the run is the four update and load requests followed by the install phases' run. */
  lemma LoadedThenInstall(env: Env)
    requires env.rustupSpawn.Ok? && env.rustupWait.Ok?
    requires RunPipeline(LoadSteps(env)).outcome.Completed?
    ensures env.arg1.Some? && env.parse.Ok?
    ensures var path, i := env.arg1.value, InstallSteps(env, env.parse.value);
      RunPipeline(Steps(env)) ==
        Run([Spawn(Rustup, ["update"], false), Wait(Rustup), OpenManifest(path), ReadManifest(path)] + RunPipeline(i).trace,
            RunPipeline(i).outcome)
  {
    var u, l := UpdateSteps(env), LoadSteps(env);
    LoadRun(env);
    var path, i := env.arg1.value, InstallSteps(env, env.parse.value);
    assert Steps(env) == u + (l + i);
    UpdateRun(env);
    var update, load := [Spawn(Rustup, ["update"], false), Wait(Rustup)], [OpenManifest(path), ReadManifest(path)];
    PipelineThenThen(u, l, i, update, load);
    assert update + load == [Spawn(Rustup, ["update"], false), Wait(Rustup), OpenManifest(path), ReadManifest(path)];
  }

  /** `Expected` once the manifest is loaded: the run goes on to install and spawn. */
  lemma InstallIsExpected(env: Env)
    requires env.rustupSpawn.Ok? && env.rustupWait.Ok?
    requires RunPipeline(LoadSteps(env)).outcome.Completed?
    ensures RunPipeline(Steps(env)) == Expected(env)
  {
    LoadedThenInstall(env);
    LoadRun(env);
    InstallRun(env, env.parse.value);
  }

  /** Running the phases of `main` in order, stopping at the first abort, is exactly `Expected`. */
  lemma LaunchIsExpected(env: Env)
    ensures RunPipeline(Steps(env)) == Expected(env)
  {
    if env.rustupSpawn.Err? || env.rustupWait.Err? {
      UpdateAbortIsExpected(env);
    } else if RunPipeline(LoadSteps(env)).outcome.Aborted? {
      LoadAbortIsExpected(env);
    } else {
      InstallIsExpected(env);
    }
  }

  // ---------------------------------------------------------------- what a run of main guarantees

  /** Every request the launcher makes of the system is granted. */
  predicate AllGranted(env: Env)
  {
    && env.rustupSpawn.Ok? && env.rustupWait.Ok?
    && env.arg1.Some? && env.isFile && Extension(env.fileName) == Some("o2")
    && env.open.Ok? && env.parse.Ok?
    && env.cargoSpawn.Ok? && env.cargoWait.Ok? && env.appSpawn.Ok?
  }

  /**
    `main` runs to the end exactly when every request is granted, and then it has updated
    the toolchain, read the manifest, installed the application and spawned it, in that order.
  */
  lemma LaunchCompletesIff(env: Env)
    ensures RunPipeline(Steps(env)).outcome.Completed? <==> AllGranted(env)
    ensures AllGranted(env) ==>
      var path, m := env.arg1.value, env.parse.value;
      RunPipeline(Steps(env)).trace ==
        [ Spawn(Rustup, ["update"], false), Wait(Rustup),
          OpenManifest(path), ReadManifest(path),
          Spawn(Cargo, Install.InstallArgs(env.installRoot, m.path, m.features), false), Wait(Cargo),
          Spawn(AppPath(env.installRoot, m.name, env.platform), [], env.platform == Windows) ]
  {
    LaunchIsExpected(env);
  }

  /** The exit statuses of `rustup update` and `cargo install` never change what `main` does. */
  lemma ExitStatusIgnored(env: Env, rustupStatus: ExitStatus, cargoStatus: ExitStatus)
    requires env.rustupWait.Ok? && env.cargoWait.Ok?
    ensures RunPipeline(Steps(env.(rustupWait := Ok(rustupStatus), cargoWait := Ok(cargoStatus))))
         == RunPipeline(Steps(env))
  {
    LaunchIsExpected(env);
    LaunchIsExpected(env.(rustupWait := Ok(rustupStatus), cargoWait := Ok(cargoStatus)));
  }

  /**
    A manifest that is missing, not a file, or without the `.o2` extension stops `main`
    right after the toolchain update, before anything is opened, with the message of the
    first check it fails.
  */
  lemma RejectedPathStopsAfterUpdate(env: Env)
    requires env.rustupSpawn.Ok? && env.rustupWait.Ok?
    requires env.arg1.None? || !env.isFile || Extension(env.fileName) != Some("o2")
    ensures RunPipeline(Steps(env)) == Run([Spawn(Rustup, ["update"], false), Wait(Rustup)],
      Aborted(if env.arg1.None? then NoPathMsg else if !env.isFile then NotAFileMsg else ForeignExtMsg))
  {
    LaunchIsExpected(env);
  }

  /**
    Everything `main` would ask of the system if nothing failed, as far as the inputs
    determine it: the manifest's requests need its path, the install requests need its contents.
  */
  function Plan(env: Env): seq<Event>
  {
    [Spawn(Rustup, ["update"], false), Wait(Rustup)] + match env.arg1
      case None => []
      case Some(path) => [OpenManifest(path), ReadManifest(path)] + match env.parse
        case Err(_) => []
        case Ok(m) =>
          [ Spawn(Cargo, Install.InstallArgs(env.installRoot, m.path, m.features), false), Wait(Cargo),
            Spawn(AppPath(env.installRoot, m.name, env.platform), [], env.platform == Windows) ]
  }

  /**
    A trace `main` can leave behind: a non-empty prefix of the plan that gets past the
    update only with a valid manifest path, and past loading only with a manifest it has read.
  */
  predicate FollowsPlan(env: Env, t: seq<Event>)
  {
    && 1 <= |t| <= |Plan(env)| && t == Plan(env)[..|t|]
    && (|t| > 2 ==> env.rustupWait.Ok? && env.arg1.Some? && env.isFile && Extension(env.fileName) == Some("o2"))
    && (|t| > 4 ==> env.open.Ok? && env.parse.Ok?)
  }

  /** What `Expected` does is a prefix of the plan, cut off at the first refused request. */
  lemma ExpectedFollowsPlan(env: Env)
    ensures FollowsPlan(env, Expected(env).trace)
  {
    var t, p := Expected(env).trace, Plan(env);
    if env.rustupSpawn.Err? {
      assert t == p[..1];
    } else if env.rustupWait.Err? || env.arg1.None? || !env.isFile || Extension(env.fileName) != Some("o2") {
      assert t == p[..2];
    } else if env.open.Err? {
      assert t == p[..3];
    } else if env.parse.Err? {
      assert t == p[..4];
    } else if env.cargoSpawn.Err? {
      assert t == p[..5];
    } else if env.cargoWait.Err? {
      assert t == p[..6];
    } else {
      assert t == p[..7];
    }
  }

  /** Whatever fails, what `main` has done follows its plan: it never skips ahead or reorders. */
  lemma LaunchFollowsPlan(env: Env)
    ensures FollowsPlan(env, RunPipeline(Steps(env)).trace)
  {
    LaunchIsExpected(env);
    ExpectedFollowsPlan(env);
  }

  /** The requests of a trace that follows the plan, position by position. */
  lemma PlanPositions(env: Env, t: seq<Event>)
    requires FollowsPlan(env, t)
    ensures 1 <= |t| <= 7 && t[0] == Spawn(Rustup, ["update"], false)
    ensures |t| > 1 ==> t[1] == Wait(Rustup)
    ensures |t| > 2 ==> env.arg1.Some? && t[2] == OpenManifest(env.arg1.value)
    ensures |t| > 3 ==> t[3] == ReadManifest(env.arg1.value)
    ensures |t| > 4 ==>
      env.parse.Ok? && t[4] == Spawn(Cargo, Install.InstallArgs(env.installRoot, env.parse.value.path, env.parse.value.features), false)
    ensures |t| > 5 ==> t[5] == Wait(Cargo)
    ensures |t| > 6 ==> t[6] == Spawn(AppPath(env.installRoot, env.parse.value.name, env.platform), [], env.platform == Windows)
  {
    var p := Plan(env);
    assert t[0] == p[0];
    if |t| > 1 { assert t[1] == p[1]; }
    if |t| > 2 { assert t[2] == p[2]; }
    if |t| > 3 { assert t[3] == p[3]; }
    if |t| > 4 { assert t[4] == p[4]; }
    if |t| > 5 { assert t[5] == p[5]; }
    if |t| > 6 { assert t[6] == p[6]; }
  }

  /** An application path is never the name of one of the two tools: it holds a `/`, they do not. */
  lemma AppPathIsNoTool(installRoot: string, name: string, p: Platform)
    ensures AppPath(installRoot, name, p) != Rustup && AppPath(installRoot, name, p) != Cargo
  {
    var app := AppPath(installRoot, name, p);
    assert app == installRoot + ("/bin/" + name + "." + ExeExt(p));
    assert app[|installRoot|] == '/';
  }

  /**
    The manifest is opened only at the path given on the command line, when it leads to a
    file whose name ends in `.o2`.
  */
  lemma OpensOnlyO2Files(env: Env, t: seq<Event>)
    requires FollowsPlan(env, t)
    ensures forall k :: 0 <= k < |t| && t[k].OpenManifest? ==>
      && env.arg1 == Some(t[k].path)
      && env.isFile && env.fileName.Some?
      && |env.fileName.value| >= 4 && env.fileName.value[|env.fileName.value| - 3..] == ".o2"
  {
    PlanPositions(env, t);
    if env.fileName.Some? {
      ExtensionIsO2(env.fileName.value);
    }
  }

  /**
    `cargo install` is spawned at most once, as the fifth request, and only with the
    arguments built from a manifest that was read successfully.
  */
  lemma CargoInstallsTheManifest(env: Env, t: seq<Event>)
    requires FollowsPlan(env, t)
    ensures forall k :: (0 <= k < |t| && t[k].Spawn? && t[k].program == Cargo) ==>
      && k == 4 && env.parse.Ok?
      && t[k].args == Install.InstallArgs(env.installRoot, env.parse.value.path, env.parse.value.features)
  {
    PlanPositions(env, t);
    if env.parse.Ok? {
      AppPathIsNoTool(env.installRoot, env.parse.value.name, env.platform);
    }
  }

  /** Only `rustup` and `cargo` are waited for: the application is never waited on. */
  lemma OnlyToolsAreWaited(env: Env, t: seq<Event>)
    requires FollowsPlan(env, t)
    ensures forall k :: 0 <= k < |t| && t[k].Wait? ==> t[k].program == Rustup || t[k].program == Cargo
  {
    PlanPositions(env, t);
  }

  /**
    The application, the only program spawned other than `rustup` and `cargo`, is the last
    request, and comes after `cargo install` has been spawned and waited for.
  */
  lemma ApplicationSpawnedLast(env: Env, t: seq<Event>)
    requires FollowsPlan(env, t)
    ensures forall k :: 0 <= k < |t| && t[k].Spawn? && t[k].program != Rustup && t[k].program != Cargo ==>
      && k == |t| - 1 == 6
      && t[4].Spawn? && t[4].program == Cargo && t[5] == Wait(Cargo)
  {
    PlanPositions(env, t);
  }

  /**
    The manifest is read only after `rustup update` has been spawned and waited for, and
    after it has been opened at the same path.
  */
  lemma ManifestReadAfterUpdate(env: Env, t: seq<Event>)
    requires FollowsPlan(env, t)
    ensures forall k :: 0 <= k < |t| && t[k].ReadManifest? ==>
      && k == 3
      && t[0] == Spawn(Rustup, ["update"], false) && t[1] == Wait(Rustup)
      && t[2] == OpenManifest(t[k].path)
  {
    PlanPositions(env, t);
  }

  /** `main`: the three parts in order; an abort in one ends the run. */
  method Launch(env: Env) returns (trace: seq<Event>, outcome: Outcome)
    ensures Run(trace, outcome) == RunPipeline(Steps(env))
    ensures Run(trace, outcome) == Expected(env)
    ensures FollowsPlan(env, trace)
  {
    LaunchIsExpected(env);
    LaunchFollowsPlan(env);
    ghost var u, l := UpdateSteps(env), LoadSteps(env);
    ghost var i := if env.parse.Ok? then InstallSteps(env, env.parse.value) else [];
    assert Steps(env) == u + (l + i);

    var updated;
    trace, updated := UpdateRust(env);
    if updated.Aborted? {
      PipelineStops(u, l + i);
      return trace, updated;
    }
    PipelineThen(u, l + i);

    var loaded, manifest := LoadManifest(env);
    if manifest.Abort? {
      PipelineStops(l, i);
      return trace + loaded, Aborted(manifest.msg);
    }
    PipelineThen(l, i);

    var installed;
    installed, outcome := InstallAndSpawn(env, manifest.value);
    trace := trace + (loaded + installed);
  }
}
