/**
  The manifest's data types and the `cargo install` argument list built from them
  (src/main.rs:46-70 and 100-131).
*/
module Install {
  import W = Wrappers

  /** Where the application's crate comes from (the manifest's `path` field). */
  datatype Crate =
    | CratesIO(name: string)
    | Git(url: string, path: W.Option<string>)
    | Local(dir: string)

  /** Which cargo features the application is built with. */
  datatype Features =
    | Default
    | None
    | All
    | Add(features: seq<string>)
    | Replace(features: seq<string>)

  /** A deserialized `.o2` manifest. */
  datatype Manifest = Manifest(name: string, path: Crate, features: Features)

  /** The eight `--config` overrides, each after its own flag, in the order they are passed. */
  const ConfigArgs: seq<string> := [
    "--config", "rustflags = [\"-C\", \"target-cpu=native\", \"-C\", \"link-arg=-fuse-ld=lld\"]",
    "--config", "profile.release.lto = \"thin\"",
    "--config", "profile.release.opt-level = 3",
    "--config", "profile.release.debug = false",
    "--config", "profile.release.debug-assertions = false",
    "--config", "profile.release.overflow-checks = false",
    "--config", "profile.release.strip = \"symbols\"",
    "--config", "profile.release.codegen-units = 1"
  ]

  /** A list of `--config value` pairs. */
  predicate ConfigPairs(a: seq<string>)
  {
    |a| % 2 == 0 && forall i :: 0 <= i < |a| / 2 ==> a[2 * i] == "--config"
  }

  /** The values of a list of flag-value pairs. */
  function PairValues(a: seq<string>): (vs: seq<string>)
    requires |a| % 2 == 0
    ensures |vs| == |a| / 2
  {
    seq(|a| / 2, i requires 0 <= i < |a| / 2 => a[2 * i + 1])
  }

  /** The override values alone. */
  const ConfigValues: seq<string> := PairValues(ConfigArgs)

  /** The arguments every install starts with: subcommand, root, target directory, overrides. */
  function FixedArgs(installRoot: string): seq<string>
  {
    ["install", "--root", installRoot, "--target-dir", installRoot + "/cache"] + ConfigArgs
  }

  /** The source selector the `Crate` variant contributes. */
  function SourceArgs(c: Crate): seq<string>
  {
    match c
    case CratesIO(name) => [name]
    case Git(url, path) => ["--git", url] + (if path.Some? then [path.value] else [])
    case Local(dir) => ["--path", dir]
  }

  /** The feature flags the `Features` variant contributes. */
  function FeatureArgs(f: Features): seq<string>
  {
    match f
    case Default => []
    case None => ["--no-default-features"]
    case All => ["--all-features"]
    case Add(fs) => fs
    case Replace(fs) => ["--no-default-features"] + fs
  }

  /** The whole argument list of the `cargo install` command. */
  function InstallArgs(installRoot: string, c: Crate, f: Features): seq<string>
  {
    FixedArgs(installRoot) + SourceArgs(c) + FeatureArgs(f)
  }

  /**
    Builds the `cargo install` arguments the way the launcher fills its `Command`: the
    fixed arguments, then one append per `match` arm for the source, then for the
    features.
  */
  method BuildInstallArgs(installRoot: string, c: Crate, f: Features) returns (args: seq<string>)
    ensures args == InstallArgs(installRoot, c, f)
  {
    args := FixedArgs(installRoot);

    match c {
      case CratesIO(name) =>
        args := args + [name];
      case Git(url, path) =>
        args := args + ["--git", url];
        if path.Some? {
          args := args + [path.value];
        }
      case Local(dir) =>
        args := args + ["--path", dir];
    }
    assert args == FixedArgs(installRoot) + SourceArgs(c);

    match f {
      case Default =>
      case None =>
        args := args + ["--no-default-features"];
      case All =>
        args := args + ["--all-features"];
      case Add(fs) =>
        args := args + fs;
      case Replace(fs) =>
        args := args + ["--no-default-features"] + fs;
    }
  }

  /**
    Where each part sits in the install arguments: the five fixed arguments, the eight
    `--config` pairs in order, the source selector from index 21, and the feature flags
    after it with nothing following them.
  */
  lemma InstallArgsLayout(installRoot: string, c: Crate, f: Features)
    ensures var args := InstallArgs(installRoot, c, f);
      && |args| == 21 + |SourceArgs(c)| + |FeatureArgs(f)|
      && args[..5] == ["install", "--root", installRoot, "--target-dir", installRoot + "/cache"]
      && |ConfigValues| == 8
      && (forall i :: 0 <= i < 8 ==> args[5 + 2 * i] == "--config" && args[6 + 2 * i] == ConfigValues[i])
      && args[21..21 + |SourceArgs(c)|] == SourceArgs(c)
      && args[21 + |SourceArgs(c)|..] == FeatureArgs(f)
  {
    var args := InstallArgs(installRoot, c, f);
    var fixed := FixedArgs(installRoot);
    FixedArgsPairs(installRoot);
    assert args == fixed + (SourceArgs(c) + FeatureArgs(f));
    assert args[..21] == fixed;
    assert args[..5] == fixed[..5];
    forall i | 0 <= i < 8
      ensures args[5 + 2 * i] == "--config" && args[6 + 2 * i] == ConfigValues[i]
    {
      assert args[5 + 2 * i] == fixed[5 + 2 * i];
      assert args[6 + 2 * i] == fixed[6 + 2 * i];
    }
    assert args[21..] == SourceArgs(c) + FeatureArgs(f);
  }

  lemma FixedArgsPairs(installRoot: string)
    ensures |ConfigValues| == 8
    ensures forall i :: 0 <= i < 8 ==>
      FixedArgs(installRoot)[5 + 2 * i] == "--config" && FixedArgs(installRoot)[6 + 2 * i] == ConfigValues[i]
  {
    var fixed := FixedArgs(installRoot);
    ConfigArgsArePairs();
    forall i | 0 <= i < 8
      ensures fixed[5 + 2 * i] == "--config" && fixed[6 + 2 * i] == ConfigValues[i]
    {
      assert fixed[5 + 2 * i] == ConfigArgs[2 * i];
      assert fixed[6 + 2 * i] == ConfigArgs[2 * i + 1];
    }
  }

  /**
    The source selector: the crate name alone for crates.io, `--git` and the URL with
    the sub-path after them when there is one, `--path` and the directory.
  */
  lemma SourceArgsTable(c: Crate)
    ensures var s := SourceArgs(c);
      && 1 <= |s| <= 3
      && (c.CratesIO? ==> s == [c.name])
      && (c.Git? ==> |s| >= 2 && s[0] == "--git" && s[1] == c.url && (|s| == 3 <==> c.path.Some?))
      && (c.Git? && c.path.Some? ==> s[2] == c.path.value)
      && (c.Local? ==> s == ["--path", c.dir])
  {
  }

  /**
    The feature flags: nothing for `Default`, `--no-default-features` alone for `None`,
    `--all-features` alone for `All`, exactly the names of `Add`, and
    `--no-default-features` followed by exactly the names of `Replace`.
  */
  lemma FeatureArgsTable(f: Features)
    ensures var a := FeatureArgs(f);
      && (f.Default? ==> a == [])
      && (f.None? ==> a == ["--no-default-features"])
      && (f.All? ==> a == ["--all-features"])
      && (f.Add? ==> a == f.features)
      && (f.Replace? ==> a == ["--no-default-features"] + f.features)
  {
  }

  /** The overrides are eight `--config` pairs. */
  lemma ConfigArgsArePairs()
    ensures |ConfigArgs| == 16 && ConfigPairs(ConfigArgs) && |ConfigValues| == 8
  {
  }

  /*
    Reading the argument list back. `ReadInstall` scans an argument list the way an
    option parser of the `cargo install` kind does: a flag that takes a value consumes
    the next argument, a switch sets a bit, anything else is a positional argument. It
    is the partner of `InstallArgs`: `ReadInstallOfInstallArgs` shows what the launcher
    asks the installer for, variant by variant.
  */

  /** What an argument list asks `cargo install` for. */
  datatype Request = Request(
    root: W.Option<string>,
    targetDir: W.Option<string>,
    configs: seq<string>,
    git: W.Option<string>,
    localDir: W.Option<string>,
    noDefaultFeatures: bool,
    allFeatures: bool,
    positional: seq<string>)

  const Blank: Request := Request(W.None, W.None, [], W.None, W.None, false, false, [])

  /** The flags that take the following argument as their value. */
  const ValueFlags: set<string> := {"--root", "--target-dir", "--config", "--git", "--path"}

  /** The flags that take no value. */
  const Switches: set<string> := {"--no-default-features", "--all-features"}

  predicate IsFlag(a: string)
  {
    a in ValueFlags || a in Switches
  }

  /** The request after a value flag with its value (a later `--root` replaces an earlier one). */
  function WithValue(r: Request, flag: string, v: string): Request
    requires flag in ValueFlags
  {
    if flag == "--root" then r.(root := W.Some(v))
    else if flag == "--target-dir" then r.(targetDir := W.Some(v))
    else if flag == "--config" then r.(configs := r.configs + [v])
    else if flag == "--git" then r.(git := W.Some(v))
    else r.(localDir := W.Some(v))
  }

  /** Scans `args` into `r`; `None` when a value flag is the last argument. */
  function Scan(r: Request, args: seq<string>): W.Option<Request>
    decreases |args|
  {
    if args == [] then W.Some(r)
    else if args[0] in ValueFlags then
      if |args| < 2 then W.None else Scan(WithValue(r, args[0], args[1]), args[2..])
    else if args[0] == "--no-default-features" then Scan(r.(noDefaultFeatures := true), args[1..])
    else if args[0] == "--all-features" then Scan(r.(allFeatures := true), args[1..])
    else Scan(r.(positional := r.positional + [args[0]]), args[1..])
  }

  /** Reads an `install` argument list; `None` for another subcommand or a dangling flag. */
  function ReadInstall(args: seq<string>): W.Option<Request>
  {
    if |args| >= 1 && args[0] == "install" then Scan(Blank, args[1..]) else W.None
  }

  /** The positional arguments the `Crate` variant passes: the crate name, or the Git sub-path. */
  function CratePositional(c: Crate): seq<string>
  {
    match c
    case CratesIO(name) => [name]
    case Git(_, path) => if path.Some? then [path.value] else []
    case Local(_) => []
  }

  /** The strings of a manifest that the builder passes as bare arguments. */
  predicate BareArgsArePlain(c: Crate, f: Features)
  {
    && (forall a :: a in CratePositional(c) ==> !IsFlag(a))
    && ((f.Add? || f.Replace?) ==> forall a :: a in f.features ==> !IsFlag(a))
  }

  lemma ScanValue(r: Request, flag: string, v: string, rest: seq<string>)
    requires flag in ValueFlags
    ensures Scan(r, [flag, v] + rest) == Scan(WithValue(r, flag, v), rest)
  {
    assert ([flag, v] + rest)[2..] == rest;
  }

  lemma ScanSwitch(r: Request, flag: string, rest: seq<string>)
    requires flag in Switches
    ensures Scan(r, [flag] + rest) == Scan(
      if flag == "--all-features" then r.(allFeatures := true) else r.(noDefaultFeatures := true), rest)
  {
    assert ([flag] + rest)[1..] == rest;
  }

  lemma {:induction false} ScanConfigs(r: Request, a: seq<string>, rest: seq<string>)
    requires ConfigPairs(a)
    ensures Scan(r, a + rest) == Scan(r.(configs := r.configs + PairValues(a)), rest)
    decreases |a|
  {
    if a == [] {
      assert r.configs + PairValues(a) == r.configs;
      assert a + rest == rest;
    } else {
      assert a[2 * 0] == "--config";
      var tail := a[2..];
      assert ConfigPairs(tail) by {
        forall i | 0 <= i < |tail| / 2 ensures tail[2 * i] == "--config" {
          assert tail[2 * i] == a[2 * (i + 1)];
        }
      }
      assert a + rest == [a[0], a[1]] + (tail + rest);
      ScanValue(r, "--config", a[1], tail + rest);
      var r' := WithValue(r, "--config", a[1]);
      ScanConfigs(r', tail, rest);
      assert PairValues(a) == [a[1]] + PairValues(tail);
      assert r'.configs + PairValues(tail) == r.configs + PairValues(a);
    }
  }

  lemma {:induction false} ScanPositionals(r: Request, ps: seq<string>, rest: seq<string>)
    requires forall a :: a in ps ==> !IsFlag(a)
    ensures Scan(r, ps + rest) == Scan(r.(positional := r.positional + ps), rest)
    decreases |ps|
  {
    if ps == [] {
      assert r.positional + ps == r.positional;
      assert ps + rest == rest;
    } else {
      assert !IsFlag(ps[0]);
      assert (ps + rest)[0] == ps[0] && (ps + rest)[1..] == ps[1..] + rest;
      var r' := r.(positional := r.positional + [ps[0]]);
      ScanPositionals(r', ps[1..], rest);
      assert r'.positional + ps[1..] == r.positional + ps;
    }
  }

  /** The request the launcher means to make for a manifest's crate and features. */
  function Requested(installRoot: string, c: Crate, f: Features): Request
  {
    Request(
      root := W.Some(installRoot),
      targetDir := W.Some(installRoot + "/cache"),
      configs := ConfigValues,
      git := if c.Git? then W.Some(c.url) else W.None,
      localDir := if c.Local? then W.Some(c.dir) else W.None,
      noDefaultFeatures := f.None? || f.Replace?,
      allFeatures := f.All?,
      positional := CratePositional(c) + (if f.Add? || f.Replace? then f.features else []))
  }

  lemma ScanFeatures(r: Request, f: Features)
    requires (f.Add? || f.Replace?) ==> forall a :: a in f.features ==> !IsFlag(a)
    ensures Scan(r, FeatureArgs(f)) == W.Some(r.(
      noDefaultFeatures := r.noDefaultFeatures || f.None? || f.Replace?,
      allFeatures := r.allFeatures || f.All?,
      positional := r.positional + (if f.Add? || f.Replace? then f.features else [])))
  {
    match f
    case Default =>
      assert r.positional + [] == r.positional;
    case None =>
      ScanSwitch(r, "--no-default-features", []);
      assert FeatureArgs(f) == ["--no-default-features"] + [];
      assert r.positional + [] == r.positional;
    case All =>
      ScanSwitch(r, "--all-features", []);
      assert FeatureArgs(f) == ["--all-features"] + [];
      assert r.positional + [] == r.positional;
    case Add(fs) =>
      ScanPositionals(r, fs, []);
      assert fs + [] == fs;
    case Replace(fs) =>
      ScanSwitch(r, "--no-default-features", fs);
      ScanPositionals(r.(noDefaultFeatures := true), fs, []);
      assert fs + [] == fs;
  }

  lemma ScanSource(r: Request, c: Crate, rest: seq<string>)
    requires forall a :: a in CratePositional(c) ==> !IsFlag(a)
    ensures Scan(r, SourceArgs(c) + rest) == Scan(r.(
      git := if c.Git? then W.Some(c.url) else r.git,
      localDir := if c.Local? then W.Some(c.dir) else r.localDir,
      positional := r.positional + CratePositional(c)), rest)
  {
    match c
    case CratesIO(name) =>
      ScanPositionals(r, [name], rest);
    case Git(url, path) =>
      if path.Some? {
        assert SourceArgs(c) + rest == ["--git", url] + ([path.value] + rest);
        ScanValue(r, "--git", url, [path.value] + rest);
        ScanPositionals(r.(git := W.Some(url)), [path.value], rest);
      } else {
        assert SourceArgs(c) + rest == ["--git", url] + rest;
        ScanValue(r, "--git", url, rest);
        assert r.positional + [] == r.positional;
      }
    case Local(dir) =>
      ScanValue(r, "--path", dir, rest);
      assert r.positional + [] == r.positional;
  }

  /**
    Round trip: read back, the install arguments ask for the install root, its `cache`
    directory, the eight overrides in order, the Git URL or local directory of the
    source, the two feature switches exactly for the variants that write them, and, as
    positional arguments, the crate name or Git sub-path followed by the names of `Add`
    or `Replace`. So the feature names of `Add` and `Replace` reach the installer as bare
    positional arguments, not as the value of a features flag.
  */
  lemma ReadInstallOfInstallArgs(installRoot: string, c: Crate, f: Features)
    requires BareArgsArePlain(c, f)
    ensures ReadInstall(InstallArgs(installRoot, c, f)) == W.Some(Requested(installRoot, c, f))
  {
    var args := InstallArgs(installRoot, c, f);
    var tail := SourceArgs(c) + FeatureArgs(f);
    var afterRoot := ["--target-dir", installRoot + "/cache"] + (ConfigArgs + tail);
    InstallArgsTail(installRoot, c, f);
    var r1 := WithValue(Blank, "--root", installRoot);
    ScanValue(Blank, "--root", installRoot, afterRoot);
    var r2 := WithValue(r1, "--target-dir", installRoot + "/cache");
    ScanValue(r1, "--target-dir", installRoot + "/cache", ConfigArgs + tail);
    assert ReadInstall(args) == Scan(r2, ConfigArgs + tail);
    var r3 := r2.(configs := r2.configs + ConfigValues);
    ConfigArgsArePairs();
    ScanConfigs(r2, ConfigArgs, tail);
    var r4 := r3.(
      git := if c.Git? then W.Some(c.url) else r3.git,
      localDir := if c.Local? then W.Some(c.dir) else r3.localDir,
      positional := r3.positional + CratePositional(c));
    ScanSource(r3, c, FeatureArgs(f));
    assert ReadInstall(args) == Scan(r4, FeatureArgs(f));
    ScanFeatures(r4, f);
    RequestedFrom(installRoot, c, f, r4);
  }

  lemma InstallArgsTail(installRoot: string, c: Crate, f: Features)
    ensures InstallArgs(installRoot, c, f)[0] == "install"
    ensures InstallArgs(installRoot, c, f)[1..] == ["--root", installRoot] + (["--target-dir", installRoot + "/cache"]
      + (ConfigArgs + (SourceArgs(c) + FeatureArgs(f))))
  {
    var tail := SourceArgs(c) + FeatureArgs(f);
    assert InstallArgs(installRoot, c, f) == FixedArgs(installRoot) + tail;
    FixedArgsTail(installRoot, tail);
  }

  lemma FixedArgsTail(installRoot: string, tail: seq<string>)
    ensures (FixedArgs(installRoot) + tail)[0] == "install"
    ensures (FixedArgs(installRoot) + tail)[1..] == ["--root", installRoot] + (["--target-dir", installRoot + "/cache"]
      + (ConfigArgs + tail))
  {
    var head := ["install", "--root", installRoot, "--target-dir", installRoot + "/cache"];
    assert FixedArgs(installRoot) + tail == head + (ConfigArgs + tail);
    assert head[1..] == ["--root", installRoot] + ["--target-dir", installRoot + "/cache"];
  }

  /** The last step of the round trip: the request after the source is read, completed by the features. */
  lemma RequestedFrom(installRoot: string, c: Crate, f: Features, r4: Request)
    requires r4 == Request(W.Some(installRoot), W.Some(installRoot + "/cache"), [] + ConfigValues,
      if c.Git? then W.Some(c.url) else W.None, if c.Local? then W.Some(c.dir) else W.None,
      false, false, [] + CratePositional(c))
    ensures r4.(
      noDefaultFeatures := r4.noDefaultFeatures || f.None? || f.Replace?,
      allFeatures := r4.allFeatures || f.All?,
      positional := r4.positional + (if f.Add? || f.Replace? then f.features else []))
      == Requested(installRoot, c, f)
  {
    assert [] + ConfigValues == ConfigValues;
    assert [] + CratePositional(c) == CratePositional(c);
  }

  /**
    The list does not determine the manifest: a Git source with a sub-path and default
    features gives the same arguments as the same source without a sub-path that adds
    the sub-path as a feature.
  */
  lemma GitPathAndAddedFeatureCoincide(installRoot: string, url: string, p: string)
    ensures InstallArgs(installRoot, Git(url, W.Some(p)), Default)
         == InstallArgs(installRoot, Git(url, W.None), Add([p]))
  {
  }
}
