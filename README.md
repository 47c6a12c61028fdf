# Oxygen launcher, modelled in Dafny

Oxygen is a launcher for Rust applications described by a `.o2` manifest. Its `main`
updates the toolchain with `rustup update` and takes the manifest path from the command
line. It checks that the path leads to a file with the extension `o2`, then opens the
manifest and deserializes it. It builds a `cargo install` command from the manifest's
crate source and feature selection, runs it, waits for it, and spawns the installed
application without waiting for it. Any failure goes through `expect_fancy` or
`panic_fancy`. These print `Oxygen encountered an error!` and the message, then end the
program.

The model has five modules:

- `Wrappers`: `Option` and `Result`.
- `Panic` (src/panic.rs): `panic_fancy` and the two `expect_fancy` combinators. They are
  functions returning `Fancy<T>`: either the value, or `Abort(msg)` with the exact message.
  The error output of an abort is modelled as a string with the banner in front.
- `DebugFormat`: Rust's `{:?}` rendering of the manifest path. It appears in two abort
  messages. The module has an unescaper as its inverse.
- `Install` (src/main.rs:46-70, 100-131): the manifest's data types and the `cargo install`
  argument list. The datatypes `Crate`, `Features` and `Manifest` mirror the enums and the
  struct at src/main.rs:46-70, variant by variant and field by field.
  - The method `BuildInstallArgs` appends to a sequence the way the source fills its
    `Command`.
  - It is proved equal to the function `InstallArgs`.
  - `InstallArgs` is partnered with `ReadInstall`, an option scanner of the kind
    `cargo install` uses. `ReadInstallOfInstallArgs` proves what the list asks the
    installer for.
- `Launcher` (src/main.rs:44, 77-140): `main` and its three parts, as methods. All that
  the operating system answers is an input, `Env`. Each method returns a trace of
  requests (`Event`) and an `Outcome`, `Completed` or `Aborted(msg)`.
  - Every method is proved equal to `RunPipeline` of a list of phases. `RunPipeline` is
    the generic abort-on-first-failure semantics, with its own lemmas.
  - The whole run is proved equal to `Expected`, a case-by-case table of what happens.
  - Every trace follows `Plan`, the requests in their fixed order.

Where a reader might expect otherwise, the model follows the code:

- A foreign file extension aborts the launcher.
- The exit statuses of `rustup update` and `cargo install` are never inspected. Only a
  failure to spawn, or an I/O error while waiting, aborts.
- There is no branch that runs an already installed application first, and there is no
  accumulated problem flag or console handling.

## Model

| member | source | states |
|---|---|---|
| Panic.PanicFancy | src/panic.rs:3-9 | never yields a value; the abort carries exactly the given message |
| Panic.ErrorOutput | src/panic.rs:4 | the text this `eprintln!` writes is the banner `Oxygen encountered an error!` and a newline, then the message, then the line feed `eprintln!` adds |
| Panic.ErrorOutputRoundTrip | src/panic.rs:4 | stripping the banner and the final line feed from that text gives back the message |
| Panic.ErrorOutputInjective | src/panic.rs:4 | different messages give different texts |
| Panic.ExpectResult | src/panic.rs:15-19 | yields a value exactly for `Ok`, and that value is unchanged; on `Err(e)` it aborts with the message, a newline and the `Display` text of `e`, and the abort message splits back at that newline into the two parts |
| Panic.ExpectOption | src/panic.rs:25-29 | yields a value exactly for `Some`, and that value is unchanged; on `None` it aborts with exactly the message |
| DebugFormat.EscapeChar | src/main.rs:92 | a backslash, double quote, apostrophe, newline, carriage return, tab or NUL becomes a two-character escape: a backslash and a character that reads back to it; any other character stays as it is |
| DebugFormat.Escape | src/main.rs:92-93 | escaping at most doubles the length of the path |
| DebugFormat.DebugQuote | src/main.rs:92-93 | `{:?}` of a path is the escaped path between double quotes |
| DebugFormat.EscapeRoundTrip | src/main.rs:92-93 | unescaping the escaped text gives back the original path |
| DebugFormat.DebugQuoteRoundTrip | src/main.rs:92-93 | removing the quotes and unescaping gives back the path |
| DebugFormat.DebugQuoteInjective | src/main.rs:92-93 | different paths give different messages |
| Install.FixedArgs | src/main.rs:101-113 | the subcommand `install`, `--root` and the install root, `--target-dir` and the root's `/cache` directory, then the eight `--config` pairs (no contract of its own: `InstallArgsLayout` and `FixedArgsPairs` state its shape) |
| Install.SourceArgs | src/main.rs:115-123 | one argument list per `Crate` variant (no contract of its own: `SourceArgsTable` states it) |
| Install.SourceArgsTable | src/main.rs:115-123 | the crate name alone for crates.io; `--git` and the URL, then the sub-path exactly when there is one; `--path` and the directory |
| Install.FeatureArgs | src/main.rs:125-131 | one argument list per `Features` variant (no contract of its own: `FeatureArgsTable` states it) |
| Install.FeatureArgsTable | src/main.rs:125-131 | nothing for `Default`; `--no-default-features` alone for `None`; `--all-features` alone for `All`; exactly the names of `Add`; `--no-default-features` followed by exactly the names of `Replace` |
| Install.InstallArgs | src/main.rs:101-131 | the fixed arguments, then the source selector, then the feature flags (no contract of its own: `InstallArgsLayout` and `ReadInstallOfInstallArgs` state what it holds) |
| Install.BuildInstallArgs | src/main.rs:100-131 | appending the fixed arguments, then one `match` arm for the source, then one for the features, gives exactly `InstallArgs` |
| Install.InstallArgsLayout | src/main.rs:101-131 | the list starts with `install`, the root and the `/cache` target directory, then has the eight `--config` pairs in order; the source arguments sit at index 21 and the feature arguments come after them with nothing following |
| Install.FixedArgsPairs | src/main.rs:105-112 | positions 5 to 20 of the fixed arguments alternate `--config` and the eight override values, in order |
| Install.ConfigArgsArePairs | src/main.rs:105-112 | the overrides are eight `--config` flags, each followed by its value |
| Install.ScanSource | src/main.rs:115-123 | read back, the source arguments give the Git URL for `Git`, the directory for `Local`, and the crate name or Git sub-path as a positional argument |
| Install.ScanFeatures | src/main.rs:125-131 | read back, the feature arguments set `--no-default-features` exactly for `None` and `Replace` and `--all-features` exactly for `All`; the names of `Add` and `Replace` become positional arguments, in order |
| Install.ScanConfigs | src/main.rs:105-112 | reading back a list of `--config` pairs collects their values in order |
| Install.ReadInstallOfInstallArgs | src/main.rs:100-131 | reading back the whole list asks for the install root, its `cache` directory, the eight overrides, the source and the feature switches of the manifest, with the crate name or sub-path and the feature names as positional arguments |
| Install.GitPathAndAddedFeatureCoincide | src/main.rs:117-129 | a Git sub-path and an added feature of the same name produce identical argument lists |
| Launcher.ExeExt | src/main.rs:44 | the executable extension is `exe` on Windows and empty on every other target |
| Launcher.AppPath | src/main.rs:139 | the `format!` of the application path (no contract of its own: `AppPathLayout` states its layout) |
| Launcher.AppPathLayout | src/main.rs:139 | the application path is the install root, `/bin/`, the manifest name, then `.exe` on Windows or a bare `.` elsewhere |
| Launcher.AppPathInjective | src/main.rs:139 | different application names under one root give different paths |
| Launcher.AppPathIsNoTool | src/main.rs:139-140 | an application path is never `rustup` or `cargo` |
| Launcher.LastDot | src/main.rs:89 | finds the last dot of a file name, with no dot after it, or reports that there is none |
| Launcher.Extension | src/main.rs:89 | `Path::extension` from the file name (no contract of its own: `ExtensionAfterLastDot` and `ExtensionIsO2` state it) |
| Launcher.ExtensionAfterLastDot | src/main.rs:89 | an extension is the text after a dot that is not the first character, with no dot after it; a name other than `..` that has such a dot always has an extension |
| Launcher.ExtensionIsO2 | src/main.rs:89 | the extension is `o2` exactly when the file name ends in `.o2` after at least one more character |
| Launcher.OpenMsg | src/main.rs:92 | the message of a failed open (no contract of its own: `MessageLayout` states it) |
| Launcher.ReadMsg | src/main.rs:93 | the message of a failed read (no contract of its own: `MessageLayout` states it) |
| Launcher.AppSpawnMsg | src/main.rs:140 | the message of a failed application spawn (no contract of its own: `AppSpawnMsgLayout` states it) |
| Launcher.MessageLayout | src/main.rs:92-93 | the open message is its fixed text, the `{:?}` path and an apostrophe; the read message is its fixed text, the `{:?}` path and `'. Is the file corrupted?` |
| Launcher.AppSpawnMsgLayout | src/main.rs:140 | the spawn message is `Failed to spawn ` and the application path as it is |
| Launcher.ManifestMsgsNamePath | src/main.rs:92-93 | equal open messages, or equal read messages, come from equal paths |
| Launcher.PipelineCompleted | src/main.rs:77-140 | a run completes exactly when no phase aborts, and then it has made every request of every phase |
| Launcher.PipelineAbortsAtFirstFailure | src/main.rs:77-140 | a run aborts with the message of the first failing phase, and makes the requests up to and including that phase and no others |
| Launcher.PipelineTraceIsPrefix | src/main.rs:77-140 | whatever fails, the requests made are a prefix of all planned requests |
| Launcher.PipelineThen | src/main.rs:77-140 | after a completed list of phases, the next phases continue the trace |
| Launcher.PipelineStops | src/main.rs:77-140 | after an aborted list of phases, nothing later happens |
| Launcher.PipelineAppend | src/main.rs:77-140 | two lists of phases in sequence: the second starts only if no phase of the first aborts |
| Launcher.AllEventsAppend | src/main.rs:77-140 | the planned requests of two lists of phases are those of the first followed by those of the second |
| Launcher.UpdateRust | src/main.rs:80-83 | spawning and waiting for `rustup update` is exactly the run of the update phases |
| Launcher.UpdateRun | src/main.rs:80-83 | the update aborts after the spawn request if spawning fails, after the wait request if waiting fails, and otherwise completes with both |
| Launcher.LoadManifest | src/main.rs:87-93 | validating, opening and reading the manifest is exactly the run of the loading phases, and a manifest is returned only when parsing succeeded |
| Launcher.LoadRun | src/main.rs:87-93 | a missing argument, a path that is not a file and a foreign extension each abort with their own message before anything is opened; a failed open or read aborts with the `{:?}` path in the message |
| Launcher.InstallAndSpawn | src/main.rs:100-140 | installing and spawning is exactly the run of the install phases |
| Launcher.InstallRun | src/main.rs:100-140 | spawning `cargo install` with the built arguments, waiting for it, and spawning the application hidden on Windows; each failure aborts with its message after its own request |
| Launcher.Launch | src/main.rs:77-140 | `main` is exactly the run of all its phases and exactly `Expected`, and its trace follows the plan |
| Launcher.LaunchIsExpected | src/main.rs:77-140 | the phase pipeline of `main` equals the case-by-case table `Expected`: the first refused request decides the message, and the trace stops there |
| Launcher.LaunchCompletesIff | src/main.rs:77-140 | `main` completes exactly when every request is granted; then it has made the seven requests in order, with the install arguments and the application path |
| Launcher.ExitStatusIgnored | src/main.rs:80-135 | any exit status of `rustup update` or `cargo install` gives the same run |
| Launcher.RejectedPathStopsAfterUpdate | src/main.rs:87-89 | a missing, non-file or non-`o2` manifest path stops `main` right after the update, with the message of the first check that fails |
| Launcher.ExpectedFollowsPlan | src/main.rs:77-140 | every trace of `Expected` is a prefix of the plan, and passes the update only with a valid path and the loading only with a parsed manifest |
| Launcher.LaunchFollowsPlan | src/main.rs:77-140 | the trace of `main` follows the plan |
| Launcher.PlanPositions | src/main.rs:80-140 | a trace that follows the plan has the rustup spawn and wait, the open and read, the cargo spawn and wait and the application spawn at positions 0 to 6 |
| Launcher.ManifestReadAfterUpdate | src/main.rs:80-93 | the manifest is read only after `rustup update` was spawned and waited for, and after it was opened at the same path |
| Launcher.OpensOnlyO2Files | src/main.rs:87-92 | the manifest is opened only at the command-line path, when that leads to a file whose name ends in `.o2` |
| Launcher.CargoInstallsTheManifest | src/main.rs:100-135 | `cargo install` is spawned at most once, as the fifth request, and only with the arguments built from the parsed manifest |
| Launcher.OnlyToolsAreWaited | src/main.rs:133-140 | only `rustup` and `cargo` are waited for; the application never is |
| Launcher.ApplicationSpawnedLast | src/main.rs:133-140 | the application is the last request, after `cargo install` was spawned and waited for |

## Left out

- build.rs: it embeds a Windows resource manifest through a foreign library at build time. There is no logic in it to model.
- Spawning and waiting for processes, opening the manifest, `env::args`, `Path::is_file`, `Path::file_name` and the RON deserialization are not modelled. Their answers are inputs (`Env`), and errors are given by their `Display` text.
- `remove_window` (src/main.rs:72-75): the creation flags are an operating-system call. The model records only whether the application is spawned hidden, which happens exactly on Windows. On other targets the function has no body for its return type, so that build does not compile; the model does not capture this.
- `env::current_exe`, `parent` and `to_str` (src/main.rs:97-98), and `to_str` on a local crate path (src/main.rs:122): the panics of their `unwrap`s on a missing parent or a non-UTF-8 path are not modelled. The install root and the local directory are given as strings.
- `env::args().nth(1)` (src/main.rs:87) converts the arguments it passes over to `String`, and panics with a plain `panic!`, not `panic_fancy`, when one of them is not valid Unicode. The model takes the argument as an `Option<string>` and has no such case.
- The progress lines printed by `main`, the five-second sleep and the unwinding `panic!` in `panic_fancy` (src/panic.rs:6-8) are not modelled. An abort is the outcome `Aborted(msg)`. `Panic.ErrorOutput` is only what the `eprintln!` at src/panic.rs:4 writes: the default panic hook then adds its own report (`thread 'main' panicked at …`, `explicit panic` and the backtrace note) to standard error, and that report is not modelled.
- DebugFormat.EscapeChar, DebugFormat.Escape: Rust's `char::escape_debug` also writes `\u{…}` for the other control and non-printable characters and for grapheme-extended characters such as U+0301 (a combining accent), though those are printable. The model escapes only backslash, double quote, apostrophe, newline, carriage return, tab and NUL, and leaves every other character as it is.
- Launcher.Extension: `Path::extension` works on the final component of the path, and that component is taken as an input rather than computed from the path.
- The application path keeps its `.` when `EXE_EXT` is empty, as the format string writes it (Launcher.AppPathLayout).
- The crates.io crate name, a Git sub-path and the names in `Add` and `Replace` are passed to `cargo install` as bare arguments, as the code writes them (Install.ReadInstallOfInstallArgs). That lemma assumes none of these strings is itself a flag.
