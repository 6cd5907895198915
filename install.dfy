/**
  The `install` command (Library/Homebrew/cmd/install.rb).

  The command's environment (files on disk, the blacklist, the tap name
  pattern, the CPU, permissions, doctor checks, the formula installer) is
  an input value; what the command does is an ordered trace of events plus
  the way it ends: normally, by a raised error, or by `abort`.
 */
module Install {
  import opened Wrappers
  import Help

  /** `Hardware::CPU.type`. */
  datatype CpuType = Intel | Ppc | Dunno

  /** The doctor checks run by check_xcode, by name. */
  datatype DoctorCheck = XcodeClt | XcodeLicenseApproved | OsxGccInstaller

  const XcodeDoctorChecks: seq<DoctorCheck> := [XcodeClt, XcodeLicenseApproved, OsxGccInstaller]

  /** How `FormulaInstaller#install` returns for one formula. */
  datatype InstallerOutcome =
    | Ok                                      // returns normally
    | AlreadyAttempted                        // FormulaInstallationAlreadyAttemptedError
    | AlreadyInstalled(message: string)       // FormulaAlreadyInstalledError
    | CannotInstall(message: string)          // CannotInstallFormulaError
    | Unavailable(name: string, message: string)  // FormulaUnavailableError

  /** `ARGV.formulae`: the named formulae, or the FormulaUnavailableError raised resolving one. */
  datatype FormulaeList = Resolved(formulae: seq<string>) | Unresolved(name: string, message: string)

  /** Everything the command reads from its surroundings. */
  datatype Env = Env(
    args: seq<string>,                                // ARGV, for `ARGV.include?`
    named: seq<string>,                               // ARGV.named
    force: bool,                                      // ARGV.force?
    formulae: FormulaeList,                           // ARGV.formulae
    coreFormulaFile: string -> bool,                  // File.file? of Library/Formula/<name>.rb
    pathExists: string -> bool,                       // File.exist? name
    blacklisted: string -> Option<string>,            // blacklisted? name
    tapMatch: string -> Option<(string, string)>,     // name =~ HOMEBREW_TAP_FORMULA_REGEX, with $1 and $2
    cpu: CpuType,
    cellar: string,                                   // HOMEBREW_CELLAR
    cellarParent: string,                             // HOMEBREW_CELLAR.parent
    cellarExists: bool,
    cellarWritable: bool,                             // HOMEBREW_CELLAR.writable_real?
    cellarCreatable: bool,                            // FileUtils.mkdir_p succeeds
    prefix: string,                                   // HOMEBREW_PREFIX
    prefixWritable: bool,                             // HOMEBREW_PREFIX.writable_real?
    doctor: DoctorCheck -> Option<string>,            // the output of each doctor check
    macportsOrFink: seq<string>,                      // MacOS.macports_or_fink
    installer: string -> InstallerOutcome)            // FormulaInstaller.new(f).install

  /** One observable step of the command. */
  datatype Event =
    | HelpPrinted(text: string)               // print_help_for(:install)
    | Warning(text: string)                   // opoo
    | Failed(text: string)                    // ofail
    | Said(text: string)                      // puts
    | TapInstalled(user: string, repo: string)  // install_tap
    | CellarCreated(path: string)             // FileUtils.mkdir_p
    | TapsSearched(name: string)              // puts_columns(search_taps(query_regexp(name)))
    | InstallCalled(formula: string)          // fi.install
    | CaveatsCalled(formula: string)          // fi.caveats
    | FinishCalled(formula: string)           // fi.finish

  /** The errors the command raises. */
  datatype Error =
    | FormulaUnspecified                      // FormulaUnspecifiedError
    | RuntimeError(message: string)           // raise "<message>"
    | NoMethodError(cmd: string)              // the help generator of `cmd` is nil

  /** How the command ends. */
  datatype Ending = Completed | Raised(error: Error) | Aborted(message: string)

  datatype Trace = Trace(events: seq<Event>, ending: Ending)

  /** Run `t`, then `u` only if `t` completed normally. */
  function Then(t: Trace, u: Trace): (r: Trace)
    ensures t.events <= r.events
    ensures t.ending.Completed? ==> r.events == t.events + u.events && r.ending == u.ending
    ensures !t.ending.Completed? ==> r == t
  {
    if t.ending.Completed? then Trace(t.events + u.events, u.ending) else t
  }

  const Done: Trace := Trace([], Completed)

  lemma ThenAssoc(t: Trace, u: Trace, v: Trace)
    ensures Then(Then(t, u), v) == Then(t, Then(u, v))
  {
    if t.ending.Completed? && u.ending.Completed? {
      assert (t.events + u.events) + v.events == t.events + (u.events + v.events);
    }
  }

  // ---------------------------------------------------------------------
  // Messages
  // ---------------------------------------------------------------------

  const HeadMessage := "Specify `--HEAD` in uppercase to build from trunk."

  const UnsupportedCpuMessage :=
    "Sorry, Homebrew does not support your computer's CPU architecture.\nFor PPC support, see: https://github.com/mistydemeo/tigerbrew\n"

  const MacportsWarning := "It appears you have MacPorts or Fink installed."
  const MacportsNotice1 := "Software installed with other package managers causes known problems for"
  const MacportsNotice2 := "Homebrew. If a formula fails to build, uninstall MacPorts/Fink and try again."
  const SearchingTaps := "Searching taps..."

  /** The warning for the deprecated flag `--use-<legacy>`, naming `--cc=<current>`. */
  function DeprecationMessage(legacy: string, current: string): string
  {
    "\"--use-" + legacy + "\" is deprecated and will be removed in a future version.\nPlease use \"--cc=" + current + "\" instead.\n"
  }

  function BlacklistMessage(name: string, msg: string): string
  {
    "No available formula for " + name + "\n" + msg
  }

  function CannotWriteMessage(path: string): string
  {
    "Cannot write to " + path
  }

  function CellarMessage(cellar: string, parent: string): string
  {
    "Could not create " + cellar + "\nCheck you have permission to write to " + parent + "\n"
  }

  // ---------------------------------------------------------------------
  // Argument checks
  // ---------------------------------------------------------------------

  predicate HelpRequested(args: seq<string>)
  {
    "-h" in args || "--help" in args
  }

  /** The deprecated compiler flags, as `legacy => current` in the order written. */
  const Deprecations: seq<(string, string)> := [("gcc", "gcc-4.2"), ("llvm", "llvm-gcc"), ("clang", "clang")]

  /** One warning for each entry of `table` whose `--use-<old>` flag is present. */
  function DeprecationWarnings(args: seq<string>, table: seq<(string, string)>): seq<Event>
  {
    if table == [] then []
    else
      (if "--use-" + table[0].0 in args then [Warning(DeprecationMessage(table[0].0, table[0].1))] else [])
      + DeprecationWarnings(args, table[1..])
  }

  // ---------------------------------------------------------------------
  // Name checks (blacklist and implicit tap), skipped under --force
  // ---------------------------------------------------------------------

  /** The blacklist message that stops the command at `name`, if any. */
  function BlacklistHit(env: Env, name: string): Option<string>
  {
    if !env.coreFormulaFile(name) then env.blacklisted(name) else None
  }

  /** The tap `name` asks to install implicitly, if any. */
  function TapOf(env: Env, name: string): Option<(string, string)>
  {
    if !env.pathExists(name) then env.tapMatch(name) else None
  }

  function CheckName(env: Env, name: string): Trace
  {
    match BlacklistHit(env, name)
    case Some(msg) => Trace([], Raised(RuntimeError(BlacklistMessage(name, msg))))
    case None =>
      match TapOf(env, name)
      case Some(tap) => Trace([TapInstalled(tap.0, tap.1)], Completed)
      case None => Done
  }

  function CheckNames(env: Env, names: seq<string>): Trace
  {
    if names == [] then Done else Then(CheckName(env, names[0]), CheckNames(env, names[1..]))
  }

  // ---------------------------------------------------------------------
  // Preinstall checks
  // ---------------------------------------------------------------------

  predicate CpuUnsupported(cpu: CpuType)
  {
    cpu == Ppc || cpu == Dunno
  }

  function CheckPpc(cpu: CpuType): Trace
  {
    if CpuUnsupported(cpu) then Trace([], Aborted(UnsupportedCpuMessage)) else Done
  }

  predicate CellarUnwritable(env: Env)
  {
    env.cellarExists && !env.cellarWritable
  }

  predicate PrefixUnwritable(env: Env)
  {
    !(env.prefixWritable || env.prefix == "/usr/local")
  }

  function CheckWritableInstallLocation(env: Env): Trace
  {
    if CellarUnwritable(env) then Trace([], Raised(RuntimeError(CannotWriteMessage(env.cellar))))
    else if PrefixUnwritable(env) then Trace([], Raised(RuntimeError(CannotWriteMessage(env.prefix))))
    else Done
  }

  /** The warnings of check_xcode: the output of each doctor check that has one. */
  function XcodeWarnings(env: Env, checks: seq<DoctorCheck>): seq<Event>
  {
    if checks == [] then []
    else
      (match env.doctor(checks[0]) case Some(out) => [Warning(out)] case None => [])
      + XcodeWarnings(env, checks[1..])
  }

  /** check_xcode: ask each doctor check in turn and warn with its output. */
  method CheckXcode(env: Env) returns (warnings: seq<Event>)
    ensures warnings == XcodeWarnings(env, XcodeDoctorChecks)
  {
    warnings := [];
    for i := 0 to |XcodeDoctorChecks|
      invariant warnings + XcodeWarnings(env, XcodeDoctorChecks[i..]) == XcodeWarnings(env, XcodeDoctorChecks)
    {
      assert XcodeDoctorChecks[i..][1..] == XcodeDoctorChecks[i + 1..];
      var out := env.doctor(XcodeDoctorChecks[i]);
      if out.Some? {
        warnings := warnings + [Warning(out.value)];
      }
    }
  }

  function CheckMacports(env: Env): Trace
  {
    if env.macportsOrFink != [] then Trace([Warning(MacportsWarning), Said(MacportsNotice1), Said(MacportsNotice2)], Completed)
    else Done
  }

  function CheckCellar(env: Env): Trace
  {
    if env.cellarExists then Done
    else if env.cellarCreatable then Trace([CellarCreated(env.cellar)], Completed)
    else Trace([], Raised(RuntimeError(CellarMessage(env.cellar, env.cellarParent))))
  }

  /** perform_preinstall_checks: ppc, writable location, xcode, macports, cellar, in that order. */
  function PreinstallChecks(env: Env): Trace
  {
    Then(Then(Then(Then(CheckPpc(env.cpu), CheckWritableInstallLocation(env)),
      Trace(XcodeWarnings(env, XcodeDoctorChecks), Completed)), CheckMacports(env)), CheckCellar(env))
  }

  method PerformPreinstallChecks(env: Env) returns (t: Trace)
    ensures t == PreinstallChecks(env)
  {
    t := CheckPpc(env.cpu);
    if !t.ending.Completed? { return; }
    t := Then(t, CheckWritableInstallLocation(env));
    if !t.ending.Completed? { return; }
    var warnings := CheckXcode(env);
    t := Then(t, Trace(warnings, Completed));
    t := Then(t, CheckMacports(env));
    t := Then(t, CheckCellar(env));
  }

  // ---------------------------------------------------------------------
  // Installing the formulae
  // ---------------------------------------------------------------------

  /** An exception install_formula lets through to its caller. */
  datatype Escape = Handled | CannotInstallRaised(message: string) | UnavailableRaised(name: string, message: string)

  datatype Attempt = Attempt(events: seq<Event>, escape: Escape)

  /** install_formula: install, then caveats, then finish; two errors are rescued here. */
  function InstallFormula(env: Env, f: string): Attempt
  {
    match env.installer(f)
    case Ok => Attempt([InstallCalled(f), CaveatsCalled(f), FinishCalled(f)], Handled)
    case AlreadyAttempted => Attempt([InstallCalled(f)], Handled)
    case AlreadyInstalled(m) => Attempt([InstallCalled(f), Warning(m)], Handled)
    case CannotInstall(m) => Attempt([InstallCalled(f)], CannotInstallRaised(m))
    case Unavailable(n, m) => Attempt([InstallCalled(f)], UnavailableRaised(n, m))
  }

  /** What the outer rescue of FormulaUnavailableError prints. */
  function UnavailableReport(name: string, message: string): seq<Event>
  {
    [Failed(message), Said(SearchingTaps), TapsSearched(name)]
  }

  /** Whether install_formula lets a FormulaUnavailableError out for `f`, which ends the formula loop. */
  predicate Ends(env: Env, f: string)
  {
    env.installer(f).Unavailable?
  }

  /**
    What one formula contributes to the loop: the events of install_formula,
    then what the rescue that catches its error prints (the inner one for
    CannotInstallFormulaError, the outer one for FormulaUnavailableError).
   */
  function AttemptEvents(env: Env, f: string): seq<Event>
  {
    var a := InstallFormula(env, f);
    match a.escape
    case Handled => a.events
    case CannotInstallRaised(m) => a.events + [Failed(m)]
    case UnavailableRaised(n, m) => a.events + UnavailableReport(n, m)
  }

  /** The formula loop over `fs`: a CannotInstallFormulaError is reported and skipped, a FormulaUnavailableError ends the loop. */
  function InstallEach(env: Env, fs: seq<string>): seq<Event>
  {
    if fs == [] then []
    else if Ends(env, fs[0]) then AttemptEvents(env, fs[0])
    else AttemptEvents(env, fs[0]) + InstallEach(env, fs[1..])
  }

  /** AttemptEvents by the way install_formula ends. */
  lemma RescuedOutput(env: Env, f: string)
    ensures InstallFormula(env, f).escape.Handled? ==> AttemptEvents(env, f) == InstallFormula(env, f).events
    ensures InstallFormula(env, f).escape.CannotInstallRaised? ==>
      AttemptEvents(env, f) == InstallFormula(env, f).events + [Failed(InstallFormula(env, f).escape.message)]
    ensures InstallFormula(env, f).escape.UnavailableRaised? ==>
      AttemptEvents(env, f) == InstallFormula(env, f).events
        + UnavailableReport(InstallFormula(env, f).escape.name, InstallFormula(env, f).escape.message)
  {
  }

  lemma AppendAssoc(a: seq<Event>, b: seq<Event>, c: seq<Event>)
    ensures (a + b) + c == a + (b + c)
  {
  }

  /** One step of the formula loop, in terms of what install_formula lets out. */
  lemma InstallEachStep(env: Env, fs: seq<string>)
    requires fs != []
    ensures Ends(env, fs[0]) <==> InstallFormula(env, fs[0]).escape.UnavailableRaised?
    ensures Ends(env, fs[0]) ==> InstallEach(env, fs) == AttemptEvents(env, fs[0])
    ensures !Ends(env, fs[0]) ==> InstallEach(env, fs) == AttemptEvents(env, fs[0]) + InstallEach(env, fs[1..])
  {
  }

  function InstallFormulae(env: Env): seq<Event>
  {
    match env.formulae
    case Unresolved(n, m) => UnavailableReport(n, m)
    case Resolved(fs) => InstallEach(env, fs)
  }

  // ---------------------------------------------------------------------
  // The install help (the heredoc registered at load time)
  // ---------------------------------------------------------------------

  /** The start of the usage line of the install heredoc. */
  const UsagePrefix: string := "    `install "

  /** The first line of the install heredoc: the usage line, indented four spaces. */
  const InstallUsageLine: string := UsagePrefix + "[--debug] [--env=<std|super>] [--ignore-dependencies] [--only-dependencies] [--fresh] [--cc=<compiler>] [--build-from-source] [--devel|--HEAD]` <formula>:\n"

  /** The rest of the install heredoc, indented eight spaces. */
  const InstallHelpBody: string := "        Install <formula>.\n\n        <formula> is usually the name of the formula to install, but it can be specified\n        several different ways. See [SPECIFYING FORMULAE][].\n\n        If `--debug` is passed and brewing fails, open an interactive debugging\n        session with access to IRB, ruby-debug, or a shell inside the temporary\n        build directory.\n\n        If `--env=std` is passed, use the standard build environment instead of superenv.\n\n        If `--env=super` is passed, use superenv even if the formula specifies the\n        standard build environment.\n\n        If `--ignore-dependencies` is passed, skip installing any dependencies of\n        any kind. If they are not already present, the formula will probably fail\n        to install.\n\n        If `--only-dependencies` is passed, install the dependencies with specified\n        options but do not install the specified formula.\n\n        If `--fresh` is passed, the installation process will not re-use any\n        options from previous installs.\n\n        If `--cc=<compiler>` is passed, attempt to compile using <compiler>.\n        <compiler> should be the name of the compiler's executable, for instance\n        `gcc-4.2` for Apple's GCC 4.2, or `gcc-4.8` for a Homebrew-provided GCC\n        4.8.\n\n        If `--build-from-source` is passed, compile from source even if a bottle\n        is provided for <formula>.\n\n        If `--devel` is passed, and <formula> defines it, install the development version.\n\n        If `--HEAD` is passed, and <formula> defines it, install the HEAD version,\n        aka master, trunk, unstable.\n\n        To install a newer version of HEAD use\n        `brew rm <foo> && brew install --HEAD <foo>`.\n"

  const InstallHelpText: string := InstallUsageLine + InstallHelpBody

  /** `help_for :install do ... end`: register the install heredoc. */
  method RegisterInstallHelp(help: Help.Registry)
    modifies help
    ensures help.cmdHelp == old(help.cmdHelp)["install" := () => InstallHelpText]
  {
    var _ := help.HelpFor(Help.Sym("install"), Some(() => InstallHelpText));
  }

  /**
    The install heredoc has an indent, the four spaces of its first line, so
    its help string is not nil and starts with the usage line, four spaces off.
   */
  lemma InstallHelpStartsWithUsage()
    ensures Help.HelpString(InstallHelpText) == Some(Help.Dedent(InstallHelpText, "    "))
    ensures "`install " <= Help.Dedent(InstallHelpText, "    ")
  {
    InstallHelpIndented();
    Help.DedentFirstLine(InstallHelpText, "`install ");
  }

  /** The install heredoc starts with four spaces and the word `install. */
  lemma InstallHelpIndented()
    ensures |InstallHelpText| >= 13 && InstallHelpText[..13] == "    " + "`install "
  {
    UsageLineIndented();
    PrefixOfAppend(InstallUsageLine, InstallHelpBody, 13);
  }

  lemma UsageLineIndented()
    ensures |InstallUsageLine| >= 13 && InstallUsageLine[..13] == "    " + "`install "
  {
    assert |UsagePrefix| == 13;
    assert InstallUsageLine[..|UsagePrefix|] == UsagePrefix;
  }

  /** A prefix of `a` is a prefix of `a + b`. */
  lemma PrefixOfAppend(a: string, b: string, n: nat)
    requires n <= |a|
    ensures (a + b)[..n] == a[..n]
  {
  }

  // ---------------------------------------------------------------------
  // The whole command
  // ---------------------------------------------------------------------

  /** The loop over ARGV.named, which `unless ARGV.force?` skips. */
  function NameLoop(env: Env): Trace
  {
    if env.force then Done else CheckNames(env, env.named)
  }

  /** The events before the preinstall checks: deprecation warnings, the --head check and the name loop. */
  function NamePhase(env: Env): Trace
  {
    Then(Trace(DeprecationWarnings(env.args, Deprecations), if "--head" in env.args then Raised(RuntimeError(HeadMessage)) else Completed),
      NameLoop(env))
  }

  /** What `brew install` does, given what print_help_for(:install) yields. */
  function Run(env: Env, help: Result<string, Help.HelpError>): Trace
  {
    if HelpRequested(env.args) then
      match help
      case Success(text) => Trace([HelpPrinted(text)], Completed)
      case Failure(e) => Trace([], Raised(NoMethodError(e.cmd)))
    else if env.named == [] then Trace([], Raised(FormulaUnspecified))
    else Then(Then(NamePhase(env), PreinstallChecks(env)), Trace(InstallFormulae(env), Completed))
  }

  /** The loop over the deprecation hash: warn once for each deprecated flag present. */
  method WarnDeprecatedFlags(args: seq<string>) returns (events: seq<Event>)
    ensures events == DeprecationWarnings(args, Deprecations)
  {
    events := [];
    for i := 0 to |Deprecations|
      invariant events + DeprecationWarnings(args, Deprecations[i..]) == DeprecationWarnings(args, Deprecations)
    {
      assert Deprecations[i..][1..] == Deprecations[i + 1..];
      var (legacy, current) := Deprecations[i];
      var opt := "--use-" + legacy;
      if opt in args {
        events := events + [Warning(DeprecationMessage(legacy, current))];
      }
    }
  }

  /** The loop over ARGV.named: raise on a blacklisted name, install the tap of a tap name. */
  method CheckNamedFormulae(env: Env) returns (t: Trace)
    ensures t == CheckNames(env, env.named)
  {
    var events := [];
    for j := 0 to |env.named|
      invariant Then(Trace(events, Completed), CheckNames(env, env.named[j..])) == CheckNames(env, env.named)
    {
      assert env.named[j..][1..] == env.named[j + 1..];
      var name := env.named[j];
      ThenAssoc(Trace(events, Completed), CheckName(env, name), CheckNames(env, env.named[j + 1..]));
      if !env.coreFormulaFile(name) {
        var msg := env.blacklisted(name);
        if msg.Some? {
          return Trace(events, Raised(RuntimeError(BlacklistMessage(name, msg.value))));
        }
      }
      if !env.pathExists(name) && env.tapMatch(name).Some? {
        var (user, repo) := env.tapMatch(name).value;
        events := events + [TapInstalled(user, repo)];
      }
    }
    t := Trace(events, Completed);
  }

  /** The loop over ARGV.formulae, inside the rescue of FormulaUnavailableError. */
  method InstallNamedFormulae(env: Env) returns (events: seq<Event>)
    ensures events == InstallFormulae(env)
  {
    match env.formulae
    case Unresolved(n, m) =>
      events := UnavailableReport(n, m);
    case Resolved(fs) =>
      events := [];
      var k := 0;
      while k < |fs|
        invariant 0 <= k <= |fs|
        invariant events + InstallEach(env, fs[k..]) == InstallEach(env, fs)
      {
        assert fs[k..][1..] == fs[k + 1..];
        InstallEachStep(env, fs[k..]);
        var a := InstallFormula(env, fs[k]);
        var out := a.events;
        match a.escape {
          case Handled =>
          case CannotInstallRaised(m) =>
            out := out + [Failed(m)];
          case UnavailableRaised(n, m) =>
            out := out + UnavailableReport(n, m);
        }
        RescuedOutput(env, fs[k]);
        AppendAssoc(events, out, InstallEach(env, fs[k + 1..]));
        events := events + out;
        if a.escape.UnavailableRaised? {
          break;
        }
        k := k + 1;
      }
  }

  /** Homebrew#install. */
  method Install(env: Env, help: Help.Registry) returns (events: seq<Event>, ending: Ending)
    ensures Trace(events, ending) == Run(env, help.PrintHelpFor(Help.Sym("install")))
  {
    if "-h" in env.args || "--help" in env.args {
      var out := help.PrintHelpFor(Help.Sym("install"));
      if out.Success? {
        return [HelpPrinted(out.value)], Completed;
      }
      return [], Raised(NoMethodError(out.error.cmd));
    }
    if env.named == [] {
      return [], Raised(FormulaUnspecified);
    }

    RunPhases(env, help.PrintHelpFor(Help.Sym("install")));
    events := WarnDeprecatedFlags(env.args);
    if "--head" in env.args {
      return events, Raised(RuntimeError(HeadMessage));
    }
    var names := Done;
    if !env.force {
      names := CheckNamedFormulae(env);
    }
    events := events + names.events;
    if !names.ending.Completed? {
      return events, names.ending;
    }

    var checks := PerformPreinstallChecks(env);
    events := events + checks.events;
    if !checks.ending.Completed? {
      return events, checks.ending;
    }

    var installs := InstallNamedFormulae(env);
    events := events + installs;
    ending := Completed;
  }

  /**
    `brew install --help` on a registry holding only the install heredoc
    prints exactly the dedented heredoc, whose first line starts with the
    usage of the command.
   */
  method ShowInstallHelp(env: Env) returns (events: seq<Event>, ending: Ending)
    requires HelpRequested(env.args)
    ensures ending == Completed
    ensures events == [HelpPrinted(Help.Puts(Help.Dedent(InstallHelpText, "    ")))]
    ensures "`install " <= events[0].text
  {
    var help := new Help.Registry();
    RegisterInstallHelp(help);
    events, ending := Install(env, help);
    InstallHelpStartsWithUsage();
  }

  // ---------------------------------------------------------------------
  // Properties of the command
  // ---------------------------------------------------------------------

  /** With -h or --help only the install help is printed: no check, tap or install happens. */
  lemma HelpFlagOnlyPrintsHelp(env: Env, help: Result<string, Help.HelpError>)
    requires HelpRequested(env.args)
    ensures help.Success? ==> Run(env, help) == Trace([HelpPrinted(help.value)], Completed)
    ensures help.Failure? ==> Run(env, help) == Trace([], Raised(NoMethodError(help.error.cmd)))
  {
  }

  /** Without a formula name the command raises FormulaUnspecifiedError before anything else. */
  lemma NoNamesRaisesUnspecified(env: Env, help: Result<string, Help.HelpError>)
    requires !HelpRequested(env.args) && env.named == []
    ensures Run(env, help) == Trace([], Raised(FormulaUnspecified))
  {
  }

  /** The warning for one deprecated flag, if it is present. */
  function DeprecationWarning(args: seq<string>, legacy: string, current: string): seq<Event>
  {
    if "--use-" + legacy in args then [Warning(DeprecationMessage(legacy, current))] else []
  }

  /**
    Exactly one warning per deprecated flag present, in the order gcc,
    llvm, clang, naming --cc=gcc-4.2, --cc=llvm-gcc and --cc=clang.
   */
  lemma DeprecationWarningsExact(args: seq<string>)
    ensures DeprecationWarnings(args, Deprecations)
      == DeprecationWarning(args, "gcc", "gcc-4.2") + DeprecationWarning(args, "llvm", "llvm-gcc")
         + DeprecationWarning(args, "clang", "clang")
  {
    var t1 := [("llvm", "llvm-gcc"), ("clang", "clang")];
    var t2 := [("clang", "clang")];
    assert Deprecations == [("gcc", "gcc-4.2")] + t1;
    assert t1 == [("llvm", "llvm-gcc")] + t2;
    assert t2 == [("clang", "clang")] + [];
    DeprecationWarningsCons(args, "gcc", "gcc-4.2", t1);
    DeprecationWarningsCons(args, "llvm", "llvm-gcc", t2);
    DeprecationWarningsCons(args, "clang", "clang", []);
    assert DeprecationWarning(args, "clang", "clang") + [] == DeprecationWarning(args, "clang", "clang");
    AppendAssoc(DeprecationWarning(args, "gcc", "gcc-4.2"), DeprecationWarning(args, "llvm", "llvm-gcc"),
      DeprecationWarning(args, "clang", "clang"));
  }

  lemma DeprecationWarningsCons(args: seq<string>, legacy: string, current: string, rest: seq<(string, string)>)
    ensures DeprecationWarnings(args, [(legacy, current)] + rest)
      == DeprecationWarning(args, legacy, current) + DeprecationWarnings(args, rest)
  {
    assert ([(legacy, current)] + rest)[1..] == rest;
  }

  /**
    The command, phase by phase, once the arguments pass: the deprecation
    warnings, then the --head check, the name loop, the preinstall checks
    and the formula loop, each running only if the one before completed.
   */
  lemma RunPhases(env: Env, help: Result<string, Help.HelpError>)
    requires !HelpRequested(env.args) && env.named != []
    ensures "--head" in env.args ==>
      Run(env, help) == Trace(DeprecationWarnings(env.args, Deprecations), Raised(RuntimeError(HeadMessage)))
    ensures "--head" !in env.args && !NameLoop(env).ending.Completed? ==>
      Run(env, help) == Trace(DeprecationWarnings(env.args, Deprecations) + NameLoop(env).events, NameLoop(env).ending)
    ensures "--head" !in env.args && NameLoop(env).ending.Completed? && !PreinstallChecks(env).ending.Completed? ==>
      Run(env, help) == Trace(DeprecationWarnings(env.args, Deprecations) + NameLoop(env).events + PreinstallChecks(env).events,
                              PreinstallChecks(env).ending)
    ensures "--head" !in env.args && NameLoop(env).ending.Completed? && PreinstallChecks(env).ending.Completed? ==>
      Run(env, help) == Trace(DeprecationWarnings(env.args, Deprecations) + NameLoop(env).events + PreinstallChecks(env).events
                              + InstallFormulae(env), Completed)
  {
  }

  /** Once the arguments pass, the trace starts with the deprecation warnings. */
  lemma RunStartsWithDeprecationWarnings(env: Env, help: Result<string, Help.HelpError>)
    requires !HelpRequested(env.args) && env.named != []
    ensures DeprecationWarnings(env.args, Deprecations) <= Run(env, help).events
  {
    RunPhases(env, help);
  }

  /** Everything the command does after the deprecation warnings. */
  function AfterWarnings(env: Env): Trace
  {
    if "--head" in env.args then Trace([], Raised(RuntimeError(HeadMessage)))
    else if !NameLoop(env).ending.Completed? then NameLoop(env)
    else if !PreinstallChecks(env).ending.Completed? then
      Trace(NameLoop(env).events + PreinstallChecks(env).events, PreinstallChecks(env).ending)
    else Trace(NameLoop(env).events + PreinstallChecks(env).events + InstallFormulae(env), Completed)
  }

  /** `t` with the events `w` in front. */
  function Prefixed(w: seq<Event>, t: Trace): Trace
  {
    Trace(w + t.events, t.ending)
  }

  lemma RunSplitsAtWarnings(env: Env, help: Result<string, Help.HelpError>)
    requires !HelpRequested(env.args) && env.named != []
    ensures Run(env, help) == Prefixed(DeprecationWarnings(env.args, Deprecations), AfterWarnings(env))
  {
    var w := DeprecationWarnings(env.args, Deprecations);
    RunPhases(env, help);
    var n := NameLoop(env).events;
    var c := PreinstallChecks(env).events;
    if "--head" in env.args {
      assert w + [] == w;
    } else {
      AppendAssoc(w, n, c);
      AppendAssoc(w, n + c, InstallFormulae(env));
      AppendAssoc(w + n, c, InstallFormulae(env));
    }
  }

  /** The formula loop depends on the installer only. */
  lemma {:induction false} InstallEachDependsOnInstaller(env: Env, env': Env, fs: seq<string>)
    requires env.installer == env'.installer
    ensures InstallEach(env, fs) == InstallEach(env', fs)
  {
    if fs != [] {
      InstallEachDependsOnInstaller(env, env', fs[1..]);
    }
  }

  /** The name loop depends only on the blacklist hits and the taps of its names. */
  lemma {:induction false} CheckNamesDependOnHitsAndTaps(env: Env, env': Env, names: seq<string>)
    requires forall j :: 0 <= j < |names| ==> BlacklistHit(env, names[j]) == BlacklistHit(env', names[j])
    requires forall j :: 0 <= j < |names| ==> TapOf(env, names[j]) == TapOf(env', names[j])
    ensures CheckNames(env, names) == CheckNames(env', names)
  {
    if names != [] {
      CheckNamesDependOnHitsAndTaps(env, env', names[1..]);
    }
  }

  lemma {:induction false} XcodeWarningsDependOnDoctor(env: Env, env': Env, checks: seq<DoctorCheck>)
    requires env.doctor == env'.doctor
    ensures XcodeWarnings(env, checks) == XcodeWarnings(env', checks)
  {
    if checks != [] {
      XcodeWarningsDependOnDoctor(env, env', checks[1..]);
    }
  }

  /** The preinstall checks read only the CPU, the cellar, the prefix, the doctor checks and the MacPorts/Fink scan. */
  lemma PreinstallChecksFrame(env: Env, env': Env)
    requires env.cpu == env'.cpu && env.cellar == env'.cellar && env.cellarParent == env'.cellarParent
    requires env.cellarExists == env'.cellarExists && env.cellarWritable == env'.cellarWritable
    requires env.cellarCreatable == env'.cellarCreatable && env.prefix == env'.prefix
    requires env.prefixWritable == env'.prefixWritable && env.doctor == env'.doctor
    requires env.macportsOrFink == env'.macportsOrFink
    ensures PreinstallChecks(env) == PreinstallChecks(env')
  {
    XcodeWarningsDependOnDoctor(env, env', XcodeDoctorChecks);
  }

  /**
    A deprecated --use-* flag only adds its warning: the command then does
    exactly what it does without the flag.
   */
  lemma DeprecatedFlagDoesNotStop(env: Env, help: Result<string, Help.HelpError>, flag: string)
    requires flag == "--use-gcc" || flag == "--use-llvm" || flag == "--use-clang"
    requires !HelpRequested(env.args) && env.named != []
    ensures Run(env, help) == Prefixed(DeprecationWarnings(env.args, Deprecations), AfterWarnings(env))
    ensures Run(env.(args := env.args + [flag]), help)
      == Prefixed(DeprecationWarnings(env.args + [flag], Deprecations), AfterWarnings(env))
  {
    var env' := env.(args := env.args + [flag]);
    assert !HelpRequested(env'.args);
    assert ("--head" in env'.args) == ("--head" in env.args);
    CheckNamesDependOnHitsAndTaps(env, env', env.named);
    InstallEachDependsOnInstaller(env, env', if env.formulae.Resolved? then env.formulae.formulae else []);
    PreinstallChecksFrame(env, env');
    assert AfterWarnings(env') == AfterWarnings(env);
    RunSplitsAtWarnings(env, help);
    RunSplitsAtWarnings(env', help);
  }

  /** One TapInstalled event for each name whose tap is installed, in order. */
  function TapInstalls(env: Env, names: seq<string>): seq<Event>
  {
    if names == [] then []
    else
      (match TapOf(env, names[0]) case Some(tap) => [TapInstalled(tap.0, tap.1)] case None => [])
      + TapInstalls(env, names[1..])
  }

  /** When no name is blacklisted, the name loop installs the taps of the tap names and goes on. */
  lemma {:induction false} CheckNamesWithoutHit(env: Env, names: seq<string>)
    requires forall j :: 0 <= j < |names| ==> BlacklistHit(env, names[j]).None?
    ensures CheckNames(env, names) == Trace(TapInstalls(env, names), Completed)
  {
    if names != [] {
      CheckNamesWithoutHit(env, names[1..]);
    }
  }

  /** The first blacklisted name raises its message after the taps of the names before it. */
  lemma {:induction false} CheckNamesFirstHit(env: Env, names: seq<string>, i: nat)
    requires i < |names| && BlacklistHit(env, names[i]).Some?
    requires forall j :: 0 <= j < i ==> BlacklistHit(env, names[j]).None?
    ensures CheckNames(env, names)
      == Trace(TapInstalls(env, names[..i]), Raised(RuntimeError(BlacklistMessage(names[i], BlacklistHit(env, names[i]).value))))
  {
    if i > 0 {
      CheckNamesFirstHit(env, names[1..], i - 1);
      assert names[1..][..i - 1] == names[..i][1..];
    }
  }

  /**
    Unless --force is given, the first name that has no core formula file
    and a blacklist message stops the whole command with "No available
    formula for <name>": no preinstall check and no install happens, and
    only the taps of the earlier names are installed.
   */
  lemma BlacklistedNameStopsCommand(env: Env, help: Result<string, Help.HelpError>, i: nat)
    requires !HelpRequested(env.args) && env.named != [] && "--head" !in env.args && !env.force
    requires i < |env.named| && !env.coreFormulaFile(env.named[i]) && env.blacklisted(env.named[i]).Some?
    requires forall j :: 0 <= j < i ==> BlacklistHit(env, env.named[j]).None?
    ensures Run(env, help).ending == Raised(RuntimeError(BlacklistMessage(env.named[i], env.blacklisted(env.named[i]).value)))
    ensures Run(env, help).events == DeprecationWarnings(env.args, Deprecations) + TapInstalls(env, env.named[..i])
  {
    CheckNamesFirstHit(env, env.named, i);
  }

  /** A name with a core formula file is never checked against the blacklist. */
  lemma CoreFormulaSkipsBlacklist(env: Env, help: Result<string, Help.HelpError>, blacklisted: string -> Option<string>)
    requires forall n :: env.coreFormulaFile(n) || blacklisted(n) == env.blacklisted(n)
    ensures Run(env.(blacklisted := blacklisted), help) == Run(env, help)
  {
    var env' := env.(blacklisted := blacklisted);
    CheckNamesDependOnHitsAndTaps(env, env', env.named);
    InstallEachDependsOnInstaller(env, env', if env.formulae.Resolved? then env.formulae.formulae else []);
    PreinstallChecksFrame(env, env');
    assert NamePhase(env') == NamePhase(env);
  }

  predicate NoTapInstall(events: seq<Event>)
  {
    forall k :: 0 <= k < |events| ==> !events[k].TapInstalled?
  }

  predicate NoInstallCall(events: seq<Event>)
  {
    forall k :: 0 <= k < |events| ==> !events[k].InstallCalled?
  }

  lemma {:induction false} XcodeWarningsAreWarnings(env: Env, checks: seq<DoctorCheck>)
    ensures forall k :: 0 <= k < |XcodeWarnings(env, checks)| ==> XcodeWarnings(env, checks)[k].Warning?
  {
    if checks != [] {
      XcodeWarningsAreWarnings(env, checks[1..]);
    }
  }

  /** The preinstall checks neither install taps nor formulae. */
  lemma PreinstallChecksInstallNothing(env: Env)
    ensures NoTapInstall(PreinstallChecks(env).events) && NoInstallCall(PreinstallChecks(env).events)
  {
    XcodeWarningsAreWarnings(env, XcodeDoctorChecks);
  }

  lemma {:induction false} InstallEachInstallsNoTap(env: Env, fs: seq<string>)
    ensures NoTapInstall(InstallEach(env, fs))
  {
    if fs != [] {
      InstallEachInstallsNoTap(env, fs[1..]);
    }
  }

  /** With --force, blacklist and tap handling are skipped: the command depends on neither. */
  lemma ForceSkipsNameChecks(env: Env, help: Result<string, Help.HelpError>,
                             coreFormulaFile: string -> bool, pathExists: string -> bool,
                             blacklisted: string -> Option<string>, tapMatch: string -> Option<(string, string)>)
    requires env.force
    ensures Run(env.(coreFormulaFile := coreFormulaFile, pathExists := pathExists, blacklisted := blacklisted, tapMatch := tapMatch), help)
      == Run(env, help)
  {
    var env' := env.(coreFormulaFile := coreFormulaFile, pathExists := pathExists, blacklisted := blacklisted, tapMatch := tapMatch);
    InstallEachDependsOnInstaller(env, env', if env.formulae.Resolved? then env.formulae.formulae else []);
    PreinstallChecksFrame(env, env');
    assert InstallFormulae(env') == InstallFormulae(env);
    assert NamePhase(env') == NamePhase(env);
  }

  /** With --force no tap is installed. */
  lemma ForceInstallsNoTap(env: Env, help: Result<string, Help.HelpError>)
    requires env.force
    ensures NoTapInstall(Run(env, help).events)
  {
    if !HelpRequested(env.args) && env.named != [] {
      RunPhases(env, help);
      var w := DeprecationWarnings(env.args, Deprecations);
      var c := PreinstallChecks(env).events;
      DeprecationWarningsAreWarnings(env.args, Deprecations);
      PreinstallChecksInstallNothing(env);
      InstallEachInstallsNoTap(env, if env.formulae.Resolved? then env.formulae.formulae else []);
      NoTapInstallAppend(w, []);
      NoTapInstallAppend(w + [], c);
      NoTapInstallAppend(w + [] + c, InstallFormulae(env));
    }
  }

  lemma NoTapInstallAppend(a: seq<Event>, b: seq<Event>)
    requires NoTapInstall(a) && NoTapInstall(b)
    ensures NoTapInstall(a + b)
  {
    assert forall k :: 0 <= k < |a + b| ==> (a + b)[k] == if k < |a| then a[k] else b[k - |a|];
  }

  lemma {:induction false} DeprecationWarningsAreWarnings(args: seq<string>, table: seq<(string, string)>)
    ensures forall k :: 0 <= k < |DeprecationWarnings(args, table)| ==> DeprecationWarnings(args, table)[k].Warning?
  {
    if table != [] {
      DeprecationWarningsAreWarnings(args, table[1..]);
    }
  }

  lemma {:induction false} TapInstallsMembers(env: Env, names: seq<string>, user: string, repo: string)
    ensures TapInstalled(user, repo) in TapInstalls(env, names) <==> exists n :: n in names && TapOf(env, n) == Some((user, repo))
    ensures forall k :: 0 <= k < |TapInstalls(env, names)| ==> TapInstalls(env, names)[k].TapInstalled?
  {
    if names != [] {
      TapInstallsMembers(env, names[1..], user, repo);
      assert forall n :: n in names <==> n == names[0] || n in names[1..];
    }
  }

  /**
    When no name is blacklisted, install_tap(user, repo) happens exactly
    when --force is absent and some named argument that is not an existing
    path matches the tap pattern with captures user and repo.
   */
  lemma TapInstalledExactly(env: Env, help: Result<string, Help.HelpError>, user: string, repo: string)
    requires !HelpRequested(env.args) && env.named != [] && "--head" !in env.args
    requires forall j :: 0 <= j < |env.named| ==> BlacklistHit(env, env.named[j]).None?
    ensures TapInstalled(user, repo) in Run(env, help).events
      <==> !env.force && exists n :: n in env.named && !env.pathExists(n) && env.tapMatch(n) == Some((user, repo))
  {
    var tap := TapInstalled(user, repo);
    var w := DeprecationWarnings(env.args, Deprecations);
    var names := if env.force then [] else TapInstalls(env, env.named);
    var checks := PreinstallChecks(env);
    var tail := if checks.ending.Completed? then InstallFormulae(env) else [];
    RunWithoutHits(env, help);
    TapInstallsMembers(env, env.named, user, repo);
    DeprecationWarningsAreWarnings(env.args, Deprecations);
    PreinstallChecksInstallNothing(env);
    InstallEachInstallsNoTap(env, if env.formulae.Resolved? then env.formulae.formulae else []);
    assert tap !in w && tap !in checks.events && tap !in tail;
  }

  /** With no blacklisted name and no --HEAD, the command's events fall in four consecutive parts. */
  lemma RunWithoutHits(env: Env, help: Result<string, Help.HelpError>)
    requires !HelpRequested(env.args) && env.named != [] && "--head" !in env.args
    requires forall j :: 0 <= j < |env.named| ==> BlacklistHit(env, env.named[j]).None?
    ensures Run(env, help).events
      == DeprecationWarnings(env.args, Deprecations) + (if env.force then [] else TapInstalls(env, env.named))
         + PreinstallChecks(env).events + (if PreinstallChecks(env).ending.Completed? then InstallFormulae(env) else [])
  {
    CheckNamesWithoutHit(env, env.named);
    RunPhases(env, help);
    var pre := DeprecationWarnings(env.args, Deprecations) + NameLoop(env).events + PreinstallChecks(env).events;
    assert pre + [] == pre;
  }

  lemma {:induction false} CheckNamesInstallNothing(env: Env, names: seq<string>)
    ensures NoInstallCall(CheckNames(env, names).events)
  {
    if names != [] {
      CheckNamesInstallNothing(env, names[1..]);
    }
  }

  /**
    A formula is installed only after every preinstall check has passed, in
    a trace made of the warnings and the name loop, then the checks, then
    the installs.
   */
  lemma InstallsOnlyAfterChecks(env: Env, help: Result<string, Help.HelpError>, i: nat)
    requires i < |Run(env, help).events| && Run(env, help).events[i].InstallCalled?
    ensures !CpuUnsupported(env.cpu) && !CellarUnwritable(env) && !PrefixUnwritable(env)
    ensures env.cellarExists || env.cellarCreatable
    ensures "--head" !in env.args && NameLoop(env).ending == Completed && PreinstallChecks(env).ending == Completed
    ensures Run(env, help).events == NamePhase(env).events + PreinstallChecks(env).events + InstallFormulae(env)
    ensures |NamePhase(env).events| + |PreinstallChecks(env).events| <= i
  {
    var events := Run(env, help).events;
    assert !HelpRequested(env.args) && env.named != [];
    RunPhases(env, help);
    var w := DeprecationWarnings(env.args, Deprecations);
    var n := NameLoop(env).events;
    var c := PreinstallChecks(env).events;
    DeprecationWarningsAreWarnings(env.args, Deprecations);
    CheckNamesInstallNothing(env, env.named);
    PreinstallChecksInstallNothing(env);
    NoInstallCallAppend(w, n);
    NoInstallCallAppend(w + n, c);
    assert NamePhase(env).events == w + n;
  }

  lemma NoInstallCallAppend(a: seq<Event>, b: seq<Event>)
    requires NoInstallCall(a) && NoInstallCall(b)
    ensures NoInstallCall(a + b)
  {
    assert forall k :: 0 <= k < |a + b| ==> (a + b)[k] == if k < |a| then a[k] else b[k - |a|];
  }

  /** The order of the preinstall checks: each fatal check stops the ones after it. */
  lemma PreinstallChecksOrder(env: Env)
    ensures CpuUnsupported(env.cpu) ==> PreinstallChecks(env) == Trace([], Aborted(UnsupportedCpuMessage))
    ensures !CpuUnsupported(env.cpu) && CellarUnwritable(env) ==>
      PreinstallChecks(env) == Trace([], Raised(RuntimeError(CannotWriteMessage(env.cellar))))
    ensures !CpuUnsupported(env.cpu) && !CellarUnwritable(env) && PrefixUnwritable(env) ==>
      PreinstallChecks(env) == Trace([], Raised(RuntimeError(CannotWriteMessage(env.prefix))))
    ensures !CpuUnsupported(env.cpu) && !CellarUnwritable(env) && !PrefixUnwritable(env) ==>
      PreinstallChecks(env) == Trace(XcodeWarnings(env, XcodeDoctorChecks) + CheckMacports(env).events + CheckCellar(env).events,
                                     CheckCellar(env).ending)
  {
  }

  /** check_ppc aborts exactly for a PPC or unknown CPU; the writable check fails exactly for an unwritable cellar or prefix. */
  lemma FatalChecksExactly(env: Env)
    ensures CheckPpc(env.cpu).ending.Aborted? <==> env.cpu == Ppc || env.cpu == Dunno
    ensures CheckWritableInstallLocation(env).ending.Raised? <==>
      (env.cellarExists && !env.cellarWritable) || (!env.prefixWritable && env.prefix != "/usr/local")
    ensures CheckCellar(env).ending.Raised? <==> !env.cellarExists && !env.cellarCreatable
  {
  }

  /**
    check_macports never stops the checks: it warns and prints the two
    notice lines exactly when MacPorts or Fink is found, and is silent otherwise.
   */
  lemma MacportsCheckExactly(env: Env)
    ensures CheckMacports(env).ending == Completed
    ensures env.macportsOrFink != [] <==>
      CheckMacports(env).events == [Warning(MacportsWarning), Said(MacportsNotice1), Said(MacportsNotice2)]
    ensures env.macportsOrFink == [] <==> CheckMacports(env).events == []
  {
  }

  /** What install_formula does for each installer outcome. */
  lemma InstallFormulaOutcomes(env: Env, f: string)
    ensures env.installer(f) == Ok <==> InstallFormula(env, f) == Attempt([InstallCalled(f), CaveatsCalled(f), FinishCalled(f)], Handled)
    ensures env.installer(f) == AlreadyAttempted <==> InstallFormula(env, f) == Attempt([InstallCalled(f)], Handled)
    ensures env.installer(f).AlreadyInstalled? ==>
      InstallFormula(env, f) == Attempt([InstallCalled(f), Warning(env.installer(f).message)], Handled)
    ensures env.installer(f).CannotInstall? ==> InstallFormula(env, f) == Attempt([InstallCalled(f)], CannotInstallRaised(env.installer(f).message))
    ensures env.installer(f).Unavailable? ==>
      InstallFormula(env, f) == Attempt([InstallCalled(f)], UnavailableRaised(env.installer(f).name, env.installer(f).message))
  {
  }

  /** The formula loop over `xs + ys` when nothing in `xs` ends it. */
  lemma {:induction false} InstallEachAppend(env: Env, xs: seq<string>, ys: seq<string>)
    requires forall j :: 0 <= j < |xs| ==> !Ends(env, xs[j])
    ensures InstallEach(env, xs + ys) == InstallEach(env, xs) + InstallEach(env, ys)
  {
    if xs == [] {
      assert xs + ys == ys;
    } else {
      InstallEachAppend(env, xs[1..], ys);
      assert (xs + ys)[1..] == xs[1..] + ys;
      var a := AttemptEvents(env, xs[0]);
      assert a + (InstallEach(env, xs[1..]) + InstallEach(env, ys)) == (a + InstallEach(env, xs[1..])) + InstallEach(env, ys);
    }
  }

  /** A CannotInstallFormulaError yields one failure message and the loop goes on with the next formula. */
  lemma CannotInstallIsIsolated(env: Env, xs: seq<string>, f: string, ys: seq<string>)
    requires forall j :: 0 <= j < |xs| ==> !Ends(env, xs[j])
    requires env.installer(f).CannotInstall?
    ensures InstallEach(env, xs + [f] + ys)
      == InstallEach(env, xs) + [InstallCalled(f), Failed(env.installer(f).message)] + InstallEach(env, ys)
  {
    InstallEachAppend(env, xs, [f] + ys);
    assert xs + [f] + ys == xs + ([f] + ys);
    assert ([f] + ys)[1..] == ys;
    InstallEachStep(env, [f] + ys);
    RescuedOutput(env, f);
    var failed := [InstallCalled(f), Failed(env.installer(f).message)];
    assert AttemptEvents(env, f) == failed;
    AppendAssoc(InstallEach(env, xs), failed, InstallEach(env, ys));
  }

  /** A FormulaUnavailableError yields one failure and a tap search, and no later formula is tried. */
  lemma UnavailableEndsLoop(env: Env, xs: seq<string>, f: string, ys: seq<string>)
    requires forall j :: 0 <= j < |xs| ==> !Ends(env, xs[j])
    requires env.installer(f).Unavailable?
    ensures InstallEach(env, xs + [f] + ys)
      == InstallEach(env, xs) + [InstallCalled(f), Failed(env.installer(f).message), Said(SearchingTaps), TapsSearched(env.installer(f).name)]
  {
    InstallEachAppend(env, xs, [f] + ys);
    assert xs + [f] + ys == xs + ([f] + ys);
  }

  /** The formulae fi.install is called for, in order. */
  function InstallCalls(events: seq<Event>): seq<string>
  {
    if events == [] then []
    else (if events[0].InstallCalled? then [events[0].formula] else []) + InstallCalls(events[1..])
  }

  lemma {:induction false} InstallCallsAppend(a: seq<Event>, b: seq<Event>)
    ensures InstallCalls(a + b) == InstallCalls(a) + InstallCalls(b)
  {
    if a == [] {
      assert a + b == b;
    } else {
      InstallCallsAppend(a[1..], b);
      assert (a + b)[1..] == a[1..] + b;
    }
  }

  /** How many formulae the loop tries: up to and including the first that ends it. */
  function Tried(env: Env, fs: seq<string>): (n: nat)
    ensures n <= |fs|
  {
    if fs == [] then 0 else if Ends(env, fs[0]) then 1 else 1 + Tried(env, fs[1..])
  }

  /**
    fi.install is called once for each formula, in order, up to the first
    FormulaUnavailableError: the failures of the others do not stop the batch.
   */
  lemma {:induction false} InstallCallsInOrder(env: Env, fs: seq<string>)
    ensures InstallCalls(InstallEach(env, fs)) == fs[..Tried(env, fs)]
  {
    if fs != [] {
      var f := fs[0];
      var head := AttemptEvents(env, f);
      AttemptCallsInstallOnce(env, f);
      if Ends(env, f) {
        assert InstallEach(env, fs) == head && Tried(env, fs) == 1;
        assert fs[..1] == [f];
      } else {
        var rest := InstallEach(env, fs[1..]);
        assert InstallEach(env, fs) == head + rest;
        InstallCallsInOrder(env, fs[1..]);
        InstallCallsAppend(head, rest);
        assert Tried(env, fs) == 1 + Tried(env, fs[1..]);
        assert fs[..Tried(env, fs)] == [f] + fs[1..][..Tried(env, fs[1..])];
      }
    }
  }

  /** One formula's attempt calls fi.install exactly once, for that formula. */
  lemma AttemptCallsInstallOnce(env: Env, f: string)
    ensures InstallCalls(AttemptEvents(env, f)) == [f]
  {
    var head := AttemptEvents(env, f);
    assert head[0] == InstallCalled(f);
    assert InstallCalls(head) == [f] + InstallCalls(head[1..]);
    assert forall k :: 1 <= k < |head| ==> !head[k].InstallCalled?;
    NoInstallCallsEmpty(head[1..]);
  }

  lemma {:induction false} NoInstallCallsEmpty(events: seq<Event>)
    requires NoInstallCall(events)
    ensures InstallCalls(events) == []
  {
    if events != [] {
      NoInstallCallsEmpty(events[1..]);
    }
  }

  /** In one formula's events, caveats directly follow a normal install and finish directly follows caveats. */
  predicate CaveatsFollowInstall(env: Env, events: seq<Event>)
  {
    && (forall k :: 0 <= k < |events| && events[k].CaveatsCalled? ==>
          k >= 1 && events[k - 1] == InstallCalled(events[k].formula) && env.installer(events[k].formula) == Ok)
    && (forall k :: 0 <= k < |events| && events[k].FinishCalled? ==>
          k >= 2 && events[k - 1] == CaveatsCalled(events[k].formula) && events[k - 2] == InstallCalled(events[k].formula)
          && env.installer(events[k].formula) == Ok)
  }

  /**
    caveats and finish run only after fi.install returned normally, right
    after it, for the same formula.
   */
  lemma {:induction false} CaveatsAndFinishOnlyAfterSuccess(env: Env, fs: seq<string>)
    ensures CaveatsFollowInstall(env, InstallEach(env, fs))
  {
    if fs != [] {
      var f := fs[0];
      var head := AttemptEvents(env, f);
      assert CaveatsFollowInstall(env, head);
      if Ends(env, f) {
        assert InstallEach(env, fs) == head;
      } else {
        CaveatsAndFinishOnlyAfterSuccess(env, fs[1..]);
        var rest := InstallEach(env, fs[1..]);
        assert InstallEach(env, fs) == head + rest;
        CaveatsFollowInstallAppend(env, head, rest);
      }
    }
  }

  lemma CaveatsFollowInstallAppend(env: Env, a: seq<Event>, b: seq<Event>)
    requires CaveatsFollowInstall(env, a) && CaveatsFollowInstall(env, b)
    requires a != [] && !a[0].CaveatsCalled? && !a[0].FinishCalled?
    requires b != [] ==> !b[0].CaveatsCalled? && !b[0].FinishCalled? && (|b| > 1 ==> !b[1].FinishCalled?)
    ensures CaveatsFollowInstall(env, a + b)
  {
    var ab := a + b;
    forall k | 0 <= k < |ab| && ab[k].CaveatsCalled?
      ensures k >= 1 && ab[k - 1] == InstallCalled(ab[k].formula) && env.installer(ab[k].formula) == Ok
    {
      if k >= |a| {
        assert ab[k] == b[k - |a|];
        assert ab[k - 1] == b[k - |a| - 1];
      }
    }
    forall k | 0 <= k < |ab| && ab[k].FinishCalled?
      ensures k >= 2 && ab[k - 1] == CaveatsCalled(ab[k].formula) && ab[k - 2] == InstallCalled(ab[k].formula)
        && env.installer(ab[k].formula) == Ok
    {
      if k >= |a| {
        assert ab[k] == b[k - |a|];
        assert ab[k - 1] == b[k - |a| - 1];
        assert ab[k - 2] == b[k - |a| - 2];
      }
    }
  }
}
