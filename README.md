# Homebrew `install`, help registry and Markdown converter, modelled in Dafny

This project models three pieces of Homebrew's Ruby code:

- **`brew install`** (`Library/Homebrew/cmd/install.rb`). The command's
  surroundings are one input value `Install.Env`: ARGV, file tests, the
  blacklist, the tap-name pattern, the CPU type, write permissions, doctor
  output, MacPorts/Fink and an outcome per formula from `FormulaInstaller`.
  What the command does is an ordered trace of events (warnings,
  failures, tap installs, `install`/`caveats`/`finish` calls) and how it
  ends: normally, with a raised error, or with `abort`.
  - `Install.Run` is the specification function.
  - `Install.Install` is the imperative method. Its loops go over the
    deprecation table, `ARGV.named`, the doctor checks and
    `ARGV.formulae`, and it is proved to produce exactly the trace `Run`
    gives.
- **The help registry** (`Library/Homebrew/help.rb`). `Help.Registry` is a
  class whose `cmdHelp` field maps command symbols to text generators.
  - `help_for` with a block stores the block and returns it.
  - `help_for` without a block calls the stored generator and dedents its
    text. When no line of the text starts with whitespace, the dedenting
    `if` has no `else`, so `help_for` returns nil and `print_help_for`
    prints an empty line.
  - The dedent is a pure function over Ruby `String#lines`. Its indent is
    found with the regex `/^\s+/`.
- **The kramdown converter** (`Library/Homebrew/extend/converter.rb`).
  - Elements form a datatype tree, and `convert` dispatches on the
    element's type.
  - `inner` is a method that appends each converted child to a buffer. It
    is proved equal to the in-order concatenation.
  - `indent_codeblock` follows Ruby's `split("\n")`, which drops trailing
    empty fields.

Files:
- `wrappers.dfy`: `Option` and `Result`.
- `strings.dfy`: module `Strings`, with the symbol type and the no-newline predicate shared by `Help` and `Converter`.
- `help.dfy`: module `Help`.
- `converter.dfy`: module `Converter`.
- `install.dfy`: module `Install`, which imports `Help` for the install help text.

The model follows what `install.rb` does:
- A blacklisted name raises a `RuntimeError` (install.rb:76) that ends the whole command. Nothing is reported per name.
- The blacklist and tap checks on the names (install.rb:72-82) run before the preinstall checks (install.rb:84).
- `FormulaUnavailableError` is rescued outside the formula loop (install.rb:93), so it ends the loop.
- Only `CannotInstallFormulaError` is rescued per formula (install.rb:89-91).

## Model

| member | source | states |
|---|---|---|
| Help.Registry.constructor | Library/Homebrew/help.rb:1-21 | the registry starts with no command registered |
| Help.Registry.HelpFor | Library/Homebrew/help.rb:2-17 | with a block: stores it under `cmd.to_sym`, replacing any earlier entry and leaving every other one alone, and returns the block; without a block: the map is unchanged, and the result fails exactly when the command is unregistered and is otherwise the help string of the stored generator's text |
| Help.Registry.Lookup | Library/Homebrew/help.rb:5-13 | fails with a nil-generator error exactly when the command is unregistered; otherwise returns the help string of the stored generator's text, which is nil when no line is indented |
| Help.Registry.PrintHelpFor | Library/Homebrew/help.rb:18-20 | fails exactly when the command is unregistered; otherwise writes `puts` of the help string, and an empty line when it is nil |
| Help.RegisterThenLookup | Library/Homebrew/help.rb:3-15 | registering under a string name returns the block; lookups by that string and by the symbol of the same name both give its help string; another, unregistered name still fails |
| Help.Puts | Library/Homebrew/help.rb:19 | `puts` writes the text followed by one "\n" unless it already ends with one |
| Help.LinesConcat | Library/Homebrew/help.rb:10-12 | joining the `String#lines` pieces gives the string back |
| Help.LinesShape | Library/Homebrew/help.rb:10 | every line but the last ends with "\n", and no line has "\n" anywhere else |
| Help.FirstIndentStart | Library/Homebrew/help.rb:8 | finds the leftmost line start holding a whitespace character at or after a position, or reports that none exists |
| Help.SpaceRun | Library/Homebrew/help.rb:8-9 | the match of `\s+` is the maximal run of whitespace from that position |
| Help.IndentOfCharacterization | Library/Homebrew/help.rb:8-9 | the indent is absent iff no line start holds whitespace; otherwise it is the maximal whitespace run, newlines included, at the earliest such line start |
| Help.HelpStringNil | Library/Homebrew/help.rb:8-13 | the help string is nil exactly when no line start of the text holds whitespace |
| Help.StripEachByLine | Library/Homebrew/help.rb:10-12 | the map keeps the number of lines; each line loses the indent when it starts with it and is otherwise identical |
| Help.DedentByLine | Library/Homebrew/help.rb:9-12 | with an indent, the help string is the concatenation of the input lines, each stripped of the captured indent when it starts with it |
| Help.DedentKeepsLineBreaks | Library/Homebrew/help.rb:9-12 | with an indent that holds no newline, the help string has as many line breaks as the text |
| Help.DedentFirstLine | Library/Homebrew/help.rb:8-12 | text starting with four spaces then a non-space line head has those spaces as its indent, so its help string is not nil, and it starts with that head |
| Converter.TypeOf | Library/Homebrew/extend/converter.rb:7-11 | a document's type is `:document`; an element's is its own type |
| Converter.Inner | Library/Homebrew/extend/converter.rb:23-29 | the buffer loop yields the in-order concatenation of the children's conversions, and "" for a childless element |
| Converter.InnerTextAppend | Library/Homebrew/extend/converter.rb:23-29 | converting children `xs + ys` gives the conversion of `xs` followed by that of `ys` |
| Converter.DocumentIsInnerOfRoot | Library/Homebrew/extend/converter.rb:7-21 | converting a document goes through `convert_document`, and the result is `inner` of its root |
| Converter.ConvertCases | Library/Homebrew/extend/converter.rb:13-48 | dispatch on type: root gives `inner`; p gives `inner` plus "\n"; text, codespan and blank give their value; html_element gives value then `inner`; codeblock gives `indent_codeblock(value + inner)` |
| Converter.ConvertedEnds | Library/Homebrew/extend/converter.rb:31-33 | a converted paragraph ends with "\n"; a converted code block is empty or does not end with "\n" |
| Converter.SplitJoin | Library/Homebrew/extend/converter.rb:51 | joining `split("\n")` with "\n" gives the content without its trailing newlines |
| Converter.SplitHasNoNewline | Library/Homebrew/extend/converter.rb:51 | the pieces of `split("\n")` contain no "\n" and the last one is non-empty |
| Converter.IndentCodeblockLines | Library/Homebrew/extend/converter.rb:50-52 | the output is empty exactly when `split` gives no piece; otherwise its lines are the pieces in order, each behind four spaces |
| Converter.IndentCodeblockNoTrailingNewline | Library/Homebrew/extend/converter.rb:50-52 | the output never ends with "\n" |
| Converter.IndentCodeblockRoundTrip | Library/Homebrew/extend/converter.rb:50-52 | removing four spaces from each output line and joining with "\n" gives the content without trailing newlines |
| Converter.UnindentIndentEach | Library/Homebrew/extend/converter.rb:51 | removing four characters undoes the four-space prefix on every line |
| Converter.FieldsJoin | Library/Homebrew/extend/converter.rb:51 | joining the "\n"-separated fields with "\n" gives the string back |
| Converter.JoinFields | Library/Homebrew/extend/converter.rb:51 | splitting a join of newline-free lines gives the lines back |
| Install.Install | Library/Homebrew/cmd/install.rb:51-99 | the command's events and ending are exactly `Run` of its inputs and of `print_help_for(:install)` |
| Install.WarnDeprecatedFlags | Library/Homebrew/cmd/install.rb:55-66 | the loop over the deprecation hash warns for each deprecated flag present, in the order written |
| Install.CheckNamedFormulae | Library/Homebrew/cmd/install.rb:72-82 | the loop over the names agrees with the blacklist and tap specification |
| Install.InstallNamedFormulae | Library/Homebrew/cmd/install.rb:85-98 | the loop over the formulae, with both rescues, agrees with the formula-loop specification |
| Install.CheckXcode | Library/Homebrew/cmd/install.rb:115-124 | one warning for each doctor check that has output, in the listed order |
| Install.PerformPreinstallChecks | Library/Homebrew/cmd/install.rb:143-149 | runs the checks in order, stopping at the first fatal one |
| Install.RegisterInstallHelp | Library/Homebrew/cmd/install.rb:7-50 | stores the install help generator under `:install` and leaves every other entry alone |
| Install.InstallHelpStartsWithUsage | Library/Homebrew/cmd/install.rb:7-9 | the install help string is not nil: it is the heredoc with the four-space indent stripped, and it starts with `` `install `` |
| Install.ShowInstallHelp | Library/Homebrew/cmd/install.rb:7-52 | with `-h`, the command completes after printing the dedented install help, whose first line starts with `` `install `` |
| Install.HelpFlagOnlyPrintsHelp | Library/Homebrew/cmd/install.rb:52 | with `-h` or `--help`, the only event prints the help (or the help lookup's error is raised): no check, tap or install |
| Install.NoNamesRaisesUnspecified | Library/Homebrew/cmd/install.rb:53 | with no named argument the command raises FormulaUnspecifiedError before any event |
| Install.DeprecationWarningsExact | Library/Homebrew/cmd/install.rb:55-66 | exactly one warning per deprecated flag present, for gcc, llvm and clang in that order, naming `--cc=gcc-4.2`, `--cc=llvm-gcc` and `--cc=clang` |
| Install.RunPhases | Library/Homebrew/cmd/install.rb:55-99 | once the arguments pass, the trace is the warnings, then the `--head` error or the name loop (skipped under `--force`), then the preinstall checks, then the formula loop, each step running only when the one before completed, with the ending of the step that stopped |
| Install.RunStartsWithDeprecationWarnings | Library/Homebrew/cmd/install.rb:55-66 | once the arguments pass, the trace starts with the deprecation warnings |
| Install.RunSplitsAtWarnings | Library/Homebrew/cmd/install.rb:55-99 | the command's trace is the warnings with the trace of the `--head` check, the name loop, the preinstall checks and the formula loop after them |
| Install.DeprecatedFlagDoesNotStop | Library/Homebrew/cmd/install.rb:55-66 | adding a `--use-*` flag changes only the warnings: the ending and every later event stay the same |
| Install.CheckNamesWithoutHit | Library/Homebrew/cmd/install.rb:72-82 | with no blacklisted name, the name loop installs the taps of the tap names in order and goes on |
| Install.CheckNamesFirstHit | Library/Homebrew/cmd/install.rb:72-82 | the first blacklisted name raises its message after the taps of the names before it |
| Install.BlacklistedNameStopsCommand | Library/Homebrew/cmd/install.rb:72-84 | without `--force`, the first name with no core formula file and a blacklist message raises "No available formula for <name>", and no check or install follows |
| Install.CoreFormulaSkipsBlacklist | Library/Homebrew/cmd/install.rb:73-77 | the blacklist's answer for a name with a core formula file never influences the command |
| Install.ForceSkipsNameChecks | Library/Homebrew/cmd/install.rb:72-82 | with `--force`, the command does not depend on the file tests, the blacklist or the tap pattern |
| Install.ForceInstallsNoTap | Library/Homebrew/cmd/install.rb:72-82 | with `--force`, no event of the command installs a tap |
| Install.TapInstallsMembers | Library/Homebrew/cmd/install.rb:78-81 | a tap is installed for a name exactly when the name is not an existing path and matches the tap pattern with those captures |
| Install.TapInstalledExactly | Library/Homebrew/cmd/install.rb:72-82 | with no blacklisted name, `install_tap(user, repo)` occurs iff `--force` is absent and some name that is not an existing path matches with captures user and repo |
| Install.RunWithoutHits | Library/Homebrew/cmd/install.rb:55-99 | with no blacklisted name, the trace is the warnings, then the taps, then the checks, then the installs if the checks passed |
| Install.InstallsOnlyAfterChecks | Library/Homebrew/cmd/install.rb:84-92 | a formula install happens only after all preinstall checks passed, and after every event of the name phase and the checks |
| Install.PreinstallChecksOrder | Library/Homebrew/cmd/install.rb:143-149 | order ppc, writable location, xcode, macports, cellar: a fatal check stops the checks after it |
| Install.PreinstallChecksFrame | Library/Homebrew/cmd/install.rb:101-149 | the checks read only the CPU, the cellar, the prefix, the doctor output and the MacPorts/Fink scan |
| Install.PreinstallChecksInstallNothing | Library/Homebrew/cmd/install.rb:143-149 | the preinstall checks install neither a tap nor a formula |
| Install.FatalChecksExactly | Library/Homebrew/cmd/install.rb:101-141 | `check_ppc` aborts iff the CPU is ppc or unknown; the writable check raises iff (cellar exists and is not writable) or (prefix is not writable and is not `/usr/local`); `check_cellar` raises iff the cellar is missing and cannot be created |
| Install.MacportsCheckExactly | Library/Homebrew/cmd/install.rb:126-132 | `check_macports` always completes; it warns and then prints the two notice lines exactly when MacPorts or Fink is found, and prints nothing otherwise |
| Install.InstallFormulaOutcomes | Library/Homebrew/cmd/install.rb:151-162 | install then caveats then finish on success, silence if already attempted, one warning if already installed, and the other two errors passed to the caller |
| Install.InstallEachAppend | Library/Homebrew/cmd/install.rb:86-92 | formulae that do not end the loop are handled one after another, independently |
| Install.CannotInstallIsIsolated | Library/Homebrew/cmd/install.rb:86-92 | a CannotInstallFormulaError gives one failure message and the loop goes on with the next formula |
| Install.UnavailableEndsLoop | Library/Homebrew/cmd/install.rb:85-98 | a FormulaUnavailableError gives one failure, "Searching taps..." and a tap search, and no later formula is tried |
| Install.InstallCallsInOrder | Library/Homebrew/cmd/install.rb:85-98 | `install` is called once per formula, in order, up to and including the first unavailable one |
| Install.CaveatsAndFinishOnlyAfterSuccess | Library/Homebrew/cmd/install.rb:151-156 | `caveats` and `finish` run only right after an `install` of the same formula that returned normally |
| Install.XcodeWarningsAreWarnings | Library/Homebrew/cmd/install.rb:120-123 | check_xcode only warns |
| Install.DeprecationWarningsAreWarnings | Library/Homebrew/cmd/install.rb:59-66 | the deprecation loop only warns |
| Install.InstallEachInstallsNoTap | Library/Homebrew/cmd/install.rb:85-98 | the formula loop installs no tap |
| Install.CheckNamesInstallNothing | Library/Homebrew/cmd/install.rb:72-82 | the name loop calls no formula install |

## Left out

- Install.InstallFormula: the installer outcome stands for `fi.install` alone. `fi.caveats` and `fi.finish` never raise in the model. An exception other than the five installer outcomes, which install_formula (install.rb:151-162) lets through to end the command, is not modelled. Outcomes are keyed by formula name, so a name listed twice gets the same outcome twice.
- FormulaInstaller is not part of this model: the build, dependency resolution and the record of attempted formulae. Each formula's installer outcome is an input, and already-attempted appears only as its silently rescued error.
- The file system, `Pathname`, `Hardware::CPU`, `MacOS.macports_or_fink` and the doctor `Checks` are inputs of `Install.Env`; `FileUtils.mkdir_p` is a "can create" flag.
- `install_tap`, `search_taps`, `query_regexp` and `puts_columns` are foreign commands; they appear only as the events `TapInstalled` and `TapsSearched`. A failure inside `install_tap` is not modelled.
- ARGV parsing is not modelled beyond the membership tests the command makes, and neither is the interactive `--debug` session.
- The kramdown parser, its converter base class and the `rescue LoadError` guard around the converter are not modelled; the element tree is an input.
- The `opts` argument threaded through the converter is never read there and is not modelled.
- Output goes into trace events (`opoo`, `ofail`, `puts`, `abort`) and is not written anywhere. `Help.Registry.PrintHelpFor` returns the text `puts` would write.
- The help and warning texts are the literal strings of the source, but only the first line of the install help is reasoned about.
- Ruby's `\s` is taken as it is before Ruby 2.2: space, tab, newline, form feed and carriage return. The vertical tab that Ruby 2.2 and later add, and other Unicode spaces, are not.
- Install.Run: the hash behind the deprecation warnings is iterated in the order it is written.
- Help.Registry.PrintHelpFor: `puts nil` writes an empty line, as in Ruby 1.9 and later; Ruby 1.8 writes "nil" followed by a newline, which is not modelled.
- Help.Registry.Lookup: the generator is a total function; a generator that raises, or returns something other than a string, is not modelled.
- Install.Install: `ARGV.formulae` failing to resolve a name is modelled as an outcome of the whole list, `Unresolved`, which the outer rescue handles.
