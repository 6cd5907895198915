/**
  The help registry of the command line (Library/Homebrew/help.rb).

  Every command registers a help generator under its name; looking a command
  up calls the generator and strips the indentation of the first indented
  line from every line that starts with it.
 */
module Help {
  import opened Wrappers
  import opened Strings

  /** A command name as a caller passes it: a Ruby string or a Ruby symbol. */
  datatype Command = Str(name: string) | Sym(name: string)

  /** A registered block: calling it yields the help text. */
  type Generator = () -> string

  /** What help_for returns: the block it stored, or a help string (None for nil). */
  datatype HelpValue = Stored(block: Generator) | Text(help: Option<string>)

  /** Raised when the generator of an unregistered command (nil) is called. */
  datatype HelpError = NilGenerator(cmd: Symbol)

  /** `cmd.to_sym`: a string and the symbol of the same name map to one key. */
  function ToSym(cmd: Command): (key: Symbol)
    ensures key == cmd.name
  {
    match cmd
    case Str(s) => s
    case Sym(s) => s
  }

  // ---------------------------------------------------------------------
  // Lines of a string (Ruby's String#lines keeps every "\n")
  // ---------------------------------------------------------------------

  /** Length of the first line of `s`, its terminating "\n" included. */
  function LineLength(s: string): (k: nat)
    requires s != []
    ensures 0 < k <= |s|
    ensures forall i :: 0 <= i < k - 1 ==> s[i] != '\n'
    ensures k < |s| ==> s[k - 1] == '\n'
    ensures k == |s| ==> s[k - 1] == '\n' || '\n' !in s
    decreases |s|
  {
    if s[0] == '\n' || |s| == 1 then 1 else 1 + LineLength(s[1..])
  }

  /** `s.lines`: the pieces of `s` cut after every "\n". */
  function Lines(s: string): seq<string>
    decreases |s|
  {
    if s == [] then [] else [s[..LineLength(s)]] + Lines(s[LineLength(s)..])
  }

  /** `Array#join` with no separator. */
  function Concat(ls: seq<string>): string
  {
    if ls == [] then [] else ls[0] + Concat(ls[1..])
  }

  /** Joining the lines of a string gives the string back. */
  lemma {:induction false} LinesConcat(s: string)
    ensures Concat(Lines(s)) == s
    decreases |s|
  {
    if s != [] {
      var k := LineLength(s);
      LinesConcat(s[k..]);
      assert s == s[..k] + s[k..];
    }
  }

  /**
    Every line is non-empty, holds a "\n" at most as its last character,
    and every line but the last ends with "\n".
   */
  lemma {:induction false} LinesShape(s: string)
    ensures forall i :: 0 <= i < |Lines(s)| ==> Lines(s)[i] != []
    ensures forall i, j :: 0 <= i < |Lines(s)| && 0 <= j < |Lines(s)[i]| - 1 ==> Lines(s)[i][j] != '\n'
    ensures forall i :: 0 <= i < |Lines(s)| - 1 ==> Lines(s)[i][|Lines(s)[i]| - 1] == '\n'
    decreases |s|
  {
    if s != [] {
      var k := LineLength(s);
      LinesShape(s[k..]);
      var ls := Lines(s);
      assert ls == [s[..k]] + Lines(s[k..]);
      if k == |s| {
        assert s[k..] == [];
      }
    }
  }

  // ---------------------------------------------------------------------
  // The indent: the match of /^\s+/
  // ---------------------------------------------------------------------

  /** Ruby's `\s` before Ruby 2.2: space, tab, line feed, form feed, carriage return. */
  predicate IsSpace(c: char)
  {
    c == ' ' || c == '\t' || c == '\n' || c == '\U{C}' || c == '\r'
  }

  /** Position `p` of `s` is where `^` matches: the start or just after a "\n". */
  predicate LineStart(s: string, p: nat)
    requires p <= |s|
  {
    p == 0 || s[p - 1] == '\n'
  }

  /** `/^\s+/` can start matching at `p`. */
  predicate IndentStart(s: string, p: nat)
    requires p < |s|
  {
    LineStart(s, p) && IsSpace(s[p])
  }

  /** The leftmost position at or after `from` where `/^\s+/` matches. */
  function FirstIndentStart(s: string, from: nat): (r: Option<nat>)
    requires from <= |s|
    ensures r.Some? ==> from <= r.value < |s| && IndentStart(s, r.value)
    ensures r.Some? ==> forall q :: from <= q < r.value ==> !IndentStart(s, q)
    ensures r.None? ==> forall q :: from <= q < |s| ==> !IndentStart(s, q)
    decreases |s| - from
  {
    if from == |s| then None
    else if IndentStart(s, from) then Some(from)
    else FirstIndentStart(s, from + 1)
  }

  /** Length of the whitespace run starting at `p` (`\s+` is greedy). */
  function SpaceRun(s: string, p: nat): (n: nat)
    requires p <= |s|
    ensures p + n <= |s|
    ensures forall k :: p <= k < p + n ==> IsSpace(s[k])
    ensures p + n == |s| || !IsSpace(s[p + n])
    decreases |s| - p
  {
    if p == |s| || !IsSpace(s[p]) then 0 else 1 + SpaceRun(s, p + 1)
  }

  /** `$&` after `help_string =~ /^\s+/`, or None when there is no match. */
  function IndentOf(s: string): Option<string>
  {
    match FirstIndentStart(s, 0)
    case None => None
    case Some(p) => Some(s[p..p + SpaceRun(s, p)])
  }

  /** `indent` is the maximal whitespace run starting at line start `p`. */
  ghost predicate IndentAt(s: string, p: nat, indent: string)
  {
    && p < |s| && IndentStart(s, p)
    && p + |indent| <= |s| && indent == s[p..p + |indent|]
    && (forall k :: 0 <= k < |indent| ==> IsSpace(indent[k]))
    && (p + |indent| == |s| || !IsSpace(s[p + |indent|]))
  }

  /**
    There is an indent exactly when some line start holds a whitespace
    character; the indent is then the maximal whitespace run (newlines
    included) at the earliest such position.
   */
  lemma IndentOfCharacterization(s: string)
    ensures IndentOf(s).None? <==> forall q :: 0 <= q < |s| ==> !IndentStart(s, q)
    ensures IndentOf(s).Some? ==>
      exists p: nat :: IndentAt(s, p, IndentOf(s).value) && forall q :: 0 <= q < p ==> !IndentStart(s, q)
  {
    match FirstIndentStart(s, 0)
    case None =>
    case Some(p) =>
      var ind := s[p..p + SpaceRun(s, p)];
      assert forall k :: 0 <= k < |ind| ==> ind[k] == s[p + k];
      assert IndentAt(s, p, ind);
  }

  // ---------------------------------------------------------------------
  // Dedent
  // ---------------------------------------------------------------------

  /** `line.sub /^#{indent}/, ''`: drop `indent` when the line starts with it. */
  function StripIndent(line: string, indent: string): string
  {
    if indent <= line then line[|indent|..] else line
  }

  /** `lines.map { |line| line.sub /^#{indent}/, '' }`. */
  function StripEach(lines: seq<string>, indent: string): seq<string>
  {
    if lines == [] then [] else [StripIndent(lines[0], indent)] + StripEach(lines[1..], indent)
  }

  /** The lines of `s`, each stripped of `indent` when it starts with it, joined again. */
  function Dedent(s: string, indent: string): string
  {
    Concat(StripEach(Lines(s), indent))
  }

  /**
    The value of help_for's lookup branch for the generator's text `s`: the
    dedented text when `/^\s+/` matches, and nil (None) otherwise, since the
    `if` that dedents has no `else` and is the last expression of the branch.
   */
  function HelpString(s: string): Option<string>
  {
    match IndentOf(s)
    case None => None
    case Some(indent) => Some(Dedent(s, indent))
  }

  /**
    Stripping keeps the number of lines; each output line is its input line
    with the indent removed when it starts with the indent, and is the input
    line unchanged otherwise.
   */
  lemma {:induction false} StripEachByLine(lines: seq<string>, indent: string)
    ensures |StripEach(lines, indent)| == |lines|
    ensures forall i :: 0 <= i < |lines| && indent <= lines[i] ==>
      StripEach(lines, indent)[i] == lines[i][|indent|..]
    ensures forall i :: 0 <= i < |lines| && !(indent <= lines[i]) ==>
      StripEach(lines, indent)[i] == lines[i]
  {
    if lines != [] {
      StripEachByLine(lines[1..], indent);
      var r := StripEach(lines, indent);
      assert r == [StripIndent(lines[0], indent)] + StripEach(lines[1..], indent);
      forall i | 1 <= i < |lines|
        ensures r[i] == StripEach(lines[1..], indent)[i - 1] && lines[i] == lines[1..][i - 1]
      {
      }
    }
  }

  /** With an indent, the help string is the concatenation of the input's lines, each stripped of the indent. */
  lemma DedentByLine(s: string, indent: string)
    requires IndentOf(s) == Some(indent)
    ensures HelpString(s) == Some(Concat(StripEach(Lines(s), indent)))
    ensures |StripEach(Lines(s), indent)| == |Lines(s)|
    ensures forall i :: 0 <= i < |Lines(s)| ==>
      StripEach(Lines(s), indent)[i] == StripIndent(Lines(s)[i], indent)
  {
    assert HelpString(s) == Some(Dedent(s, indent));
    var ls := Lines(s);
    StripEachByLine(ls, indent);
    forall i | 0 <= i < |ls|
      ensures StripEach(ls, indent)[i] == StripIndent(ls[i], indent)
    {
      if indent <= ls[i] {
        assert StripEach(ls, indent)[i] == ls[i][|indent|..];
      } else {
        assert StripEach(ls, indent)[i] == ls[i];
      }
    }
  }

  /** The help string is nil exactly when no line start of the text holds whitespace. */
  lemma HelpStringNil(s: string)
    ensures HelpString(s).None? <==> forall q :: 0 <= q < |s| ==> !IndentStart(s, q)
  {
    IndentOfCharacterization(s);
  }

  /** Number of occurrences of `c` in `s`. */
  function Count(c: char, s: string): nat
  {
    if s == [] then 0 else (if s[0] == c then 1 else 0) + Count(c, s[1..])
  }

  lemma {:induction false} CountAppend(c: char, a: string, b: string)
    ensures Count(c, a + b) == Count(c, a) + Count(c, b)
  {
    if a == [] {
      assert a + b == b;
    } else {
      assert (a + b)[1..] == a[1..] + b;
      CountAppend(c, a[1..], b);
    }
  }

  lemma {:induction false} CountSuffix(c: char, s: string, n: nat)
    requires n <= |s|
    requires forall k :: 0 <= k < n ==> s[k] != c
    ensures Count(c, s[n..]) == Count(c, s)
  {
    CountAppend(c, s[..n], s[n..]);
    assert s == s[..n] + s[n..];
    CountNone(c, s[..n]);
  }

  lemma {:induction false} CountNone(c: char, s: string)
    requires forall k :: 0 <= k < |s| ==> s[k] != c
    ensures Count(c, s) == 0
  {
    if s != [] {
      CountNone(c, s[1..]);
    }
  }

  lemma {:induction false} CountConcat(c: char, ls: seq<string>, indent: string)
    requires forall k :: 0 <= k < |indent| ==> indent[k] != c
    ensures Count(c, Concat(StripEach(ls, indent))) == Count(c, Concat(ls))
  {
    if ls != [] {
      CountConcat(c, ls[1..], indent);
      CountAppend(c, ls[0], Concat(ls[1..]));
      var first := StripIndent(ls[0], indent);
      CountAppend(c, first, Concat(StripEach(ls[1..], indent)));
      if indent <= ls[0] {
        CountSuffix(c, ls[0], |indent|);
      }
    }
  }

  /**
    When the indent holds no "\n" (the case of an indented heredoc), dedent
    keeps every line break, so the text keeps its number of lines.
   */
  lemma DedentKeepsLineBreaks(s: string)
    requires IndentOf(s).Some? ==> '\n' !in IndentOf(s).value
    ensures HelpString(s).Some? ==> Count('\n', HelpString(s).value) == Count('\n', s)
  {
    match IndentOf(s)
    case None =>
    case Some(indent) =>
      CountConcat('\n', Lines(s), indent);
      LinesConcat(s);
  }

  /**
    A text that starts with four spaces followed by `head` (no whitespace at
    its start, no line break in it) dedents to a text that starts with
    `head`: the indent is the four spaces and the first line loses them.
   */
  lemma DedentFirstLine(s: string, head: string)
    requires |head| > 0 && 4 + |head| <= |s|
    requires s[..4 + |head|] == "    " + head
    requires !IsSpace(head[0]) && NoNewline(head)
    ensures HelpString(s) == Some(Dedent(s, "    "))
    ensures head <= Dedent(s, "    ")
  {
    var n := 4;
    FourSpaceIndent(s, head);
    var indent := s[0..n];
    var k := LineLength(s);
    assert forall i :: 0 <= i < n + |head| ==> s[i] != '\n' by {
      forall i | 0 <= i < n + |head| ensures s[i] != '\n' {
        assert s[i] == (s[..4 + |head|])[i];
        if i >= n {
          assert (s[..4 + |head|])[i] == head[i - n];
        }
      }
    }
    assert k >= n + |head|;
    var first := s[..k];
    assert Lines(s) == [first] + Lines(s[k..]);
    assert indent <= first;
    assert StripEach(Lines(s), indent) == [first[n..]] + StripEach(Lines(s[k..]), indent);
    assert Dedent(s, indent) == first[n..] + Concat(StripEach(Lines(s[k..]), indent));
    assert first[n..][..|head|] == head by {
      assert first[n..][..|head|] == s[n..n + |head|];
      assert s[n..n + |head|] == (s[..4 + |head|])[n..];
    }
  }

  /** Text starting with four spaces and then a non-space has those four spaces as its indent. */
  lemma FourSpaceIndent(s: string, head: string)
    requires |head| > 0 && 4 + |head| <= |s|
    requires s[..4 + |head|] == "    " + head
    requires !IsSpace(head[0])
    ensures s[..4] == "    "
    ensures IndentOf(s) == Some(s[0..4])
  {
    assert forall k :: 0 <= k < 4 ==> s[k] == (s[..4 + |head|])[k];
    assert s[4] == (s[..4 + |head|])[4] == head[0];
    assert IndentStart(s, 0);
    assert FirstIndentStart(s, 0) == Some(0);
    SpaceRunOfSpaces(s, 0, 4);
  }

  lemma {:induction false} SpaceRunOfSpaces(s: string, p: nat, n: nat)
    requires p <= n < |s|
    requires forall k :: p <= k < n ==> s[k] == ' '
    requires !IsSpace(s[n])
    ensures SpaceRun(s, p) == n - p
    decreases n - p
  {
    if p < n {
      SpaceRunOfSpaces(s, p + 1, n);
    }
  }

  // ---------------------------------------------------------------------
  // Output
  // ---------------------------------------------------------------------

  /** What `puts s` writes: `s`, followed by "\n" unless it already ends with one. */
  function Puts(s: string): (out: string)
    ensures s <= out
    ensures |out| > 0 && out[|out| - 1] == '\n'
    ensures s != [] && s[|s| - 1] == '\n' ==> out == s
    ensures !(s != [] && s[|s| - 1] == '\n') ==> out == s + "\n"
  {
    if s != [] && s[|s| - 1] == '\n' then s else s + "\n"
  }

  /** The help registry: `cmd_help`, a map from command symbol to generator. */
  class Registry {
    var cmdHelp: map<Symbol, Generator>

    constructor ()
      ensures cmdHelp == map[]
    {
      cmdHelp := map[];
    }

    /**
      help_for without a block: call the registered generator and take the
      help string of its text (nil when nothing is indented). An
      unregistered command has the generator nil, and calling nil raises.
     */
    function Lookup(cmd: Command): (r: Result<Option<string>, HelpError>)
      reads this
      ensures r.Failure? <==> cmd.name !in cmdHelp
      ensures r.Failure? ==> r.error == NilGenerator(cmd.name)
      ensures r.Success? ==> r.value == HelpString(cmdHelp[cmd.name]())
    {
      var key := ToSym(cmd);
      if key in cmdHelp then Success(HelpString(cmdHelp[key]())) else Failure(NilGenerator(key))
    }

    /**
      help_for: with a block, store it under `cmd.to_sym` (replacing an
      earlier entry) and return it, the value of the assignment; without
      one, return the looked-up help string.
     */
    method HelpFor(cmd: Command, block: Option<Generator>) returns (r: Result<HelpValue, HelpError>)
      modifies this
      ensures block.Some? ==> cmdHelp == old(cmdHelp)[cmd.name := block.value] && r == Success(Stored(block.value))
      ensures block.None? ==> cmdHelp == old(cmdHelp)
      ensures block.None? ==> (r.Failure? <==> cmd.name !in cmdHelp)
      ensures block.None? && r.Failure? ==> r.error == NilGenerator(cmd.name)
      ensures block.None? && r.Success? ==> r.value == Text(HelpString(cmdHelp[cmd.name]()))
    {
      var key := ToSym(cmd);
      if block.None? {
        var found := Lookup(cmd);
        if found.Success? {
          r := Success(Text(found.value));
        } else {
          r := Failure(found.error);
        }
      } else {
        cmdHelp := cmdHelp[key := block.value];
        r := Success(Stored(block.value));
      }
    }

    /**
      print_help_for: what `puts help_for(cmd)` writes, or the error it
      raises. `puts nil` writes an empty line.
     */
    function PrintHelpFor(cmd: Command): (r: Result<string, HelpError>)
      reads this
      ensures r.Failure? <==> cmd.name !in cmdHelp
      ensures r.Failure? ==> r.error == NilGenerator(cmd.name)
      ensures r.Success? && HelpString(cmdHelp[cmd.name]()).None? ==> r.value == "\n"
      ensures r.Success? && HelpString(cmdHelp[cmd.name]()).Some? ==>
        r.value == Puts(HelpString(cmdHelp[cmd.name]()).value)
    {
      match Lookup(cmd)
      case Success(text) => Success(PutsValue(text))
      case Failure(e) => Failure(e)
    }
  }

  /** What `puts v` writes for a string or nil (an empty line, as Ruby 1.9 and later write it). */
  function PutsValue(v: Option<string>): string
  {
    match v
    case None => "\n"
    case Some(s) => Puts(s)
  }

  /**
    A registry client: registering with a block under a string name returns
    the block; lookups under the string and under the symbol of the same
    name both yield the help string; other commands stay unregistered.
   */
  method RegisterThenLookup(name: string, other: string, gen: Generator)
    returns (stored: Result<HelpValue, HelpError>, viaString: Result<HelpValue, HelpError>,
             viaSymbol: Result<HelpValue, HelpError>, missing: Result<HelpValue, HelpError>)
    requires name != other
    ensures stored == Success(Stored(gen))
    ensures viaString == viaSymbol == Success(Text(HelpString(gen())))
    ensures missing == Failure(NilGenerator(other))
  {
    var registry := new Registry();
    stored := registry.HelpFor(Str(name), Some(gen));
    viaString := registry.HelpFor(Str(name), None);
    viaSymbol := registry.HelpFor(Sym(name), None);
    missing := registry.HelpFor(Str(other), None);
  }
}
