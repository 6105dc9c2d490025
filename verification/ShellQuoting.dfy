/** The enrollment command the web application shows (apps/web/src/lib/enrollment-command.ts)
    and the shell that reads it: quoting as in section 2.2 of the POSIX.1-2017 Shell Command
    Language. */
module ShellQuoting {
  import opened Wire

  const DEFAULT_SERVER_URL := "http://localhost:4100"

  // ---------- The printer ----------

  predicate SafeCharacter(c: char) {
    || 'a' <= c <= 'z' || 'A' <= c <= 'Z' || '0' <= c <= '9'
    || c == '_' || c == '.' || c == '/' || c == ':' || c == '@' || c == '%' || c == '+' || c == '=' || c == '-'
  }

  predicate Safe(value: string) {
    value != [] && forall i | 0 <= i < |value| :: SafeCharacter(value[i])
  }

  /** Ends the quotes, adds a quote in double quotes and opens them again. */
  const ESCAPED_QUOTE := ['\'', '"', '\'', '"', '\'']

  function Escaped(value: string): string {
    if value == [] then []
    else (if value[0] == '\'' then ESCAPED_QUOTE else [value[0]]) + Escaped(value[1..])
  }

  function PosixShellArgument(value: string): string {
    if Safe(value) then value else ['\''] + Escaped(value) + ['\'']
  }

  /** The quoted arguments joined with spaces. */
  function Joined(args: seq<string>): string {
    if args == [] then []
    else if |args| == 1 then PosixShellArgument(args[0])
    else Joined(args[..|args| - 1]) + [' '] + PosixShellArgument(args[|args| - 1])
  }

  // ---------- The shell's reading ----------

  /** Where the reader stands: between words, in a word, or inside one of the quotes. */
  datatype Mode = Between | InWord | Escape | InSingle | InDouble | EscapeInDouble

  datatype Reader = Reader(mode: Mode, word: string, words: seq<string>) | Unreadable

  /** Characters that end a word, start an expansion, a pattern or a comment, or separate
      commands when they are not quoted; a command that has one is not a list of words. */
  predicate SpecialCharacter(c: char) {
    || c == '|' || c == '&' || c == ';' || c == '<' || c == '>' || c == '(' || c == ')' || c == '$' || c == '`'
    || c == '*' || c == '?' || c == '[' || c == '#' || c == '~' || c == '\n'
  }

  function Read(r: Reader, c: char): Reader {
    if r.Unreadable? || c == '\0' then Unreadable
    else
      match r.mode
      case Between =>
        if c == ' ' || c == '\t' then r
        else ReadUnquoted(r.(mode := InWord, word := []), c)
      case InWord =>
        if c == ' ' || c == '\t' then Reader(Between, [], r.words + [r.word])
        else ReadUnquoted(r, c)
      case Escape =>
        if c == '\n' then r.(mode := InWord) else r.(mode := InWord, word := r.word + [c])
      case InSingle =>
        if c == '\'' then r.(mode := InWord) else r.(word := r.word + [c])
      case InDouble =>
        if c == '"' then r.(mode := InWord)
        else if c == '\\' then r.(mode := EscapeInDouble)
        else if c == '$' || c == '`' then Unreadable
        else r.(word := r.word + [c])
      case EscapeInDouble =>
        if c == '\n' then r.(mode := InDouble)
        else if c == '$' || c == '`' || c == '"' || c == '\\' then r.(mode := InDouble, word := r.word + [c])
        else r.(mode := InDouble, word := r.word + ['\\', c])
  }

  function ReadUnquoted(r: Reader, c: char): Reader
    requires r.Reader? && r.mode == InWord
  {
    if c == '\'' then r.(mode := InSingle)
    else if c == '"' then r.(mode := InDouble)
    else if c == '\\' then r.(mode := Escape)
    else if SpecialCharacter(c) then Unreadable
    else r.(word := r.word + [c])
  }

  function ReadAll(r: Reader, s: string): Reader
    decreases |s|
  {
    if s == [] then r else ReadAll(Read(r, s[0]), s[1..])
  }

  /** The words of a simple command; None when a quote is left open or something other
      than words is found. */
  function ShellWords(s: string): Option<seq<string>> {
    var r := ReadAll(Reader(Between, [], []), s);
    if r.Unreadable? then None
    else
      match r.mode
      case Between => Some(r.words)
      case InWord => Some(r.words + [r.word])
      case _ => None
  }

  // ---------- The round trip ----------

  predicate Clean(value: string) {
    '\0' !in value
  }

  lemma {:induction false} ReadConcat(r: Reader, a: string, b: string)
    ensures ReadAll(r, a + b) == ReadAll(ReadAll(r, a), b)
    decreases |a|
  {
    if a == [] {
      assert a + b == b;
    } else {
      assert (a + b)[1..] == a[1..] + b;
      ReadConcat(Read(r, a[0]), a[1..], b);
    }
  }

  lemma ReadFive(r: Reader)
    requires r.Reader? && r.mode == InSingle
    ensures ReadAll(r, ESCAPED_QUOTE) == r.(word := r.word + ['\''])
  {
    var s := ESCAPED_QUOTE;
    assert s[1..] == ['"', '\'', '"', '\''];
    assert s[1..][1..] == ['\'', '"', '\''];
    assert s[1..][1..][1..] == ['"', '\''];
    assert s[1..][1..][1..][1..] == ['\''];
    assert s[1..][1..][1..][1..][1..] == [];
  }

  lemma {:induction false} ReadEscaped(r: Reader, value: string)
    requires r.Reader? && r.mode == InSingle && Clean(value)
    ensures ReadAll(r, Escaped(value)) == r.(word := r.word + value)
    decreases |value|
  {
    if value == [] {
      assert r.word + value == r.word;
    } else {
      var next := r.(word := r.word + [value[0]]);
      if value[0] == '\'' {
        ReadFive(r);
        ReadConcat(r, ESCAPED_QUOTE, Escaped(value[1..]));
      } else {
        ReadConcat(r, [value[0]], Escaped(value[1..]));
        assert ReadAll(r, [value[0]]) == Read(r, value[0]);
      }
      ReadEscaped(next, value[1..]);
      assert next.word + value[1..] == r.word + value;
    }
  }

  /** Characters that need no quotes are read as they are. */
  lemma SafeIsPlain(c: char)
    requires SafeCharacter(c)
    ensures c != '\0' && c != ' ' && c != '\t' && c != '\'' && c != '"' && c != '\\' && !SpecialCharacter(c)
  {
  }

  lemma {:induction false} ReadSafe(r: Reader, value: string)
    requires r.Reader? && r.mode == InWord && forall i | 0 <= i < |value| :: SafeCharacter(value[i])
    ensures ReadAll(r, value) == r.(word := r.word + value)
    decreases |value|
  {
    hide SafeCharacter, SpecialCharacter;
    if value == [] {
      assert r.word + value == r.word;
    } else {
      SafeIsPlain(value[0]);
      var next := r.(word := r.word + [value[0]]);
      ReadSafe(next, value[1..]);
      assert next.word + value[1..] == r.word + value;
    }
  }

  /** A printed argument is read back as one word. */
  lemma ReadArgument(words: seq<string>, value: string)
    requires Clean(value)
    ensures ReadAll(Reader(Between, [], words), PosixShellArgument(value)) == Reader(InWord, value, words)
  {
    hide SafeCharacter, SpecialCharacter;
    var start := Reader(Between, [], words);
    if Safe(value) {
      SafeIsPlain(value[0]);
      ReadSafe(Read(start, value[0]), value[1..]);
      assert [value[0]] + value[1..] == value;
    } else {
      var open := Reader(InSingle, [], words);
      ReadConcat(start, ['\''] + Escaped(value), ['\'']);
      ReadConcat(start, ['\''], Escaped(value));
      assert ReadAll(start, ['\'']) == Read(start, '\'') == open;
      ReadEscaped(open, value);
      assert [] + value == value;
      assert ReadAll(Reader(InSingle, value, words), ['\'']) == Read(Reader(InSingle, value, words), '\'');
    }
  }

  lemma {:induction false} ReadJoined(args: seq<string>)
    requires args != [] && forall i | 0 <= i < |args| :: Clean(args[i])
    ensures ReadAll(Reader(Between, [], []), Joined(args)) == Reader(InWord, args[|args| - 1], args[..|args| - 1])
    decreases |args|
  {
    hide Clean, PosixShellArgument;
    var start := Reader(Between, [], []);
    var n := |args| - 1;
    if n == 0 {
      assert args[..0] == [];
      ReadArgument([], args[0]);
    } else {
      var front := args[..n];
      ReadJoined(front);
      assert front[..n - 1] + [front[n - 1]] == front;
      ReadConcat(start, Joined(front) + [' '], PosixShellArgument(args[n]));
      ReadConcat(start, Joined(front), [' ']);
      var r := ReadAll(start, Joined(front));
      assert ReadAll(r, [' ']) == Read(r, ' ') == Reader(Between, [], front);
      ReadArgument(front, args[n]);
    }
  }

  lemma {:induction false} StaysUnreadable(s: string)
    ensures ReadAll(Unreadable, s) == Unreadable
    decreases |s|
  {
    if s != [] {
      StaysUnreadable(s[1..]);
    }
  }

  /** No shell reads a command with a NUL character in it. */
  lemma {:induction false} NulIsUnreadable(r: Reader, s: string)
    requires '\0' in s
    ensures ReadAll(r, s) == Unreadable
    decreases |s|
  {
    if s[0] == '\0' {
      StaysUnreadable(s[1..]);
    } else {
      NulIsUnreadable(Read(r, s[0]), s[1..]);
    }
  }

  lemma {:induction false} EscapedKeepsNul(value: string)
    requires '\0' in value
    ensures '\0' in Escaped(value)
    decreases |value|
  {
    if value[0] != '\0' {
      EscapedKeepsNul(value[1..]);
    }
  }

  lemma {:induction false} JoinedKeepsNul(args: seq<string>, i: nat)
    requires i < |args| && !Clean(args[i])
    ensures '\0' in Joined(args)
    decreases |args|
  {
    var n := |args| - 1;
    if i == n {
      if Safe(args[n]) {
        SafeHasNoNul(args[n]);
      } else {
        EscapedKeepsNul(args[n]);
      }
    } else {
      JoinedKeepsNul(args[..n], i);
    }
  }

  lemma SafeHasNoNul(value: string)
    ensures Safe(value) ==> Clean(value)
  {
    if Safe(value) && !Clean(value) {
      assert '\0' in value;
      SafeIsPlain('\0');
    }
  }

  /** For every list of arguments: the shell reads the joined, quoted arguments back as
      exactly that list if and only if none of them holds a NUL character. */
  lemma QuotingRoundTrip(args: seq<string>)
    ensures ShellWords(Joined(args)) == Some(args) <==> forall i | 0 <= i < |args| :: Clean(args[i])
  {
    hide Clean, Joined, Read;
    if forall i | 0 <= i < |args| :: Clean(args[i]) {
      if args == [] {
        assert Joined(args) == [] by { JoinedNone(); }
      } else {
        ReadJoined(args);
        assert args[..|args| - 1] + [args[|args| - 1]] == args;
      }
    } else {
      var i: nat :| i < |args| && !Clean(args[i]);
      JoinedKeepsNul(args, i);
      NulIsUnreadable(Reader(Between, [], []), Joined(args));
    }
  }

  lemma JoinedNone()
    ensures Joined([]) == []
  {
  }

  // ---------- The enrollment command ----------

  datatype Enrollment = Enrollment(serverUrl: string, token: string, machineName: string)

  function Arguments(e: Enrollment): seq<string> {
    (if e.serverUrl != DEFAULT_SERVER_URL then ["ods", "--server", e.serverUrl] else ["ods"])
    + ["up", "--token", e.token, "--name", e.machineName]
  }

  predicate CleanEnrollment(e: Enrollment) {
    Clean(e.serverUrl) && Clean(e.token) && Clean(e.machineName)
  }

  method MachineEnrollmentCommand(e: Enrollment) returns (command: string)
    ensures command == Joined(Arguments(e))
    ensures CleanEnrollment(e) ==>
              ShellWords(command) == Some((if e.serverUrl == "http://localhost:4100" then ["ods"] else ["ods", "--server", e.serverUrl])
                                          + ["up", "--token", e.token, "--name", e.machineName])
  {
    hide Clean, Joined, ShellWords;
    var args := ["ods"];
    if e.serverUrl != DEFAULT_SERVER_URL {
      args := args + ["--server", e.serverUrl];
    }
    args := args + ["up", "--token", e.token, "--name", e.machineName];
    assert args == Arguments(e);
    command := Joined(args);
    QuotingRoundTrip(args);
    FixedArgumentsAreClean();
  }

  lemma FixedArgumentsAreClean()
    ensures Clean("ods") && Clean("--server") && Clean("up") && Clean("--token") && Clean("--name")
  {
  }

  /** Two enrollments are shown as the same command only if they are the same: token, name
      and server all survive. */
  lemma EnrollmentSurvives(a: Enrollment, b: Enrollment)
    requires CleanEnrollment(a) && CleanEnrollment(b)
    requires Joined(Arguments(a)) == Joined(Arguments(b))
    ensures a == b
  {
    hide Clean, Joined, ShellWords;
    FixedArgumentsAreClean();
    QuotingRoundTrip(Arguments(a));
    QuotingRoundTrip(Arguments(b));
    var (x, y) := (Arguments(a), Arguments(b));
    assert x[|x| - 1] == a.machineName && x[|x| - 3] == a.token;
    assert y[|y| - 1] == b.machineName && y[|y| - 3] == b.token;
    assert a.serverUrl != DEFAULT_SERVER_URL ==> |x| == 8 && x[2] == a.serverUrl;
    assert b.serverUrl != DEFAULT_SERVER_URL ==> |y| == 8 && y[2] == b.serverUrl;
  }
}
