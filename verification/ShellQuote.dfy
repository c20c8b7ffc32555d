/** Shell quoting, and the tokenizer of the shell that reads it back. */
module ShellQuote {
  import opened Util

  /** `[A-Za-z0-9_@%+=:,./-]` */
  predicate IsPlain(c: char) {
    || 'A' <= c <= 'Z' || 'a' <= c <= 'z' || '0' <= c <= '9'
    || c == '_' || c == '@' || c == '%' || c == '+' || c == '='
    || c == ':' || c == ',' || c == '.' || c == '/' || c == '-'
  }

  predicate AllPlain(s: string) {
    forall i :: 0 <= i < |s| ==> IsPlain(s[i])
  }

  /** `replaceAll("'", "'\\''")` */
  function EscapeQuotes(s: string): string {
    if s == "" then "" else (if s[0] == '\'' then "'\\''" else [s[0]]) + EscapeQuotes(s[1..])
  }

  function Quote(s: string): string {
    if s != "" && AllPlain(s) then s else "'" + EscapeQuotes(s) + "'"
  }

  function Quoted(argv: seq<string>): seq<string> {
    if argv == [] then [] else [Quote(argv[0])] + Quoted(argv[1..])
  }

  /** `commandFromArgv` */
  function CommandFromArgv(argv: seq<string>): string {
    Join(Quoted(argv), " ")
  }

  // ----- the reader -----

  /** The scanner is between words, inside a word, inside single quotes or
      behind a backslash; the last three carry the word so far. */
  datatype State = Between | InWord(word: string) | InQuotes(word: string) | Escaped(inWord: bool, word: string)

  /** Characters that act outside quotes: operators, expansions, globs, comments
      and the newline. Text with one of them is not a plain list of words. */
  predicate IsSpecial(c: char) {
    || c == '|' || c == '&' || c == ';' || c == '<' || c == '>' || c == '(' || c == ')' || c == '$' || c == '`'
    || c == '"' || c == '*' || c == '?' || c == '[' || c == ']' || c == '#' || c == '~' || c == '{' || c == '}'
    || c == '!' || c == '\n'
  }

  predicate IsBlank(c: char) {
    c == ' ' || c == '\t'
  }

  /** Words of a simple command by sections 2.2.1, 2.2.2 and 2.3 of the POSIX
      Shell Command Language; None when the text uses anything else. */
  function Scan(s: string, state: State): Option<seq<string>>
    decreases |s|
  {
    if s == "" then
      match state
      case Between => Some([])
      case InWord(w) => Some([w])
      case InQuotes(_) => None
      case Escaped(_, _) => None
    else
      var c, rest := s[0], s[1..];
      match state
      case Between =>
        if IsBlank(c) then Scan(rest, Between)
        else if c == '\'' then Scan(rest, InQuotes(""))
        else if c == '\\' then Scan(rest, Escaped(false, ""))
        else if IsSpecial(c) then None
        else Scan(rest, InWord([c]))
      case InWord(w) =>
        if IsBlank(c) then Emit(w, Scan(rest, Between))
        else if c == '\'' then Scan(rest, InQuotes(w))
        else if c == '\\' then Scan(rest, Escaped(true, w))
        else if IsSpecial(c) then None
        else Scan(rest, InWord(w + [c]))
      case InQuotes(w) =>
        if c == '\'' then Scan(rest, InWord(w)) else Scan(rest, InQuotes(w + [c]))
      case Escaped(inWord, w) =>
        if c == '\n' then Scan(rest, if inWord then InWord(w) else Between) else Scan(rest, InWord(w + [c]))
  }

  function Emit(word: string, rest: Option<seq<string>>): Option<seq<string>> {
    match rest
    case None => None
    case Some(words) => Some([word] + words)
  }

  function Tokenize(s: string): Option<seq<string>> {
    Scan(s, Between)
  }

  // ----- the round trip -----

  predicate IsOrdinary(c: char) {
    !IsBlank(c) && c != '\'' && c != '\\' && !IsSpecial(c)
  }

  lemma PlainIsOrdinary(c: char)
    requires IsPlain(c)
    ensures IsOrdinary(c)
  {
  }

  /** Plain characters extend the word, or start one. */
  lemma ScanPlainOne(c: char, rest: string)
    requires IsPlain(c)
    ensures forall w :: Scan([c] + rest, InWord(w)) == Scan(rest, InWord(w + [c]))
    ensures Scan([c] + rest, Between) == Scan(rest, InWord([c]))
  {
    PlainIsOrdinary(c);
    assert ([c] + rest)[1..] == rest;
  }

  lemma {:induction false} ScanPlain(s: string, w: string, rest: string)
    requires AllPlain(s)
    ensures Scan(s + rest, InWord(w)) == Scan(rest, InWord(w + s))
  {
    if s == "" {
      assert s + rest == rest && w + s == w;
    } else {
      assert IsPlain(s[0]);
      ScanPlainOne(s[0], s[1..] + rest);
      assert s + rest == [s[0]] + (s[1..] + rest);
      ScanPlain(s[1..], w + [s[0]], rest);
      assert w + [s[0]] + s[1..] == w + s;
    }
  }

  /** Inside single quotes the escaped text reads as the text. */
  lemma {:induction false} ScanQuoted(s: string, w: string, rest: string)
    ensures Scan(EscapeQuotes(s) + ("'" + rest), InQuotes(w)) == Scan(rest, InWord(w + s))
  {
    var tail := "'" + rest;
    if s == "" {
      assert EscapeQuotes(s) + tail == tail && tail[1..] == rest && w + s == w;
    } else {
      var more := EscapeQuotes(s[1..]) + tail;
      ScanQuoted(s[1..], w + [s[0]], rest);
      assert w + [s[0]] + s[1..] == w + s;
      if s[0] == '\'' {
        assert EscapeQuotes(s) + tail == "'\\''" + more;
        ScanEscapedQuote(w, more);
      } else {
        assert EscapeQuotes(s) + tail == [s[0]] + more;
        ScanOtherQuoted(s[0], w, more);
      }
    }
  }

  lemma ScanOtherQuoted(c: char, w: string, rest: string)
    requires c != '\''
    ensures Scan([c] + rest, InQuotes(w)) == Scan(rest, InQuotes(w + [c]))
  {
    assert ([c] + rest)[1..] == rest;
  }

  lemma ScanEscapedQuote(w: string, rest: string)
    ensures Scan("'\\''" + rest, InQuotes(w)) == Scan(rest, InQuotes(w + ['\'']))
  {
    var s := "'\\''" + rest;
    assert s[1..] == "\\''" + rest;
    assert s[1..][1..] == "''" + rest;
    assert s[1..][1..][1..] == "'" + rest;
    assert s[1..][1..][1..][1..] == rest;
    assert Scan(s, InQuotes(w)) == Scan(s[1..], InWord(w));
    assert Scan(s[1..], InWord(w)) == Scan(s[1..][1..], Escaped(true, w));
    assert Scan(s[1..][1..], Escaped(true, w)) == Scan(s[1..][1..][1..], InWord(w + ['\'']));
  }

  /** A quoted word is read as that word, whatever follows it. */
  lemma ScanQuote(s: string, rest: string)
    ensures Scan(Quote(s) + rest, Between) == Scan(rest, InWord(s))
  {
    if s != "" && AllPlain(s) {
      ScanPlainWord(s, rest);
    } else {
      ScanQuotedWord(s, rest);
    }
  }

  lemma ScanPlainWord(s: string, rest: string)
    requires s != "" && AllPlain(s)
    ensures Scan(s + rest, Between) == Scan(rest, InWord(s))
  {
    assert IsPlain(s[0]);
    ScanPlainOne(s[0], s[1..] + rest);
    assert s + rest == [s[0]] + (s[1..] + rest);
    ScanPlain(s[1..], [s[0]], rest);
    assert [s[0]] + s[1..] == s;
  }

  lemma ScanQuotedWord(s: string, rest: string)
    ensures Scan("'" + EscapeQuotes(s) + "'" + rest, Between) == Scan(rest, InWord(s))
  {
    var all := "'" + EscapeQuotes(s) + "'" + rest;
    assert all[1..] == EscapeQuotes(s) + ("'" + rest);
    ScanQuoted(s, "", rest);
    assert "" + s == s;
  }

  /** Every list of words survives quoting and tokenizing: empty words, quotes,
      blanks and newlines included. */
  lemma {:induction false} TokenizeInverts(argv: seq<string>)
    ensures Tokenize(CommandFromArgv(argv)) == Some(argv)
  {
    if |argv| == 1 {
      assert Quoted(argv) == [Quote(argv[0])];
      ScanQuote(argv[0], "");
      assert Quote(argv[0]) + "" == Quote(argv[0]);
      assert argv == [argv[0]];
    } else if |argv| > 1 {
      TokenizeInverts(argv[1..]);
      var rest := CommandFromArgv(argv[1..]);
      assert Quoted(argv)[1..] == Quoted(argv[1..]);
      assert CommandFromArgv(argv) == Quote(argv[0]) + (" " + rest);
      ScanQuote(argv[0], " " + rest);
      assert (" " + rest)[1..] == rest;
      assert argv == [argv[0]] + argv[1..];
    }
  }

  lemma {:induction false} QuotedAppend(a: seq<string>, b: seq<string>)
    ensures Quoted(a + b) == Quoted(a) + Quoted(b)
  {
    if a == [] {
      assert a + b == b;
    } else {
      assert (a + b)[1..] == a[1..] + b;
      QuotedAppend(a[1..], b);
    }
  }

  lemma {:induction false} JoinAppend(a: seq<string>, b: seq<string>)
    requires a != [] && b != []
    ensures Join(a + b, " ") == Join(a, " ") + " " + Join(b, " ")
  {
    if |a| > 1 {
      assert (a + b)[1..] == a[1..] + b;
      JoinAppend(a[1..], b);
      assert a[0] + " " + (Join(a[1..], " ") + " " + Join(b, " "))
          == a[0] + " " + Join(a[1..], " ") + " " + Join(b, " ");
    } else {
      assert a + b == [a[0]] + b;
      assert (a + b)[1..] == b;
    }
  }

  /** `${dogfood_command} --workspace-root ${shellQuoteForPrompt(path)}`, for any
      plain flag. */
  function WithFlag(command: string, flag: string, path: string): string {
    command + " " + flag + " " + Quote(path)
  }

  /** Appending the flag to a command adds exactly its two words. */
  lemma FlagAppends(argv: seq<string>, flag: string, path: string)
    requires flag != "" && AllPlain(flag)
    ensures Tokenize(WithFlag(CommandFromArgv(argv), flag, path)) == Some(argv + [flag, path])
  {
    var extra := [flag, path];
    QuotedPair(flag, path);
    TokenizeInverts(argv + extra);
    if argv == [] {
      var command := CommandFromArgv(extra);
      assert argv + extra == extra;
      assert WithFlag("", flag, path) == " " + command;
      assert (" " + command)[1..] == command;
    } else {
      QuotedAppend(argv, extra);
      JoinAppend(Quoted(argv), Quoted(extra));
      assert WithFlag(CommandFromArgv(argv), flag, path)
          == CommandFromArgv(argv) + " " + (flag + " " + Quote(path));
    }
  }

  lemma QuotedPair(flag: string, path: string)
    requires flag != "" && AllPlain(flag)
    ensures Quoted([flag, path]) == [flag, Quote(path)]
    ensures Join(Quoted([flag, path]), " ") == flag + " " + Quote(path)
  {
    assert [flag, path][1..] == [path] && [path][1..] == [];
    assert Quoted([path]) == [Quote(path)];
    assert [flag, Quote(path)][1..] == [Quote(path)];
  }

  /** The flag of the runner is such a flag. */
  lemma WorkspaceRootAppends(argv: seq<string>, path: string)
    ensures Tokenize(WithFlag(CommandFromArgv(argv), "--workspace-root", path))
            == Some(argv + ["--workspace-root", path])
  {
    FlagAppends(argv, "--workspace-root", path);
  }
}
