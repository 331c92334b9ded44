/** Single-quote escaping of log paths (services/sshtail/shellescape.go) against the
    quoting rules of the POSIX Shell Command Language, sections 2.2.1 (escape
    character), 2.2.2 (single quotes) and 2.3 (token recognition). */
module ShellQuote {
  // ------------------------------------------------------------ the program

  function ReplaceQuotes(path: string): string {
    if path == "" then ""
    else (if path[0] == '\'' then "'\\''" else [path[0]]) + ReplaceQuotes(path[1..])
  }

  function ShellEscape(path: string): string {
    if path == "" then "''" else "'" + ReplaceQuotes(path) + "'"
  }

  predicate Contains(s: string, t: string) {
    exists i :: 0 <= i <= |s| && t <= s[i..]
  }

  predicate ValidLogPath(path: string) {
    && path != ""
    && (forall i :: 0 <= i < |path| ==> path[i] !in {'\n', '\r', '\t', '\0'})
    && !Contains(path, "..")
  }

  // -------------------------------------------------------------- the shell

  /** A word under construction; None between words. */
  datatype Partial = NoWord | Building(text: string)

  function Extend(w: Partial, c: char): Partial { Building((if w.NoWord? then "" else w.text) + [c]) }

  function Flush(words: seq<string>, w: Partial): seq<string> { if w.NoWord? then words else words + [w.text] }

  datatype Lexed = Words(words: seq<string>) | NotLiteral   // NotLiteral: expansion, operator or unclosed quote

  predicate IsBlank(c: char) { c == ' ' || c == '\t' }

  /** Unquoted characters that start an expansion, a substitution, a pattern, a comment, a
      double quote, an operator or a new line, and so are not literal. */
  predicate IsActive(c: char) {
    c in {'|', '&', ';', '<', '>', '(', ')', '$', '`', '"', '*', '?', '[', '#', '~', '=', '%', '\n'}
  }

  /** Token recognition from the unquoted state, or inside single quotes. */
  function Lex(s: string, quoted: bool, w: Partial, words: seq<string>): Lexed
    decreases |s|
  {
    if s == "" then if quoted then NotLiteral else Words(Flush(words, w))
    else if quoted then
      if s[0] == '\'' then Lex(s[1..], false, w, words)
      else Lex(s[1..], true, Extend(w, s[0]), words)
    else if s[0] == '\'' then Lex(s[1..], true, if w.NoWord? then Building("") else w, words)
    else if s[0] == '\\' then
      if |s| == 1 then NotLiteral
      else if s[1] == '\n' then Lex(s[2..], false, w, words)
      else Lex(s[2..], false, Extend(w, s[1]), words)
    else if IsBlank(s[0]) then Lex(s[1..], false, NoWord, Flush(words, w))
    else if IsActive(s[0]) then NotLiteral
    else Lex(s[1..], false, Extend(w, s[0]), words)
  }

  // -------------------------------------------------------------- the theorem

  function TextOf(w: Partial): string { if w.NoWord? then "" else w.text }

  lemma LexQuote(rest: string, quoted: bool, w: Partial, words: seq<string>)
    ensures Lex("'" + rest, quoted, w, words)
            == Lex(rest, !quoted, if !quoted && w.NoWord? then Building("") else w, words)
  {
    assert ("'" + rest)[1..] == rest;
  }

  lemma LexInQuotes(c: char, rest: string, w: Partial, words: seq<string>)
    requires c != '\''
    ensures Lex([c] + rest, true, w, words) == Lex(rest, true, Extend(w, c), words)
  {
    assert ([c] + rest)[1..] == rest;
  }

  lemma LexEscapedQuote(rest: string, w: Partial, words: seq<string>)
    ensures Lex("\\'" + rest, false, w, words) == Lex(rest, false, Extend(w, '\''), words)
  {
    assert ("\\'" + rest)[2..] == rest;
  }

  /** Outside quotes, a character with no meaning to the shell stands for itself, a blank ends the
      word, and an escaped line end is no character at all. */
  lemma LexPlain(c: char, rest: string, w: Partial, words: seq<string>)
    ensures !IsActive(c) && !IsBlank(c) && c != '\'' && c != '\\' ==>
              Lex([c] + rest, false, w, words) == Lex(rest, false, Extend(w, c), words)
    ensures IsBlank(c) ==> Lex([c] + rest, false, w, words) == Lex(rest, false, NoWord, Flush(words, w))
    ensures Lex("\\\n" + rest, false, w, words) == Lex(rest, false, w, words)
  {
    assert ([c] + rest)[1..] == rest && ("\\\n" + rest)[2..] == rest;
  }

  /** Inside quotes, the escaped body followed by its closing quote adds exactly the
      path to the word being built, whatever follows. */
  lemma {:induction false} BodyLexes(path: string, rest: string, text: string, words: seq<string>)
    ensures Lex(ReplaceQuotes(path) + "'" + rest, true, Building(text), words)
            == Lex(rest, false, Building(text + path), words)
    decreases |path|
  {
    if path == "" {
      assert ReplaceQuotes(path) + "'" + rest == "'" + rest;
      LexQuote(rest, true, Building(text), words);
      assert text + path == text;
    } else {
      var c, tail := path[0], ReplaceQuotes(path[1..]) + "'" + rest;
      var now, next := Building(text), Building(text + [c]);
      assert text + [c] + path[1..] == text + path;
      if c == '\'' {
        calc {
          Lex(ReplaceQuotes(path) + "'" + rest, true, now, words);
          { assert ReplaceQuotes(path) + "'" + rest == "'" + ("\\'" + ("'" + tail)); }
          Lex("'" + ("\\'" + ("'" + tail)), true, now, words);
          { LexQuote("\\'" + ("'" + tail), true, now, words); }
          Lex("\\'" + ("'" + tail), false, now, words);
          { LexEscapedQuote("'" + tail, now, words); }
          Lex("'" + tail, false, next, words);
          { LexQuote(tail, false, next, words); }
          Lex(tail, true, next, words);
          { BodyLexes(path[1..], rest, text + [c], words); }
          Lex(rest, false, Building(text + path), words);
        }
      } else {
        assert ReplaceQuotes(path) + "'" + rest == [c] + tail;
        LexInQuotes(c, tail, now, words);
        BodyLexes(path[1..], rest, text + [c], words);
      }
    }
  }

  /** In any command line, an escaped path met outside quotes contributes exactly its own
      characters to the current word: nothing in it is read as shell syntax, for every
      string, accepted by ValidLogPath or not. */
  lemma EscapeIsLiteral(path: string, rest: string, w: Partial, words: seq<string>)
    ensures Lex(ShellEscape(path) + rest, false, w, words) == Lex(rest, false, Building(TextOf(w) + path), words)
  {
    var body := ReplaceQuotes(path) + "'" + rest;
    assert ShellEscape(path) + rest == "'" + body;
    LexQuote(body, false, w, words);
    BodyLexes(path, rest, TextOf(w), words);
  }

  /** On its own the escaped path is one word, the path itself. */
  lemma EscapedPathIsOneWord(path: string)
    ensures Lex(ShellEscape(path), false, NoWord, []) == Words([path])
  {
    EscapeIsLiteral(path, "", NoWord, []);
    assert ShellEscape(path) + "" == ShellEscape(path);
    assert "" + path == path;
  }

  /** Two different paths never escape to the same text. */
  lemma EscapeIsInjective(a: string, b: string)
    requires ShellEscape(a) == ShellEscape(b)
    ensures a == b
  {
    EscapedPathIsOneWord(a);
    EscapedPathIsOneWord(b);
  }

  /** As an argument after a space, with more arguments following. */
  lemma EscapedPathIsOneArgument(path: string, after: string, words: seq<string>)
    ensures Lex(ShellEscape(path) + " " + after, false, NoWord, words) == Lex(after, false, NoWord, words + [path])
  {
    EscapeIsLiteral(path, " " + after, NoWord, words);
    assert ShellEscape(path) + " " + after == ShellEscape(path) + (" " + after);
    assert (" " + after)[1..] == after;
    assert "" + path == path;
  }

  function Spaced(paths: seq<string>): string {
    if paths == [] then ""
    else if |paths| == 1 then ShellEscape(paths[0])
    else ShellEscape(paths[0]) + " " + Spaced(paths[1..])
  }

  /** Any number of escaped paths with spaces between them are read as exactly these arguments. */
  lemma {:induction false} ArgumentsSurvive(paths: seq<string>, words: seq<string>)
    ensures Lex(Spaced(paths), false, NoWord, words) == Words(words + paths)
    decreases |paths|
  {
    if |paths| == 0 {
      assert words + paths == words;
    } else if |paths| == 1 {
      EscapeIsLiteral(paths[0], "", NoWord, words);
      assert ShellEscape(paths[0]) + "" == ShellEscape(paths[0]) && "" + paths[0] == paths[0];
      assert words + paths == words + [paths[0]];
    } else {
      EscapedPathIsOneArgument(paths[0], Spaced(paths[1..]), words);
      ArgumentsSurvive(paths[1..], words + [paths[0]]);
      assert words + [paths[0]] + paths[1..] == words + paths;
    }
  }

  /** Without the escape an accepted path is not literal text: this one is a pattern. */
  lemma UnescapedPathIsNotLiteral()
    ensures ValidLogPath("*") && Lex("*", false, NoWord, []) == NotLiteral
  {
    forall i | 0 <= i <= 1 ensures !(".." <= "*"[i..]) {
      assert |"*"[i..]| < 2;
    }
  }

  // ------------------------------------------------------------- which paths get there

  /** A path that goes up a directory, anywhere in it, is refused. */
  lemma UpwardPathsAreRefused(a: string, b: string)
    ensures !ValidLogPath(a + ".." + b)
  {
    var path := a + ".." + b;
    assert path[|a|..] == ".." + b;
    assert ".." <= path[|a|..];
  }

  /** So is one that would break the command line or end the argument early. */
  lemma ControlCharactersAreRefused(a: string, c: char, b: string)
    requires c == '\n' || c == '\r' || c == '\t' || c == '\0'
    ensures !ValidLogPath(a + [c] + b) && !ValidLogPath("")
  {
    assert (a + [c] + b)[|a|] == c;
  }

  /** Any other path that is not empty is accepted. */
  lemma PlainPathsAreAccepted(path: string)
    requires path != "" && forall i :: 0 <= i < |path| ==> path[i] !in {'\n', '\r', '\t', '\0'}
    requires forall i :: 0 <= i < |path| - 1 ==> !(path[i] == '.' && path[i + 1] == '.')
    ensures ValidLogPath(path)
  {
    forall i | 0 <= i <= |path| ensures !(".." <= path[i..]) {
      assert i + 1 < |path| ==> path[i..][0] == path[i] && path[i..][1] == path[i + 1];
    }
  }
}
