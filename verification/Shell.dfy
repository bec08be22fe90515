/**
 * A command line rendered as one shell string, against the token recognition and quote removal rules of
 * section 2.2 of the POSIX.1-2017 Shell Command Language.
 */
module Shell {
  import opened Common

  /** One element of a built command line. */
  datatype Arg = Arg(value: string, quote: bool)

  predicate UnsafeInShell(c: char) {
    !('a' <= c <= 'z' || 'A' <= c <= 'Z' || '0' <= c <= '9' || c in "@%+=:,./-_")
  }

  /** Every single quote closed, escaped and reopened. */
  function QuotesReplaced(text: string): string {
    if text == "" then ""
    else (if text[0] == '\'' then "'\\''" else [text[0]]) + QuotesReplaced(text[1..])
  }

  function ShellQuote(text: string): string {
    if text == "" then "''"
    else if forall i :: 0 <= i < |text| ==> !UnsafeInShell(text[i]) then text
    else "'" + QuotesReplaced(text) + "'"
  }

  // ---- how a shell reads a string ----

  datatype Quoting = Unquoted | InSingle | InDouble

  predicate IsBlank(c: char) {
    c == ' ' || c == '\t'
  }

  /** Unquoted, these start an operator, an expansion, a comment or a pattern: more than a word. */
  predicate IsSyntax(c: char) {
    c in "|&;<>()$`*?[#~\n"
  }

  function Before(words: seq<string>, rest: Option<seq<string>>): Option<seq<string>> {
    match rest case None => None case Some(more) => Some(words + more)
  }

  function Finished(word: Option<string>): seq<string> {
    match word case None => [] case Some(w) => [w]
  }

  function Longer(word: Option<string>, text: string): Option<string> {
    match word case None => Some(text) case Some(w) => Some(w + text)
  }

  /**
   * The words a shell reads, quotes removed; nothing if a quotation is left open or the text is more than
   * words. `word` is the word read so far.
   */
  function Words(s: string, word: Option<string>, quoting: Quoting): Option<seq<string>>
    decreases |s|
  {
    if s == "" then (if quoting == Unquoted then Some(Finished(word)) else None)
    else match quoting
      case InSingle =>
        if s[0] == '\'' then Words(s[1..], word, Unquoted) else Words(s[1..], Longer(word, [s[0]]), InSingle)
      case InDouble =>
        if s[0] == '"' then Words(s[1..], word, Unquoted)
        else if s[0] == '$' || s[0] == '`' then None
        else if s[0] == '\\' && |s| > 1 && s[1] == '\n' then Words(s[2..], word, InDouble)
        else if s[0] == '\\' && |s| > 1 && s[1] in "$`\"\\" then Words(s[2..], Longer(word, [s[1]]), InDouble)
        else Words(s[1..], Longer(word, [s[0]]), InDouble)
      case Unquoted =>
        if IsBlank(s[0]) then Before(Finished(word), Words(s[1..], None, Unquoted))
        else if s[0] == '\'' then Words(s[1..], Longer(word, ""), InSingle)
        else if s[0] == '"' then Words(s[1..], Longer(word, ""), InDouble)
        else if s[0] == '\\' then
          if |s| == 1 then None
          else if s[1] == '\n' then Words(s[2..], word, Unquoted)
          else Words(s[2..], Longer(word, [s[1]]), Unquoted)
        else if IsSyntax(s[0]) then None
        else Words(s[1..], Longer(word, [s[0]]), Unquoted)
  }

  // ---- rendering ----

  function Rendered(arg: Arg): string {
    if arg.quote then ShellQuote(arg.value) else arg.value
  }

  function Spaced(parts: seq<string>): string {
    if parts == [] then ""
    else if |parts| == 1 then parts[0]
    else parts[0] + " " + Spaced(parts[1..])
  }

  function Values(args: seq<Arg>): (values: seq<string>)
    ensures |values| == |args|
  {
    seq(|args|, i requires 0 <= i < |args| => args[i].value)
  }

  function Parts(args: seq<Arg>): (parts: seq<string>)
    ensures |parts| == |args|
  {
    seq(|args|, i requires 0 <= i < |args| => Rendered(args[i]))
  }

  /** The command line as a plain argument vector. */
  method Argv(args: seq<Arg>) returns (argv: seq<string>)
    ensures argv == Values(args)
    ensures |argv| == |args| && forall i :: 0 <= i < |args| ==> argv[i] == args[i].value
  {
    argv := [];
    for i := 0 to |args|
      invariant argv == Values(args)[..i]
    {
      argv := argv + [args[i].value];
    }
  }

  // ---- a shell reads back what was quoted ----

  lemma ReadOne(c: char, tail: string, word: string)
    ensures Words([c] + tail, Some(word), InSingle)
         == if c == '\'' then Words(tail, Some(word), Unquoted) else Words(tail, Some(word + [c]), InSingle)
    ensures Words(['\\', '\''] + tail, Some(word), Unquoted) == Words(tail, Some(word + "'"), Unquoted)
    ensures Words(['\''] + tail, Some(word), Unquoted) == Words(tail, Some(word), InSingle)
  {
    assert ([c] + tail)[1..] == tail && (['\\', '\''] + tail)[2..] == tail && (['\''] + tail)[1..] == tail;
    assert word + "" == word;
  }

  lemma {:induction false} InsideQuotes(text: string, word: string)
    ensures Words(QuotesReplaced(text) + "'", Some(word), InSingle) == Some([word + text])
  {
    hide Words;
    if text == "" {
      assert QuotesReplaced(text) + "'" == ['\''] + "";
      ReadOne('\'', "", word);
      NoWords();
      assert word + text == word;
      return;
    }
    var tail := QuotesReplaced(text[1..]) + "'";
    if text[0] == '\'' {
      var reopened := ['\''] + tail;
      var escaped := ['\\', '\''] + reopened;
      assert QuotesReplaced(text) + "'" == ['\''] + escaped;
      ReadOne('\'', escaped, word);
      ReadOne('\'', reopened, word);
      ReadOne('\'', tail, word + "'");
    } else {
      assert QuotesReplaced(text) + "'" == [text[0]] + tail;
      ReadOne(text[0], tail, word);
    }
    InsideQuotes(text[1..], word + [text[0]]);
    assert word + [text[0]] + text[1..] == word + text;
  }

  lemma SafeIsLiteral(c: char)
    requires !UnsafeInShell(c)
    ensures !IsBlank(c) && !IsSyntax(c) && c != '\'' && c != '"' && c != '\\'
  {
    assert c in "@%+=:,./-_" ==> c in {'@', '%', '+', '=', ':', ',', '.', '/', '-', '_'};
  }

  lemma {:induction false} SafeText(text: string, word: Option<string>)
    requires forall i :: 0 <= i < |text| ==> !UnsafeInShell(text[i])
    requires text != "" || word.Some?
    ensures Words(text, word, Unquoted) == Some(Finished(Longer(word, text)))
    decreases |text|
  {
    hide UnsafeInShell, IsBlank, IsSyntax;
    if text == "" {
      assert word.value + text == word.value;
    } else {
      SafeIsLiteral(text[0]);
      SafeText(text[1..], Longer(word, [text[0]]));
      assert text == [text[0]] + text[1..];
      assert word.Some? ==> word.value + [text[0]] + text[1..] == word.value + text;
    }
  }

  /** A quoted text alone reads as exactly that one word, empty ones and embedded quotes included. */
  lemma QuoteReads(text: string)
    ensures Words(ShellQuote(text), None, Unquoted) == Some([text])
  {
    hide UnsafeInShell;
    if text == "" {
      assert Words("''", None, Unquoted) == Words("'", Some(""), InSingle);
      assert "''"[1..] == "'" && "'"[1..] == "";
    } else if forall i :: 0 <= i < |text| ==> !UnsafeInShell(text[i]) {
      SafeText(text, None);
    } else {
      var tail := QuotesReplaced(text) + "'";
      assert ShellQuote(text) == "'" + tail && ("'" + tail)[1..] == tail;
      InsideQuotes(text, "");
      assert "" + text == text;
    }
  }

  /** What a text reads as alone, it reads as before a blank and anything else. */
  lemma {:induction false} ReadsAlone(s: string, word: Option<string>, quoting: Quoting, rest: string)
    requires Words(s, word, quoting).Some?
    ensures Words(s + (" " + rest), word, quoting) == Before(Words(s, word, quoting).value, Words(rest, None, Unquoted))
    decreases |s|
  {
    var all := s + (" " + rest);
    if s == "" {
      assert all == " " + rest && all[1..] == rest;
    } else {
      assert all[1..] == s[1..] + (" " + rest);
      if |s| > 1 {
        assert all[2..] == s[2..] + (" " + rest);
      }
      Onwards(s, word, quoting, rest);
    }
  }

  lemma BeforeTwice(a: seq<string>, b: seq<string>, rest: Option<seq<string>>)
    ensures Before(a, Before(b, rest)) == Before(a + b, rest)
  {
    if rest.Some? {
      assert a + (b + rest.value) == a + b + rest.value;
    }
  }

  lemma {:induction false} Onwards(s: string, word: Option<string>, quoting: Quoting, rest: string)
    requires s != "" && Words(s, word, quoting).Some?
    requires (s + (" " + rest))[1..] == s[1..] + (" " + rest)
    requires |s| > 1 ==> (s + (" " + rest))[2..] == s[2..] + (" " + rest)
    ensures Words(s + (" " + rest), word, quoting) == Before(Words(s, word, quoting).value, Words(rest, None, Unquoted))
    decreases |s|, 0
  {
    var longer := Longer(word, [s[0]]);
    match quoting
    case InSingle =>
      if s[0] == '\'' { ReadsAlone(s[1..], word, Unquoted, rest); } else { ReadsAlone(s[1..], longer, InSingle, rest); }
    case InDouble =>
      if s[0] == '"' {
        ReadsAlone(s[1..], word, Unquoted, rest);
      } else if s[0] == '\\' && |s| > 1 && s[1] == '\n' {
        ReadsAlone(s[2..], word, InDouble, rest);
      } else if s[0] == '\\' && |s| > 1 && s[1] in "$`\"\\" {
        ReadsAlone(s[2..], Longer(word, [s[1]]), InDouble, rest);
      } else {
        ReadsAlone(s[1..], longer, InDouble, rest);
      }
    case Unquoted =>
      if IsBlank(s[0]) {
        ReadsAlone(s[1..], None, Unquoted, rest);
        BeforeTwice(Finished(word), Words(s[1..], None, Unquoted).value, Words(rest, None, Unquoted));
      } else if s[0] == '\'' {
        ReadsAlone(s[1..], Longer(word, ""), InSingle, rest);
      } else if s[0] == '"' {
        ReadsAlone(s[1..], Longer(word, ""), InDouble, rest);
      } else if s[0] == '\\' {
        if s[1] == '\n' { ReadsAlone(s[2..], word, Unquoted, rest); }
          else { ReadsAlone(s[2..], Longer(word, [s[1]]), Unquoted, rest); }
      } else {
        ReadsAlone(s[1..], longer, Unquoted, rest);
      }
  }

  /** The words each argument contributes: itself when quoted, what a shell reads in it when not. */
  function ArgWords(args: seq<Arg>): Option<seq<string>> {
    if args == [] then Some([])
    else match Words(Rendered(args[0]), None, Unquoted)
      case None => None
      case Some(first) => Before(first, ArgWords(args[1..]))
  }

  /** A shell reads the arguments one by one: no argument changes how another is read. */
  lemma {:induction false} ReadsEachArg(args: seq<Arg>)
    requires ArgWords(args).Some?
    ensures Words(Spaced(Parts(args)), None, Unquoted) == ArgWords(args)
  {
    hide Words, Rendered;
    if args == [] {
      assert Words("", None, Unquoted) == Some([]) by { NoWords(); }
    } else {
      assert Parts(args)[1..] == Parts(args[1..]);
      var first := Rendered(args[0]);
      if |args| == 1 {
        assert args[1..] == [];
        var words := Words(first, None, Unquoted).value;
        assert words + [] == words;
      } else {
        ReadsEachArg(args[1..]);
        var rest := Spaced(Parts(args[1..]));
        assert Spaced(Parts(args)) == first + (" " + rest);
        ReadsAlone(first, None, Unquoted, rest);
      }
    }
  }

  lemma NoWords()
    ensures forall word :: Words("", word, Unquoted) == Some(Finished(word))
  {}

  lemma {:induction false} QuotedWords(args: seq<Arg>)
    requires forall i :: 0 <= i < |args| ==> args[i].quote
    ensures ArgWords(args) == Some(Values(args))
  {
    hide Words, ShellQuote;
    if args != [] {
      QuoteReads(args[0].value);
      QuotedWords(args[1..]);
      assert Values(args) == [args[0].value] + Values(args[1..]);
    }
  }

  /** With every argument quoted, a shell reads the argument vector back exactly. */
  lemma ShellReadsArgv(args: seq<Arg>)
    requires forall i :: 0 <= i < |args| ==> args[i].quote
    ensures Words(Spaced(Parts(args)), None, Unquoted) == Some(Values(args))
  {
    hide Words, Parts, ArgWords;
    QuotedWords(args);
    ReadsEachArg(args);
  }

  /** Two fully quoted command lines with the same text have the same arguments. */
  lemma ShellTextDetermines(a: seq<Arg>, b: seq<Arg>)
    requires forall i :: 0 <= i < |a| ==> a[i].quote
    requires forall i :: 0 <= i < |b| ==> b[i].quote
    requires Spaced(Parts(a)) == Spaced(Parts(b))
    ensures Values(a) == Values(b)
  {
    hide Words, Parts, Values;
    ShellReadsArgv(a);
    ShellReadsArgv(b);
  }

  /** The command line as one shell string. */
  method ShellCommand(args: seq<Arg>) returns (command: string)
    ensures command == Spaced(Parts(args))
    ensures (forall i :: 0 <= i < |args| ==> args[i].quote) ==> Words(command, None, Unquoted) == Some(Values(args))
  {
    hide Words, ShellQuote;
    var parts: seq<string> := [];
    for i := 0 to |args|
      invariant parts == Parts(args)[..i]
    {
      if args[i].quote {
        parts := parts + [ShellQuote(args[i].value)];
        continue;
      }
      parts := parts + [args[i].value];
    }
    assert parts == Parts(args);
    if forall i :: 0 <= i < |args| ==> args[i].quote {
      ShellReadsArgv(args);
    }
    return Spaced(parts);
  }

  // ---- what is left as it is ----

  /** A letter, a digit or one of ten marks. */
  predicate PlainInShell(c: char) {
    'a' <= c <= 'z' || 'A' <= c <= 'Z' || '0' <= c <= '9' || c in {'@', '%', '+', '=', ':', ',', '.', '/', '-', '_'}
  }

  /** A text goes in without quotes exactly if it is not empty and of such characters only. */
  lemma BareExactly(text: string)
    ensures ShellQuote(text) == text <==> text != "" && forall i :: 0 <= i < |text| ==> PlainInShell(text[i])
  {
    QuotesOnlyAdd(text);
    assert forall c :: PlainInShell(c) <==> !UnsafeInShell(c);
  }

  lemma {:induction false} QuotesOnlyAdd(text: string)
    ensures |QuotesReplaced(text)| >= |text|
  {
    if text != "" {
      QuotesOnlyAdd(text[1..]);
    }
  }
}
