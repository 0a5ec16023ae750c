/**
 Quoting of arguments for a POSIX shell, and the part of the shell's lexer
 (sections 2.2.1 and 2.2.2 of the POSIX.1-2017 Shell Command Language, the
 splitting at blanks and the operator && of section 2.3) that reads scripts back.
 */
module Shell {
  import opened Wrappers

  // ----- Quoting -----

  /** Each single quote becomes: close, escaped quote, reopen. */
  function Escape(v: string): string {
    if v == "" then ""
    else (if v[0] == '\'' then "'\\''" else [v[0]]) + Escape(v[1..])
  }

  function ShellQuote(v: string): string {
    if v == "" then "''" else "'" + Escape(v) + "'"
  }

  // ----- Lexer -----

  /** Characters that mean something else than themselves outside quotes. */
  predicate Special(c: char) {
    c in "|&;<>()$`\"*?[]{}#~=%!\n"
  }

  datatype Token = Word(w: string) | AndIf

  /** The token that ends here, if one has started. */
  function Ended(started: bool, word: string): seq<Token> {
    if started then [Word(word)] else []
  }

  function After(ts: seq<Token>, r: Option<seq<Token>>): Option<seq<Token>> {
    if r.Some? then Some(ts + r.value) else None
  }

  /**
   Splits a script into tokens. A word has started once a character or a quote
   was read for it. None means that the text needs other parts of the shell's
   grammar, or that a quotation is left open.
   */
  function Lex(s: string, started: bool, word: string, quoted: bool): Option<seq<Token>>
    decreases |s|
  {
    if s == "" then
      if quoted then None else Some(Ended(started, word))
    else
      var c, rest := s[0], s[1..];
      if quoted then
        if c == '\'' then Lex(rest, true, word, false) else Lex(rest, true, word + [c], true)
      else if c == '\'' then Lex(rest, true, word, true)
      else if c == '\\' then
        if rest == "" then None
        else if rest[0] == '\n' then Lex(rest[1..], started, word, false)
        else Lex(rest[1..], true, word + [rest[0]], false)
      else if c == ' ' || c == '\t' then After(Ended(started, word), Lex(rest, false, "", false))
      else if c == '&' && rest != "" && rest[0] == '&' then
        After(Ended(started, word) + [AndIf], Lex(rest[1..], false, "", false))
      else if Special(c) then None
      else Lex(rest, true, word + [c], false)
  }

  /** The words of the commands between the operators; each needs at least one. */
  function Grouped(ts: seq<Token>, words: seq<string>): Option<seq<seq<string>>>
    decreases |ts|
  {
    if ts == [] then if words == [] then None else Some([words])
    else match ts[0]
         case Word(w) => Grouped(ts[1..], words + [w])
         case AndIf =>
           if words == [] then None
           else match Grouped(ts[1..], [])
                case None => None
                case Some(more) => Some([words] + more)
  }

  /** The commands of a script that are run one after another, each if the one
      before it succeeded. */
  function Commands(s: string): Option<seq<seq<string>>> {
    match Lex(s, false, "", false)
    case None => None
    case Some(ts) => Grouped(ts, [])
  }

  // ----- Reading back -----

  lemma LexQuoteMark(rest: string, word: string)
    ensures Lex("'\\''" + rest, true, word, true) == Lex(rest, true, word + "'", true)
  {
    var s := "'\\''" + rest;
    assert s[1..] == "\\''" + rest;
    assert s[1..][1..] == "''" + rest;
    assert s[1..][1..][1..] == "'" + rest;
    assert ("'" + rest)[1..] == rest;
    assert Lex(s, true, word, true) == Lex("\\''" + rest, true, word, false);
    assert Lex("\\''" + rest, true, word, false) == Lex("'" + rest, true, word + ['\''], false);
    assert word + ['\''] == word + "'";
  }

  lemma {:induction false} LexEscape(v: string, rest: string, word: string)
    ensures Lex(Escape(v) + "'" + rest, true, word, true) == Lex(rest, true, word + v, false)
    decreases |v|
  {
    var s := Escape(v) + "'" + rest;
    if v == "" {
      assert s[1..] == rest && word + v == word;
    } else {
      var tail := Escape(v[1..]) + "'" + rest;
      var c := v[0];
      hide Lex;
      LexEscape(v[1..], rest, word + [c]);
      assert word + [c] + v[1..] == word + v;
      if c == '\'' {
        LexQuoteMark(tail, word);
        assert s == "'\\''" + tail;
        assert word + "'" == word + [c];
      } else {
        assert s == [c] + tail;
        LexPlainQuoted(c, tail, word);
      }
    }
  }

  lemma LexPlainQuoted(c: char, rest: string, word: string)
    requires c != '\''
    ensures Lex([c] + rest, true, word, true) == Lex(rest, true, word + [c], true)
  {
    assert ([c] + rest)[1..] == rest;
  }

  /** A quoted value reads as exactly that value, continuing the current word. */
  lemma LexQuoted(v: string, rest: string, started: bool, word: string)
    ensures Lex(ShellQuote(v) + rest, started, word, false) == Lex(rest, true, word + v, false)
  {
    var s := ShellQuote(v) + rest;
    assert s == "'" + (Escape(v) + "'" + rest);
    assert s[1..] == Escape(v) + "'" + rest;
    LexEscape(v, rest, word);
  }

  /** A quoted value is read as one word, equal to the value. */
  lemma QuoteIsOneWord(v: string)
    ensures Commands(ShellQuote(v)) == Some([[v]])
  {
    LexQuoted(v, "", false, "");
    assert ShellQuote(v) + "" == ShellQuote(v) && "" + v == v;
    assert [Word(v)][1..] == [] && [] + [v] == [v];
    assert Grouped([Word(v)], []) == Grouped([], [v]);
  }

  /** An argument of a script: a quoted value, or a fixed word without any
      character that the shell treats specially. */
  datatype Arg = Quoted(v: string) | Plain(w: string)

  predicate PlainWord(w: string) {
    w != "" && forall i :: 0 <= i < |w| ==> !Special(w[i]) && w[i] !in " \t'\\"
  }

  predicate ArgOk(a: Arg) {
    a.Plain? ==> PlainWord(a.w)
  }

  function ArgText(a: Arg): string {
    match a
    case Quoted(v) => ShellQuote(v)
    case Plain(w) => w
  }

  function ArgValue(a: Arg): string {
    match a
    case Quoted(v) => v
    case Plain(w) => w
  }

  function CommandText(args: seq<Arg>): string {
    if args == [] then ""
    else if |args| == 1 then ArgText(args[0])
    else ArgText(args[0]) + " " + CommandText(args[1..])
  }

  /** Commands joined as the scripts join them. */
  function Script(commands: seq<seq<Arg>>): string {
    if commands == [] then ""
    else if |commands| == 1 then CommandText(commands[0])
    else CommandText(commands[0]) + " && " + Script(commands[1..])
  }

  function Values(args: seq<Arg>): seq<string> {
    if args == [] then [] else [ArgValue(args[0])] + Values(args[1..])
  }

  lemma {:induction false} LexPlain(w: string, rest: string, word: string)
    requires forall i :: 0 <= i < |w| ==> !Special(w[i]) && w[i] !in " \t'\\"
    ensures Lex(w + rest, true, word, false) == Lex(rest, true, word + w, false)
    decreases |w|
  {
    if w == "" {
      assert w + rest == rest && word + w == word;
    } else {
      hide Special;
      assert (w + rest)[1..] == w[1..] + rest;
      assert !Special(w[0]) && w[0] !in " \t'\\";
      LexPlain(w[1..], rest, word + [w[0]]);
      assert word + [w[0]] + w[1..] == word + w;
    }
  }

  lemma LexArg(a: Arg, rest: string)
    requires ArgOk(a)
    ensures Lex(ArgText(a) + rest, false, "", false) == Lex(rest, true, ArgValue(a), false)
  {
    match a {
      case Quoted(v) => LexQuoted(v, rest, false, ""); assert "" + v == v;
      case Plain(w) =>
        hide Special;
        assert (w + rest)[1..] == w[1..] + rest;
        assert !Special(w[0]) && w[0] !in " \t'\\";
        LexPlain(w[1..], rest, [w[0]]);
        assert [w[0]] + w[1..] == w && "" + [w[0]] == [w[0]];
    }
  }

  predicate CommandOk(args: seq<Arg>) {
    args != [] && forall i :: 0 <= i < |args| ==> ArgOk(args[i])
  }

  function WordsOf(args: seq<Arg>): seq<Token> {
    if args == [] then [] else [Word(ArgValue(args[0]))] + WordsOf(args[1..])
  }

  /** A command is read word by word, up to where its last word could go on. */
  lemma {:induction false} LexCommand(args: seq<Arg>, rest: string)
    requires CommandOk(args) && (rest == "" || rest[0] == ' ')
    ensures Lex(CommandText(args) + rest, false, "", false) == After(WordsOf(args), Lex(rest, false, "", false))
  {
    hide Lex;
    var a := args[0];
    if |args| == 1 {
      LexArg(a, rest);
      LexEnd(ArgValue(a), rest);
      assert args[1..] == [] && [Word(ArgValue(a))] + [] == [Word(ArgValue(a))];
    } else {
      var more := CommandText(args[1..]) + rest;
      LexArg(a, " " + more);
      assert CommandText(args) + rest == ArgText(a) + (" " + more);
      assert (" " + more)[1..] == more;
      LexEnd(ArgValue(a), " " + more);
      LexBlank(more);
      assert forall i :: 0 <= i < |args[1..]| ==> args[1..][i] == args[i + 1];
      LexCommand(args[1..], rest);
      AfterAfter([Word(ArgValue(a))], WordsOf(args[1..]), Lex(rest, false, "", false));
    }
  }

  lemma LexEnd(word: string, rest: string)
    requires rest == "" || rest[0] == ' '
    ensures Lex(rest, true, word, false) == After([Word(word)], Lex(rest, false, "", false))
  {
    if rest == "" {
      assert [Word(word)] + [] == [Word(word)];
    } else {
      AfterAfter([Word(word)], [], Lex(rest[1..], false, "", false));
      assert [Word(word)] + [] == [Word(word)];
    }
  }

  lemma LexBlank(rest: string)
    ensures Lex(" " + rest, false, "", false) == Lex(rest, false, "", false)
  {
    assert (" " + rest)[1..] == rest;
    assert forall ts: seq<Token> :: [] + ts == ts;
  }

  lemma AfterAfter(a: seq<Token>, b: seq<Token>, r: Option<seq<Token>>)
    ensures After(a, After(b, r)) == After(a + b, r)
  {
    if r.Some? { assert a + (b + r.value) == a + b + r.value; }
  }

  /** The operator between two commands. */
  lemma LexAnd(rest: string)
    ensures Lex(" && " + rest, false, "", false) == After([AndIf], Lex(rest, false, "", false))
  {
    var s, t := " && " + rest, "&& " + rest;
    assert s[1..] == t && t[1..] == "& " + rest && t[1..][1..] == " " + rest && (" " + rest)[1..] == rest;
    assert forall ts: seq<Token> :: [] + ts == ts;
    assert [] + [AndIf] == [AndIf];
    assert Lex(s, false, "", false) == After([], Lex(t, false, "", false));
    assert t[0] == '&' && t[1..][0] == '&';
    assert Lex(t, false, "", false) == After([] + [AndIf], Lex(" " + rest, false, "", false));
    assert Lex(" " + rest, false, "", false) == After([], Lex(rest, false, "", false));
  }

  lemma {:induction false} GroupWords(args: seq<Arg>, ts: seq<Token>, words: seq<string>)
    ensures Grouped(WordsOf(args) + ts, words) == Grouped(ts, words + Values(args))
    decreases |args|
  {
    if args == [] {
      assert WordsOf(args) + ts == ts && words + [] == words;
    } else {
      var all := WordsOf(args) + ts;
      assert all[0] == Word(ArgValue(args[0])) && all[1..] == WordsOf(args[1..]) + ts;
      GroupWords(args[1..], ts, words + [ArgValue(args[0])]);
      assert words + [ArgValue(args[0])] + Values(args[1..]) == words + Values(args);
    }
  }

  function AllValues(commands: seq<seq<Arg>>): seq<seq<string>> {
    if commands == [] then [] else [Values(commands[0])] + AllValues(commands[1..])
  }

  /** A script of commands made of fixed words and quoted values is read back as
      exactly those commands, whatever the values contain. */
  lemma {:induction false} ScriptReadsBack(commands: seq<seq<Arg>>)
    requires commands != [] && forall i :: 0 <= i < |commands| ==> CommandOk(commands[i])
    ensures Commands(Script(commands)) == Some(AllValues(commands))
  {
    var args := commands[0];
    hide Lex, Grouped;
    assert [] + Values(args) == Values(args) && Values(args) != [];
    if |commands| == 1 {
      LexCommand(args, "");
      assert CommandText(args) + "" == CommandText(args);
      LexEmpty();
      GroupWords(args, [], []);
      assert commands[1..] == [] && [Values(args)] + [] == [Values(args)];
    } else {
      var more := Script(commands[1..]);
      assert forall i :: 0 <= i < |commands[1..]| ==> commands[1..][i] == commands[i + 1];
      ScriptReadsBack(commands[1..]);
      LexCommand(args, " && " + more);
      assert Script(commands) == CommandText(args) + (" && " + more);
      LexAnd(more);
      var ts := Lex(more, false, "", false).value;
      assert WordsOf(args) + ([AndIf] + ts) == WordsOf(args) + [AndIf] + ts;
      GroupWords(args, [AndIf] + ts, []);
      GroupAnd(ts, Values(args));
    }
  }

  lemma LexEmpty()
    ensures Lex("", false, "", false) == Some([])
    ensures forall words: seq<string> :: words != [] ==> Grouped([], words) == Some([words])
  {}

  lemma GroupAnd(ts: seq<Token>, words: seq<string>)
    requires words != [] && Grouped(ts, []).Some?
    ensures Grouped([AndIf] + ts, words) == Some([words] + Grouped(ts, []).value)
  {
    assert ([AndIf] + ts)[1..] == ts;
  }

  // ----- The agent's scripts -----

  lemma LettersArePlain(w: string)
    requires w != "" && forall i :: 0 <= i < |w| ==> 'a' <= w[i] <= 'z' || w[i] == '-'
    ensures PlainWord(w)
  {}

  lemma PlainWords()
    ensures PlainWord("chmod") && PlainWord("mv") && PlainWord("-f") && PlainWord("sync") && PlainWord("cp") && PlainWord("-p") && PlainWord("rm")
  {
    hide PlainWord;
    LettersArePlain("chmod");
    LettersArePlain("mv");
    LettersArePlain("-f");
    LettersArePlain("sync");
    LettersArePlain("cp");
    LettersArePlain("-p");
    LettersArePlain("rm");
  }

  /** The script that puts a written file in its place runs these four commands
      on exactly these paths. */
  lemma WriteScript(mode: string, tmp: string, path: string)
    ensures Commands("chmod " + ShellQuote(mode) + " " + ShellQuote(tmp)
                     + " && " + ("mv -f " + ShellQuote(tmp) + " " + ShellQuote(path)
                     + " && " + ("chmod " + ShellQuote(mode) + " " + ShellQuote(path)
                     + " && " + "sync")))
            == Some([["chmod", mode, tmp], ["mv", "-f", tmp, path], ["chmod", mode, path], ["sync"]])
  {
    PlainWords();
    hide Commands, PlainWord;
    var a, b := [Plain("chmod"), Quoted(mode), Quoted(tmp)], [Plain("mv"), Plain("-f"), Quoted(tmp), Quoted(path)];
    var c, d := [Plain("chmod"), Quoted(mode), Quoted(path)], [Plain("sync")];
    ScriptReadsBack([a, b, c, d]);
    ThreeTexts(Plain("chmod"), Quoted(mode), tmp);
    ThreeTexts(Plain("chmod"), Quoted(mode), path);
    FourTexts(Plain("mv"), Plain("-f"), Quoted(tmp), path);
    OneText("sync");
    FourScripts(a, b, c, d);
    Blanks();
    hide ShellQuote, Script, CommandText, AllValues, Values;
  }

  lemma RestoreScript(mode: string, backup: string, path: string)
    ensures Commands("cp -p " + ShellQuote(backup) + " " + ShellQuote(path)
                     + " && " + ("chmod " + ShellQuote(mode) + " " + ShellQuote(path)
                     + " && " + "sync"))
            == Some([["cp", "-p", backup, path], ["chmod", mode, path], ["sync"]])
  {
    PlainWords();
    hide Commands, PlainWord;
    var a, b, c := [Plain("cp"), Plain("-p"), Quoted(backup), Quoted(path)], [Plain("chmod"), Quoted(mode), Quoted(path)], [Plain("sync")];
    ScriptReadsBack([a, b, c]);
    FourTexts(Plain("cp"), Plain("-p"), Quoted(backup), path);
    ThreeTexts(Plain("chmod"), Quoted(mode), path);
    OneText("sync");
    ThreeScripts(a, b, c);
    Blanks();
    hide ShellQuote, Script, CommandText, AllValues, Values;
  }

  lemma RemoveScript(path: string)
    ensures Commands("rm -f " + ShellQuote(path) + " && " + "sync") == Some([["rm", "-f", path], ["sync"]])
  {
    PlainWords();
    hide Commands, PlainWord;
    var a, b := [Plain("rm"), Plain("-f"), Quoted(path)], [Plain("sync")];
    ScriptReadsBack([a, b]);
    ThreeTexts(Plain("rm"), Plain("-f"), path);
    OneText("sync");
    TwoScripts(a, b);
    Blanks();
    hide ShellQuote, Script, CommandText, AllValues, Values;
  }

  lemma Blanks()
    ensures "chmod" + " " == "chmod " && "mv" + " " + "-f" + " " == "mv -f " && "cp" + " " + "-p" + " " == "cp -p "
    ensures "rm" + " " + "-f" + " " == "rm -f "
  {}

  lemma TextCons(a: Arg, rest: seq<Arg>)
    ensures CommandText([a] + rest) == (if rest == [] then ArgText(a) else ArgText(a) + " " + CommandText(rest))
    ensures Values([a] + rest) == [ArgValue(a)] + Values(rest)
  {
    assert ([a] + rest)[1..] == rest;
  }

  lemma ScriptCons(a: seq<Arg>, rest: seq<seq<Arg>>)
    ensures Script([a] + rest) == (if rest == [] then CommandText(a) else CommandText(a) + " && " + Script(rest))
    ensures AllValues([a] + rest) == [Values(a)] + AllValues(rest)
  {
    assert ([a] + rest)[1..] == rest;
    hide CommandText, Values;
  }

  lemma OneText(w: string)
    ensures CommandText([Plain(w)]) == w && Values([Plain(w)]) == [w]
  {
    TextCons(Plain(w), []);
    assert [Plain(w)] + [] == [Plain(w)];
  }

  lemma TwoTexts(a: Arg, v: string)
    ensures CommandText([a, Quoted(v)]) == ArgText(a) + " " + ShellQuote(v) && Values([a, Quoted(v)]) == [ArgValue(a), v]
  {
    TextCons(Quoted(v), []);
    TextCons(a, [Quoted(v)]);
    NoValues();
    hide CommandText, Values, ShellQuote;
    assert [Quoted(v)] + [] == [Quoted(v)] && [a] + [Quoted(v)] == [a, Quoted(v)];
  }

  lemma ThreeTexts(a: Arg, b: Arg, v: string)
    ensures CommandText([a, b, Quoted(v)]) == ArgText(a) + " " + ArgText(b) + " " + ShellQuote(v)
    ensures Values([a, b, Quoted(v)]) == [ArgValue(a), ArgValue(b), v]
  {
    TwoTexts(b, v);
    TextCons(a, [b, Quoted(v)]);
    hide CommandText, Values, ShellQuote, ArgText;
    assert [a] + [b, Quoted(v)] == [a, b, Quoted(v)];
    assert ArgText(a) + " " + (ArgText(b) + " " + ShellQuote(v)) == ArgText(a) + " " + ArgText(b) + " " + ShellQuote(v);
  }

  lemma FourTexts(a: Arg, b: Arg, c: Arg, v: string)
    ensures CommandText([a, b, c, Quoted(v)]) == ArgText(a) + " " + ArgText(b) + " " + ArgText(c) + " " + ShellQuote(v)
    ensures Values([a, b, c, Quoted(v)]) == [ArgValue(a), ArgValue(b), ArgValue(c), v]
  {
    ThreeTexts(b, c, v);
    TextCons(a, [b, c, Quoted(v)]);
    hide CommandText, Values, ShellQuote, ArgText;
    assert [a] + [b, c, Quoted(v)] == [a, b, c, Quoted(v)];
    assert ArgText(a) + " " + (ArgText(b) + " " + ArgText(c) + " " + ShellQuote(v))
      == ArgText(a) + " " + ArgText(b) + " " + ArgText(c) + " " + ShellQuote(v);
  }

  lemma TwoScripts(a: seq<Arg>, b: seq<Arg>)
    ensures Script([a, b]) == CommandText(a) + " && " + CommandText(b) && AllValues([a, b]) == [Values(a), Values(b)]
  {
    ScriptCons(b, []);
    ScriptCons(a, [b]);
    hide CommandText, Values, Script, AllValues;
    assert [b] + [] == [b] && [a] + [b] == [a, b];
    NoValues();
  }

  lemma NoValues()
    ensures AllValues([]) == [] && Values([]) == []
  {}

  lemma ThreeScripts(a: seq<Arg>, b: seq<Arg>, c: seq<Arg>)
    ensures Script([a, b, c]) == CommandText(a) + " && " + (CommandText(b) + " && " + CommandText(c))
    ensures AllValues([a, b, c]) == [Values(a), Values(b), Values(c)]
  {
    TwoScripts(b, c);
    ScriptCons(a, [b, c]);
    hide CommandText, Values, Script, AllValues;
    assert [a] + [b, c] == [a, b, c];
  }

  lemma FourScripts(a: seq<Arg>, b: seq<Arg>, c: seq<Arg>, d: seq<Arg>)
    ensures Script([a, b, c, d]) == CommandText(a) + " && " + (CommandText(b) + " && " + (CommandText(c) + " && " + CommandText(d)))
    ensures AllValues([a, b, c, d]) == [Values(a), Values(b), Values(c), Values(d)]
  {
    ThreeScripts(b, c, d);
    ScriptCons(a, [b, c, d]);
    hide CommandText, Values, Script, AllValues;
    assert [a] + [b, c, d] == [a, b, c, d];
  }
}
