/** shellquote.Quote against shell word splitting (internal/shellquote/quote.go:7-10), and the
    command lines built with it (internal/activity/pr.go:63-85). The splitter follows sections
    2.2.2 and 2.2.3 of the POSIX.1-2017 Shell Command Language and refuses every input whose
    meaning depends on more than these: an unquoted special character, one that stays special
    between double quotes, NUL, or an unfinished quotation. */
module ShellQuote {
  import opened WorkflowModel

  const NUL: char := 0 as char

  // --- the code -----------------------------------------------------------------------------

  /** strings.ReplaceAll(s, "'", "'\"'\"'") */
  function Escape(s: string): string {
    if s == "" then "" else (if s[0] == '\'' then "'\"'\"'" else [s[0]]) + Escape(s[1..])
  }

  function Quote(s: string): string {
    "'" + Escape(s) + "'"
  }

  // --- the shell ----------------------------------------------------------------------------

  datatype Mode = Unquoted | Single | Double

  /** The words finished so far and the one in progress, if any: an empty quotation starts a word. */
  datatype Lexer = Lexer(mode: Mode, words: seq<string>, word: Option<string>)

  predicate Blank(c: char) {
    c == ' ' || c == '\t'
  }

  /** Unquoted characters with a meaning beyond word splitting and quoting. */
  predicate Special(c: char) {
    || c == '|' || c == '&' || c == ';' || c == '<' || c == '>' || c == '(' || c == ')' || c == '$' || c == '`'
    || c == '\\' || c == '*' || c == '?' || c == '[' || c == '#' || c == '~' || c == '\n' || c == NUL
  }

  function Extend(l: Lexer, c: char): Lexer {
    l.(word := Some((if l.word.Some? then l.word.value else "") + [c]))
  }

  function Opened(l: Lexer, mode: Mode): Lexer {
    l.(mode := mode, word := Some(if l.word.Some? then l.word.value else ""))
  }

  function Finished(l: Lexer): Lexer {
    if l.word.None? then l else l.(words := l.words + [l.word.value], word := None)
  }

  function Next(l: Lexer, c: char): Option<Lexer> {
    match l.mode
    case Unquoted =>
      if c == '\'' then Some(Opened(l, Single))
      else if c == '"' then Some(Opened(l, Double))
      else if Blank(c) then Some(Finished(l))
      else if Special(c) then None
      else Some(Extend(l, c))
    case Single =>
      if c == '\'' then Some(l.(mode := Unquoted)) else if c == NUL then None else Some(Extend(l, c))
    case Double =>
      if c == '"' then Some(l.(mode := Unquoted))
      else if c == '$' || c == '`' || c == '\\' || c == NUL then None
      else Some(Extend(l, c))
  }

  function Run(l: Lexer, s: string): Option<Lexer>
    decreases |s|
  {
    if s == "" then Some(l) else
    match Next(l, s[0]) case None => None case Some(m) => Run(m, s[1..])
  }

  /** The words of a command line. */
  function Split(s: string): Option<seq<string>> {
    match Run(Lexer(Unquoted, [], None), s)
    case None => None
    case Some(l) => if l.mode == Unquoted then Some(Finished(l).words) else None
  }

  lemma {:induction false} RunConcat(l: Lexer, a: string, b: string)
    ensures Run(l, a + b) == match Run(l, a) case None => None case Some(m) => Run(m, b)
    decreases |a|
  {
    if a == "" {
      assert a + b == b;
    } else {
      assert (a + b)[0] == a[0] && (a + b)[1..] == a[1..] + b;
      match Next(l, a[0])
      case None =>
      case Some(m) => RunConcat(m, a[1..], b);
    }
  }

  // --- quoting ------------------------------------------------------------------------------

  function Text(l: Lexer): string {
    if l.word.Some? then l.word.value else ""
  }

  lemma RunEscapedQuote(l: Lexer)
    requires l.mode == Single
    ensures Run(l, "'\"'\"'") == Some(l.(word := Some(Text(l) + "'")))
  {
    var a := l.(mode := Unquoted);
    var b := Opened(a, Double);
    var c := Extend(b, '\'');
    var d := c.(mode := Unquoted);
    var e := Opened(d, Single);
    assert Run(e, "") == Some(e);
    assert "'\"'\"'"[1..] == "\"'\"'" && "\"'\"'"[1..] == "'\"'" && "'\"'"[1..] == "\"'" && "\"'"[1..] == "'" &&
        "'"[1..] == "";
    assert Run(d, "'") == Some(e);
    assert Run(c, "\"'") == Some(e);
    assert Run(b, "'\"'") == Some(e);
    assert Run(a, "\"'\"'") == Some(e);
  }

  lemma {:induction false} RunEscaped(l: Lexer, s: string)
    requires l.mode == Single && l.word.Some?
    ensures Run(l, Escape(s)) == if NUL in s then None else Some(l.(word := Some(Text(l) + s)))
    decreases |s|
  {
    if s == "" {
      assert Text(l) + s == Text(l);
    } else {
      var head := if s[0] == '\'' then "'\"'\"'" else [s[0]];
      RunConcat(l, head, Escape(s[1..]));
      assert s == [s[0]] + s[1..];
      if s[0] == '\'' {
        RunEscapedQuote(l);
      } else {
        assert head[0] == s[0] && head[1..] == "";
      }
      if s[0] != NUL {
        var m := l.(word := Some(Text(l) + [s[0]]));
        assert Run(l, head) == Some(m);
        RunEscaped(m, s[1..]);
        assert Text(m) + s[1..] == Text(l) + s;
      }
    }
  }

  /** Between words or inside one, a quoted text adds exactly that text to the word, whatever
      characters it has but for NUL, which no shell word can hold. */
  lemma RunQuoted(l: Lexer, s: string)
    requires l.mode == Unquoted
    ensures Run(l, Quote(s)) == if NUL in s then None else Some(l.(word := Some(Text(l) + s)))
  {
    var inside := Opened(l, Single);
    RunConcat(l, "'", Escape(s) + "'");
    assert "'" + (Escape(s) + "'") == Quote(s);
    assert "'"[1..] == "" && Run(l, "'") == Some(inside);
    RunConcat(inside, Escape(s), "'");
    RunEscaped(inside, s);
    if NUL !in s {
      var m := inside.(word := Some(Text(l) + s));
      assert Run(m, "'") == Some(m.(mode := Unquoted));
    }
  }

  // --- command lines ------------------------------------------------------------------------

  /** A piece of an argument: text typed literally into the command, or quoted. */
  datatype Fragment = Plain(text: string) | Quoted(text: string)

  predicate Ordinary(c: char) {
    c != '\'' && c != '"' && !Blank(c) && !Special(c)
  }

  /** Literal text needs no quoting. */
  predicate Sane(f: Fragment) {
    f.Plain? ==> f.text != "" && forall i :: 0 <= i < |f.text| ==> Ordinary(f.text[i])
  }

  predicate SaneArgs(args: seq<seq<Fragment>>) {
    forall i :: 0 <= i < |args| ==> args[i] != [] && forall j :: 0 <= j < |args[i]| ==> Sane(args[i][j])
  }

  function Written(f: Fragment): string {
    match f case Plain(t) => t case Quoted(t) => Quote(t)
  }

  function WrittenArg(arg: seq<Fragment>): string {
    if arg == [] then "" else WrittenArg(arg[..|arg| - 1]) + Written(arg[|arg| - 1])
  }

  /** The command line, the arguments separated by single spaces. */
  function Command(args: seq<seq<Fragment>>): string {
    if args == [] then ""
    else if |args| == 1 then WrittenArg(args[0])
    else Command(args[..|args| - 1]) + " " + WrittenArg(args[|args| - 1])
  }

  /** What an argument stands for. */
  function Meaning(arg: seq<Fragment>): string {
    if arg == [] then "" else Meaning(arg[..|arg| - 1]) + arg[|arg| - 1].text
  }

  function Meanings(args: seq<seq<Fragment>>): seq<string> {
    if args == [] then [] else Meanings(args[..|args| - 1]) + [Meaning(args[|args| - 1])]
  }

  lemma {:induction false} RunPlain(l: Lexer, s: string)
    requires l.mode == Unquoted && s != "" && forall i :: 0 <= i < |s| ==> Ordinary(s[i])
    ensures Run(l, s) == Some(l.(word := Some(Text(l) + s)))
    decreases |s|
  {
    var m := Extend(l, s[0]);
    assert s == [s[0]] + s[1..] && Ordinary(s[0]);
    assert Next(l, s[0]) == Some(m);
    if |s| == 1 {
      assert Text(m) == Text(l) + s && Run(m, s[1..]) == Some(m);
    } else {
      assert forall i :: 0 <= i < |s| - 1 ==> s[1..][i] == s[i + 1];
      RunPlain(m, s[1..]);
      assert Text(m) + s[1..] == Text(l) + s;
    }
  }

  lemma RunFragment(l: Lexer, f: Fragment)
    requires l.mode == Unquoted && Sane(f)
    ensures Run(l, Written(f)) == if NUL in f.text then None else Some(l.(word := Some(Text(l) + f.text)))
  {
    match f
    case Quoted(t) => RunQuoted(l, t);
    case Plain(t) =>
      assert forall i :: 0 <= i < |t| ==> Ordinary(t[i]) && t[i] != NUL;
      RunPlain(l, t);
  }

  lemma {:induction false} RunArg(l: Lexer, arg: seq<Fragment>)
    requires l.mode == Unquoted && l.word.None? && arg != [] && forall j :: 0 <= j < |arg| ==> Sane(arg[j])
    ensures Run(l, WrittenArg(arg)) == if NUL in Meaning(arg) then None else Some(l.(word := Some(Meaning(arg))))
  {
    var init, f := arg[..|arg| - 1], arg[|arg| - 1];
    RunConcat(l, WrittenArg(init), Written(f));
    if init == [] {
      RunFragment(l, f);
      assert Meaning(init) + f.text == f.text;
      assert Text(l) + f.text == f.text;
      assert WrittenArg(init) + Written(f) == Written(f);
    } else {
      RunArg(l, init);
      if NUL !in Meaning(init) {
        RunFragment(l.(word := Some(Meaning(init))), f);
      }
    }
  }

  ghost predicate HasNul(args: seq<seq<Fragment>>) {
    exists i :: 0 <= i < |args| && NUL in Meaning(args[i])
  }

  lemma HasNulSnoc(args: seq<seq<Fragment>>)
    requires args != []
    ensures HasNul(args) <==> HasNul(args[..|args| - 1]) || NUL in Meaning(args[|args| - 1])
  {
    var init := args[..|args| - 1];
    if HasNul(init) {
      var i :| 0 <= i < |init| && NUL in Meaning(init[i]);
      assert args[i] == init[i];
    }
    if HasNul(args) {
      var i :| 0 <= i < |args| && NUL in Meaning(args[i]);
      assert i < |init| ==> init[i] == args[i];
    }
  }

  /** The lexer after a command line: all arguments but the last are finished words. */
  lemma {:induction false} RunCommand(args: seq<seq<Fragment>>)
    requires args != [] && SaneArgs(args)
    ensures Run(Lexer(Unquoted, [], None), Command(args)) ==
      if HasNul(args) then None
      else Some(Lexer(Unquoted, Meanings(args[..|args| - 1]), Some(Meaning(args[|args| - 1]))))
  {
    var init, arg := args[..|args| - 1], args[|args| - 1];
    var start := Lexer(Unquoted, [], None);
    HasNulSnoc(args);
    hide HasNul, Next, WrittenArg, Meaning, Run;
    if init == [] {
      RunArg(start, arg);
      OneNul(arg);
      assert args == [arg] && Meanings(init) == [];
    } else {
      RunCommand(init);
      RunConcat(start, Command(init) + " ", WrittenArg(arg));
      RunConcat(start, Command(init), " ");
      if !HasNul(init) {
        var l := Run(start, Command(init)).value;
        RunBlank(l);
        RunArg(Finished(l), arg);
      }
    }
  }

  lemma RunBlank(l: Lexer)
    requires l.mode == Unquoted
    ensures Run(l, " ") == Some(Finished(l))
  {
    assert " "[1..] == "";
  }

  lemma OneNul(arg: seq<Fragment>)
    ensures HasNul([arg]) <==> NUL in Meaning(arg)
  {
    if NUL in Meaning(arg) {
      assert [arg][0] == arg;
    }
  }

  /** The shell reads a command line as exactly its arguments, each exactly the text it stands
      for, if and only if none of them holds a NUL. */
  lemma CommandSplitsExactly(args: seq<seq<Fragment>>)
    requires SaneArgs(args)
    ensures Split(Command(args)) == Some(Meanings(args)) <==> !HasNul(args)
    ensures HasNul(args) ==> Split(Command(args)).None?
  {
    if args != [] {
      RunCommand(args);
    }
  }

  /** The list of words, each quoted. */
  function AllQuoted(words: seq<string>): seq<seq<Fragment>> {
    seq(|words|, i requires 0 <= i < |words| => [Quoted(words[i])])
  }

  lemma {:induction false} AllQuotedMeans(words: seq<string>)
    ensures SaneArgs(AllQuoted(words)) && Meanings(AllQuoted(words)) == words
  {
    if words != [] {
      AllQuotedMeans(words[..|words| - 1]);
      assert AllQuoted(words)[..|words| - 1] == AllQuoted(words[..|words| - 1]);
      OneMeans(Quoted(words[|words| - 1]));
    }
  }

  lemma OneMeans(f: Fragment)
    ensures Meaning([f]) == f.text
  {
    assert [f][..0] == [];
  }

  /** Round trip: quoting any list of words and splitting gives back that list, empty words and
      words of nothing but quotes included, if and only if no word holds a NUL. */
  lemma QuotedWordsSplitExactly(words: seq<string>)
    ensures Split(Command(AllQuoted(words))) == Some(words) <==> forall i :: 0 <= i < |words| ==> NUL !in words[i]
  {
    AllQuotedMeans(words);
    CommandSplitsExactly(AllQuoted(words));
    forall i | 0 <= i < |words| ensures Meaning(AllQuoted(words)[i]) == words[i] {
      OneMeans(Quoted(words[i]));
    }
  }

  /** The commit command of pr.go:75-81. */
  function CommitCommand(dir: string, email: string, name: string, title: string): seq<seq<Fragment>> {
    [[Plain("git")], [Plain("-C")], [Quoted(dir)], [Plain("-c")], [Plain("user.email="), Quoted(email)],
     [Plain("-c")], [Plain("user.name="), Quoted(name)], [Plain("commit")], [Plain("-m")], [Quoted(title)]]
  }

  predicate Safe(c: char) {
    'a' <= c <= 'z' || c == 'C' || c == '-' || c == '.' || c == '='
  }

  lemma SafeIsSane(t: string)
    requires t != "" && forall i :: 0 <= i < |t| ==> Safe(t[i])
    ensures Sane(Plain(t)) && NUL !in t
  {
  }

  /** A command line whose arguments mean these words, none with a NUL, splits into them. */
  lemma WordsSplit(args: seq<seq<Fragment>>, words: seq<string>)
    requires SaneArgs(args) && |args| == |words|
    requires forall i :: 0 <= i < |args| ==> Meaning(args[i]) == words[i] && NUL !in words[i]
    ensures Split(Command(args)) == Some(words)
  {
    MeaningsAre(args, words);
    CommandSplitsExactly(args);
  }

  /** git gets the directory, the identity and the title as they are, each as one argument,
      whatever a title may contain. */
  lemma CommitCommandSplits(dir: string, email: string, name: string, title: string)
    requires NUL !in dir && NUL !in email && NUL !in name && NUL !in title
    ensures Split(Command(CommitCommand(dir, email, name, title))) ==
      Some(["git", "-C", dir, "-c", "user.email=" + email, "-c", "user.name=" + name, "commit", "-m", title])
  {
    var args := CommitCommand(dir, email, name, title);
    var words := ["git", "-C", dir, "-c", "user.email=" + email, "-c", "user.name=" + name, "commit", "-m", title];
    hide Sane, Meaning, Command, Split;
    SafeIsSane("git"); SafeIsSane("-C"); SafeIsSane("-c"); SafeIsSane("commit"); SafeIsSane("-m");
    SafeIsSane("user.email="); SafeIsSane("user.name=");
    QuotedSane(dir); QuotedSane(email); QuotedSane(name); QuotedSane(title);
    assert SaneArgs(args);
    forall i | 0 <= i < |args| ensures Meaning(args[i]) == words[i] && NUL !in words[i] {
      OneMeans(args[i][0]);
      if |args[i]| == 2 {
        TwoMean(args[i][0], args[i][1]);
      }
    }
    WordsSplit(args, words);
  }

  lemma QuotedSane(t: string)
    ensures Sane(Quoted(t))
  {
  }

  lemma TwoMean(f: Fragment, g: Fragment)
    ensures Meaning([f, g]) == f.text + g.text
  {
    OneMeans(f);
    assert [f, g][..1] == [f];
  }

  lemma {:induction false} MeaningsAre(args: seq<seq<Fragment>>, words: seq<string>)
    requires |args| == |words| && forall i :: 0 <= i < |args| ==> Meaning(args[i]) == words[i]
    ensures Meanings(args) == words
  {
    hide Meaning;
    if args != [] {
      var init, front := args[..|args| - 1], words[..|words| - 1];
      assert forall i :: 0 <= i < |init| ==> init[i] == args[i] && front[i] == words[i];
      MeaningsAre(init, front);
      assert words == front + [words[|words| - 1]];
    }
  }
}
