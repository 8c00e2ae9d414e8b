/** Quoting for the shell, against a reader of shell words: sections 2.2, 2.3 and 2.6.1 of the
    POSIX.1-2017 Shell Command Language. */
module ShellQuoting {
  import opened Strings

  datatype Option<T> = None | Some(value: T)

  // ---------------------------------------------------------------- the reader

  datatype Mode = Plain | Quoted | Escaped | Stuck

  /** The words read, the word begun, and how the next character is taken. */
  datatype Reader = Reader(words: seq<string>, word: Option<string>, mode: Mode)

  const Start := Reader([], None, Plain)

  predicate Blank(c: char) { c == ' ' || c == '\t' }

  /** Characters that mean something to the shell wherever they stand without quotes. */
  predicate Special(c: char) {
    Blank(c) || c == '\n' || c == '|' || c == '&' || c == ';' || c == '<' || c == '>' || c == '(' || c == ')' ||
    c == '$' || c == '`' || c == '\\' || c == '"' || c == '\'' || c == '*' || c == '?' || c == '['
  }

  /** Characters that mean something only at the start of a word: a comment, a home directory. */
  predicate Leading(c: char) { c == '#' || c == '~' }

  function Text(word: Option<string>): string { if word.Some? then word.value else "" }

  function Add(r: Reader, c: char): Reader { r.(word := Some(Text(r.word) + [c]), mode := if r.mode == Quoted then Quoted else Plain) }

  /** A character at which the shell would do more than read a word leaves the reader stuck. */
  function Take(r: Reader, c: char): Reader {
    match r.mode
    case Stuck => r
    case Quoted => if c == '\'' then r.(mode := Plain) else Add(r, c)
    case Escaped => if c == '\n' then r.(mode := Plain) else Add(r, c)
    case Plain =>
      if Blank(c) then Reader(Ended(r), None, Plain)
      else if c == '\'' then r.(word := Some(Text(r.word)), mode := Quoted)
      else if c == '\\' then r.(mode := Escaped)
      else if Special(c) || (Leading(c) && r.word == None) then r.(mode := Stuck)
      else Add(r, c)
  }

  function Ended(r: Reader): seq<string> { if r.word.Some? then r.words + [r.word.value] else r.words }

  function Feed(r: Reader, s: string): Reader
    decreases |s|
  {
    if s == [] then r else Feed(Take(r, s[0]), s[1..])
  }

  function ReadWords(s: string): Option<seq<string>> {
    var r := Feed(Start, s);
    if r.mode == Plain then Some(Ended(r)) else None
  }

  lemma {:induction false} FeedAppend(r: Reader, s: string, t: string)
    ensures Feed(r, s + t) == Feed(Feed(r, s), t)
    decreases |s|
  {
    if s == [] {
      assert [] + t == t;
    } else {
      assert (s + t)[1..] == s[1..] + t;
      FeedAppend(Take(r, s[0]), s[1..], t);
    }
  }

  // ---------------------------------------------------------------- quoting

  /** Every quote becomes a closing quote, an escaped quote and an opening quote. */
  function Body(arg: string): string {
    if arg == [] then [] else (if arg[0] == '\'' then "'\\''" else [arg[0]]) + Body(arg[1..])
  }

  function EscapeShellArg(arg: string): string { "'" + Body(arg) + "'" }

  lemma {:induction false} QuoteReads(words: seq<string>, word: string)
    ensures Feed(Reader(words, Some(word), Quoted), "'\\''") == Reader(words, Some(word + "'"), Quoted)
  {
    var r := Reader(words, Some(word), Quoted);
    assert "'\\''"[1..] == "\\''" && "\\''"[1..] == "''" && "''"[1..] == "'" && "'"[1..] == "";
    assert Feed(r, "'\\''") == Feed(r.(mode := Plain), "\\''") == Feed(r.(mode := Escaped), "''");
    assert Feed(r.(mode := Escaped), "''") == Feed(Reader(words, Some(word + ['\'']), Plain), "'");
  }

  lemma {:induction false} BodyReads(words: seq<string>, word: string, arg: string)
    ensures Feed(Reader(words, Some(word), Quoted), Body(arg)) == Reader(words, Some(word + arg), Quoted)
    decreases |arg|
  {
    var r := Reader(words, Some(word), Quoted);
    if arg == [] {
      assert word + [] == word;
    } else {
      var head := if arg[0] == '\'' then "'\\''" else [arg[0]];
      FeedAppend(r, head, Body(arg[1..]));
      if arg[0] == '\'' {
        QuoteReads(words, word);
      } else {
        assert [arg[0]][1..] == [];
        assert Feed(r, [arg[0]]) == Feed(Take(r, arg[0]), []);
      }
      BodyReads(words, word + [arg[0]], arg[1..]);
      assert word + [arg[0]] + arg[1..] == word + arg;
    }
  }

  /** A quoted argument adds exactly its own text to the word being read. */
  lemma {:induction false} EscapedReads(words: seq<string>, word: Option<string>, arg: string)
    ensures Feed(Reader(words, word, Plain), EscapeShellArg(arg)) == Reader(words, Some(Text(word) + arg), Plain)
  {
    var r := Reader(words, word, Plain);
    var q := r.(word := Some(Text(word)), mode := Quoted);
    assert EscapeShellArg(arg) == "'" + (Body(arg) + "'");
    FeedAppend(r, "'", Body(arg) + "'");
    FeedAppend(q, Body(arg), "'");
    assert "'"[1..] == "";
    assert Feed(r, "'") == Feed(q, "") == q;
    BodyReads(words, Text(word), arg);
    var e := Reader(words, Some(Text(word) + arg), Quoted);
    assert Feed(e, "'") == Feed(e.(mode := Plain), "") == e.(mode := Plain);
  }

  /** Any text, quoted, reads back as one word that is that text. */
  lemma {:induction false} QuotedIsOneWord(arg: string)
    ensures ReadWords(EscapeShellArg(arg)) == Some([arg])
  {
    EscapedReads([], None, arg);
    assert "" + arg == arg && [] + [arg] == [arg];
  }

  // ---------------------------------------------------------------- which words need quoting

  /** The characters for which the code quotes a part. */
  predicate Quotable(c: char) {
    c == ' ' || c == '\t' || c == '\n' || c == '"' || c == '\'' || c == '\\' || c == '$' || c == '`' || c == '!' || c == '*' ||
    c == '?' || c == '~' || c == '#' || c == '&' || c == ';' || c == '|' || c == '<' || c == '>' || c == '(' || c == ')' ||
    c == '[' || c == ']' || c == '{' || c == '}'
  }

  predicate NeedsQuotes(s: string) { exists i :: 0 <= i < |s| && Quotable(s[i]) }

  predicate NoSpecial(s: string) { forall i :: 0 <= i < |s| ==> !Special(s[i]) }

  /** Text in which the shell finds nothing but one word. */
  predicate Literal(s: string) { s != "" && !Leading(s[0]) && NoSpecial(s) }

  lemma {:induction false} TakePlain(words: seq<string>, word: Option<string>, c: char)
    requires !Special(c) && (word == None ==> !Leading(c))
    ensures Take(Reader(words, word, Plain), c) == Reader(words, Some(Text(word) + [c]), Plain)
  {
  }

  lemma {:induction false} PlainReads(words: seq<string>, word: Option<string>, s: string)
    requires NoSpecial(s) && (word == None && s != "" ==> !Leading(s[0]))
    ensures Feed(Reader(words, word, Plain), s) == if s == "" then Reader(words, word, Plain) else Reader(words, Some(Text(word) + s), Plain)
    decreases |s|
  {
    if s != [] {
      TakePlain(words, word, s[0]);
      hide Take, Special;
      assert forall i :: 0 <= i < |s| - 1 ==> s[1..][i] == s[i + 1];
      PlainReads(words, Some(Text(word) + [s[0]]), s[1..]);
      assert s == [s[0]] + s[1..];
      assert Text(word) + [s[0]] + s[1..] == Text(word) + s;
      assert s[1..] == "" ==> Text(word) + [s[0]] == Text(word) + s;
    }
  }

  function Size(words: seq<string>): nat {
    if words == [] then 0 else Size(words[..|words| - 1]) + |words[|words| - 1]|
  }

  function Held(r: Reader): nat { Size(r.words) + |Text(r.word)| }

  lemma {:induction false} EndedSize(r: Reader)
    ensures Size(Ended(r)) == Held(r)
  {
    if r.word.Some? { assert (r.words + [r.word.value])[..|r.words|] == r.words; }
  }

  lemma {:induction false} TakeShrinks(r: Reader, c: char)
    ensures Held(Take(r, c)) <= Held(r) + 1
    ensures r.mode == Plain && (Special(c) || (Leading(c) && r.word == None)) ==> Take(r, c).mode == Stuck || Held(Take(r, c)) == Held(r)
  {
    EndedSize(r);
    hide Size;
    assert Leading(c) ==> !Blank(c) && c != '\'' && c != '\\';
    hide Special, Leading;
  }

  lemma {:induction false} StaysStuck(r: Reader, s: string)
    requires r.mode == Stuck
    ensures Feed(r, s) == r
    decreases |s|
  {
    if s != [] { StaysStuck(r, s[1..]); }
  }

  /** Reading never makes text longer. */
  lemma {:induction false} FeedShrinks(r: Reader, s: string)
    ensures Held(Feed(r, s)) <= Held(r) + |s|
    decreases |s|
  {
    if s != [] {
      TakeShrinks(r, s[0]);
      hide Held, Take;
      FeedShrinks(Take(r, s[0]), s[1..]);
    }
  }

  /** Text reads back as itself without quotes if and only if it is one plain word. */
  lemma {:induction false} UnquotedExact(part: string)
    ensures ReadWords(part) == Some([part]) <==> Literal(part)
  {
    if Literal(part) {
      PlainReads([], None, part);
      assert "" + part == part;
      assert [] + [part] == [part];
    } else if part != "" {
      var k := FirstOther(part);
      var head, rest := part[..k], part[k + 1..];
      PlainReads([], None, head);
      assert "" + head == head;
      var r := Feed(Start, head);
      assert part == head + ([part[k]] + rest);
      FeedAppend(Start, head, [part[k]] + rest);
      assert ([part[k]] + rest)[1..] == rest;
      var t := Take(r, part[k]);
      TakeShrinks(r, part[k]);
      assert Held(r) == k;
      hide Take, Special;
      if t.mode == Stuck {
        StaysStuck(t, rest);
      } else {
        FeedShrinks(t, rest);
        EndedSize(Feed(Start, part));
        assert Size([part][..0]) == 0 && Size([part]) == |part|;
      }
    }
  }

  lemma {:induction false} FirstOther(s: string) returns (k: nat)
    requires s != "" && !Literal(s)
    ensures k < |s| && (Special(s[k]) || (k == 0 && Leading(s[0]))) && NoSpecial(s[..k]) && (k > 0 ==> !Leading(s[0]))
  {
    k := 0;
    if !Leading(s[0]) {
      while !Special(s[k])
        invariant k < |s| && NoSpecial(s[..k])
        invariant exists i :: k <= i < |s| && Special(s[i])
        decreases |s| - k
      {
        assert forall i :: 0 <= i < k ==> s[..k][i] == s[i];
        k := k + 1;
      }
    }
  }

  /** The characters the code quotes for are all that the shell knows, and more. */
  lemma {:induction false} QuotablesCover(c: char)
    ensures Quotable(c) <==> Special(c) || Leading(c) || c == '!' || c == ']' || c == '{' || c == '}'
  {
  }

  /** What the code leaves without quotes reads back as itself, unless it is empty. What it quotes would
      also do so without quotes if and only if its characters of that kind are `!`, `]`, `{`, `}`, or a
      `#` or `~` inside it. */
  lemma {:induction false} QuotingExact(part: string)
    ensures !NeedsQuotes(part) ==> (ReadWords(part) == Some([part]) <==> part != "")
    ensures NeedsQuotes(part) ==>
      (ReadWords(part) == Some([part]) <==>
         forall i :: 0 <= i < |part| && Quotable(part[i]) ==>
           part[i] == '!' || part[i] == ']' || part[i] == '{' || part[i] == '}' || (i > 0 && Leading(part[i])))
  {
    UnquotedExact(part);
    forall i | 0 <= i < |part| ensures Quotable(part[i]) <==>
      Special(part[i]) || Leading(part[i]) || part[i] == '!' || part[i] == ']' || part[i] == '{' || part[i] == '}'
    {
      QuotablesCover(part[i]);
    }
    hide Quotable, ReadWords;
  }

  /** A part that is quoted without need. */
  lemma {:induction false} NeedlessQuotes()
    ensures NeedsQuotes("x}") && ReadWords("x}") == Some(["x}"]) && ReadWords(Word("x}")) == Some(["x}"])
  {
    assert Quotable("x}"[1]);
    assert Literal("x}");
    UnquotedExact("x}");
    QuotedIsOneWord("x}");
  }

  // ---------------------------------------------------------------- the launch command

  datatype Variable = Variable(name: string, value: string)

  function Word(part: string): string { if NeedsQuotes(part) then EscapeShellArg(part) else part }

  function Words(parts: seq<string>): seq<string> { seq(|parts|, i requires 0 <= i < |parts| => Word(parts[i])) }

  function Assignments(env: seq<Variable>): seq<string> {
    seq(|env|, i requires 0 <= i < |env| => env[i].name + "=" + EscapeShellArg(env[i].value))
  }

  function LaunchCommand(env: seq<Variable>, parts: seq<string>): string {
    (if env != [] then Join(Assignments(env), " ") + " " else "") + Join(Words(parts), " ")
  }

  function NonEmpty(parts: seq<string>): seq<string> {
    if parts == [] then [] else (if parts[0] == "" then [] else [parts[0]]) + NonEmpty(parts[1..])
  }

  /** The words the variables are read as. */
  function Settings(env: seq<Variable>): seq<string> {
    seq(|env|, i requires 0 <= i < |env| => env[i].name + "=" + env[i].value)
  }

  function Begun(words: seq<string>): Reader { Reader(words, None, Plain) }

  lemma {:induction false} WordReads(words: seq<string>, part: string)
    ensures Feed(Begun(words), Word(part)) == Reader(words, if part == "" then None else Some(part), Plain)
  {
    assert "" + part == part;
    if NeedsQuotes(part) {
      EscapedReads(words, None, part);
    } else {
      forall i | 0 <= i < |part| ensures !Special(part[i]) && !Leading(part[i]) { QuotablesCover(part[i]); }
      PlainReads(words, None, part);
    }
  }

  lemma {:induction false} BlankReads(r: Reader)
    requires r.mode == Plain
    ensures Feed(r, " ") == Begun(Ended(r))
  {
    assert " "[1..] == "";
    assert Feed(r, " ") == Feed(Take(r, ' '), "");
  }

  lemma {:induction false} PartsRead(words: seq<string>, parts: seq<string>)
    requires parts != []
    ensures var r := Feed(Begun(words), Join(Words(parts), " ")); r.mode == Plain && Ended(r) == words + NonEmpty(parts)
    decreases |parts|
  {
    hide Word, Take;
    WordReads(words, parts[0]);
    if |parts| == 1 {
      assert NonEmpty(parts[1..]) == [];
      assert Words(parts) == [Word(parts[0])];
    } else {
      JoinWords(parts);
      hide Join, Words;
      var r, rest := Feed(Begun(words), Word(parts[0])), Join(Words(parts[1..]), " ");
      BlankBetween(words, Word(parts[0]), rest);
      PartsRead(Ended(r), parts[1..]);
      hide Feed;
      assert Ended(r) + NonEmpty(parts[1..]) == words + NonEmpty(parts);
    }
  }

  lemma {:induction false} JoinWords(parts: seq<string>)
    requires |parts| > 1
    ensures Join(Words(parts), " ") == Word(parts[0]) + " " + Join(Words(parts[1..]), " ")
  {
    hide Word;
    assert Words(parts)[1..] == Words(parts[1..]);
  }

  lemma {:induction false} BlankBetween(words: seq<string>, first: string, rest: string)
    requires Feed(Begun(words), first).mode == Plain
    ensures Feed(Begun(words), first + " " + rest) == Feed(Begun(Ended(Feed(Begun(words), first))), rest)
  {
    assert first + " " + rest == first + (" " + rest);
    FeedAppend(Begun(words), first, " " + rest);
    FeedAppend(Feed(Begun(words), first), " ", rest);
    BlankReads(Feed(Begun(words), first));
  }

  /** Text that adds one word, the same wherever it stands. */
  ghost predicate ReadsAs(text: string, word: string) {
    forall words :: Feed(Begun(words), text) == Reader(words, Some(word), Plain)
  }

  lemma {:induction false} JoinReads(words: seq<string>, texts: seq<string>, meant: seq<string>)
    requires |texts| == |meant| > 0 && forall i :: 0 <= i < |texts| ==> ReadsAs(texts[i], meant[i])
    ensures var r := Feed(Begun(words), Join(texts, " ")); r.mode == Plain && Ended(r) == words + meant
    decreases |texts|
  {
    hide Feed, Take;
    assert ReadsAs(texts[0], meant[0]);
    if |texts| > 1 {
      BlankBetween(words, texts[0], Join(texts[1..], " "));
      JoinReads(words + [meant[0]], texts[1..], meant[1..]);
      assert (words + [meant[0]]) + meant[1..] == words + meant;
    }
  }

  lemma {:induction false} EscapedReadsAs(text: string)
    ensures ReadsAs(EscapeShellArg(text), text)
  {
    forall words ensures Feed(Begun(words), EscapeShellArg(text)) == Reader(words, Some(text), Plain) {
      EscapedReads(words, None, text);
      assert "" + text == text;
    }
  }

  lemma {:induction false} PlainReadsAs(text: string)
    requires Literal(text)
    ensures ReadsAs(text, text)
  {
    forall words ensures Feed(Begun(words), text) == Reader(words, Some(text), Plain) {
      PlainReads(words, None, text);
      assert "" + text == text;
    }
  }

  lemma {:induction false} SettingReadsAs(v: Variable)
    requires Literal(v.name + "=")
    ensures ReadsAs(v.name + "=" + EscapeShellArg(v.value), v.name + "=" + v.value)
  {
    var key := v.name + "=";
    PlainReadsAs(key);
    forall words ensures Feed(Begun(words), key + EscapeShellArg(v.value)) == Reader(words, Some(key + v.value), Plain) {
      hide Take;
      FeedAppend(Begun(words), key, EscapeShellArg(v.value));
      EscapedReads(words, Some(key), v.value);
    }
  }

  lemma {:induction false} SettingsRead(words: seq<string>, env: seq<Variable>)
    requires env != [] && forall i :: 0 <= i < |env| ==> Literal(env[i].name + "=")
    ensures Feed(Begun(words), Join(Assignments(env), " ") + " ") == Begun(words + Settings(env))
  {
    forall i | 0 <= i < |env| ensures ReadsAs(Assignments(env)[i], Settings(env)[i]) { SettingReadsAs(env[i]); }
    hide Take, ReadsAs;
    JoinReads(words, Assignments(env), Settings(env));
    BlankReads(Feed(Begun(words), Join(Assignments(env), " ")));
    FeedAppend(Begun(words), Join(Assignments(env), " "), " ");
  }

  /** The launch command is read back as the settings and then the parts, without the empty ones. */
  lemma {:induction false} LaunchReads(env: seq<Variable>, parts: seq<string>)
    requires parts != [] && forall i :: 0 <= i < |env| ==> Literal(env[i].name + "=")
    ensures ReadWords(LaunchCommand(env, parts)) == Some(Settings(env) + NonEmpty(parts))
  {
    var command := Join(Words(parts), " ");
    if env == [] {
      assert "" + command == command;
      PartsRead([], parts);
      assert Settings(env) == [];
    } else {
      FeedAppend(Start, Join(Assignments(env), " ") + " ", command);
      SettingsRead([], env);
      assert [] + Settings(env) == Settings(env);
      PartsRead(Settings(env), parts);
    }
  }

  lemma {:induction false} NonEmptyShorter(parts: seq<string>)
    ensures |NonEmpty(parts)| <= |parts|
    ensures NonEmpty(parts) == parts <==> forall i :: 0 <= i < |parts| ==> parts[i] != ""
  {
    if parts != [] {
      NonEmptyShorter(parts[1..]);
      assert parts == [parts[0]] + parts[1..];
      assert forall i :: 0 < i < |parts| ==> parts[i] == parts[1..][i - 1];
      if parts[0] != "" {
        assert NonEmpty(parts) == parts <==> NonEmpty(parts[1..]) == parts[1..] by {
          assert NonEmpty(parts)[1..] == NonEmpty(parts[1..]);
        }
      }
    }
  }

  /** So it starts the very command asked for if and only if no part is empty. */
  lemma {:induction false} LaunchExact(env: seq<Variable>, parts: seq<string>)
    requires parts != [] && forall i :: 0 <= i < |env| ==> Literal(env[i].name + "=")
    ensures ReadWords(LaunchCommand(env, parts)) == Some(Settings(env) + parts) <==> forall i :: 0 <= i < |parts| ==> parts[i] != ""
  {
    LaunchReads(env, parts);
    NonEmptyShorter(parts);
    var s := Settings(env);
    assert (s + NonEmpty(parts))[|s|..] == NonEmpty(parts) && (s + parts)[|s|..] == parts;
  }

  /** Two parts of which only one is read back. */
  lemma {:induction false} EmptyPartLost()
    ensures ReadWords(LaunchCommand([], ["a", ""])) == Some(["a"])
  {
    LaunchReads([], ["a", ""]);
    assert ["a", ""][1..] == [""] && [""][1..] == [];
    assert NonEmpty([""]) == NonEmpty([]) == [];
    assert NonEmpty(["a", ""]) == ["a"];
    assert Settings([]) + ["a"] == ["a"];
  }

  // ---------------------------------------------------------------- through both shells

  function SendKeysWords(session: string, text: string): seq<string> {
    ["tmux", "send-keys", "-t", session, "-l", "--", text]
  }

  /** The session name and the text are quoted, the other words are not. */
  function SendKeys(session: string, text: string): string {
    Join(SendKeysWords(EscapeShellArg(session), EscapeShellArg(text)), " ")
  }

  lemma {:induction false} LiteralsRead(i: nat, session: string, text: string)
    requires i < 7 && i != 3 && i != 6
    ensures ReadsAs(SendKeysWords(session, text)[i], SendKeysWords(session, text)[i])
  {
    PlainReadsAs(SendKeysWords(session, text)[i]);
  }

  /** The outer shell hands tmux the session name and the text exactly as they are. */
  lemma {:induction false} SendKeysReads(session: string, text: string)
    ensures ReadWords(SendKeys(session, text)) == Some(["tmux", "send-keys", "-t", session, "-l", "--", text])
  {
    var texts, meant := SendKeysWords(EscapeShellArg(session), EscapeShellArg(text)), SendKeysWords(session, text);
    forall i | 0 <= i < 7 ensures ReadsAs(texts[i], meant[i]) {
      hide ReadsAs, EscapeShellArg;
      EscapedReadsAs(session);
      EscapedReadsAs(text);
      if i != 3 && i != 6 { LiteralsRead(i, session, text); }
    }
    hide Feed, Take, ReadsAs, EscapeShellArg, SendKeysWords, Join;
    JoinReads([], texts, meant);
    assert [] + meant == meant;
  }

  /** Both levels together: tmux types the launch command, and the shell in the session reads the
      settings and the parts of the command out of it. */
  lemma {:induction false} ThroughBothShells(session: string, env: seq<Variable>, parts: seq<string>)
    requires parts != [] && (forall i :: 0 <= i < |env| ==> Literal(env[i].name + "=")) && forall i :: 0 <= i < |parts| ==> parts[i] != ""
    ensures var outer := ReadWords(SendKeys(session, LaunchCommand(env, parts)));
      outer.Some? && |outer.value| == 7 && outer.value[3] == session && ReadWords(outer.value[6]) == Some(Settings(env) + parts)
  {
    SendKeysReads(session, LaunchCommand(env, parts));
    LaunchExact(env, parts);
  }
}
