/** Splitting and joining strings, as `split` and `join` of JavaScript do. */
module Strings {
  /** `c` put in front of the first word. */
  function Glue(c: char, words: seq<string>): (r: seq<string>)
    requires words != []
    ensures r != [] && r[0] == [c] + words[0] && r[1..] == words[1..]
  {
    [[c] + words[0]] + words[1..]
  }

  function Split(s: string, sep: char): (r: seq<string>)
    ensures r != []
  {
    if s == [] then [[]]
    else if s[0] == sep then [[]] + Split(s[1..], sep)
    else Glue(s[0], Split(s[1..], sep))
  }

  function Join(words: seq<string>, sep: string): string {
    if words == [] then []
    else if |words| == 1 then words[0]
    else words[0] + sep + Join(words[1..], sep)
  }

  lemma {:induction false} SplitWords(s: string, sep: char)
    ensures forall w <- Split(s, sep) :: sep !in w
    ensures sep !in s ==> Split(s, sep) == [s]
  {
    if s != [] {
      SplitWords(s[1..], sep);
      var rest := Split(s[1..], sep);
      if s[0] == sep {
        assert forall w <- Split(s, sep) :: w == [] || w in rest;
      } else {
        assert rest == [rest[0]] + rest[1..];
        assert forall w <- Split(s, sep) :: w == [s[0]] + rest[0] || w in rest;
        assert s == [s[0]] + s[1..];
        assert sep !in s ==> sep !in s[1..];
      }
    }
  }

  lemma {:induction false} JoinSplit(s: string, sep: char)
    ensures Join(Split(s, sep), [sep]) == s
  {
    if s != [] {
      JoinSplit(s[1..], sep);
      var rest := Split(s[1..], sep);
      assert s == [s[0]] + s[1..];
      if s[0] == sep {
        assert ([[]] + rest)[1..] == rest;
      } else {
        JoinGlue(s[0], rest, [sep]);
      }
    }
  }

  lemma {:induction false} JoinGlue(c: char, words: seq<string>, sep: string)
    requires words != []
    ensures Join(Glue(c, words), sep) == [c] + Join(words, sep)
  {
    if |words| > 1 {
      assert Join(words, sep) == words[0] + sep + Join(words[1..], sep);
      assert [c] + (words[0] + sep + Join(words[1..], sep)) == [c] + words[0] + sep + Join(words[1..], sep);
    }
  }

  lemma {:induction false} GlueConcat(c: char, a: seq<string>, b: seq<string>)
    requires a != []
    ensures Glue(c, a + b) == Glue(c, a) + b
  {
    assert (a + b)[1..] == a[1..] + b;
  }

  lemma {:induction false} SplitCons(c: char, s: string, sep: char)
    ensures Split([c] + s, sep) == if c == sep then [[]] + Split(s, sep) else Glue(c, Split(s, sep))
  {
    assert ([c] + s)[1..] == s;
  }

  /** Splitting a concatenation around a separator splits each side. */
  lemma {:induction false} SplitConcat(a: string, b: string, sep: char)
    ensures Split(a + [sep] + b, sep) == Split(a, sep) + Split(b, sep)
  {
    if a == [] {
      assert [] + [sep] + b == [sep] + b;
      SplitCons(sep, b, sep);
    } else {
      var c, tail := a[0], a[1..];
      assert a + [sep] + b == [c] + (tail + [sep] + b);
      SplitCons(c, tail + [sep] + b, sep);
      SplitConcat(tail, b, sep);
      if c != sep { GlueConcat(c, Split(tail, sep), Split(b, sep)); }
    }
  }

  lemma {:induction false} SplitJoin(words: seq<string>, sep: char)
    requires words != [] && forall w <- words :: sep !in w
    ensures Split(Join(words, [sep]), sep) == words
  {
    SplitWords(words[0], sep);
    if |words| > 1 {
      SplitJoin(words[1..], sep);
      SplitConcat(words[0], Join(words[1..], [sep]), sep);
    }
  }

  lemma {:induction false} JoinAppend(a: seq<string>, b: seq<string>, sep: string)
    requires a != [] && b != []
    ensures Join(a + b, sep) == Join(a, sep) + sep + Join(b, sep)
  {
    if |a| == 1 {
      assert (a + b)[1..] == b;
    } else {
      JoinAppend(a[1..], b, sep);
      assert (a + b)[1..] == a[1..] + b;
      var ja, jb := Join(a[1..], sep), Join(b, sep);
      assert a[0] + sep + (ja + sep + jb) == (a[0] + sep + ja) + sep + jb;
    }
  }
}
