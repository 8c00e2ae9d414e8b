/** Canonical GitHub references: `parseGitHubLink` on the text of the URL. */
module GitHubLinks {
  import opened Strings

  datatype Option<T> = None | Some(value: T)

  datatype Kind = Repository | Issue | Pull

  /** `number` is empty for a repository. */
  datatype GitHubLink = GitHubLink(url: string, owner: string, repository: string, kind: Kind, number: string)

  const MAX_GITHUB_LINK_LENGTH := 2048
  const PREFIX := "https://github.com/"

  const GITHUB_SITE_NAMESPACES: set<string> := {
    "account", "apps", "codespaces", "collections", "explore", "features",
    "issues", "login", "marketplace", "notifications", "organizations", "orgs", "pricing", "pulls",
    "search", "settings", "signup", "sponsors", "stars", "topics", "users"
  }

  predicate IsUpper(c: char) { 'A' <= c <= 'Z' }
  predicate IsDigit(c: char) { '0' <= c <= '9' }
  predicate IsAlnum(c: char) { IsUpper(c) || 'a' <= c <= 'z' || IsDigit(c) }

  function LowerChar(c: char): char { if IsUpper(c) then c + ' ' else c }

  function Lower(s: string): (r: string)
    ensures |r| == |s| && forall i :: 0 <= i < |s| ==> r[i] == LowerChar(s[i])
  {
    seq(|s|, i requires 0 <= i < |s| => LowerChar(s[i]))
  }

  /** The text before the first `?` or `#`. */
  function BeforeQuery(s: string): (r: string)
    ensures '?' !in r && '#' !in r && r <= s
    ensures |r| < |s| ==> s[|r|] == '?' || s[|r|] == '#'
  {
    if s == [] || s[0] == '?' || s[0] == '#' then [] else [s[0]] + BeforeQuery(s[1..])
  }

  predicate IsOwner(w: string) {
    1 <= |w| <= 39 && IsAlnum(w[0]) && forall c <- w :: IsAlnum(c) || c == '-'
  }

  predicate IsRepository(w: string) {
    w != [] && w != "." && w != ".." && forall c <- w :: IsAlnum(c) || c == '_' || c == '.' || c == '-'
  }

  predicate IsNumber(w: string) {
    w != [] && w[0] != '0' && forall c <- w :: IsDigit(c)
  }

  /** The words of the path without one trailing slash. */
  function WithoutSlash(words: seq<string>): seq<string> {
    if (|words| == 3 || |words| == 5) && words[|words| - 1] == [] then words[..|words| - 1] else words
  }

  function Interpret(words: seq<string>): Option<GitHubLink> {
    if |words| == 2 then
      if IsOwner(words[0]) && IsRepository(words[1]) && Lower(words[0]) !in GITHUB_SITE_NAMESPACES
      then Some(GitHubLink(PREFIX + Join([Lower(words[0]), Lower(words[1])], "/"),
                           Lower(words[0]), Lower(words[1]), Repository, []))
      else None
    else if |words| == 4 then
      if IsOwner(words[0]) && IsRepository(words[1]) && (words[2] == "issues" || words[2] == "pull") && IsNumber(words[3])
      then Some(GitHubLink(PREFIX + Join([Lower(words[0]), Lower(words[1]), words[2], words[3]], "/"),
                           Lower(words[0]), Lower(words[1]), if words[2] == "issues" then Issue else Pull, words[3]))
      else None
    else None
  }

  /** An input that begins with the literal prefix, in any letter case, has the scheme and host
      asked for and no port, user or password; the rest of the text decides. */
  function ParseGitHubLink(input: string): Option<GitHubLink> {
    if |input| > MAX_GITHUB_LINK_LENGTH || |input| < |PREFIX| || Lower(input[..|PREFIX|]) != PREFIX then None
    else Interpret(WithoutSlash(Split(BeforeQuery(input[|PREFIX|..]), '/')))
  }

  /** The words of a path are plain text between the slashes. */
  predicate PathWords(words: seq<string>) {
    (|words| == 2 || |words| == 4) && words[|words| - 1] != [] &&
    forall w <- words :: '/' !in w && '?' !in w && '#' !in w
  }

  lemma {:induction false} InterpretedWords(words: seq<string>)
    requires Interpret(words).Some?
    ensures PathWords(words)
  {
  }

  lemma {:induction false} JoinPlain(words: seq<string>, c: char)
    requires c != '/' && forall w <- words :: c !in w
    ensures c !in Join(words, "/")
  {
    if |words| > 1 { JoinPlain(words[1..], c); }
  }

  lemma {:induction false} BeforeQueryOf(body: string, suffix: string)
    requires '?' !in body && '#' !in body && (suffix == [] || suffix[0] == '?' || suffix[0] == '#')
    ensures BeforeQuery(body + suffix) == body
  {
    if body == [] {
      assert body + suffix == suffix;
    } else {
      BeforeQueryOf(body[1..], suffix);
      assert (body + suffix)[1..] == body[1..] + suffix;
    }
  }

  /** The prefix in any letter case, the words, an optional slash and any query or fragment are
      read as the words alone. */
  lemma {:induction false} ParseIgnoresDecoration(prefix: string, words: seq<string>, slash: bool, suffix: string)
    requires |prefix| == |PREFIX| && Lower(prefix) == PREFIX && PathWords(words)
    requires suffix == [] || suffix[0] == '?' || suffix[0] == '#'
    requires var input := prefix + Join(words, "/") + (if slash then "/" else "") + suffix;
             |input| <= MAX_GITHUB_LINK_LENGTH
    ensures ParseGitHubLink(prefix + Join(words, "/") + (if slash then "/" else "") + suffix) == Interpret(words)
  {
    var body := Join(words, "/") + if slash then "/" else "";
    var input := prefix + Join(words, "/") + (if slash then "/" else "") + suffix;
    assert input == prefix + (body + suffix);
    assert input[..|PREFIX|] == prefix && input[|PREFIX|..] == body + suffix;
    JoinPlain(words, '?');
    JoinPlain(words, '#');
    BeforeQueryOf(body, suffix);
    if slash {
      JoinAppend(words, [[]], "/");
      assert Join([[]], "/") == [];
      assert body == Join(words + [[]], "/");
      SplitJoin(words + [[]], '/');
      assert (words + [[]])[..|words|] == words;
    } else {
      assert body == Join(words, "/");
      SplitJoin(words, '/');
    }
  }

  lemma {:induction false} JoinLengths(a: seq<string>, b: seq<string>)
    requires |a| == |b| && forall i :: 0 <= i < |a| ==> |a[i]| == |b[i]|
    ensures |Join(a, "/")| == |Join(b, "/")|
  {
    if |a| > 1 { JoinLengths(a[1..], b[1..]); }
  }

  function LowerWords(words: seq<string>): seq<string> {
    if |words| == 2 then [Lower(words[0]), Lower(words[1])]
    else if |words| == 4 then [Lower(words[0]), Lower(words[1]), words[2], words[3]]
    else words
  }

  lemma {:induction false} LowerKeepsShape(w: string)
    ensures IsOwner(w) ==> IsOwner(Lower(w))
    ensures IsRepository(w) ==> IsRepository(Lower(w))
    ensures Lower(Lower(w)) == Lower(w)
  {
    if IsRepository(w) {
      forall c | c in Lower(w) ensures IsAlnum(c) || c == '_' || c == '.' || c == '-' {
        var i :| 0 <= i < |w| && c == LowerChar(w[i]);
        assert w[i] in w;
      }
      assert |w| == 1 ==> w[0] != '.';
      if |w| == 2 { assert w == [w[0], w[1]]; }
    }
    if IsOwner(w) {
      forall c | c in Lower(w) ensures IsAlnum(c) || c == '-' {
        var i :| 0 <= i < |w| && c == LowerChar(w[i]);
        assert w[i] in w;
      }
    }
  }

  lemma {:induction false} InterpretLower(words: seq<string>)
    requires Interpret(words).Some?
    ensures Interpret(LowerWords(words)) == Interpret(words)
    ensures Interpret(words).value.url == PREFIX + Join(LowerWords(words), "/")
  {
    LowerKeepsShape(words[0]);
    LowerKeepsShape(words[1]);
  }

  lemma {:induction false} WithoutSlashLength(body: string)
    ensures |Join(WithoutSlash(Split(body, '/')), "/")| <= |body|
  {
    var split := Split(body, '/');
    var words := WithoutSlash(split);
    JoinSplit(body, '/');
    if split != words {
      assert split == words + [[]];
      JoinAppend(words, [[]], "/");
    }
  }

  /** Parsing is an idempotent canonicaliser: the URL of a parsed link parses to the same link. */
  lemma {:induction false} ParseIdempotent(input: string)
    requires ParseGitHubLink(input).Some?
    ensures ParseGitHubLink(ParseGitHubLink(input).value.url) == ParseGitHubLink(input)
    ensures |ParseGitHubLink(input).value.url| <= |input|
  {
    var body := BeforeQuery(input[|PREFIX|..]);
    var words := WithoutSlash(Split(body, '/'));
    var url := ParseGitHubLink(input).value.url;
    InterpretLower(words);
    var lowered := LowerWords(words);
    assert url == PREFIX + Join(lowered, "/");
    InterpretedWords(lowered);
    JoinLengths(words, lowered);
    WithoutSlashLength(body);
    ParseCanonical(lowered);
  }

  /** What stands behind the repository in the URL of a link. */
  function Tail(kind: Kind, number: string): string {
    match kind case Repository => "" case Issue => "/issues/" + number case Pull => "/pull/" + number
  }

  /** The parts are those of a link: an owner, a repository, and a number for an issue or a pull request.
      A repository is not one of the site's own pages. */
  predicate Parts(owner: string, repository: string, kind: Kind, number: string) {
    IsOwner(owner) && IsRepository(repository) &&
    if kind == Repository then number == "" && Lower(owner) !in GITHUB_SITE_NAMESPACES else IsNumber(number)
  }

  /** The URL made of such parts, in any letter case, is read as a link of just these parts and that kind. */
  lemma {:induction false} ParseReads(owner: string, repository: string, kind: Kind, number: string)
    requires Parts(owner, repository, kind, number)
    requires |PREFIX + owner + "/" + repository + Tail(kind, number)| <= MAX_GITHUB_LINK_LENGTH
    ensures ParseGitHubLink(PREFIX + owner + "/" + repository + Tail(kind, number)) ==
      Some(GitHubLink(PREFIX + Lower(owner) + "/" + Lower(repository) + Tail(kind, number), Lower(owner), Lower(repository), kind, number))
  {
    var words := WordsOf(owner, repository, kind, number);
    JoinParts(owner, repository, kind, number);
    JoinParts(Lower(owner), Lower(repository), kind, number);
    PartsPlain(owner, repository, kind, number);
    ParseCanonical(words);
  }

  function WordsOf(owner: string, repository: string, kind: Kind, number: string): seq<string> {
    match kind
    case Repository => [owner, repository]
    case Issue => [owner, repository, "issues", number]
    case Pull => [owner, repository, "pull", number]
  }

  lemma {:induction false} JoinParts(owner: string, repository: string, kind: Kind, number: string)
    ensures PREFIX + Join(WordsOf(owner, repository, kind, number), "/") == PREFIX + owner + "/" + repository + Tail(kind, number)
  {
    hide Join;
    match kind {
      case Repository => JoinTwo(owner, repository);
      case Issue => JoinFour(owner, repository, "issues", number);
      case Pull => JoinFour(owner, repository, "pull", number);
    }
  }

  lemma {:induction false} JoinTwo(a: string, b: string)
    ensures Join([a, b], "/") == a + "/" + b
  {
    assert [a, b][1..] == [b];
    assert Join([b], "/") == b;
  }

  lemma {:induction false} JoinFour(a: string, b: string, c: string, d: string)
    ensures PREFIX + Join([a, b, c, d], "/") == PREFIX + a + "/" + b + ("/" + c + "/" + d)
  {
    JoinTwo(a, b);
    JoinTwo(c, d);
    JoinAppend([a, b], [c, d], "/");
    assert [a, b] + [c, d] == [a, b, c, d];
    hide Join;
  }

  lemma {:induction false} PartsPlain(owner: string, repository: string, kind: Kind, number: string)
    requires Parts(owner, repository, kind, number)
    ensures PathWords(WordsOf(owner, repository, kind, number))
  {
  }

  /** Whatever is read is a link of such parts, and its URL is made of them. */
  lemma {:induction false} ParsedParts(input: string)
    requires ParseGitHubLink(input).Some?
    ensures var l := ParseGitHubLink(input).value;
      Parts(l.owner, l.repository, l.kind, l.number) && Lower(l.owner) == l.owner && Lower(l.repository) == l.repository &&
      l.url == PREFIX + l.owner + "/" + l.repository + Tail(l.kind, l.number)
  {
    var words := WithoutSlash(Split(BeforeQuery(input[|PREFIX|..]), '/'));
    var l := ParseGitHubLink(input).value;
    LowerKeepsShape(words[0]);
    LowerKeepsShape(words[1]);
    assert l.url == PREFIX + Join(WordsOf(l.owner, l.repository, l.kind, l.number), "/");
    JoinParts(l.owner, l.repository, l.kind, l.number);
  }

  lemma {:induction false} ParseCanonical(words: seq<string>)
    requires PathWords(words) && |PREFIX + Join(words, "/")| <= MAX_GITHUB_LINK_LENGTH
    ensures ParseGitHubLink(PREFIX + Join(words, "/")) == Interpret(words)
  {
    assert Lower(PREFIX) == PREFIX;
    assert PREFIX + Join(words, "/") + "" + [] == PREFIX + Join(words, "/");
    ParseIgnoresDecoration(PREFIX, words, false, []);
  }
}
