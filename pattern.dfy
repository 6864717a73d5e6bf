/**
 * A small regular-expression language, just large enough to write down the
 * two validator patterns of the git_integration type, with a whole-string
 * matching semantics (what `^...$` means for a string without line breaks).
 * The lemmas show that each pattern accepts exactly the strings of a simple
 * predicate, which is what the type uses.
 */
module Pattern {
  import opened RubyString

  /** The character classes the two patterns use. */
  datatype CharClass =
    | AnyButNewline  // .
    | NonSpace       // \S
    | Word           // \w
    | Digit          // \d

  predicate InClass(k: CharClass, c: char) {
    match k
    case AnyButNewline => c != '\n'
    case NonSpace => !IsSpace(c)
    case Word => 'a' <= c <= 'z' || 'A' <= c <= 'Z' || IsDigit(c) || c == '_'
    case Digit => IsDigit(c)
  }

  datatype Regex =
    | Lit(c: char)             // one literal character
    | Cat(a: Regex, b: Regex)  // a followed by b
    | Opt(a: Regex)            // a?
    | Star(k: CharClass)       // [k]*

  function Size(r: Regex): nat {
    match r
    case Lit(_) => 1
    case Cat(a, b) => Size(a) + Size(b) + 1
    case Opt(a) => Size(a) + 1
    case Star(_) => 1
  }

  /** `s`, as a whole, is in the language of `r`. */
  ghost predicate Matches(r: Regex, s: string)
    decreases Size(r), 1
  {
    match r
    case Lit(c) => s == [c]
    case Cat(a, b) => exists i :: SplitsAt(a, b, s, i)
    case Opt(a) => s == [] || Matches(a, s)
    case Star(k) => forall i :: 0 <= i < |s| ==> InClass(k, s[i])
  }

  /** Cutting `s` at `i` gives a match of `a` followed by a match of `b`. */
  ghost predicate SplitsAt(a: Regex, b: Regex, s: string, i: int)
    decreases Size(a) + Size(b) + 1, 0
  {
    0 <= i <= |s| && Matches(a, s[..i]) && Matches(b, s[i..])
  }

  /** The regex that matches exactly the non-empty literal `w`. */
  function Str(w: string): Regex
    requires w != []
    decreases |w|
  {
    if |w| == 1 then Lit(w[0]) else Cat(Lit(w[0]), Str(w[1..]))
  }

  /** The concatenation of a non-empty list of regexes, in order. */
  function Chain(rs: seq<Regex>): Regex
    requires rs != []
    decreases |rs|
  {
    if |rs| == 1 then rs[0] else Cat(rs[0], Chain(rs[1..]))
  }

  /** `r` can match the empty string (decided syntactically). */
  predicate Nullable(r: Regex) {
    match r
    case Lit(_) => false
    case Cat(a, b) => Nullable(a) && Nullable(b)
    case Opt(_) => true
    case Star(_) => true
  }

  /** No string `r` matches contains a character of `bad`. */
  predicate Avoids(r: Regex, bad: set<char>) {
    match r
    case Lit(c) => c !in bad
    case Cat(a, b) => Avoids(a, bad) && Avoids(b, bad)
    case Opt(a) => Avoids(a, bad)
    case Star(k) => forall c :: c in bad ==> !InClass(k, c)
  }

  /** The eleven parts of the webhook pattern, in order. */
  function WebhookParts(): (rs: seq<Regex>)
    ensures |rs| == 11
  {
    [ Opt(SchemeGroup()),                                           // (https?:\/\/)?
      Opt(Chain([Star(NonSpace), Lit(':'), Star(NonSpace), Lit('@')])), // (\S*\:\S*\@)?
      Star(NonSpace),                                               // (\S*)
      Opt(Lit('.')),                                                // \.?
      Star(NonSpace),                                               // (\S*)
      Opt(Lit('.')),                                                // \.?
      Star(Word),                                                   // (\w*)
      Opt(Lit(':')),                                                // :?
      Star(Digit),                                                  // (\d*)
      Opt(Lit('/')),                                                // \/?
      Star(NonSpace)                                                // (\S*)
    ]
  }

  /** `^(https?:\/\/)?(\S*\:\S*\@)?(\S*)\.?(\S*)\.?(\w*):?(\d*)\/?(\S*)$`, the webhook pattern. */
  function WebhookPattern(): Regex {
    Chain(WebhookParts())
  }

  /** The scheme group `(https?:\/\/)` that the server_url pattern starts with. */
  function SchemeGroup(): Regex {
    Cat(Str("http"), Cat(Opt(Lit('s')), Str("://")))
  }

  /** `^(https?:\/\/).*:?.*\/?$`, the server_url pattern. */
  function ServerUrlPattern(): Regex {
    Cat(SchemeGroup(), ServerUrlRest())
  }

  const Spaces: set<char> := {' ', '\t', '\n', '\U{B}', '\U{C}', '\r'}

  // ---------------------------------------------------------------------
  // General facts about matching
  // ---------------------------------------------------------------------

  lemma {:induction false} NullableMatchesEmpty(r: Regex)
    requires Nullable(r)
    ensures Matches(r, [])
  {
    match r
    case Opt(_) =>
    case Star(_) =>
    case Cat(a, b) =>
      NullableMatchesEmpty(a);
      NullableMatchesEmpty(b);
      var e: string := [];
      assert e[..0] == e && e[0..] == e;
      assert SplitsAt(a, b, e, 0);
  }

  lemma {:induction false} ChainNullable(rs: seq<Regex>)
    requires rs != []
    requires forall k :: 0 <= k < |rs| ==> Nullable(rs[k])
    ensures Nullable(Chain(rs))
    decreases |rs|
  {
    if |rs| > 1 {
      ChainNullable(rs[1..]);
    }
  }

  /** If every other part can be empty, the chain matches whatever its `j`-th part matches. */
  lemma {:induction false} ChainMatchesOne(rs: seq<Regex>, j: nat, s: string)
    requires j < |rs|
    requires forall k :: 0 <= k < |rs| && k != j ==> Nullable(rs[k])
    requires Matches(rs[j], s)
    ensures Matches(Chain(rs), s)
    decreases |rs|
  {
    if |rs| > 1 {
      if j == 0 {
        ChainNullable(rs[1..]);
        NullableMatchesEmpty(Chain(rs[1..]));
        assert s[..|s|] == s && s[|s|..] == [];
        assert SplitsAt(rs[0], Chain(rs[1..]), s, |s|);
      } else {
        NullableMatchesEmpty(rs[0]);
        ChainMatchesOne(rs[1..], j - 1, s);
        assert s[..0] == [] && s[0..] == s;
        assert SplitsAt(rs[0], Chain(rs[1..]), s, 0);
      }
    }
  }

  /** A regex that avoids `bad` only matches strings free of `bad`. */
  lemma {:induction false} MatchesAvoid(r: Regex, bad: set<char>, s: string)
    requires Avoids(r, bad) && Matches(r, s)
    ensures forall i :: 0 <= i < |s| ==> s[i] !in bad
    decreases r
  {
    match r
    case Lit(_) =>
    case Opt(a) =>
      if s != [] {
        MatchesAvoid(a, bad, s);
      }
    case Star(k) =>
    case Cat(a, b) =>
      var i :| SplitsAt(a, b, s, i);
      MatchesAvoid(a, bad, s[..i]);
      MatchesAvoid(b, bad, s[i..]);
      forall n | 0 <= n < |s| ensures s[n] !in bad {
        if n < i {
          assert s[..i][n] == s[n];
        } else {
          assert s[i..][n - i] == s[n];
        }
      }
  }

  lemma {:induction false} StrMatchesItself(w: string)
    requires w != []
    ensures Matches(Str(w), w)
    decreases |w|
  {
    if |w| > 1 {
      StrMatchesItself(w[1..]);
      assert w[..1] == [w[0]];
      assert SplitsAt(Lit(w[0]), Str(w[1..]), w, 1);
    }
  }

  lemma {:induction false} StrMatchesOnlyItself(w: string, s: string)
    requires w != [] && Matches(Str(w), s)
    ensures s == w
    decreases |w|
  {
    if |w| > 1 {
      var i :| SplitsAt(Lit(w[0]), Str(w[1..]), s, i);
      StrMatchesOnlyItself(w[1..], s[i..]);
      assert Matches(Lit(w[0]), s[..i]);
      assert s[..i] == [w[0]];
      assert s == s[..i] + s[i..];
      assert w == [w[0]] + w[1..];
    }
  }

  lemma {:induction false} StrAvoids(w: string, bad: set<char>)
    requires w != []
    requires forall i :: 0 <= i < |w| ==> w[i] !in bad
    ensures Avoids(Str(w), bad)
    decreases |w|
  {
    if |w| > 1 {
      StrAvoids(w[1..], bad);
    }
  }

  lemma {:induction false} ChainAvoids(rs: seq<Regex>, bad: set<char>)
    requires rs != []
    requires forall k :: 0 <= k < |rs| ==> Avoids(rs[k], bad)
    ensures Avoids(Chain(rs), bad)
    decreases |rs|
  {
    if |rs| > 1 {
      ChainAvoids(rs[1..], bad);
    }
  }

  // ---------------------------------------------------------------------
  // The two patterns reduce to simple predicates
  // ---------------------------------------------------------------------

  /** No character of `s` is in Ruby's `\s` class. */
  predicate NoSpace(s: string) {
    forall i :: 0 <= i < |s| ==> !IsSpace(s[i])
  }

  predicate StartsWith(s: string, p: string) {
    |p| <= |s| && s[..|p|] == p
  }

  /** Begins with `http://` or `https://` and has no line feed. */
  predicate IsHttpUrl(s: string) {
    (StartsWith(s, "http://") || StartsWith(s, "https://"))
    && forall i :: 0 <= i < |s| ==> s[i] != '\n'
  }

  lemma ClassesAvoidSpace()
    ensures Avoids(Star(NonSpace), Spaces) && Avoids(Star(Word), Spaces) && Avoids(Star(Digit), Spaces)
  {
  }

  lemma SchemeGroupAvoidsSpace()
    ensures Avoids(SchemeGroup(), Spaces)
  {
    StrAvoids("http", Spaces);
    StrAvoids("://", Spaces);
  }

  lemma UserInfoAvoidsSpace()
    ensures Avoids(Chain([Star(NonSpace), Lit(':'), Star(NonSpace), Lit('@')]), Spaces)
  {
    ClassesAvoidSpace();
    ChainAvoids([Star(NonSpace), Lit(':'), Star(NonSpace), Lit('@')], Spaces);
  }

  lemma GroupPartsAvoidSpace()
    ensures Avoids(WebhookParts()[0], Spaces) && Avoids(WebhookParts()[1], Spaces)
  {
    SchemeGroupAvoidsSpace();
    UserInfoAvoidsSpace();
  }

  lemma MiddlePartsAvoidSpace()
    ensures Avoids(WebhookParts()[2], Spaces) && Avoids(WebhookParts()[3], Spaces)
    ensures Avoids(WebhookParts()[4], Spaces) && Avoids(WebhookParts()[5], Spaces)
  {
    ClassesAvoidSpace();
  }

  lemma LastPartsAvoidSpace()
    ensures Avoids(WebhookParts()[6], Spaces) && Avoids(WebhookParts()[7], Spaces)
    ensures Avoids(WebhookParts()[8], Spaces) && Avoids(WebhookParts()[9], Spaces)
    ensures Avoids(WebhookParts()[10], Spaces)
  {
    ClassesAvoidSpace();
  }

  lemma WebhookPatternAvoidsSpace()
    ensures Avoids(WebhookPattern(), Spaces)
  {
    GroupPartsAvoidSpace();
    MiddlePartsAvoidSpace();
    LastPartsAvoidSpace();
    var rs := WebhookParts();
    forall k | 0 <= k < |rs| ensures Avoids(rs[k], Spaces) {
      assert k == 0 || k == 1 || k == 2 || k == 3 || k == 4 || k == 5 || k == 6 || k == 7 || k == 8 || k == 9 || k == 10;
    }
    ChainAvoids(rs, Spaces);
  }

  lemma WebhookPatternSound(s: string)
    requires Matches(WebhookPattern(), s)
    ensures NoSpace(s)
  {
    WebhookPatternAvoidsSpace();
    MatchesAvoid(WebhookPattern(), Spaces, s);
  }

  lemma EarlyPartsNullable()
    ensures Nullable(WebhookParts()[0]) && Nullable(WebhookParts()[1]) && Nullable(WebhookParts()[3])
    ensures Nullable(WebhookParts()[4]) && Nullable(WebhookParts()[5])
  {
  }

  lemma LatePartsNullable()
    ensures Nullable(WebhookParts()[6]) && Nullable(WebhookParts()[7]) && Nullable(WebhookParts()[8])
    ensures Nullable(WebhookParts()[9]) && Nullable(WebhookParts()[10])
  {
  }

  lemma WebhookPatternComplete(s: string)
    requires NoSpace(s)
    ensures Matches(WebhookPattern(), s)
  {
    EarlyPartsNullable();
    LatePartsNullable();
    var rs := WebhookParts();
    forall k | 0 <= k < |rs| && k != 2 ensures Nullable(rs[k]) {
      assert k == 0 || k == 1 || k == 3 || k == 4 || k == 5 || k == 6 || k == 7 || k == 8 || k == 9 || k == 10;
    }
    assert Matches(rs[2], s);
    ChainMatchesOne(rs, 2, s);
  }

  /** Every group of the webhook pattern is built from non-space pieces, and one of them is `\S*`. */
  lemma WebhookPatternIsNoSpace(s: string)
    ensures Matches(WebhookPattern(), s) <==> NoSpace(s)
  {
    if NoSpace(s) {
      WebhookPatternComplete(s);
    }
    if Matches(WebhookPattern(), s) {
      WebhookPatternSound(s);
    }
  }

  /** `c? v` matches only `v` and `c v`. */
  lemma OptStrMatches(c: char, v: string, t: string)
    requires v != []
    requires Matches(Cat(Opt(Lit(c)), Str(v)), t)
    ensures t == v || t == [c] + v
  {
    var j :| SplitsAt(Opt(Lit(c)), Str(v), t, j);
    StrMatchesOnlyItself(v, t[j..]);
    assert Matches(Opt(Lit(c)), t[..j]);
    assert t[..j] == [] || t[..j] == [c];
    assert t == t[..j] + t[j..];
  }

  /** `u c? v` matches only `u v` and `u c v`. */
  lemma StrOptStrMatches(u: string, c: char, v: string, w: string)
    requires u != [] && v != []
    requires Matches(Cat(Str(u), Cat(Opt(Lit(c)), Str(v))), w)
    ensures w == u + v || w == u + [c] + v
  {
    var i :| SplitsAt(Str(u), Cat(Opt(Lit(c)), Str(v)), w, i);
    StrMatchesOnlyItself(u, w[..i]);
    var t := w[i..];
    OptStrMatches(c, v, t);
    assert w == u + t;
    if t != v {
      assert u + ([c] + v) == u + [c] + v;
    }
  }

  lemma SchemeGroupMatches(w: string)
    requires Matches(SchemeGroup(), w)
    ensures w == "http://" || w == "https://"
  {
    StrOptStrMatches("http", 's', "://", w);
    SchemeSpellings();
  }

  lemma SchemeSpellings()
    ensures "http" + "://" == "http://" && "http" + ['s'] + "://" == "https://"
  {
  }

  lemma SchemeTailAccepts(t: string)
    requires t == "://" || t == "s://"
    ensures Matches(Cat(Opt(Lit('s')), Str("://")), t)
  {
    StrMatchesItself("://");
    if t == "://" {
      assert t[..0] == [] && t[0..] == t;
      assert SplitsAt(Opt(Lit('s')), Str("://"), t, 0);
    } else {
      assert t[..1] == "s" && t[1..] == "://";
      assert SplitsAt(Opt(Lit('s')), Str("://"), t, 1);
    }
  }

  lemma SchemeGroupAccepts(p: string)
    requires p == "http://" || p == "https://"
    ensures Matches(SchemeGroup(), p)
  {
    StrMatchesItself("http");
    var t := p[4..];
    assert p[..4] == "http";
    assert t == "://" || t == "s://";
    SchemeTailAccepts(t);
    assert SplitsAt(Str("http"), Cat(Opt(Lit('s')), Str("://")), p, 4);
  }

  /** Whatever follows the scheme group in the server_url pattern. */
  function ServerUrlRest(): Regex {
    Chain([Star(AnyButNewline), Opt(Lit(':')), Star(AnyButNewline), Opt(Lit('/'))])
  }

  /** A whole-string match of `a` then `b` splits the string into a match of each. */
  lemma CatSplit(a: Regex, b: Regex, s: string) returns (i: nat)
    requires Matches(Cat(a, b), s)
    ensures i <= |s| && Matches(a, s[..i]) && Matches(b, s[i..])
  {
    i :| SplitsAt(a, b, s, i);
  }

  lemma CatJoin(a: Regex, b: Regex, s: string, i: nat)
    requires i <= |s| && Matches(a, s[..i]) && Matches(b, s[i..])
    ensures Matches(Cat(a, b), s)
  {
    assert SplitsAt(a, b, s, i);
  }

  lemma ServerUrlRestAvoidsNewline()
    ensures Avoids(ServerUrlRest(), {'\n'})
  {
    ChainAvoids([Star(AnyButNewline), Opt(Lit(':')), Star(AnyButNewline), Opt(Lit('/'))], {'\n'});
  }

  predicate NoNewline(t: string) {
    forall n :: 0 <= n < |t| ==> t[n] != '\n'
  }

  lemma ServerUrlRestSound(t: string)
    requires Matches(ServerUrlRest(), t)
    ensures NoNewline(t)
  {
    ServerUrlRestAvoidsNewline();
    MatchesAvoid(ServerUrlRest(), {'\n'}, t);
  }

  lemma ServerUrlRestComplete(t: string)
    requires NoNewline(t)
    ensures Matches(ServerUrlRest(), t)
  {
    var rs := [Star(AnyButNewline), Opt(Lit(':')), Star(AnyButNewline), Opt(Lit('/'))];
    assert Matches(rs[0], t);
    ChainMatchesOne(rs, 0, t);
  }

  lemma HttpUrlJoin(s: string, i: nat)
    requires i <= |s| && (s[..i] == "http://" || s[..i] == "https://") && NoNewline(s[i..])
    ensures IsHttpUrl(s)
  {
    forall n | 0 <= n < |s| ensures s[n] != '\n' {
      if n < i {
        assert s[..i][n] == s[n];
      } else {
        assert s[i..][n - i] == s[n];
      }
    }
  }

  lemma HttpUrlSplit(s: string) returns (i: nat)
    requires IsHttpUrl(s)
    ensures i <= |s| && (s[..i] == "http://" || s[..i] == "https://") && NoNewline(s[i..])
  {
    i := if StartsWith(s, "https://") then 8 else 7;
    assert forall n :: 0 <= n < |s| - i ==> s[i..][n] == s[n + i];
  }

  lemma ServerUrlPatternSound(s: string)
    requires Matches(ServerUrlPattern(), s)
    ensures IsHttpUrl(s)
  {
    var i := CatSplit(SchemeGroup(), ServerUrlRest(), s);
    SchemeGroupMatches(s[..i]);
    ServerUrlRestSound(s[i..]);
    HttpUrlJoin(s, i);
  }

  lemma ServerUrlPatternComplete(s: string)
    requires IsHttpUrl(s)
    ensures Matches(ServerUrlPattern(), s)
  {
    var i := HttpUrlSplit(s);
    SchemeGroupAccepts(s[..i]);
    ServerUrlRestComplete(s[i..]);
    CatJoin(SchemeGroup(), ServerUrlRest(), s, i);
  }

  /** The server_url pattern accepts exactly the `http://` and `https://` strings without a line feed. */
  lemma ServerUrlPatternIsHttpUrl(s: string)
    ensures Matches(ServerUrlPattern(), s) <==> IsHttpUrl(s)
  {
    if Matches(ServerUrlPattern(), s) {
      ServerUrlPatternSound(s);
    }
    if IsHttpUrl(s) {
      ServerUrlPatternComplete(s);
    }
  }
}
