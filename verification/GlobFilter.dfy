/** Monorepo path filters (src/lib/server/deploy/hook.ts): a glob is compiled to the text of
    a regular expression, which is then parsed and run on the path. */
module GlobFilter {
  import opened Strings
  import opened Regex

  // ----- what a filter means, on path segments -----

  /** One segment against one segment; `*` is any run of characters. */
  predicate WildMatch(f: string, p: string)
    decreases |f|, |p|
  {
    if f == "" then p == ""
    else if f[0] == '*' then WildMatch(f[1..], p) || (p != "" && WildMatch(f, p[1..]))
    else p != "" && p[0] == f[0] && WildMatch(f[1..], p[1..])
  }

  predicate AllOneLine(ps: seq<string>) {
    forall k :: 0 <= k < |ps| ==> OneLine(ps[k])
  }

  predicate SlashFree(ps: seq<string>) {
    forall k :: 0 <= k < |ps| ==> '/' !in ps[k]
  }

  /** Segments against segments. A middle `**` stands for zero or more non-empty segments; a
      final `**` for any non-empty list of segments, which `multiline` allows to contain
      line terminators. */
  predicate SegsMatch(fs: seq<string>, ps: seq<string>, multiline: bool)
    requires |fs| >= 1
    decreases |fs|, |ps|
  {
    if |fs| == 1 then
      if fs[0] == "**" then |ps| >= 1 && (multiline || AllOneLine(ps))
      else |ps| == 1 && WildMatch(fs[0], ps[0])
    else if fs[0] == "**" then
      SegsMatch(fs[1..], ps, multiline)
      || (|ps| >= 2 && ps[0] != "" && SegsMatch(fs, ps[1..], multiline))
    else |ps| >= 2 && WildMatch(fs[0], ps[0]) && SegsMatch(fs[1..], ps[1..], multiline)
  }

  // ----- the compiler -----

  // The first replacement: every metacharacter except the star gets a backslash.
  function EscapeMeta(s: string): string {
    if s == "" then ""
    else
      (if s[0] in {'.', '+', '?', '^', '$', '{', '}', '(', ')', '|', '[', ']', '\\'}
       then ['\\', s[0]] else [s[0]])
      + EscapeMeta(s[1..])
  }

  // The second replacement: every star becomes the one-segment wildcard.
  function ExpandStars(s: string): string {
    if s == "" then ""
    else (if s[0] == '*' then "[^/]*" else [s[0]]) + ExpandStars(s[1..])
  }

  function SegmentText(seg: string): string {
    ExpandStars(EscapeMeta(seg))
  }

  /** The text of one segment, without the slash before it. */
  function Body(segs: seq<string>, i: nat): string
    requires i < |segs|
  {
    if segs[i] == "**" then (if i == |segs| - 1 then ".*" else "(?:[^/]+/)*")
    else SegmentText(segs[i])
  }

  /** What loop iteration `i` appends to the pattern. */
  function Emitted(segs: seq<string>, i: nat): string
    requires i < |segs|
  {
    (if i > 0 && segs[i - 1] != "**" then "/" else "") + Body(segs, i)
  }

  /** What iterations `i` and later append. */
  function EmittedFrom(segs: seq<string>, i: nat): string
    requires i <= |segs|
    decreases |segs| - i
  {
    if i == |segs| then "" else Emitted(segs, i) + EmittedFrom(segs, i + 1)
  }

  function PatternText(filter: string): string {
    "^" + EmittedFrom(Split(filter, '/'), 0) + "$"
  }

  method CompilePattern(filter: string) returns (re: string)
    ensures re == PatternText(filter)
  {
    var segs := Split(filter, '/');
    re := "^";
    var i := 0;
    ghost var full := re + EmittedFrom(segs, 0);
    while i < |segs|
      invariant 0 <= i <= |segs|
      invariant re + EmittedFrom(segs, i) == full
    {
      ghost var before := re;
      var slash := if i > 0 && segs[i - 1] != "**" then "/" else "";
      re := re + slash;
      var seg := segs[i];
      var text := if seg == "**" then (if i == |segs| - 1 then ".*" else "(?:[^/]+/)*")
                  else SegmentText(seg);
      re := re + text;
      Assoc(before, slash, text);
      Assoc(before, Emitted(segs, i), EmittedFrom(segs, i + 1));
      i := i + 1;
    }
    assert re + EmittedFrom(segs, i) == re;
    re := re + "$";
  }

  // ----- the pattern text parses to the intended expression -----

  function Term(c: char): Re {
    if c == '*' then Star(NotChr('/')) else Chr(c)
  }

  /** The parsed form of one segment, followed by `k`. */
  function SegmentRe(seg: string, k: Re): Re {
    if seg == "" then k
    else Cat(Term(seg[0]), SegmentRe(seg[1..], k))
  }

  /** `[^/]+/` */
  const DIR: Re := Cat(Cat(NotChr('/'), Star(NotChr('/'))), Cat(Chr('/'), Eps))

  function FilterRe(fs: seq<string>): Re
    requires |fs| >= 1
  {
    if |fs| == 1 then (if fs[0] == "**" then Cat(Star(Dot), Eps) else SegmentRe(fs[0], Eps))
    else if fs[0] == "**" then Cat(Star(DIR), FilterRe(fs[1..]))
    else SegmentRe(fs[0], Cat(Chr('/'), FilterRe(fs[1..])))
  }

  /** The text of one character of a segment. */
  function Piece(c: char): string {
    if c == '*' then "[^/]*" else if c in SYNTAX_CHARACTERS then ['\\', c] else [c]
  }

  lemma SegmentTextCons(c: char, rest: string)
    ensures SegmentText([c] + rest) == Piece(c) + SegmentText(rest)
  {
    assert ([c] + rest)[1..] == rest;
    var e := EscapeMeta(rest);
    assert ([c] + e)[1..] == e;
    if c in SYNTAX_CHARACTERS && c != '*' {
      assert EscapeMeta([c] + rest) == ['\\', c] + e;
      assert (['\\', c] + e)[1..] == [c] + e;
      assert ExpandStars(['\\', c] + e) == ['\\'] + ([c] + ExpandStars(e));
    }
  }

  // A term without a quantifier, and a starred term.
  lemma ParsePlain(t: string, atom: Re, q: string)
    requires t != "" && t[0] !in {')', '$'} && ParseAtom(t) == Parsed(atom, q)
    requires q == "" || q[0] !in {'*', '+'}
    ensures ParseTerms(t) == match ParseTerms(q)
                             case Malformed => Malformed
                             case Parsed(k, rest) => Parsed(Cat(atom, k), rest)
  {}

  lemma ParseStarred(t: string, atom: Re, q: string)
    requires t != "" && t[0] !in {')', '$'} && ParseAtom(t) == Parsed(atom, ['*'] + q)
    ensures ParseTerms(t) == match ParseTerms(q)
                             case Malformed => Malformed
                             case Parsed(k, rest) => Parsed(Cat(Star(atom), k), rest)
  {
    assert (['*'] + q)[1..] == q;
  }

  predicate NoQuantifier(p: string) {
    p != "" && p[0] != '*' && p[0] != '+'
  }

  lemma NoQuantifierAhead(seg: string, p: string)
    requires NoQuantifier(p)
    ensures NoQuantifier(SegmentText(seg) + p)
  {
    if seg != "" {
      assert seg == [seg[0]] + seg[1..];
      SegmentTextCons(seg[0], seg[1..]);
    } else {
      assert SegmentText(seg) + p == p;
    }
  }

  /** One character of a segment. */
  lemma ParsePiece(c: char, q: string)
    requires NoQuantifier(q)
    ensures ParseTerms(Piece(c) + q)
         == match ParseTerms(q)
            case Malformed => Malformed
            case Parsed(k, rest) => Parsed(Cat(Term(c), k), rest)
  {
    var t := Piece(c) + q;
    if c == '*' {
      assert t[4..] == ['*'] + q;
      ParseStarred(t, NotChr('/'), q);
    } else if c in SYNTAX_CHARACTERS {
      assert t[2..] == q;
      ParsePlain(t, Chr(c), q);
    } else {
      assert t[1..] == q;
      ParsePlain(t, Chr(c), q);
    }
  }

  /** Reading a segment's text yields the segment's terms, whatever follows it, as long as
      what follows is not a quantifier for its last character. */
  lemma {:induction false} ParseSegment(seg: string, p: string)
    requires NoQuantifier(p)
    ensures ParseTerms(SegmentText(seg) + p)
         == match ParseTerms(p)
            case Malformed => Malformed
            case Parsed(k, rest) => Parsed(SegmentRe(seg, k), rest)
    decreases |seg|
  {
    if seg == "" {
      assert SegmentText(seg) + p == p;
    } else {
      assert seg == [seg[0]] + seg[1..];
      SegmentTextCons(seg[0], seg[1..]);
      NoQuantifierAhead(seg[1..], p);
      ParsePiece(seg[0], SegmentText(seg[1..]) + p);
      Assoc(Piece(seg[0]), SegmentText(seg[1..]), p);
      ParseSegment(seg[1..], p);
    }
  }

  lemma ParseDirBody(close: string)
    requires close != "" && close[0] == ')'
    ensures ParseTerms("[^/]+" + ("/" + close)) == Parsed(DIR, close)
  {
    var slash := "/" + close;
    assert slash[1..] == close;
    assert ParseTerms(close) == Parsed(Eps, close);
    ParsePlain(slash, Chr('/'), close);
    var inner := "[^/]+" + slash;
    assert inner[4..] == ['+'] + slash;
    assert (['+'] + slash)[1..] == slash;
  }

  lemma ParseGroup(inner: string, body: Re, p: string)
    requires ParseTerms(inner) == Parsed(body, ")*" + p)
    ensures ParseTerms("(?:" + inner)
         == match ParseTerms(p)
            case Malformed => Malformed
            case Parsed(k, rest) => Parsed(Cat(Star(body), k), rest)
  {
    var t := "(?:" + inner;
    assert t[0] == '(' && t[1] == '?' && t[2] == ':' && t[3..] == inner;
    assert (")*" + p)[1..] == ['*'] + p;
    assert ParseAtom(t) == Parsed(body, ['*'] + p);
    ParseStarred(t, body, p);
  }

  lemma ParseDir(p: string)
    ensures ParseTerms("(?:[^/]+/)*" + p)
         == match ParseTerms(p)
            case Malformed => Malformed
            case Parsed(k, rest) => Parsed(Cat(Star(DIR), k), rest)
  {
    var inner := "[^/]+" + ("/" + (")*" + p));
    ParseDirBody(")*" + p);
    ParseGroup(inner, DIR, p);
    assert "(?:[^/]+/)*" + p == "(?:" + inner;
  }

  lemma ParseTail(p: string)
    requires p == ".*$"
    ensures ParseTerms(p) == Parsed(Cat(Star(Dot), Eps), "$")
  {
    assert p[1..] == ['*'] + "$";
    ParseStarred(p, Dot, "$");
  }

  /** The pattern text from a segment boundary on, once the slash before it is out. */
  function BoundaryText(segs: seq<string>, i: nat): string
    requires i < |segs|
    decreases |segs| - i
  {
    Body(segs, i)
    + if i == |segs| - 1 then "$"
      else (if segs[i] == "**" then "" else "/") + BoundaryText(segs, i + 1)
  }

  lemma {:induction false} BoundaryTextIsEmitted(segs: seq<string>, i: nat)
    requires i < |segs|
    ensures EmittedFrom(segs, i) + "$"
         == (if i > 0 && segs[i - 1] != "**" then "/" else "") + BoundaryText(segs, i)
    decreases |segs| - i
  {
    var slash := if i > 0 && segs[i - 1] != "**" then "/" else "";
    var body := Body(segs, i);
    Assoc(slash + body, EmittedFrom(segs, i + 1), "$");
    Assoc(slash, body, EmittedFrom(segs, i + 1) + "$");
    if i == |segs| - 1 {
      assert EmittedFrom(segs, i + 1) + "$" == "$";
    } else {
      BoundaryTextIsEmitted(segs, i + 1);
    }
  }

  lemma ParseLast(segs: seq<string>, i: nat)
    requires i == |segs| - 1
    ensures NoQuantifier(BoundaryText(segs, i))
    ensures ParseTerms(BoundaryText(segs, i)) == Parsed(FilterRe(segs[i..]), "$")
  {
    assert segs[i..] == [segs[i]];
    assert ParseTerms("$") == Parsed(Eps, "$");
    if segs[i] == "**" {
      ParseTail(BoundaryText(segs, i));
    } else {
      NoQuantifierAhead(segs[i], "$");
      ParseSegment(segs[i], "$");
    }
  }

  lemma ParseSlash(p: string, k: Re)
    requires NoQuantifier(p) && ParseTerms(p) == Parsed(k, "$")
    ensures NoQuantifier("/" + p) && ParseTerms("/" + p) == Parsed(Cat(Chr('/'), k), "$")
  {
    assert ("/" + p)[1..] == p;
    ParsePlain("/" + p, Chr('/'), p);
  }

  /** From any segment boundary the rest of the pattern parses to the rest of the filter. */
  lemma {:induction false} ParseFilter(segs: seq<string>, i: nat)
    requires i < |segs|
    ensures NoQuantifier(BoundaryText(segs, i))
    ensures ParseTerms(BoundaryText(segs, i)) == Parsed(FilterRe(segs[i..]), "$")
    decreases |segs| - i
  {
    if i == |segs| - 1 {
      ParseLast(segs, i);
    } else {
      ParseFilter(segs, i + 1);
      assert segs[i..][1..] == segs[i + 1..];
      var next := BoundaryText(segs, i + 1);
      if segs[i] == "**" {
        assert "" + next == next;
        ParseDir(next);
      } else {
        ParseSlash(next, FilterRe(segs[i + 1..]));
        NoQuantifierAhead(segs[i], "/" + next);
        ParseSegment(segs[i], "/" + next);
      }
    }
  }

  /** The compiler never produces a pattern that `new RegExp` rejects, and the pattern it
      produces is the filter's expression. */
  lemma PatternParses(filter: string)
    ensures NewRegExp(PatternText(filter)) == Compiled(FilterRe(Split(filter, '/')))
  {
    var segs := Split(filter, '/');
    ParseFilter(segs, 0);
    assert segs[0..] == segs;
    BoundaryTextIsEmitted(segs, 0);
    assert "" + BoundaryText(segs, 0) == BoundaryText(segs, 0);
    Assoc("^", EmittedFrom(segs, 0), "$");
    assert PatternText(filter)[1..] == BoundaryText(segs, 0);
  }

  // ----- the expression means what the filter means -----

  lemma {:induction false} WildStarTakes(f: string, t: string, j: nat)
    requires f != "" && f[0] == '*' && j <= |t| && WildMatch(f[1..], t[j..])
    ensures WildMatch(f, t)
    decreases j
  {
    if j == 0 {
      assert t[0..] == t;
    } else {
      assert t[1..][j - 1..] == t[j..];
      WildStarTakes(f, t[1..], j - 1);
    }
  }

  lemma {:induction false} WildStarTook(f: string, t: string) returns (j: nat)
    requires f != "" && f[0] == '*' && WildMatch(f, t)
    ensures j <= |t| && WildMatch(f[1..], t[j..])
    decreases |t|
  {
    if WildMatch(f[1..], t) {
      j := 0;
      assert t[0..] == t;
    } else {
      var j' := WildStarTook(f, t[1..]);
      j := j' + 1;
      assert t[1..][j'..] == t[j..];
    }
  }

  lemma StarGlue(f: string, u: string, v: string)
    requires f != "" && f[0] == '*' && WildMatch(f[1..], v)
    ensures WildMatch(f, u + v)
  {
    assert (u + v)[|u|..] == v;
    WildStarTakes(f, u + v, |u|);
  }

  lemma TermConsumes(f: string, x: string, y: string)
    requires f != "" && f[0] != '/' && Matches(Term(f[0]), x) && WildMatch(f[1..], y)
    ensures '/' !in x && WildMatch(f, x + y)
  {
    if f[0] == '*' {
      StarNotChr('/', x);
      StarGlue(f, x, y);
    } else {
      assert (x + y)[1..] == y;
    }
  }

  lemma TermAccepts(f: string, u: string) returns (x: string, y: string)
    requires f != "" && WildMatch(f, u) && '/' !in u
    ensures u == x + y && Matches(Term(f[0]), x) && WildMatch(f[1..], y)
  {
    var j := 1;
    if f[0] == '*' {
      j := WildStarTook(f, u);
      StarNotChr('/', u[..j]);
    } else {
      assert u[..1] == [f[0]];
    }
    x, y := u[..j], u[j..];
  }

  /** One segment's terms consume a slash-free stretch that the segment matches... */
  lemma {:induction false} SegmentReConsumes(f: string, k: Re, s: string) returns (u: string, v: string)
    requires '/' !in f && Matches(SegmentRe(f, k), s)
    ensures s == u + v && '/' !in u && WildMatch(f, u) && Matches(k, v)
    decreases |f|
  {
    if f == "" {
      u, v := "", s;
    } else {
      var x, y := CatParts(Term(f[0]), SegmentRe(f[1..], k), s);
      var u', v' := SegmentReConsumes(f[1..], k, y);
      TermConsumes(f, x, u');
      u, v := x + u', v';
      Assoc(x, u', v');
    }
  }

  /** ... and every such stretch is one they can consume. */
  lemma {:induction false} SegmentReAccepts(f: string, k: Re, u: string, v: string)
    requires '/' !in f && '/' !in u && WildMatch(f, u) && Matches(k, v)
    ensures Matches(SegmentRe(f, k), u + v)
    decreases |f|
  {
    if f == "" {
      assert u + v == v;
    } else {
      var x, y := TermAccepts(f, u);
      SegmentReAccepts(f[1..], k, y, v);
      CatOf(Term(f[0]), SegmentRe(f[1..], k), x, y + v);
      Assoc(x, y, v);
    }
  }

  /** `[^/]+/` matches a non-empty name and its slash. */
  lemma DirMatches(s: string)
    ensures Matches(DIR, s) <==> |s| >= 2 && s[|s| - 1] == '/' && '/' !in s[..|s| - 1]
  {
    var name, slash := Cat(NotChr('/'), Star(NotChr('/'))), Cat(Chr('/'), Eps);
    if Matches(DIR, s) {
      var u, v := CatParts(name, slash, s);
      NameMatches(u);
      CatEps(Chr('/'), v);
      assert s[..|s| - 1] == u;
    }
    if |s| >= 2 && s[|s| - 1] == '/' && '/' !in s[..|s| - 1] {
      var u := s[..|s| - 1];
      NameMatches(u);
      CatEps(Chr('/'), ['/']);
      CatOf(name, slash, u, ['/']);
      assert s == u + ['/'];
    }
  }

  lemma NameMatches(t: string)
    ensures Matches(Cat(NotChr('/'), Star(NotChr('/'))), t) <==> t != "" && '/' !in t
  {
    if Matches(Cat(NotChr('/'), Star(NotChr('/'))), t) {
      var u, v := CatParts(NotChr('/'), Star(NotChr('/')), t);
      StarNotChr('/', v);
    }
    if t != "" && '/' !in t {
      StarNotChr('/', t[1..]);
      CatOf(NotChr('/'), Star(NotChr('/')), [t[0]], t[1..]);
      assert t == [t[0]] + t[1..];
    }
  }

  /** A middle `**` skips no directory, or it skips the first one and goes on. */
  lemma SkipNone(k: Re, s: string)
    requires Matches(k, s)
    ensures Matches(Cat(Star(DIR), k), s)
  {
    CatOf(Star(DIR), k, "", s);
    assert "" + s == s;
  }

  lemma SkipFirst(k: Re, name: string, s: string)
    requires name != "" && '/' !in name && Matches(Cat(Star(DIR), k), s)
    ensures Matches(Cat(Star(DIR), k), name + "/" + s)
  {
    var d := name + "/";
    assert d[..|d| - 1] == name;
    DirMatches(d);
    var u, v := CatParts(Star(DIR), k, s);
    StarOf(DIR, d, u);
    CatOf(Star(DIR), k, d + u, v);
    Assoc(d, u, v);
  }

  lemma Skipped(k: Re, s: string) returns (name: string, rest: string)
    requires Matches(Cat(Star(DIR), k), s) && !Matches(k, s)
    ensures name != "" && '/' !in name && s == name + "/" + rest
    ensures Matches(Cat(Star(DIR), k), rest)
  {
    var u, v := CatParts(Star(DIR), k, s);
    assert "" + v == v;
    var d, u' := StarParts(DIR, u);
    DirMatches(d);
    name, rest := d[..|d| - 1], u' + v;
    assert d == name + "/";
    Assoc(d, u', v);
    CatOf(Star(DIR), k, u', v);
  }

  /** The expression of a filter accepts exactly the paths whose segments the filter matches
      (a final `**` stays within one line, because `.` does). */
  lemma {:induction false} FilterReMeans(fs: seq<string>, s: string)
    requires |fs| >= 1 && SlashFree(fs)
    ensures Matches(FilterRe(fs), s) <==> SegsMatch(fs, Split(s, '/'), false)
    decreases |fs|, |s|
  {
    if |fs| == 1 && fs[0] == "**" {
      LastDoubleStar(s);
    } else if |fs| == 1 {
      LastSegment(fs[0], s);
    } else if fs[0] == "**" {
      MiddleDoubleStar(fs, s);
    } else {
      MiddleSegment(fs, s);
    }
  }

  lemma LastDoubleStar(s: string)
    ensures Matches(Cat(Star(Dot), Eps), s) <==> SegsMatch(["**"], Split(s, '/'), false)
  {
    CatEps(Star(Dot), s);
    StarDot(s);
    OneLineSplit(s);
  }

  lemma OneLineConcat(a: string, b: string)
    ensures OneLine(a + "/" + b) <==> OneLine(a) && OneLine(b)
  {
    var s := a + "/" + b;
    assert s[..|a|] == a && s[|a| + 1..] == b;
    if OneLine(s) {
      assert forall k :: 0 <= k < |a| ==> a[k] == s[k];
      assert forall k :: 0 <= k < |b| ==> b[k] == s[|a| + 1 + k];
    }
  }

  lemma {:induction false} OneLineSplit(s: string)
    ensures OneLine(s) <==> AllOneLine(Split(s, '/'))
    decreases |s|
  {
    var i := FirstPart(s, '/');
    if i < |s| {
      var head, tail := s[..i], s[i + 1..];
      OneLineSplit(tail);
      OneLineConcat(head, tail);
      assert s == head + "/" + tail;
      var ps := Split(tail, '/');
      assert Split(s, '/') == [head] + ps;
      assert ([head] + ps)[0] == head;
      assert forall k :: 0 <= k < |ps| ==> ([head] + ps)[k + 1] == ps[k];
    } else {
      assert Split(s, '/') == [s] && [s][0] == s;
    }
  }

  lemma LastSegment(f: string, s: string)
    requires '/' !in f && f != "**"
    ensures Matches(SegmentRe(f, Eps), s) <==> SegsMatch([f], Split(s, '/'), false)
  {
    if Matches(SegmentRe(f, Eps), s) {
      var u, v := SegmentReConsumes(f, Eps, s);
      assert u == s;
      SplitWhole(s, '/');
    }
    var i := FirstPart(s, '/');
    if i == |s| && WildMatch(f, s) {
      assert s[..i] == s;
      SegmentReAccepts(f, Eps, s, "");
      assert s + "" == s;
    }
  }

  lemma MiddleSegment(fs: seq<string>, s: string)
    requires |fs| >= 2 && fs[0] != "**" && SlashFree(fs)
    ensures Matches(FilterRe(fs), s) <==> SegsMatch(fs, Split(s, '/'), false)
    decreases |fs|, |s|, 0
  {
    var i := FirstPart(s, '/');
    if i < |s| {
      assert Split(s, '/')[1..] == Split(s[i + 1..], '/');
      FilterReMeans(fs[1..], s[i + 1..]);
    }
    SegmentThenSlash(fs[0], FilterRe(fs[1..]), s, i);
  }

  /** A segment and a slash are consumed at the first slash of the path, or not at all. */
  lemma SegmentThenSlash(f: string, k: Re, s: string, i: nat)
    requires '/' !in f && i <= |s| && '/' !in s[..i] && (i < |s| ==> s[i] == '/')
    ensures Matches(SegmentRe(f, Cat(Chr('/'), k)), s)
       <==> i < |s| && WildMatch(f, s[..i]) && Matches(k, s[i + 1..])
  {
    if Matches(SegmentRe(f, Cat(Chr('/'), k)), s) {
      SegmentSlashConsumed(f, k, s, i);
    }
    if i < |s| && WildMatch(f, s[..i]) && Matches(k, s[i + 1..]) {
      assert s[i..][1..] == s[i + 1..];
      CatChr('/', k, s[i..]);
      SegmentReAccepts(f, Cat(Chr('/'), k), s[..i], s[i..]);
      assert s[..i] + s[i..] == s;
    }
  }

  lemma SegmentSlashConsumed(f: string, k: Re, s: string, i: nat)
    requires '/' !in f && i <= |s| && '/' !in s[..i] && (i < |s| ==> s[i] == '/')
    requires Matches(SegmentRe(f, Cat(Chr('/'), k)), s)
    ensures i < |s| && WildMatch(f, s[..i]) && Matches(k, s[i + 1..])
  {
    var u, v := SegmentReConsumes(f, Cat(Chr('/'), k), s);
    CatChr('/', k, v);
    assert v == "/" + v[1..];
    Assoc(u, "/", v[1..]);
    SameCut(u, v[1..], s, i);
    assert s[..i] == u;
  }

  lemma MiddleDoubleStar(fs: seq<string>, s: string)
    requires |fs| >= 2 && fs[0] == "**" && SlashFree(fs)
    ensures Matches(FilterRe(fs), s) <==> SegsMatch(fs, Split(s, '/'), false)
    decreases |fs|, |s|, 0
  {
    var k := FilterRe(fs[1..]);
    FilterReMeans(fs[1..], s);
    if Matches(k, s) {
      SkipNone(k, s);
    } else {
      var i := FirstPart(s, '/');
      if 0 < i < |s| {
        FilterReMeans(fs, s[i + 1..]);
      }
      StarDirUnfolds(k, s, i);
      assert i < |s| ==> Split(s, '/')[1..] == Split(s[i + 1..], '/');
    }
  }

  /** A string has one cut at its first slash. */
  lemma SameCut(name: string, rest: string, s: string, i: nat)
    requires s == name + "/" + rest && '/' !in name
    requires i <= |s| && '/' !in s[..i] && (i < |s| ==> s[i] == '/')
    ensures |name| == i && rest == s[i + 1..]
  {
    assert s[|name|] == '/' && forall k :: 0 <= k < |name| ==> s[k] == name[k];
    assert forall k :: 0 <= k < i ==> s[k] == s[..i][k];
  }

  /** Past the directories it may skip, `Star(DIR)` has either stopped or taken the first one. */
  lemma StarDirUnfolds(k: Re, s: string, i: nat)
    requires i <= |s| && '/' !in s[..i] && (i < |s| ==> s[i] == '/') && !Matches(k, s)
    ensures Matches(Cat(Star(DIR), k), s) <==> 0 < i < |s| && Matches(Cat(Star(DIR), k), s[i + 1..])
  {
    if Matches(Cat(Star(DIR), k), s) {
      var name, rest := Skipped(k, s);
      SameCut(name, rest, s, i);
    } else if 0 < i < |s| && Matches(Cat(Star(DIR), k), s[i + 1..]) {
      assert s == s[..i] + "/" + s[i + 1..];
      SkipFirst(k, s[..i], s[i + 1..]);
    }
  }

  // ----- the whole filter -----

  /** The path names the filter's file, or lies below the filter's directory. */
  predicate AtOrBelow(fs: seq<string>, ps: seq<string>)
    requires |fs| >= 1
  {
    if |fs| > 1 && fs[|fs| - 1] == "" then fs[..|fs| - 1] < ps else fs <= ps
  }

  /** What the documentation of the filter promises for any path. */
  predicate Documented(filter: string, path: string) {
    if '*' in filter then SegsMatch(Split(filter, '/'), Split(path, '/'), true)
    else AtOrBelow(Split(filter, '/'), Split(path, '/'))
  }

  /** What the compiled filter accepts: the documented meaning, except that a final `**`
      stops at a line terminator. */
  predicate Accepts(filter: string, path: string) {
    if '*' in filter then SegsMatch(Split(filter, '/'), Split(path, '/'), false)
    else AtOrBelow(Split(filter, '/'), Split(path, '/'))
  }

  method GlobMatch(filter: string, path: string) returns (matched: bool)
    ensures matched <==> Accepts(filter, path)
  {
    if '*' !in filter {
      var dir := DirectoryOf(filter);
      matched := path == filter || dir <= path;
      PlainFilterMeans(filter, path);
    } else {
      var re := CompilePattern(filter);
      PatternParses(filter);
      matched := Matches(NewRegExp(re).re, path);
      FilterReMeans(Split(filter, '/'), path);
    }
  }

  function DirectoryOf(filter: string): string {
    if filter != "" && filter[|filter| - 1] == '/' then filter else filter + "/"
  }

  lemma PlainFilterMeans(filter: string, path: string)
    ensures path == filter || DirectoryOf(filter) <= path
       <==> AtOrBelow(Split(filter, '/'), Split(path, '/'))
  {
    if filter != "" && filter[|filter| - 1] == '/' {
      var dir := filter[..|filter| - 1];
      assert filter == dir + "/";
      DirectoryFilter(dir, path);
    } else {
      FileFilter(filter, path);
    }
  }

  lemma FileFilter(filter: string, path: string)
    requires filter == "" || filter[|filter| - 1] != '/'
    ensures path == filter || filter + "/" <= path
       <==> AtOrBelow(Split(filter, '/'), Split(path, '/'))
  {
    var fs, ps := Split(filter, '/'), Split(path, '/');
    PrefixParts(filter, path, '/');
    JoinOfSplit(filter, '/');
    JoinOfSplit(path, '/');
    if |fs| > 1 && fs[|fs| - 1] == "" { LastPartEmpty(filter); }
    assert AtOrBelow(fs, ps) <==> fs <= ps;
    assert fs <= ps <==> fs == ps || fs < ps;
  }

  lemma DirectoryFilter(dir: string, path: string)
    ensures path == dir + "/" || dir + "/" <= path
       <==> AtOrBelow(Split(dir + "/", '/'), Split(path, '/'))
  {
    SplitConcat(dir, "", '/');
    assert dir + "/" + "" == dir + "/";
    assert Split(dir + "/", '/') == Split(dir, '/') + [""];
    PrefixParts(dir, path, '/');
  }

  lemma {:induction false} LastPartEmpty(s: string)
    requires |Split(s, '/')| > 1 && Split(s, '/')[|Split(s, '/')| - 1] == ""
    ensures s != "" && s[|s| - 1] == '/'
    decreases |s|
  {
    var i := FirstPart(s, '/');
    var tail := s[i + 1..];
    if |Split(tail, '/')| == 1 {
      var j := FirstPart(tail, '/');
      assert tail == "";
    } else {
      LastPartEmpty(tail);
    }
  }

  /** Without line terminators the two readings of a final `**` coincide. */
  lemma {:induction false} LineTerminatorsOnly(fs: seq<string>, ps: seq<string>)
    requires |fs| >= 1
    requires fs[|fs| - 1] != "**" || AllOneLine(ps)
    ensures SegsMatch(fs, ps, false) <==> SegsMatch(fs, ps, true)
    decreases |fs|, |ps|
  {
    if |fs| > 1 {
      LineTerminatorsOnly(fs[1..], ps);
      if ps != [] {
        LineTerminatorsOnly(fs[1..], ps[1..]);
        LineTerminatorsOnly(fs, ps[1..]);
      }
    }
  }

  lemma {:induction false} FinalDoubleStarIsOneLine(fs: seq<string>, ps: seq<string>)
    requires |fs| >= 1 && fs[|fs| - 1] == "**" && SegsMatch(fs, ps, false)
    ensures |ps| >= 1 && OneLine(ps[|ps| - 1])
    decreases |fs|, |ps|
  {
    if |fs| > 1 {
      if fs[0] == "**" && SegsMatch(fs[1..], ps, false) {
        FinalDoubleStarIsOneLine(fs[1..], ps);
      } else if fs[0] == "**" {
        FinalDoubleStarIsOneLine(fs, ps[1..]);
      } else {
        FinalDoubleStarIsOneLine(fs[1..], ps[1..]);
      }
    }
  }

  /** A path that a filter ending in `**` is documented to match: every other segment taken
      literally, then a segment holding one newline. */
  function NewlineBelow(fs: seq<string>): seq<string>
    requires |fs| >= 1
  {
    if |fs| == 1 then ["\n"]
    else (if fs[0] == "**" then [] else [fs[0]]) + NewlineBelow(fs[1..])
  }

  lemma {:induction false} WildMatchesItself(f: string)
    ensures WildMatch(f, f)
    decreases |f|
  {
    if f != "" {
      WildMatchesItself(f[1..]);
      if f[0] == '*' { WildStarTakes(f, f, 1); }
    }
  }

  lemma LiteralSegment(fs: seq<string>, ps: seq<string>)
    requires |fs| >= 2 && fs[0] != "**" && |ps| >= 1 && SegsMatch(fs[1..], ps, true)
    ensures SegsMatch(fs, [fs[0]] + ps, true)
  {
    WildMatchesItself(fs[0]);
    assert ([fs[0]] + ps)[1..] == ps;
  }

  lemma {:induction false} NewlineBelowMatches(fs: seq<string>)
    requires |fs| >= 1 && fs[|fs| - 1] == "**" && SlashFree(fs)
    ensures var ps := NewlineBelow(fs);
            |ps| >= 1 && ps[|ps| - 1] == "\n" && SegsMatch(fs, ps, true)
            && SlashFree(ps)
    decreases |fs|
  {
    if |fs| > 1 {
      NewlineBelowMatches(fs[1..]);
      var rest := NewlineBelow(fs[1..]);
      if fs[0] == "**" {
        assert [] + rest == rest;
      } else {
        LiteralSegment(fs, rest);
      }
    }
  }

  lemma NewlineBelowStaysOut(fs: seq<string>)
    requires |fs| >= 1 && fs[|fs| - 1] == "**" && SlashFree(fs)
    ensures !SegsMatch(fs, NewlineBelow(fs), false)
  {
    NewlineBelowMatches(fs);
    assert "\n"[0] == '\n' && !OneLine("\n");
    if SegsMatch(fs, NewlineBelow(fs), false) {
      FinalDoubleStarIsOneLine(fs, NewlineBelow(fs));
    }
  }

  /** A path without line terminators is accepted exactly when the documentation says so. */
  lemma AcceptsAsDocumented(filter: string, path: string)
    requires OneLine(path)
    ensures Accepts(filter, path) <==> Documented(filter, path)
  {
    OneLineSplit(path);
    LineTerminatorsOnly(Split(filter, '/'), Split(path, '/'));
  }

  /** A filter does what is documented on every path, line terminators included, exactly when
      its last segment is not `**`. */
  lemma DocumentedOnAllPaths(filter: string)
    ensures (forall path: string :: Accepts(filter, path) <==> Documented(filter, path))
       <==> Split(filter, '/')[|Split(filter, '/')| - 1] != "**"
  {
    var fs := Split(filter, '/');
    if fs[|fs| - 1] != "**" {
      forall path: string ensures Accepts(filter, path) <==> Documented(filter, path) {
        LineTerminatorsOnly(fs, Split(path, '/'));
      }
    } else {
      var path := NewlineBelowRejected(filter);
    }
  }

  lemma NewlineBelowRejected(filter: string) returns (path: string)
    requires Split(filter, '/')[|Split(filter, '/')| - 1] == "**"
    ensures Documented(filter, path) && !Accepts(filter, path)
  {
    var fs := Split(filter, '/');
    StarsComeFromFilter(filter, |fs| - 1);
    NewlineBelowMatches(fs);
    var ps := NewlineBelow(fs);
    path := Join(ps, '/');
    SplitOfJoin(ps, '/');
    NewlineBelowStaysOut(fs);
  }

  lemma {:induction false} StarsComeFromFilter(s: string, k: nat)
    requires k < |Split(s, '/')| && '*' in Split(s, '/')[k]
    ensures '*' in s
    decreases |s|
  {
    var i := FirstPart(s, '/');
    if i < |s| && k > 0 {
      StarsComeFromFilter(s[i + 1..], k - 1);
    }
  }

  /** `pathsMatch`: no touched paths, or some filter accepts some path. */
  method PathsMatch(filters: seq<string>, touched: seq<string>) returns (deploy: bool)
    ensures deploy <==> (touched == []
                         || exists i, j :: 0 <= i < |touched| && 0 <= j < |filters| && Accepts(filters[j], touched[i]))
  {
    if |touched| == 0 { return true; }
    for i := 0 to |touched|
      invariant forall i', j :: 0 <= i' < i && 0 <= j < |filters| ==> !Accepts(filters[j], touched[i'])
    {
      for j := 0 to |filters|
        invariant forall j' :: 0 <= j' < j ==> !Accepts(filters[j'], touched[i])
      {
        var matched := GlobMatch(filters[j], touched[i]);
        if matched { return true; }
      }
    }
    return false;
  }
}
