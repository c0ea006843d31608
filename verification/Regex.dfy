/** The fragment of ECMAScript regular expressions that the path filter emits: its concrete
    syntax (a parser) and its meaning (a matching relation). Nothing here knows about globs. */
module Regex {

  datatype Re =
    | Eps                          // the empty alternative
    | Chr(c: char)                 // one given character
    | NotChr(c: char)              // [^c]
    | Dot                          // . without the s flag
    | Cat(left: Re, right: Re)
    | Star(body: Re)               // body*

  /** ECMAScript SyntaxCharacter: these never stand for themselves unless escaped. */
  const SYNTAX_CHARACTERS: set<char> :=
    {'^', '$', '\\', '.', '*', '+', '?', '(', ')', '[', ']', '{', '}', '|'}

  /** ECMAScript LineTerminator: what `.` does not match. */
  const LINE_TERMINATORS: set<char> := {'\n', '\r', '\U{2028}', '\U{2029}'}

  predicate OneLine(s: string) {
    forall k :: 0 <= k < |s| ==> s[k] !in LINE_TERMINATORS
  }

  /** `r` matches the whole of `s`. */
  predicate Matches(r: Re, s: string)
    decreases r, |s|
  {
    match r
    case Eps => s == ""
    case Chr(c) => s == [c]
    case NotChr(c) => |s| == 1 && s[0] != c
    case Dot => |s| == 1 && s[0] !in LINE_TERMINATORS
    case Cat(a, b) => exists i :: 0 <= i <= |s| && Matches(a, s[..i]) && Matches(b, s[i..])
    case Star(a) => s == "" || exists i :: 1 <= i <= |s| && Matches(a, s[..i]) && Matches(r, s[i..])
  }

  datatype Parsed = Parsed(re: Re, rest: string) | Malformed

  /** Terms up to the end of the text, an unescaped `$` or the `)` of the enclosing group. */
  function ParseTerms(p: string): (r: Parsed)
    ensures r.Parsed? ==> |r.rest| <= |p|
    decreases |p|, 1
  {
    if p == "" || p[0] == ')' || p[0] == '$' then Parsed(Eps, p)
    else
      match ParseAtom(p)
      case Malformed => Malformed
      case Parsed(atom, q) =>
        var (term, q') := Quantify(atom, q);
        match ParseTerms(q')
        case Malformed => Malformed
        case Parsed(tail, rest) => Parsed(Cat(term, tail), rest)
  }

  function Quantify(atom: Re, q: string): (r: (Re, string))
    ensures |r.1| <= |q|
  {
    if q != "" && q[0] == '*' then (Star(atom), q[1..])
    else if q != "" && q[0] == '+' then (Cat(atom, Star(atom)), q[1..])
    else (atom, q)
  }

  function ParseAtom(p: string): (r: Parsed)
    requires p != ""
    ensures r.Parsed? ==> |r.rest| < |p|
    decreases |p|, 0
  {
    if p[0] == '\\' then
      if |p| >= 2 && p[1] in SYNTAX_CHARACTERS then Parsed(Chr(p[1]), p[2..]) else Malformed
    else if p[0] == '.' then Parsed(Dot, p[1..])
    else if p[0] == '[' then
      if |p| >= 4 && p[1] == '^' && p[2] !in {'\\', ']', '-'} && p[3] == ']'
      then Parsed(NotChr(p[2]), p[4..]) else Malformed
    else if p[0] == '(' then
      if |p| >= 3 && p[1] == '?' && p[2] == ':' then
        match ParseTerms(p[3..])
        case Malformed => Malformed
        case Parsed(body, rest) =>
          if rest != "" && rest[0] == ')' then Parsed(body, rest[1..]) else Malformed
      else Malformed
    else if p[0] in SYNTAX_CHARACTERS then Malformed
    else Parsed(Chr(p[0]), p[1..])
  }

  /** `new RegExp(p)` for a pattern anchored at both ends; None stands for a SyntaxError
      (or for syntax outside this fragment). */
  datatype Compiled = Compiled(re: Re) | SyntaxError

  function NewRegExp(p: string): Compiled {
    if p == "" || p[0] != '^' then SyntaxError
    else
      match ParseTerms(p[1..])
      case Malformed => SyntaxError
      case Parsed(re, rest) => if rest == "$" then Compiled(re) else SyntaxError
  }

  lemma {:induction false} StarNotChr(c: char, s: string)
    ensures Matches(Star(NotChr(c)), s) <==> c !in s
    decreases |s|
  {
    if s != "" {
      StarNotChr(c, s[1..]);
      forall i | 1 <= i <= |s| && Matches(NotChr(c), s[..i]) ensures i == 1 && s[..i] == [s[0]] {}
      assert s[..1] == [s[0]];
      assert s == [s[0]] + s[1..];
      assert Matches(NotChr(c), s[..1]) <==> s[0] != c;
    }
  }

  lemma {:induction false} StarDot(s: string)
    ensures Matches(Star(Dot), s) <==> OneLine(s)
    decreases |s|
  {
    if s != "" {
      StarDot(s[1..]);
      forall i | 1 <= i <= |s| && Matches(Dot, s[..i]) ensures i == 1 {}
      assert s[..1] == [s[0]];
      assert Matches(Dot, s[..1]) <==> s[0] !in LINE_TERMINATORS;
      assert s[1..][..] == s[1..];
      if OneLine(s[1..]) && s[0] !in LINE_TERMINATORS {
        forall k | 0 <= k < |s| ensures s[k] !in LINE_TERMINATORS {
          if k > 0 { assert s[k] == s[1..][k - 1]; }
        }
      }
      if OneLine(s) {
        forall k | 0 <= k < |s[1..]| ensures s[1..][k] !in LINE_TERMINATORS {
          assert s[1..][k] == s[k + 1];
        }
      }
    }
  }

  /** A leading literal consumes exactly the first character. */
  lemma CatChr(c: char, k: Re, s: string)
    ensures Matches(Cat(Chr(c), k), s) <==> s != "" && s[0] == c && Matches(k, s[1..])
  {
    if s != "" && s[0] == c && Matches(k, s[1..]) {
      assert s[..1] == [c];
    }
  }

  lemma CatEps(a: Re, s: string)
    ensures Matches(Cat(a, Eps), s) <==> Matches(a, s)
  {
    assert s[..|s|] == s && s[|s|..] == "";
    forall i | 0 <= i <= |s| && Matches(a, s[..i]) && Matches(Eps, s[i..]) ensures Matches(a, s) {
      assert i == |s|;
    }
  }

  lemma CatOf(a: Re, b: Re, u: string, v: string)
    requires Matches(a, u) && Matches(b, v)
    ensures Matches(Cat(a, b), u + v)
  {
    assert (u + v)[..|u|] == u && (u + v)[|u|..] == v;
  }

  lemma CatParts(a: Re, b: Re, s: string) returns (u: string, v: string)
    requires Matches(Cat(a, b), s)
    ensures s == u + v && Matches(a, u) && Matches(b, v)
  {
    var i :| 0 <= i <= |s| && Matches(a, s[..i]) && Matches(b, s[i..]);
    u, v := s[..i], s[i..];
  }

  lemma StarOf(a: Re, u: string, v: string)
    requires u != "" && Matches(a, u) && Matches(Star(a), v)
    ensures Matches(Star(a), u + v)
  {
    assert (u + v)[..|u|] == u && (u + v)[|u|..] == v;
  }

  lemma StarParts(a: Re, s: string) returns (u: string, v: string)
    requires s != "" && Matches(Star(a), s)
    ensures s == u + v && u != "" && Matches(a, u) && Matches(Star(a), v)
  {
    var i :| 1 <= i <= |s| && Matches(a, s[..i]) && Matches(Star(a), s[i..]);
    u, v := s[..i], s[i..];
  }
}
