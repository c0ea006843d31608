/** Redaction of secret values from the deploy log stream (agent/internal/deploy/scrub.go). */
module Scrub {
  import opened Strings

  newtype byte = x: int | 0 <= x < 256

  type bytes = seq<byte>

  const NEWLINE: byte := 10
  const STAR: byte := 42
  const MARK: bytes := [STAR, STAR, STAR]
  const SCRUB_MIN_LEN := 4
  const SCRUB_MAX_LINE := 64 * 1024

  /** `secretNeedles`: the values worth tracking, in whatever order the map yields them. */
  method SecretNeedles(values: seq<bytes>) returns (needles: seq<bytes>)
    ensures forall n :: n in needles <==> n in values && |n| >= SCRUB_MIN_LEN
    ensures Tracked(needles)
  {
    needles := [];
    for i := 0 to |values|
      invariant forall n :: n in needles <==> n in values[..i] && |n| >= SCRUB_MIN_LEN
    {
      if |values[i]| >= SCRUB_MIN_LEN {
        needles := needles + [values[i]];
      }
      assert values[..i + 1] == values[..i] + [values[i]];
    }
    assert values[..|values|] == values;
  }

  predicate Tracked(needles: seq<bytes>) {
    forall i :: 0 <= i < |needles| ==> |needles[i]| >= SCRUB_MIN_LEN
  }

  // ----- replacing -----

  /** `bytes.ReplaceAll` for a non-empty needle: non-overlapping matches from the left. */
  function ReplaceAll(s: bytes, n: bytes): bytes
    requires n != []
    decreases |s|
  {
    if s == [] then []
    else if n <= s then MARK + ReplaceAll(s[|n|..], n)
    else [s[0]] + ReplaceAll(s[1..], n)
  }

  /** The line after every needle in turn. */
  function ScrubLine(needles: seq<bytes>, line: bytes): bytes
    requires Tracked(needles)
  {
    if needles == [] then line else ScrubLine(needles[1..], ReplaceAll(line, needles[0]))
  }

  predicate At(n: bytes, s: bytes, i: int) {
    0 <= i <= |s| - |n| && s[i..i + |n|] == n
  }

  predicate Occurs(n: bytes, s: bytes) {
    exists i :: 0 <= i <= |s| - |n| && At(n, s, i)
  }

  // ----- what a scrubbed stream should be -----

  /** The index just past the first newline, or 0 when there is none. */
  function LineEnd(s: bytes): (k: nat)
    ensures k <= |s|
    ensures k > 0 ==> s[k - 1] == NEWLINE && NEWLINE !in s[..k - 1]
    ensures k == 0 ==> NEWLINE !in s
  {
    if s == [] then 0
    else if s[0] == NEWLINE then 1
    else var k := LineEnd(s[1..]); if k == 0 then 0 else k + 1
  }

  /** Every line of the stream scrubbed on its own, a last line without newline included. */
  function ScrubStream(needles: seq<bytes>, s: bytes): bytes
    requires Tracked(needles)
    decreases |s|
  {
    if s == [] then []
    else if LineEnd(s) == 0 then ScrubLine(needles, s)
    else ScrubLine(needles, s[..LineEnd(s)]) + ScrubStream(needles, s[LineEnd(s)..])
  }

  /** What Write emits from the buffered bytes: the scrubbed complete lines... */
  function CompleteLines(needles: seq<bytes>, s: bytes): bytes
    requires Tracked(needles)
    decreases |s|
  {
    if LineEnd(s) == 0 then []
    else ScrubLine(needles, s[..LineEnd(s)]) + CompleteLines(needles, s[LineEnd(s)..])
  }

  /** ... and the partial line that stays buffered. */
  function Partial(s: bytes): (r: bytes)
    ensures NEWLINE !in r
    decreases |s|
  {
    if LineEnd(s) == 0 then s else Partial(s[LineEnd(s)..])
  }

  /** One Write: what has been written out so far, and the buffer. */
  function Written(needles: seq<bytes>, out: bytes, buf: bytes, p: bytes): (bytes, bytes)
    requires Tracked(needles)
  {
    var pending := buf + p;
    var partial := Partial(pending);
    if |partial| > SCRUB_MAX_LINE then (out + CompleteLines(needles, pending) + ScrubLine(needles, partial), [])
    else (out + CompleteLines(needles, pending), partial)
  }

  function Flushed(needles: seq<bytes>, out: bytes, buf: bytes): bytes
    requires Tracked(needles)
  {
    if buf == [] then out else out + ScrubLine(needles, buf)
  }

  /** A whole session: every chunk written in turn, then the flush. */
  function Session(needles: seq<bytes>, out: bytes, buf: bytes, chunks: seq<bytes>): bytes
    requires Tracked(needles)
    decreases |chunks|
  {
    if chunks == [] then Flushed(needles, out, buf)
    else var (out', buf') := Written(needles, out, buf, chunks[0]);
         Session(needles, out', buf', chunks[1..])
  }

  class ScrubWriter {
    const needles: seq<bytes>
    var buf: bytes
    var out: bytes        // what has been written to the underlying writer

    constructor (needles: seq<bytes>)
      ensures this.needles == needles && buf == [] && out == []
    {
      this.needles := needles;
      buf, out := [], [];
    }

    method Emit(line: bytes)
      requires Tracked(needles)
      modifies this`out
      ensures out == old(out) + ScrubLine(needles, line)
    {
      var l := line;
      for i := 0 to |needles|
        invariant ScrubLine(needles[i..], l) == ScrubLine(needles, line)
      {
        assert needles[i..][1..] == needles[i + 1..];
        l := ReplaceAll(l, needles[i]);
      }
      out := out + l;
    }

    /** Write buffers the chunk, emits the complete lines, and gives up on a partial line that
        has outgrown the limit. */
    method Write(p: bytes)
      requires Tracked(needles)
      modifies this
      ensures (out, buf) == Written(needles, old(out), old(buf), p)
    {
      buf := buf + p;
      EmitLines();
      if |buf| > SCRUB_MAX_LINE {
        Emit(buf);
        buf := [];
      }
    }

    /** The loop of Write. */
    method EmitLines()
      requires Tracked(needles)
      modifies this
      ensures out == old(out) + CompleteLines(needles, old(buf)) && buf == Partial(old(buf))
    {
      var pending := buf;
      ghost var before := out;
      assert pending[0..] == pending;
      var start := 0;
      var i := LineEnd(pending);
      while i > 0
        invariant 0 <= start <= |pending| && i == LineEnd(pending[start..]) && buf == pending
        invariant out + CompleteLines(needles, pending[start..]) == before + CompleteLines(needles, pending)
        invariant Partial(pending[start..]) == Partial(pending)
        decreases |pending| - start
      {
        NextLine(needles, pending, start, i, out);
        Emit(pending[start..start + i]);
        start := start + i;
        i := LineEnd(pending[start..]);
      }
      AppendNothing(out);
      buf := pending[start..];
    }

    method Flush()
      requires Tracked(needles)
      modifies this
      ensures out == Flushed(needles, old(out), old(buf)) && buf == []
    {
      if |buf| > 0 {
        Emit(buf);
        buf := [];
      }
    }
  }

  lemma AppendNothing(s: bytes)
    ensures s + [] == s
  {}

  lemma NextLine(needles: seq<bytes>, pending: bytes, start: nat, i: nat, out: bytes)
    requires Tracked(needles) && start <= |pending| && i == LineEnd(pending[start..]) && i > 0
    ensures (out + ScrubLine(needles, pending[start..start + i])) + CompleteLines(needles, pending[start + i..])
         == out + CompleteLines(needles, pending[start..])
    ensures Partial(pending[start..]) == Partial(pending[start + i..])
  {
    assert pending[start..][..i] == pending[start..start + i];
    assert pending[start..][i..] == pending[start + i..];
    Assoc(out, ScrubLine(needles, pending[start..start + i]), CompleteLines(needles, pending[start + i..]));
  }

  // ----- what replacing leaves alone -----

  lemma OccursIn(n: bytes, a: bytes, b: bytes, c: bytes)
    requires Occurs(n, b)
    ensures Occurs(n, a + b + c)
  {
    var i :| 0 <= i <= |b| - |n| && At(n, b, i);
    assert (a + b + c)[|a| + i..|a| + i + |n|] == b[i..i + |n|];
    assert At(n, a + b + c, |a| + i);
  }

  /** Text before the first occurrence stays, the occurrence becomes the mark, and the rest is
      replaced on its own. */
  lemma {:induction false} ReplacedAtFirst(before: bytes, n: bytes, rest: bytes)
    requires n != [] && forall i :: 0 <= i < |before| ==> !At(n, before + n + rest, i)
    ensures ReplaceAll(before + n + rest, n) == before + MARK + ReplaceAll(rest, n)
    decreases |before|
  {
    var s := before + n + rest;
    if before == [] {
      assert s == n + rest && s[|n|..] == rest;
    } else {
      assert !At(n, s, 0);
      assert s[1..] == before[1..] + n + rest;
      forall i | 0 <= i < |before| - 1 ensures !At(n, s[1..], i) {
        assert !At(n, s, i + 1);
        assert i + |n| <= |s[1..]| ==> s[1..][i..i + |n|] == s[i + 1..i + 1 + |n|];
      }
      ReplacedAtFirst(before[1..], n, rest);
      assert [before[0]] + (before[1..] + MARK + ReplaceAll(rest, n)) == before + MARK + ReplaceAll(rest, n);
    }
  }

  lemma {:induction false} NothingReplaced(s: bytes, n: bytes)
    requires n != [] && !Occurs(n, s)
    ensures ReplaceAll(s, n) == s
    decreases |s|
  {
    if s != [] {
      assert n <= s ==> At(n, s, 0);
      assert [s[0]] + s[1..] + [] == s;
      if Occurs(n, s[1..]) { OccursIn(n, [s[0]], s[1..], []); }
      NothingReplaced(s[1..], n);
    }
  }

  /** No tracked value occurs. */
  ghost predicate Clean(needles: seq<bytes>, s: bytes) {
    forall i :: 0 <= i < |needles| ==> !Occurs(needles[i], s)
  }

  lemma CleanPart(needles: seq<bytes>, a: bytes, b: bytes, c: bytes)
    requires Clean(needles, a + b + c)
    ensures Clean(needles, b)
  {
    forall i | 0 <= i < |needles| ensures !Occurs(needles[i], b) {
      if Occurs(needles[i], b) { OccursIn(needles[i], a, b, c); }
    }
  }

  lemma {:induction false} CleanLine(needles: seq<bytes>, line: bytes)
    requires Tracked(needles) && Clean(needles, line)
    ensures ScrubLine(needles, line) == line
  {
    if needles != [] {
      NothingReplaced(line, needles[0]);
      assert forall i :: 0 <= i < |needles[1..]| ==> needles[1..][i] == needles[i + 1];
      CleanLine(needles[1..], line);
    }
  }

  lemma {:induction false} CleanLines(needles: seq<bytes>, s: bytes)
    requires Tracked(needles) && Clean(needles, s)
    ensures CompleteLines(needles, s) + Partial(s) == s
    decreases |s|
  {
    var k := LineEnd(s);
    if k > 0 {
      var line, rest := s[..k], s[k..];
      assert s == [] + line + rest == line + rest + [];
      CleanPart(needles, [], line, rest);
      CleanPart(needles, line, rest, []);
      CleanLine(needles, line);
      CleanLines(needles, rest);
      Assoc(line, CompleteLines(needles, rest), Partial(rest));
    }
  }

  /** One Write moves the front of the pending bytes to the output as they are. */
  lemma CleanWrite(needles: seq<bytes>, out: bytes, buf: bytes, p: bytes) returns (x: bytes)
    requires Tracked(needles) && Clean(needles, buf + p)
    ensures var (out', buf') := Written(needles, out, buf, p); out' == out + x && x + buf' == buf + p
  {
    var pending := buf + p;
    var lines, partial := CompleteLines(needles, pending), Partial(pending);
    CleanLines(needles, pending);
    if |partial| > SCRUB_MAX_LINE {
      AppendNothing(pending);
      assert lines + partial + [] == pending;
      CleanPart(needles, lines, partial, []);
      CleanLine(needles, partial);
      Assoc(out, lines, partial);
      x := pending;
    } else {
      x := lines;
    }
  }

  lemma CleanRest(needles: seq<bytes>, x: bytes, buf: bytes, later: bytes)
    requires Clean(needles, (x + buf) + later)
    ensures Clean(needles, buf + later)
  {
    assert (x + buf) + later == x + (buf + later) + [];
    CleanPart(needles, x, buf + later, []);
  }

  lemma CleanChunk(needles: seq<bytes>, buf: bytes, p: bytes, later: bytes)
    requires Clean(needles, buf + (p + later))
    ensures Clean(needles, buf + p) && Clean(needles, (buf + p) + later)
  {
    assert buf + (p + later) == [] + (buf + p) + later == (buf + p) + later;
    CleanPart(needles, [], buf + p, later);
  }

  /** Nothing else is touched: however a stream without tracked values is cut into chunks, and
      however long its lines, it comes out as it went in. */
  lemma {:induction false} CleanTextPasses(needles: seq<bytes>, out: bytes, buf: bytes, chunks: seq<bytes>)
    requires Tracked(needles) && Clean(needles, buf + Flatten(chunks))
    ensures Session(needles, out, buf, chunks) == out + (buf + Flatten(chunks))
    decreases |chunks|
  {
    AppendNothing(buf);
    if chunks == [] {
      AppendNothing(out);
      CleanLine(needles, buf);
    } else {
      var p, later := chunks[0], Flatten(chunks[1..]);
      var (out', buf') := Written(needles, out, buf, p);
      CleanChunk(needles, buf, p, later);
      var x := CleanWrite(needles, out, buf, p);
      CleanRest(needles, x, buf', later);
      CleanTextPasses(needles, out', buf', chunks[1..]);
      Regrouped(out, x, buf', buf, p, later);
    }
  }

  lemma Regrouped(out: bytes, x: bytes, kept: bytes, buf: bytes, p: bytes, later: bytes)
    requires x + kept == buf + p
    ensures (out + x) + (kept + later) == out + (buf + (p + later))
  {
    Assoc(x, kept, later);
    Assoc(buf, p, later);
    Assoc(out, x, kept + later);
  }

  // ----- chunking does not show -----

  function Flatten(chunks: seq<bytes>): bytes {
    if chunks == [] then [] else chunks[0] + Flatten(chunks[1..])
  }

  /** Every line, its newline counted, is at most one byte over the limit. */
  predicate ShortLines(s: bytes)
    decreases |s|
  {
    if LineEnd(s) == 0 then |s| <= SCRUB_MAX_LINE + 1
    else LineEnd(s) <= SCRUB_MAX_LINE + 1 && ShortLines(s[LineEnd(s)..])
  }

  lemma {:induction false} LineEndPrefix(s: bytes, t: bytes)
    ensures LineEnd(s) > 0 ==> LineEnd(s + t) == LineEnd(s)
    ensures LineEnd(s) == 0 ==> LineEnd(s + t) == (if LineEnd(t) == 0 then 0 else |s| + LineEnd(t))
    decreases |s|
  {
    if s == [] {
      assert s + t == t;
    } else {
      assert (s + t)[1..] == s[1..] + t;
      LineEndPrefix(s[1..], t);
    }
  }

  lemma {:induction false} FirstLine(s: bytes)
    requires LineEnd(s) > 0
    ensures LineEnd(s[..LineEnd(s)]) == LineEnd(s)
    decreases |s|
  {
    var k := LineEnd(s);
    if s[0] != NEWLINE {
      FirstLine(s[1..]);
      assert s[..k][1..] == s[1..][..k - 1];
    }
  }

  lemma CutLine(s: bytes) returns (line: bytes, rest: bytes)
    requires LineEnd(s) > 0
    ensures s == line + rest && LineEnd(line) == |line| == LineEnd(s)
  {
    line, rest := s[..LineEnd(s)], s[LineEnd(s)..];
    FirstLine(s);
  }

  lemma LineThenRest(needles: seq<bytes>, line: bytes, p: bytes)
    requires Tracked(needles) && LineEnd(line) == |line| > 0
    ensures CompleteLines(needles, line + p) == ScrubLine(needles, line) + CompleteLines(needles, p)
    ensures Partial(line + p) == Partial(p)
    ensures ScrubStream(needles, line + p) == ScrubLine(needles, line) + ScrubStream(needles, p)
  {
    LineEndPrefix(line, p);
    assert (line + p)[..|line|] == line && (line + p)[|line|..] == p;
  }

  /** Appending to a stream continues at its partial line. */
  lemma {:induction false} AppendToPartial(needles: seq<bytes>, s: bytes, t: bytes)
    requires Tracked(needles)
    ensures CompleteLines(needles, s + t) == CompleteLines(needles, s) + CompleteLines(needles, Partial(s) + t)
    ensures Partial(s + t) == Partial(Partial(s) + t)
    decreases |s|
  {
    if LineEnd(s) > 0 {
      var line, rest := CutLine(s);
      AppendToPartial(needles, rest, t);
      AppendAfterLine(needles, line, rest, t);
    } else {
      NothingBefore(CompleteLines(needles, s + t));
    }
  }

  lemma AppendAfterLine(needles: seq<bytes>, line: bytes, rest: bytes, t: bytes)
    requires Tracked(needles) && LineEnd(line) == |line| > 0
    requires CompleteLines(needles, rest + t) == CompleteLines(needles, rest) + CompleteLines(needles, Partial(rest) + t)
    requires Partial(rest + t) == Partial(Partial(rest) + t)
    ensures var s := line + rest;
            CompleteLines(needles, s + t) == CompleteLines(needles, s) + CompleteLines(needles, Partial(s) + t)
            && Partial(s + t) == Partial(Partial(s) + t)
  {
    LineThenRest(needles, line, rest);
    LineThenRest(needles, line, rest + t);
    Assoc(line, rest, t);
    Assoc(ScrubLine(needles, line), CompleteLines(needles, rest), CompleteLines(needles, Partial(rest) + t));
  }

  /** The stream's lines are its complete lines and the partial one. */
  lemma {:induction false} StreamIsLines(needles: seq<bytes>, s: bytes)
    requires Tracked(needles)
    ensures ScrubStream(needles, s) == Flushed(needles, CompleteLines(needles, s), Partial(s))
    decreases |s|
  {
    var k := LineEnd(s);
    if k > 0 {
      StreamIsLines(needles, s[k..]);
      if Partial(s[k..]) != [] {
        Assoc(ScrubLine(needles, s[..k]), CompleteLines(needles, s[k..]), ScrubLine(needles, Partial(s[k..])));
      }
    }
  }

  /** In a stream of short lines, a partial line over the limit can only be its very end. */
  lemma {:induction false} OverlongPartialIsLast(s: bytes, t: bytes)
    requires ShortLines(s + t)
    ensures |Partial(s)| <= SCRUB_MAX_LINE + 1
    ensures |Partial(s)| == SCRUB_MAX_LINE + 1 ==> t == []
    decreases |s|
  {
    var k := LineEnd(s);
    LineEndPrefix(s, t);
    if k > 0 {
      assert (s + t)[k..] == s[k..] + t;
      OverlongPartialIsLast(s[k..], t);
    }
  }

  lemma {:induction false} EmptyChunks(needles: seq<bytes>, out: bytes, chunks: seq<bytes>)
    requires Tracked(needles) && Flatten(chunks) == []
    ensures Session(needles, out, [], chunks) == out
    decreases |chunks|
  {
    if chunks != [] {
      assert chunks[0] == [] && [] + chunks[0] == [];
      EmptyChunks(needles, out, chunks[1..]);
      assert out + [] == out;
    }
  }

  /** From the state reached after the stream `s`, the remaining chunks `t` complete it. */
  lemma {:induction false} SessionContinues(needles: seq<bytes>, s: bytes, chunks: seq<bytes>)
    requires Tracked(needles) && ShortLines(s + Flatten(chunks)) && |Partial(s)| <= SCRUB_MAX_LINE
    ensures Session(needles, CompleteLines(needles, s), Partial(s), chunks) == ScrubStream(needles, s + Flatten(chunks))
    decreases |chunks|
  {
    if chunks == [] {
      StreamIsLines(needles, s);
      assert s + [] == s;
    } else {
      var p, rest := chunks[0], chunks[1..];
      var s' := s + p;
      Assoc(s, p, Flatten(rest));
      AppendToPartial(needles, s, p);
      OverlongPartialIsLast(s', Flatten(rest));
      if |Partial(s')| > SCRUB_MAX_LINE {
        StreamIsLines(needles, s');
        EmptyChunks(needles, ScrubStream(needles, s'), rest);
        assert s' + [] == s';
      } else {
        SessionContinues(needles, s', rest);
      }
    }
  }

  /** However a stream of short lines is cut into chunks, the session writes the line-by-line
      scrub of the whole stream. */
  lemma ChunkingDoesNotShow(needles: seq<bytes>, chunks: seq<bytes>)
    requires Tracked(needles) && ShortLines(Flatten(chunks))
    ensures Session(needles, [], [], chunks) == ScrubStream(needles, Flatten(chunks))
  {
    assert [] + Flatten(chunks) == Flatten(chunks);
    SessionContinues(needles, [], chunks);
  }

  lemma WrittenLineFirst(needles: seq<bytes>, line: bytes, p: bytes)
    requires Tracked(needles) && LineEnd(line) == |line| > 0
    ensures var (out, buf) := Written(needles, [], [], p);
            Written(needles, [], [], line + p) == (ScrubLine(needles, line) + out, buf)
  {
    var x, lines, last := ScrubLine(needles, line), CompleteLines(needles, p), ScrubLine(needles, Partial(p));
    LineThenRest(needles, line, p);
    NothingBefore(line + p);
    NothingBefore(p);
    NothingBefore(x + lines);
    NothingBefore(lines);
    Assoc(x, lines, last);
  }

  lemma NothingBefore(s: bytes)
    ensures [] + s == s
  {}

  /** Complete lines in front of the first chunk are scrubbed and written first. */
  lemma LineFirst(needles: seq<bytes>, line: bytes, chunks: seq<bytes>)
    requires Tracked(needles) && LineEnd(line) == |line| > 0 && chunks != []
    ensures Session(needles, [], [], [line + chunks[0]] + chunks[1..])
         == ScrubLine(needles, line) + Session(needles, [], [], chunks)
  {
    WrittenLineFirst(needles, line, chunks[0]);
    assert ([line + chunks[0]] + chunks[1..])[1..] == chunks[1..];
    var (out, buf) := Written(needles, [], [], chunks[0]);
    OutputAppends(needles, ScrubLine(needles, line), out, buf, chunks[1..]);
  }

  lemma {:induction false} OutputAppends(needles: seq<bytes>, x: bytes, out: bytes, buf: bytes, chunks: seq<bytes>)
    requires Tracked(needles)
    ensures Session(needles, x + out, buf, chunks) == x + Session(needles, out, buf, chunks)
    decreases |chunks|
  {
    if chunks == [] {
      Assoc(x, out, ScrubLine(needles, buf));
    } else {
      var (o, b) := Written(needles, out, buf, chunks[0]);
      var pending := buf + chunks[0];
      Assoc(x, out, CompleteLines(needles, pending));
      Assoc(x, out + CompleteLines(needles, pending), ScrubLine(needles, Partial(pending)));
      assert Written(needles, x + out, buf, chunks[0]) == (x + o, b);
      OutputAppends(needles, x, o, b, chunks[1..]);
    }
  }

  /** A line longer than that defeats the buffering: with the line itself as the secret, there
      is a way to cut the stream that lets it through whole. */
  lemma {:induction false} LongLineLeaks(s: bytes) returns (secret: bytes, chunks: seq<bytes>)
    requires !ShortLines(s)
    ensures |secret| > SCRUB_MAX_LINE && chunks != [] && Flatten(chunks) == s
    ensures Session([secret], [], [], chunks) != ScrubStream([secret], s)
    ensures Occurs(secret, Session([secret], [], [], chunks))
    decreases |s|
  {
    var k := LineEnd(s);
    if k > 0 && k <= SCRUB_MAX_LINE + 1 {
      var line, rest := CutLine(s);
      assert rest == s[k..];
      var inner;
      secret, inner := LongLineLeaks(rest);
      chunks := [line + inner[0]] + inner[1..];
      LeakAfterLine(line, rest, secret, inner);
    } else {
      secret, chunks := FirstLineLeaks(s, if k == 0 then |s| else k);
    }
  }

  lemma LeakAfterLine(line: bytes, rest: bytes, secret: bytes, inner: seq<bytes>)
    requires LineEnd(line) == |line| > 0 && |secret| >= SCRUB_MIN_LEN && inner != [] && Flatten(inner) == rest
    requires Session([secret], [], [], inner) != ScrubStream([secret], rest)
    requires Occurs(secret, Session([secret], [], [], inner))
    ensures var chunks := [line + inner[0]] + inner[1..];
            Flatten(chunks) == line + rest
            && Session([secret], [], [], chunks) != ScrubStream([secret], line + rest)
            && Occurs(secret, Session([secret], [], [], chunks))
  {
    var chunks := [line + inner[0]] + inner[1..];
    assert chunks[0] == line + inner[0] && chunks[1..] == inner[1..];
    Assoc(line, inner[0], Flatten(inner[1..]));
    var x := ScrubLine([secret], line);
    LineFirst([secret], line, inner);
    LineThenRest([secret], line, rest);
    OccursAfter(secret, x, Session([secret], [], [], inner));
    Cancel(x, Session([secret], [], [], inner), ScrubStream([secret], rest));
  }

  lemma Cancel(x: bytes, a: bytes, b: bytes)
    ensures x + a == x + b ==> a == b
  {
    assert (x + a)[|x|..] == a && (x + b)[|x|..] == b;
  }

  lemma OccursAfter(n: bytes, x: bytes, s: bytes)
    requires Occurs(n, s)
    ensures Occurs(n, x + s)
  {
    var i :| 0 <= i <= |s| - |n| && At(n, s, i);
    assert (x + s)[|x| + i..|x| + i + |n|] == s[i..i + |n|];
    assert At(n, x + s, |x| + i);
  }

  lemma {:induction false} TooShortToMatch(s: bytes, n: bytes)
    requires |s| < |n|
    ensures ReplaceAll(s, n) == s
    decreases |s|
  {
    if s != [] { TooShortToMatch(s[1..], n); }
  }

  lemma {:induction false} BeforeNewline(s: bytes, cut: nat)
    requires cut <= |s| && (LineEnd(s) == 0 || cut < LineEnd(s))
    ensures LineEnd(s[..cut]) == 0
    decreases |s|
  {
    if cut > 0 {
      BeforeNewline(s[1..], cut - 1);
      assert s[..cut][1..] == s[1..][..cut - 1];
    }
  }

  /** From an empty buffer a last chunk is written as the stream it is. */
  lemma LastChunk(needles: seq<bytes>, out: bytes, p: bytes)
    requires Tracked(needles)
    ensures Session(needles, out, [], [p]) == out + ScrubStream(needles, p)
  {
    StreamIsLines(needles, p);
    NothingBefore(p);
    AppendNothing(out + CompleteLines(needles, p));
    Assoc(out, CompleteLines(needles, p), ScrubLine(needles, Partial(p)));
    assert [p][1..] == [];
  }

  // The first line of a stream, `m` bytes with its newline if it has one.
  predicate FirstLineIs(s: bytes, m: nat) {
    0 < m <= |s| && (LineEnd(s) == m || (LineEnd(s) == 0 && m == |s|))
  }

  /** What the stream without its first line is scrubbed to. */
  function Others(needles: seq<bytes>, s: bytes, m: nat): bytes
    requires Tracked(needles) && FirstLineIs(s, m)
  {
    if LineEnd(s) == 0 then [] else ScrubStream(needles, s[m..])
  }

  lemma ScrubFirstLine(needles: seq<bytes>, s: bytes, m: nat)
    requires Tracked(needles) && FirstLineIs(s, m)
    ensures ScrubStream(needles, s) == ScrubLine(needles, s[..m]) + Others(needles, s, m)
  {
    if LineEnd(s) == 0 {
      assert s[..m] == s;
      AppendNothing(ScrubLine(needles, s));
    }
  }

  lemma AfterCut(s: bytes, m: nat, cut: nat)
    requires FirstLineIs(s, m) && 0 < cut < m
    ensures LineEnd(s[..cut]) == 0
    ensures LineEnd(s[cut..]) == if LineEnd(s) == 0 then 0 else m - cut
  {
    BeforeNewline(s, cut);
    LineEndPrefix(s[..cut], s[cut..]);
    assert s[..cut] + s[cut..] == s;
  }

  lemma CutInsideLine(needles: seq<bytes>, s: bytes, m: nat, cut: nat)
    requires Tracked(needles) && FirstLineIs(s, m) && 0 < cut < m
    ensures LineEnd(s[..cut]) == 0
    ensures FirstLineIs(s[cut..], m - cut) && Others(needles, s[cut..], m - cut) == Others(needles, s, m)
  {
    AfterCut(s, m, cut);
    assert s[cut..][m - cut..] == s[m..];
  }

  // The first line, longer than the limit allows, is cut one byte past the limit.
  lemma FirstLineLeaks(s: bytes, m: nat) returns (secret: bytes, chunks: seq<bytes>)
    requires FirstLineIs(s, m) && m > SCRUB_MAX_LINE + 1
    ensures |secret| > SCRUB_MAX_LINE && chunks != [] && Flatten(chunks) == s
    ensures Session([secret], [], [], chunks) != ScrubStream([secret], s)
    ensures Occurs(secret, Session([secret], [], [], chunks))
  {
    var cut := SCRUB_MAX_LINE + 1;
    secret, chunks := s[..m], [s[..cut], s[cut..]];
    var ns, tail := [secret], Others([secret], s, m);
    assert chunks[1..] == [s[cut..]] && Flatten([s[cut..]]) == s[cut..] + [] == s[cut..];
    assert s[..cut] + s[cut..] == s;
    CutInsideLine(ns, s, m, cut);
    UnscrubbedPieces(secret, s, m, cut);
    var session := Session(ns, [], [], chunks);
    assert session == secret + tail;
    assert (secret + tail)[0..|secret|] == secret;
    assert At(secret, session, 0);
    ScrubFirstLine(ns, s, m);
    WholeMatch(secret);
  }

  lemma SingleNeedle(n: bytes, line: bytes)
    requires |n| >= SCRUB_MIN_LEN
    ensures ScrubLine([n], line) == ReplaceAll(line, n)
  {
    assert [n][1..] == [];
  }

  lemma WholeMatch(n: bytes)
    requires |n| >= SCRUB_MIN_LEN
    ensures ScrubLine([n], n) == MARK
  {
    SingleNeedle(n, n);
    assert n[|n|..] == [];
    AppendNothing(MARK);
  }

  lemma FirstPiece(secret: bytes, piece: bytes)
    requires |piece| == SCRUB_MAX_LINE + 1 < |secret| && LineEnd(piece) == 0
    ensures Written([secret], [], [], piece) == (piece, [])
  {
    SingleNeedle(secret, piece);
    TooShortToMatch(piece, secret);
    NothingBefore(piece);
  }

  lemma SecondPiece(secret: bytes, out: bytes, p: bytes, m: nat)
    requires |secret| >= SCRUB_MIN_LEN && FirstLineIs(p, m) && m < |secret|
    ensures Session([secret], out, [], [p]) == out + (p[..m] + Others([secret], p, m))
  {
    LastChunk([secret], out, p);
    ScrubFirstLine([secret], p, m);
    SingleNeedle(secret, p[..m]);
    TooShortToMatch(p[..m], secret);
  }

  lemma CutInTwo(s: bytes, m: nat, cut: nat) returns (a: bytes, p: bytes, b: bytes)
    requires cut < m <= |s|
    ensures a == s[..cut] && p == s[cut..] && b == p[..m - cut] && a + b == s[..m]
  {
    a, p := s[..cut], s[cut..];
    b := p[..m - cut];
  }

  /** Each piece of the cut line is shorter than the secret, so both pass unchanged. */
  lemma UnscrubbedPieces(secret: bytes, s: bytes, m: nat, cut: nat)
    requires FirstLineIs(s, m) && cut == SCRUB_MAX_LINE + 1 < m && secret == s[..m]
    ensures Session([secret], [], [], [s[..cut], s[cut..]]) == secret + Others([secret], s, m)
  {
    var a, p, b := CutInTwo(s, m, cut);
    CutInsideLine([secret], s, m, cut);
    TwoPieces(secret, a, p, b);
  }

  lemma TwoPieces(secret: bytes, a: bytes, p: bytes, b: bytes)
    requires |a| == SCRUB_MAX_LINE + 1 && LineEnd(a) == 0 && secret == a + b
    requires FirstLineIs(p, |b|) && b == p[..|b|]
    ensures Session([secret], [], [], [a, p]) == secret + Others([secret], p, |b|)
  {
    FirstPiece(secret, a);
    assert [a, p][1..] == [p];
    SecondPiece(secret, a, p, |b|);
    Assoc(a, b, Others([secret], p, |b|));
  }

  /** Chunking is invisible, for every set of secrets and every way of cutting the stream,
      exactly when every line is short. */
  lemma ChunkingInvisibleIffShortLines(s: bytes)
    ensures (forall needles: seq<bytes>, chunks: seq<bytes> :: Tracked(needles) && Flatten(chunks) == s ==>
               Session(needles, [], [], chunks) == ScrubStream(needles, s))
       <==> ShortLines(s)
  {
    if ShortLines(s) {
      forall needles: seq<bytes>, chunks: seq<bytes> | Tracked(needles) && Flatten(chunks) == s
        ensures Session(needles, [], [], chunks) == ScrubStream(needles, s)
      {
        ChunkingDoesNotShow(needles, chunks);
      }
    } else {
      var secret, chunks := LongLineLeaks(s);
      assert Tracked([secret]) && Flatten(chunks) == s;
    }
  }

  // ----- no tracked value survives -----

  /** A value without stars that no line end can split: a newline may only be its last byte. */
  predicate Plain(n: bytes) {
    n != [] && STAR !in n && NEWLINE !in n[..|n| - 1]
  }

  /** A star-free prefix of the replaced text was there before. */
  lemma {:induction false} PrefixSurvives(s: bytes, m: bytes, t: bytes)
    requires m != [] && STAR !in t && t <= ReplaceAll(s, m)
    ensures t <= s
    decreases |s|
  {
    if t != [] {
      var r := ReplaceAll(s, m);
      assert t[0] == r[0];
      if s != [] && !(m <= s) {
        assert t[1..] <= r[1..] == ReplaceAll(s[1..], m);
        PrefixSurvives(s[1..], m, t[1..]);
      }
    }
  }

  lemma AtShift(x: bytes, s: bytes, n: bytes, k: nat)
    ensures At(n, s, k) <==> At(n, x + s, |x| + k)
  {
    if k + |n| <= |s| {
      assert (x + s)[|x| + k..|x| + k + |n|] == s[k..k + |n|];
    }
  }

  lemma NotInMark(rest: bytes, n: bytes, i: nat)
    requires n != [] && STAR !in n && At(n, MARK + rest, i)
    ensures i >= 3
  {
    assert (MARK + rest)[i] == (MARK + rest)[i..i + |n|][0];
  }

  /** Replacing creates no star-free value that was not there, and leaves none of its own. */
  lemma {:induction false} ReplaceCreatesNothing(s: bytes, m: bytes, n: bytes, i: nat) returns (j: nat)
    requires m != [] && n != [] && STAR !in n && At(n, ReplaceAll(s, m), i)
    ensures At(n, s, j) && m != n
    decreases |s|
  {
    if m <= s {
      var rest := ReplaceAll(s[|m|..], m);
      NotInMark(rest, n, i);
      AtShift(MARK, rest, n, i - 3);
      var k := ReplaceCreatesNothing(s[|m|..], m, n, i - 3);
      AtShift(m, s[|m|..], n, k);
      assert s == m + s[|m|..];
      j := |m| + k;
    } else if i > 0 {
      var rest := ReplaceAll(s[1..], m);
      AtShift([s[0]], rest, n, i - 1);
      var k := ReplaceCreatesNothing(s[1..], m, n, i - 1);
      AtShift([s[0]], s[1..], n, k);
      assert s == [s[0]] + s[1..];
      j := 1 + k;
    } else {
      PrefixSurvives(s, m, n);
      j := 0;
    }
  }

  lemma {:induction false} ScrubbedLineClean(needles: seq<bytes>, line: bytes, n: bytes)
    requires Tracked(needles) && Plain(n) && (n in needles || !Occurs(n, line))
    ensures !Occurs(n, ScrubLine(needles, line))
    decreases |needles|
  {
    if needles != [] {
      var l := ReplaceAll(line, needles[0]);
      if Occurs(n, l) {
        var i :| 0 <= i <= |l| - |n| && At(n, l, i);
        var j := ReplaceCreatesNothing(line, needles[0], n, i);
      }
      ScrubbedLineClean(needles[1..], l, n);
    }
  }

  /** A scrubbed line still ends the way no plain value can cross: in a newline or a star. */
  predicate EndsLine(s: bytes) {
    s != [] && s[|s| - 1] in {NEWLINE, STAR}
  }

  lemma {:induction false} ReplaceKeepsEnd(s: bytes, m: bytes)
    requires m != [] && EndsLine(s)
    ensures EndsLine(ReplaceAll(s, m))
    decreases |s|
  {
    if m <= s {
      if |m| < |s| { ReplaceKeepsEnd(s[|m|..], m); }
    } else if |s| > 1 {
      ReplaceKeepsEnd(s[1..], m);
    }
  }

  lemma {:induction false} ScrubKeepsEnd(needles: seq<bytes>, line: bytes)
    requires Tracked(needles) && EndsLine(line)
    ensures EndsLine(ScrubLine(needles, line))
    decreases |needles|
  {
    if needles != [] {
      ReplaceKeepsEnd(line, needles[0]);
      ScrubKeepsEnd(needles[1..], ReplaceAll(line, needles[0]));
    }
  }

  lemma OccurrenceAvoids(n: bytes, s: bytes, i: nat, e: nat)
    requires n != [] && At(n, s, i) && e < |s| && s[e] !in n[..|n| - 1]
    ensures e < i || i + |n| <= e + 1
  {
    var w, m := s[i..i + |n|], n[..|n| - 1];
    assert w == n;
    assert forall k :: 0 <= k < |m| ==> m[k] == s[i + k];
  }

  lemma NoCrossing(x: bytes, y: bytes, n: bytes)
    requires Plain(n) && EndsLine(x) && !Occurs(n, x) && !Occurs(n, y)
    ensures !Occurs(n, x + y)
  {
    if Occurs(n, x + y) {
      var i :| 0 <= i <= |x + y| - |n| && At(n, x + y, i);
      var e := |x| - 1;
      assert (x + y)[e] == x[e];
      OccurrenceAvoids(n, x + y, i, e);
      if i > e {
        AtShift(x, y, n, i - |x|);
      } else {
        assert x[i..i + |n|] == (x + y)[i..i + |n|];
        assert At(n, x, i);
      }
    }
  }

  /** No plain tracked value occurs anywhere in the scrubbed stream, whatever the other values
      and their order. */
  lemma {:induction false} NoTrackedValueSurvives(needles: seq<bytes>, s: bytes, n: bytes)
    requires Tracked(needles) && n in needles && Plain(n)
    ensures !Occurs(n, ScrubStream(needles, s))
    decreases |s|
  {
    var k := LineEnd(s);
    if s != [] {
      ScrubbedLineClean(needles, if k == 0 then s else s[..k], n);
    }
    if k > 0 {
      NoTrackedValueSurvives(needles, s[k..], n);
      ScrubKeepsEnd(needles, s[..k]);
      NoCrossing(ScrubLine(needles, s[..k]), ScrubStream(needles, s[k..]), n);
    }
  }

  /** The same for what a session writes, however the stream was cut into chunks. */
  lemma NoTrackedValueWritten(needles: seq<bytes>, chunks: seq<bytes>, n: bytes)
    requires Tracked(needles) && n in needles && Plain(n) && ShortLines(Flatten(chunks))
    ensures !Occurs(n, Session(needles, [], [], chunks))
  {
    ChunkingDoesNotShow(needles, chunks);
    NoTrackedValueSurvives(needles, Flatten(chunks), n);
  }

  /** Lines shorter than the only value are written as they are. */
  lemma {:induction false} ShorterLinesStay(n: bytes, s: bytes)
    requires |n| >= SCRUB_MIN_LEN && |s| < |n|
    ensures ScrubStream([n], s) == s
    decreases |s|
  {
    var k := LineEnd(s);
    if s == [] {
    } else if k == 0 {
      SingleNeedle(n, s);
      TooShortToMatch(s, n);
    } else {
      SingleNeedle(n, s[..k]);
      TooShortToMatch(s[..k], n);
      ShorterLinesStay(n, s[k..]);
      assert s[..k] + s[k..] == s;
    }
  }

  /** A value with an inner newline stands in a stream on several lines, none of which holds it. */
  lemma SplitValueStays(n: bytes)
    requires |n| >= SCRUB_MIN_LEN && NEWLINE in n[..|n| - 1]
    ensures ScrubStream([n], n) == n
  {
    FirstNewlineEarly(n);
    var line, rest := CutLine(n);
    LineThenRest([n], line, rest);
    SingleNeedle(n, line);
    TooShortToMatch(line, n);
    ShorterLinesStay(n, rest);
  }

  lemma FirstNewlineEarly(n: bytes)
    requires n != [] && NEWLINE in n[..|n| - 1]
    ensures 0 < LineEnd(n) < |n|
  {
    var i :| 0 <= i < |n| - 1 && n[..|n| - 1][i] == NEWLINE;
    assert n[i] == NEWLINE;
  }

  /** A tracked value without stars is kept out of every stream, whatever else is tracked, exactly
      when it has no newline before its last byte: lines are redacted one by one. */
  lemma KeptOutIffNoInnerNewline(n: bytes)
    requires |n| >= SCRUB_MIN_LEN && STAR !in n
    ensures (forall needles: seq<bytes>, s: bytes :: Tracked(needles) && n in needles ==> !Occurs(n, ScrubStream(needles, s)))
       <==> NEWLINE !in n[..|n| - 1]
  {
    if NEWLINE in n[..|n| - 1] {
      SplitValueStays(n);
      assert At(n, n, 0) && Tracked([n]) && n in [n];
      assert Occurs(n, ScrubStream([n], n));
    } else {
      forall needles: seq<bytes>, s: bytes | Tracked(needles) && n in needles ensures !Occurs(n, ScrubStream(needles, s)) {
        NoTrackedValueSurvives(needles, s, n);
      }
    }
  }
}
