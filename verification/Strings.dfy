/** Library string operations that several components call: splitting on one character
    (`String.split` in JavaScript, `strings.Split` in Go) and joining with it, and the folding of
    ASCII letters. */
module Strings {

  lemma Assoc<T>(a: seq<T>, b: seq<T>, c: seq<T>)
    ensures (a + b) + c == a + (b + c)
  {}

  function Lower(c: char): char {
    if 'A' <= c <= 'Z' then (c as int + 32) as char else c
  }

  function Split(s: string, sep: char): (parts: seq<string>)
    ensures |parts| >= 1
    ensures forall k :: 0 <= k < |parts| ==> sep !in parts[k]
  {
    if s == "" then [""]
    else if s[0] == sep then [""] + Split(s[1..], sep)
    else
      var rest := Split(s[1..], sep);
      [[s[0]] + rest[0]] + rest[1..]
  }

  function Join(parts: seq<string>, sep: char): string
    requires |parts| >= 1
  {
    if |parts| == 1 then parts[0] else parts[0] + [sep] + Join(parts[1..], sep)
  }

  /** Cutting at the first separator yields the first part. */
  lemma {:induction false} SplitAtFirst(head: string, tail: string, sep: char)
    requires sep !in head
    ensures Split(head + [sep] + tail, sep) == [head] + Split(tail, sep)
    decreases |head|
  {
    var s := head + [sep] + tail;
    if head == "" {
      assert s == [sep] + tail;
      assert s[1..] == tail;
    } else {
      assert s[1..] == head[1..] + [sep] + tail;
      SplitAtFirst(head[1..], tail, sep);
      assert [head[0]] + head[1..] == head;
    }
  }

  lemma {:induction false} SplitWhole(s: string, sep: char)
    requires sep !in s
    ensures Split(s, sep) == [s]
    decreases |s|
  {
    if s != "" {
      SplitWhole(s[1..], sep);
      assert [s[0]] + s[1..] == s;
    }
  }

  /** Every string is its first part, then either nothing or a separator and the other parts. */
  lemma {:induction false} FirstPart(s: string, sep: char) returns (i: nat)
    ensures i <= |s| && sep !in s[..i]
    ensures i < |s| ==> s[i] == sep && Split(s, sep) == [s[..i]] + Split(s[i + 1..], sep)
    ensures i == |s| ==> Split(s, sep) == [s]
  {
    i := 0;
    while i < |s| && s[i] != sep
      invariant 0 <= i <= |s| && sep !in s[..i]
    {
      i := i + 1;
    }
    if i < |s| {
      assert s == s[..i] + [sep] + s[i + 1..];
      SplitAtFirst(s[..i], s[i + 1..], sep);
    } else {
      assert s[..i] == s;
      SplitWhole(s, sep);
    }
  }

  lemma JoinCons(head: string, rest: seq<string>, sep: char)
    requires |rest| >= 1
    ensures Join([head] + rest, sep) == head + [sep] + Join(rest, sep)
  {
    assert ([head] + rest)[1..] == rest;
  }

  lemma {:induction false} JoinOfSplit(s: string, sep: char)
    ensures Join(Split(s, sep), sep) == s
    decreases |s|
  {
    var i := FirstPart(s, sep);
    if i < |s| {
      JoinOfSplit(s[i + 1..], sep);
      JoinCons(s[..i], Split(s[i + 1..], sep), sep);
      assert s == s[..i] + [sep] + s[i + 1..];
    }
  }

  lemma {:induction false} SplitOfJoin(parts: seq<string>, sep: char)
    requires |parts| >= 1
    requires forall k :: 0 <= k < |parts| ==> sep !in parts[k]
    ensures Split(Join(parts, sep), sep) == parts
    decreases |parts|
  {
    if |parts| == 1 {
      SplitWhole(parts[0], sep);
    } else {
      SplitOfJoin(parts[1..], sep);
      SplitAtFirst(parts[0], Join(parts[1..], sep), sep);
      assert [parts[0]] + parts[1..] == parts;
    }
  }

  lemma {:induction false} SplitConcat(a: string, b: string, sep: char)
    ensures Split(a + [sep] + b, sep) == Split(a, sep) + Split(b, sep)
    decreases |a|
  {
    var i := FirstPart(a, sep);
    if i == |a| {
      SplitAtFirst(a, b, sep);
    } else {
      var head, tail := a[..i], a[i + 1..];
      assert a + [sep] + b == head + [sep] + (tail + [sep] + b);
      SplitAtFirst(head, tail + [sep] + b, sep);
      SplitConcat(tail, b, sep);
    }
  }

  lemma SplitInjective(a: string, b: string, sep: char)
    requires Split(a, sep) == Split(b, sep)
    ensures a == b
  {
    JoinOfSplit(a, sep);
    JoinOfSplit(b, sep);
  }

  /** `s` starts with `a` and a separator exactly when `a`'s parts are a proper prefix of its parts. */
  lemma PrefixParts(a: string, s: string, sep: char)
    ensures a + [sep] <= s <==> Split(a, sep) < Split(s, sep)
  {
    var parts, whole := Split(a, sep), Split(s, sep);
    if a + [sep] <= s {
      assert s == a + [sep] + s[|a| + 1..];
      SplitConcat(a, s[|a| + 1..], sep);
    }
    if parts < whole {
      var rest := whole[|parts|..];
      assert whole == parts + rest;
      var b := Join(rest, sep);
      SplitOfJoin(rest, sep);
      SplitConcat(a, b, sep);
      SplitInjective(s, a + [sep] + b, sep);
    }
  }
}
