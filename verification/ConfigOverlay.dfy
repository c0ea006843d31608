/** Layering panel overrides over the interpolated file (src/lib/server/config/effective.ts,
    src/lib/server/config/load.ts, src/lib/server/admin/config-actions.ts). */
module ConfigOverlay {
  import opened Options
  import opened StableJson
  import opened Strings

  type Env = map<string, string>

  // ----- ${VAR} and ${VAR:-default} -----

  predicate NameStart(c: char) {
    'A' <= c <= 'Z' || 'a' <= c <= 'z' || c == '_'
  }

  predicate NameChar(c: char) {
    NameStart(c) || '0' <= c <= '9'
  }

  /** The length of the longest prefix made of name characters. */
  function NameLength(s: string): (n: nat)
    ensures n <= |s|
  {
    if s != "" && NameChar(s[0]) then 1 + NameLength(s[1..]) else 0
  }

  /** The index of the first closing brace, or the length. */
  function BraceIndex(s: string): (n: nat)
    ensures n <= |s|
  {
    if s != "" && s[0] != '}' then 1 + BraceIndex(s[1..]) else 0
  }

  datatype EnvRef = EnvRef(name: string, fallback: Option<string>, rest: string)

  /** The match of ENV_REF at the start of `s`, with the text after it. */
  function RefAt(s: string): (r: Option<EnvRef>)
    ensures r.Some? ==> |r.value.rest| < |s| && |s| >= 2 && s[0] == '$' && s[1] == '{'
  {
    if |s| < 3 || s[0] != '$' || s[1] != '{' || !NameStart(s[2]) then None
    else
      var n := NameLength(s[2..]);
      var name, u := s[2..][..n], s[2..][n..];
      if u != "" && u[0] == '}' then Some(EnvRef(name, None, u[1..]))
      else if |u| >= 2 && u[0] == ':' && u[1] == '-' then
        var j := BraceIndex(u[2..]);
        if j == |u[2..]| then None
        else Some(EnvRef(name, Some(u[2..][..j]), u[2..][j + 1..]))
      else None
  }

  /** The replacement of one reference; a missing variable stays as it stands. */
  function Resolve(env: Env, ref: EnvRef, text: string): string {
    if ref.name in env && env[ref.name] != "" then env[ref.name]
    else if ref.fallback.Some? then ref.fallback.value
    else if ref.name in env then env[ref.name]
    else text
  }

  function MissingOf(env: Env, ref: EnvRef): seq<string> {
    if ref.name !in env && ref.fallback.None? then [ref.name] else []
  }

  function Expand(env: Env, s: string): string
    decreases |s|
  {
    if s == "" then ""
    else match RefAt(s)
      case None => [s[0]] + Expand(env, s[1..])
      case Some(ref) => Resolve(env, ref, s[..|s| - |ref.rest|]) + Expand(env, ref.rest)
  }

  function ExpandMissing(env: Env, s: string): seq<string>
    decreases |s|
  {
    if s == "" then []
    else match RefAt(s)
      case None => ExpandMissing(env, s[1..])
      case Some(ref) => MissingOf(env, ref) + ExpandMissing(env, ref.rest)
  }

  /** `s.includes('${')` */
  predicate HasPlaceholder(s: string) {
    exists k :: 0 <= k < |s| - 1 && s[k] == '$' && s[k + 1] == '{'
  }

  lemma {:induction false} NoPlaceholderNoChange(env: Env, s: string)
    requires !HasPlaceholder(s)
    ensures Expand(env, s) == s && ExpandMissing(env, s) == []
    decreases |s|
  {
    if s != "" {
      forall k | 0 <= k < |s[1..]| - 1 ensures !(s[1..][k] == '$' && s[1..][k + 1] == '{') {
        assert s[1..][k] == s[k + 1] && s[1..][k + 1] == s[k + 2];
      }
      NoPlaceholderNoChange(env, s[1..]);
    }
  }

  // ----- what expansion does to text -----

  predicate IsName(n: string) {
    n != "" && NameStart(n[0]) && forall i :: 0 <= i < |n| ==> NameChar(n[i])
  }

  function BareRef(name: string): string {
    ['$', '{'] + name + ['}']
  }

  function DefaultRef(name: string, d: string): string {
    ['$', '{'] + name + [':', '-'] + d + ['}']
  }

  /** The text starts with a reference. */
  ghost predicate StartsWithRef(s: string) {
    exists name: string, d: string, rest: string :: RefThen(s, name, d, rest)
  }

  predicate RefThen(s: string, name: string, d: string, rest: string) {
    IsName(name) && '}' !in d && (s == BareRef(name) + rest || s == DefaultRef(name, d) + rest)
  }

  lemma {:induction false} NameLengthOf(name: string, u: string)
    requires (forall i :: 0 <= i < |name| ==> NameChar(name[i])) && (u == "" || !NameChar(u[0]))
    ensures NameLength(name + u) == |name|
  {
    if name == "" {
      assert name + u == u;
    } else {
      NameLengthOf(name[1..], u);
      assert (name + u)[1..] == name[1..] + u;
    }
  }

  lemma {:induction false} BraceIndexOf(d: string, u: string)
    requires '}' !in d && u != "" && u[0] == '}'
    ensures BraceIndex(d + u) == |d|
  {
    if d == "" {
      assert d + u == u;
    } else {
      BraceIndexOf(d[1..], u);
      assert (d + u)[1..] == d[1..] + u;
    }
  }

  lemma RefAtName(name: string, u: string)
    requires IsName(name) && u != "" && !NameChar(u[0])
    ensures var s := ['$', '{'] + (name + u);
            && |s| >= 3 && s[0] == '$' && s[1] == '{' && NameStart(s[2])
            && NameLength(s[2..]) == |name| && s[2..][..|name|] == name && s[2..][|name|..] == u
  {
    var s := ['$', '{'] + (name + u);
    assert s[2..] == name + u;
    NameLengthOf(name, u);
  }

  lemma RefAtBare(name: string, rest: string)
    requires IsName(name)
    ensures RefAt(BareRef(name) + rest) == Some(EnvRef(name, None, rest))
  {
    var u := ['}'] + rest;
    RefAtName(name, u);
    assert BareRef(name) + rest == ['$', '{'] + (name + u);
    assert u[1..] == rest;
  }

  lemma DefaultText(name: string, d: string, rest: string)
    ensures DefaultRef(name, d) + rest == ['$', '{'] + (name + ([':', '-'] + (d + (['}'] + rest))))
  {}

  lemma RefAtDefault(name: string, d: string, rest: string)
    requires IsName(name) && '}' !in d
    ensures RefAt(DefaultRef(name, d) + rest) == Some(EnvRef(name, Some(d), rest))
  {
    var tail := d + (['}'] + rest);
    var u := [':', '-'] + tail;
    RefAtName(name, u);
    DefaultText(name, d, rest);
    assert u[2..] == tail;
    BraceIndexOf(d, ['}'] + rest);
    assert tail[..|d|] == d && tail[|d| + 1..] == rest;
  }

  lemma {:induction false} NameLengthNames(s: string)
    ensures forall i :: 0 <= i < NameLength(s) ==> NameChar(s[i])
    ensures NameLength(s) < |s| ==> !NameChar(s[NameLength(s)])
  {
    if s != "" && NameChar(s[0]) { NameLengthNames(s[1..]); }
  }

  lemma {:induction false} BraceIndexFirst(s: string)
    ensures '}' !in s[..BraceIndex(s)]
    ensures BraceIndex(s) < |s| ==> s[BraceIndex(s)] == '}'
  {
    if s != "" && s[0] != '}' {
      BraceIndexFirst(s[1..]);
      assert s[..BraceIndex(s)] == [s[0]] + s[1..][..BraceIndex(s[1..])];
    }
  }

  lemma RefAtMeans(s: string)
    ensures RefAt(s).Some? <==> StartsWithRef(s)
  {
    if StartsWithRef(s) {
      var name: string, d: string, rest: string :| RefThen(s, name, d, rest);
      RefAtBare(name, rest);
      RefAtDefault(name, d, rest);
    }
    if RefAt(s).Some? {
      RefFound(s);
    }
  }

  lemma RefShape(s: string) returns (name: string, u: string)
    requires RefAt(s).Some?
    ensures s == ['$', '{'] + (name + u) && IsName(name) && u != ""
    ensures u[0] != '}' ==> |u| >= 2 && u[0] == ':' && u[1] == '-' && BraceIndex(u[2..]) < |u[2..]|
  {
    var n := NameLength(s[2..]);
    name, u := s[2..][..n], s[2..][n..];
    NameLengthNames(s[2..]);
  }

  lemma BareFound(name: string, u: string)
    requires IsName(name) && u != "" && u[0] == '}'
    ensures RefThen(['$', '{'] + (name + u), name, "", u[1..])
  {
    assert u == ['}'] + u[1..];
    assert ['$', '{'] + (name + u) == BareRef(name) + u[1..];
  }

  lemma BraceSplits(v: string) returns (d: string, rest: string)
    requires BraceIndex(v) < |v|
    ensures '}' !in d && v == d + (['}'] + rest)
  {
    BraceIndexFirst(v);
    d, rest := v[..BraceIndex(v)], v[BraceIndex(v) + 1..];
  }

  lemma RefFound(s: string)
    requires RefAt(s).Some?
    ensures StartsWithRef(s)
  {
    var name, u := RefShape(s);
    if u[0] == '}' {
      BareFound(name, u);
    } else {
      var d, rest := BraceSplits(u[2..]);
      DefaultText(name, d, rest);
      assert u == [':', '-'] + u[2..];
      assert RefThen(s, name, d, rest);
    }
  }

  /** A reference with a default stands for the variable if it is set and not empty, and for the
      default otherwise; its variable is never missing. */
  lemma DefaultRefExpands(env: Env, name: string, d: string, rest: string)
    requires IsName(name) && '}' !in d
    ensures Expand(env, DefaultRef(name, d) + rest)
         == (if name in env && env[name] != "" then env[name] else d) + Expand(env, rest)
    ensures ExpandMissing(env, DefaultRef(name, d) + rest) == ExpandMissing(env, rest)
  {
    RefAtDefault(name, d, rest);
    assert [] + ExpandMissing(env, rest) == ExpandMissing(env, rest);
  }

  /** A bare reference stands for the variable if it is set, even to nothing; otherwise it stays and
      its name is reported missing. */
  lemma BareRefExpands(env: Env, name: string, rest: string)
    requires IsName(name)
    ensures Expand(env, BareRef(name) + rest) == (if name in env then env[name] else BareRef(name)) + Expand(env, rest)
    ensures ExpandMissing(env, BareRef(name) + rest) == (if name in env then [] else [name]) + ExpandMissing(env, rest)
  {
    RefAtBare(name, rest);
    var s := BareRef(name) + rest;
    assert s[..|s| - |rest|] == BareRef(name);
  }

  /** Everything else is copied: a character that starts no reference stays, and expansion goes on
      after it. */
  lemma OtherTextStays(env: Env, s: string)
    requires s != "" && !StartsWithRef(s)
    ensures Expand(env, s) == [s[0]] + Expand(env, s[1..]) && ExpandMissing(env, s) == ExpandMissing(env, s[1..])
  {
    RefAtMeans(s);
  }

  // ----- interpolating a document -----

  function Interpolated(env: Env, v: Json): Json {
    match v
    case Str(s) => Str(Expand(env, s))
    case Arr(items) => Arr(InterpolatedItems(env, items))
    case Obj(ms) => Obj(InterpolatedMembers(env, ms))
    case _ => v
  }

  function InterpolatedItems(env: Env, items: seq<Json>): (r: seq<Json>)
    ensures |r| == |items|
    ensures forall i :: 0 <= i < |items| ==> r[i] == Interpolated(env, items[i])
  {
    if items == [] then [] else [Interpolated(env, items[0])] + InterpolatedItems(env, items[1..])
  }

  function InterpolatedMembers(env: Env, ms: seq<Member>): (r: seq<Member>)
    ensures |r| == |ms|
    ensures forall i :: 0 <= i < |ms| ==> r[i] == Member(ms[i].key, Interpolated(env, ms[i].value))
  {
    if ms == [] then []
    else [Member(ms[0].key, Interpolated(env, ms[0].value))] + InterpolatedMembers(env, ms[1..])
  }

  function Missing(env: Env, v: Json): seq<string> {
    match v
    case Str(s) => ExpandMissing(env, s)
    case Arr(items) => MissingItems(env, items)
    case Obj(ms) => MissingMembers(env, ms)
    case _ => []
  }

  function MissingItems(env: Env, items: seq<Json>): seq<string> {
    if items == [] then [] else Missing(env, items[0]) + MissingItems(env, items[1..])
  }

  function MissingMembers(env: Env, ms: seq<Member>): seq<string> {
    if ms == [] then [] else Missing(env, ms[0].value) + MissingMembers(env, ms[1..])
  }

  /** `interpolateEnv`: the value with its references replaced, and the names that are missing
      appended to the caller's list. */
  method InterpolateEnv(env: Env, input: Json, missing: seq<string>) returns (out: Json, missing': seq<string>)
    ensures out == Interpolated(env, input)
    ensures missing' == missing + Missing(env, input)
    decreases input, 1
  {
    match input
    case Str(s) =>
      out, missing' := Str(Expand(env, s)), missing + ExpandMissing(env, s);
    case Arr(items) =>
      var acc;
      acc, missing' := InterpolateItems(env, items, missing);
      out := Arr(acc);
    case Obj(ms) =>
      var acc;
      acc, missing' := InterpolateMembers(env, ms, missing);
      out := Obj(acc);
    case _ =>
      out, missing' := input, missing;
  }

  method InterpolateItems(env: Env, items: seq<Json>, missing: seq<string>) returns (out: seq<Json>, missing': seq<string>)
    ensures out == InterpolatedItems(env, items)
    ensures missing' == missing + MissingItems(env, items)
    decreases items, 0
  {
    out, missing' := [], missing;
    for i := 0 to |items|
      invariant |out| == i && forall k :: 0 <= k < i ==> out[k] == Interpolated(env, items[k])
      invariant missing' + MissingItems(env, items[i..]) == missing + MissingItems(env, items)
    {
      ghost var before := missing';
      var item;
      item, missing' := InterpolateEnv(env, items[i], missing');
      out := out + [item];
      assert items[i..][1..] == items[i + 1..];
      Assoc(before, Missing(env, items[i]), MissingItems(env, items[i + 1..]));
    }
  }

  method InterpolateMembers(env: Env, ms: seq<Member>, missing: seq<string>) returns (out: seq<Member>, missing': seq<string>)
    ensures out == InterpolatedMembers(env, ms)
    ensures missing' == missing + MissingMembers(env, ms)
    decreases ms, 0
  {
    out, missing' := [], missing;
    for i := 0 to |ms|
      invariant |out| == i && forall k :: 0 <= k < i ==> out[k] == Member(ms[k].key, Interpolated(env, ms[k].value))
      invariant missing' + MissingMembers(env, ms[i..]) == missing + MissingMembers(env, ms)
    {
      ghost var before := missing';
      var val;
      val, missing' := InterpolateEnv(env, ms[i].value, missing');
      out := out + [Member(ms[i].key, val)];
      assert ms[i..][1..] == ms[i + 1..];
      Assoc(before, Missing(env, ms[i].value), MissingMembers(env, ms[i + 1..]));
    }
  }

  // ----- inheriting the file's interpolation -----

  /** `o[k]`, undefined when `o` is not an object or lacks the key. */
  function Field(v: Option<Json>, key: string): Option<Json> {
    if v.Some? && v.value.Obj? && Has(v.value.members, key) then Some(Get(v.value.members, key)) else None
  }

  /** `a[i]`, undefined when `a` is not an array or is too short. */
  function Element(v: Option<Json>, i: nat): Option<Json> {
    if v.Some? && v.value.Arr? && i < |v.value.items| then Some(v.value.items[i]) else None
  }

  /** A string with a placeholder that the file holds byte for byte at the same place. */
  predicate FilePlaceholder(file: Option<Json>, override: Json) {
    override.Str? && HasPlaceholder(override.s) && file == Some(override)
  }

  /** The override with its file placeholders replaced by what the file resolved to. */
  function Inherited(file: Option<Json>, resolved: Option<Json>, override: Json): Json
    decreases override
  {
    if FilePlaceholder(file, override) then (if resolved.Some? then resolved.value else Null)
    else if override.Obj? && file.Some? && file.value.Obj? then
      Obj(InheritedMembers(file, resolved, override.members))
    else if override.Arr? && file.Some? && file.value.Arr? then
      Arr(InheritedItems(file, resolved, override.items, 0))
    else override
  }

  function InheritedMembers(file: Option<Json>, resolved: Option<Json>, ms: seq<Member>): (r: seq<Member>)
    ensures |r| == |ms|
    ensures forall i :: 0 <= i < |ms| ==>
      r[i] == Member(ms[i].key, Inherited(Field(file, ms[i].key), Field(resolved, ms[i].key), ms[i].value))
    decreases ms
  {
    if ms == [] then []
    else [Member(ms[0].key, Inherited(Field(file, ms[0].key), Field(resolved, ms[0].key), ms[0].value))]
         + InheritedMembers(file, resolved, ms[1..])
  }

  function InheritedItems(file: Option<Json>, resolved: Option<Json>, items: seq<Json>, at: nat): (r: seq<Json>)
    ensures |r| == |items|
    ensures forall i :: 0 <= i < |items| ==>
      r[i] == Inherited(Element(file, at + i), Element(resolved, at + i), items[i])
    decreases items
  {
    if items == [] then []
    else [Inherited(Element(file, at), Element(resolved, at), items[0])]
         + InheritedItems(file, resolved, items[1..], at + 1)
  }

  /** `inheritFileInterpolation`: objects are filled key by key, arrays element by element. */
  method InheritFileInterpolation(file: Option<Json>, resolved: Option<Json>, override: Json) returns (out: Json)
    ensures out == Inherited(file, resolved, override)
    decreases override
  {
    if FilePlaceholder(file, override) {
      return if resolved.Some? then resolved.value else Null;
    }
    if override.Obj? && file.Some? && file.value.Obj? {
      var ms := override.members;
      var acc := [];
      for i := 0 to |ms|
        invariant |acc| == i
        invariant forall k :: 0 <= k < i ==>
          acc[k] == Member(ms[k].key, Inherited(Field(file, ms[k].key), Field(resolved, ms[k].key), ms[k].value))
      {
        var val := InheritFileInterpolation(Field(file, ms[i].key), Field(resolved, ms[i].key), ms[i].value);
        acc := acc + [Member(ms[i].key, val)];
      }
      return Obj(acc);
    }
    if override.Arr? && file.Some? && file.value.Arr? {
      var items := override.items;
      var acc := [];
      for i := 0 to |items|
        invariant |acc| == i
        invariant forall k :: 0 <= k < i ==> acc[k] == Inherited(Element(file, k), Element(resolved, k), items[k])
      {
        var val := InheritFileInterpolation(Element(file, i), Element(resolved, i), items[i]);
        acc := acc + [val];
      }
      assert acc == InheritedItems(file, resolved, items, 0);
      return Arr(acc);
    }
    return override;
  }

  function Resolved(env: Env, file: Option<Json>): Option<Json> {
    if file.Some? then Some(Interpolated(env, file.value)) else None
  }

  // ----- only the file's own placeholders take a value from the environment -----

  datatype Step = Key(key: string) | Index(i: nat)

  /** The value at a path, if there is one. */
  function At(v: Json, path: seq<Step>): Option<Json>
    decreases |path|
  {
    if path == [] then Some(v)
    else
      var next := match path[0] case Key(k) => Field(Some(v), k) case Index(i) => Element(Some(v), i);
      if next.Some? then At(next.value, path[1..]) else None
  }

  function AtOption(v: Option<Json>, path: seq<Step>): Option<Json> {
    if v.Some? then At(v.value, path) else None
  }

  lemma {:induction false} FindInMapped(ms: seq<Member>, ns: seq<Member>, key: string)
    requires SameKeys(ns, ms)
    ensures Find(ns, key) == Find(ms, key)
    decreases |ms|
  {
    if ms != [] { FindInMapped(ms[1..], ns[1..], key); }
  }

  /** Interpolating the file commutes with stepping into it. */
  lemma ResolvedStep(env: Env, file: Option<Json>)
    ensures forall k :: Field(Resolved(env, file), k) == Resolved(env, Field(file, k))
    ensures forall i: nat :: Element(Resolved(env, file), i) == Resolved(env, Element(file, i))
  {
    if file.Some? && file.value.Obj? {
      forall k ensures Field(Resolved(env, file), k) == Resolved(env, Field(file, k)) {
        FindInMapped(file.value.members, InterpolatedMembers(env, file.value.members), k);
      }
    }
  }

  predicate SameKeys(ms: seq<Member>, ns: seq<Member>) {
    |ms| == |ns| && forall i :: 0 <= i < |ms| ==> ms[i].key == ns[i].key
  }

  predicate Leaf(v: Json) {
    !v.Arr? && !v.Obj?
  }

  /** What becomes of the override's value o at a path where the file has f. */
  predicate ExpandsOnly(env: Env, f: Option<Json>, o: Option<Json>, r: Option<Json>) {
    if o.None? then r.None?
    else if Leaf(o.value) then r == if FilePlaceholder(f, o.value) then Some(Str(Expand(env, o.value.s))) else o
    else if o.value.Arr? then r.Some? && r.value.Arr? && |r.value.items| == |o.value.items|
    else r.Some? && r.value.Obj? && SameKeys(r.value.members, o.value.members)
  }

  /** At every path of an override: a leaf that is the file's own placeholder at that path
      becomes its expansion, every other leaf stays literal, arrays and objects keep their
      shape, and no path appears that the override does not have. */
  lemma {:induction false} OnlyFilePlaceholdersExpand(env: Env, file: Option<Json>, override: Json, path: seq<Step>)
    ensures ExpandsOnly(env, AtOption(file, path), At(override, path), At(Inherited(file, Resolved(env, file), override), path))
    decreases |path|
  {
    if path != [] {
      match path[0]
      case Key(k) =>
        StepIntoKey(env, file, override, k);
        if override.Obj? && Has(override.members, k) {
          OnlyFilePlaceholdersExpand(env, Field(file, k), Get(override.members, k), path[1..]);
        }
      case Index(i) =>
        StepIntoIndex(env, file, override, i);
        if override.Arr? && i < |override.items| {
          OnlyFilePlaceholdersExpand(env, Element(file, i), override.items[i], path[1..]);
        }
    }
  }

  // Inheriting commutes with stepping into an object...
  lemma StepIntoKey(env: Env, file: Option<Json>, override: Json, k: string)
    ensures var out := Inherited(file, Resolved(env, file), override);
            && (override.Obj? && Has(override.members, k) ==>
                  && out.Obj? && Has(out.members, k)
                  && Get(out.members, k) == Inherited(Field(file, k), Resolved(env, Field(file, k)), Get(override.members, k)))
            && (out.Obj? && Has(out.members, k) ==> override.Obj? && Has(override.members, k))
  {
    ResolvedStep(env, file);
    if override.Obj? && file.Some? && file.value.Obj? {
      FindInMapped(override.members, InheritedMembers(file, Resolved(env, file), override.members), k);
    }
  }

  // ... and into an array.
  lemma StepIntoIndex(env: Env, file: Option<Json>, override: Json, i: nat)
    ensures var out := Inherited(file, Resolved(env, file), override);
            && (override.Arr? && i < |override.items| ==>
                  && out.Arr? && i < |out.items|
                  && out.items[i] == Inherited(Element(file, i), Resolved(env, Element(file, i)), override.items[i]))
            && (out.Arr? && i < |out.items| ==> override.Arr? && i < |override.items|)
  {
    ResolvedStep(env, file);
  }

  // ----- an override equal to the file section changes nothing -----

  lemma {:induction false} InterpolatedValid(env: Env, v: Json)
    requires Valid(v)
    ensures Valid(Interpolated(env, v))
    decreases v
  {
    match v
    case Arr(items) =>
      forall i | 0 <= i < |items| ensures Valid(InterpolatedItems(env, items)[i]) {
        InterpolatedValid(env, items[i]);
      }
    case Obj(ms) =>
      forall i | 0 <= i < |ms| ensures Valid(InterpolatedMembers(env, ms)[i].value) {
        InterpolatedValid(env, ms[i].value);
      }
    case _ =>
  }

  lemma {:induction false} EqualOverrideIsNeutral(env: Env, file: Json, override: Json)
    requires Valid(file) && Valid(override) && SameValue(override, file)
    ensures SameValue(Inherited(Some(file), Some(Interpolated(env, file)), override), Interpolated(env, file))
    decreases override, 1
  {
    var resolved := Resolved(env, Some(file));
    ResolvedStep(env, Some(file));
    match override
    case Str(s) =>
      if !HasPlaceholder(s) { NoPlaceholderNoChange(env, s); }
    case Arr(items) =>
      forall i | 0 <= i < |items|
        ensures SameValue(InheritedItems(Some(file), resolved, items, 0)[i], InterpolatedItems(env, file.items)[i])
      {
        assert Element(Some(file), 0 + i) == Some(file.items[i]);
        EqualOverrideIsNeutral(env, file.items[i], items[i]);
      }
    case Obj(ms) =>
      EqualMembersAreNeutral(env, file.members, ms);
    case _ =>
  }

  lemma EqualMembersAreNeutral(env: Env, ns: seq<Member>, ms: seq<Member>)
    requires Valid(Obj(ns)) && Valid(Obj(ms)) && SameValue(Obj(ms), Obj(ns))
    ensures var file := Some(Obj(ns));
            SameValue(Obj(InheritedMembers(file, Resolved(env, file), ms)), Obj(InterpolatedMembers(env, ns)))
    decreases Obj(ms), 0
  {
    var file := Some(Obj(ns));
    var out, res := InheritedMembers(file, Resolved(env, file), ms), InterpolatedMembers(env, ns);
    ResolvedStep(env, file);
    forall i | 0 <= i < |out| ensures Has(res, out[i].key) && SameValue(out[i].value, Get(res, out[i].key)) {
      var k := ms[i].key;
      FindInMapped(ns, res, k);
      assert Field(file, k) == Some(Get(ns, k));
      EqualOverrideIsNeutral(env, Get(ns, k), ms[i].value);
    }
    forall j | 0 <= j < |res| ensures Has(out, res[j].key) {
      FindInMapped(ms, out, ns[j].key);
    }
  }

  // ----- merged documents -----

  type Doc = map<string, Json>
  type Overrides = map<string, Json>

  datatype Outcome<+T> = Ok(value: T) | MissingVariables(names: seq<string>)

  function Lookup(doc: Doc, key: string): Option<Json> {
    if key in doc then Some(doc[key]) else None
  }

  /** `fileRaw[section]` */
  function FileSection(file: seq<Member>, section: string): Option<Json> {
    Field(Some(Obj(file)), section)
  }

  /** What an override of a section turns into. */
  function OverriddenSection(env: Env, file: seq<Member>, section: string, raw: Json): Json {
    Inherited(FileSection(file, section), Resolved(env, FileSection(file, section)), raw)
  }

  // `keys` is SECTION_KEYS: the sections that the schema knows.

  /** The effective document key by key, whatever order the overrides are listed in: a known
      section with an override holds the override with the file's placeholders resolved, any
      other key holds the file's interpolated value. */
  function Effective(keys: set<string>, env: Env, file: seq<Member>, overrides: Overrides, key: string): Option<Json> {
    if key in overrides && key in keys then Some(OverriddenSection(env, file, key, overrides[key]))
    else Resolved(env, FileSection(file, key))
  }

  ghost predicate IsEffective(keys: set<string>, env: Env, file: seq<Member>, overrides: Overrides, doc: Doc) {
    forall k :: Lookup(doc, k) == Effective(keys, env, file, overrides, k)
  }

  lemma LayerOne(keys: set<string>, env: Env, file: seq<Member>, overrides: Overrides, section: string, raw: Json, doc: Doc)
    requires section !in overrides && IsEffective(keys, env, file, overrides, doc)
    ensures Lookup(doc, section) == Resolved(env, FileSection(file, section))
    ensures IsEffective(keys, env, file, overrides[section := raw],
                        if section in keys then doc[section := OverriddenSection(env, file, section, raw)] else doc)
  {
    var doc' := if section in keys then doc[section := OverriddenSection(env, file, section, raw)] else doc;
    assert Lookup(doc, section) == Effective(keys, env, file, overrides, section);
    forall k ensures Lookup(doc', k) == Effective(keys, env, file, overrides[section := raw], k) {
      assert Lookup(doc, k) == Effective(keys, env, file, overrides, k);
    }
  }

  /** The overrides listed in a Map's iteration order. */
  function ToMap(listed: seq<Member>): (m: Overrides)
    ensures forall k :: k in m <==> exists i :: 0 <= i < |listed| && listed[i].key == k
  {
    if listed == [] then map[]
    else ToMap(listed[..|listed| - 1])[listed[|listed| - 1].key := listed[|listed| - 1].value]
  }

  lemma ToMapNext(listed: seq<Member>, i: nat)
    requires DistinctKeys(listed) && i < |listed|
    ensures listed[i].key !in ToMap(listed[..i])
    ensures ToMap(listed[..i + 1]) == ToMap(listed[..i])[listed[i].key := listed[i].value]
  {
    assert listed[..i + 1][..i] == listed[..i];
  }

  /** `interpolateTrusted` */
  method InterpolateTrusted(env: Env, file: seq<Member>) returns (r: Outcome<Doc>)
    requires DistinctKeys(file)
    ensures r.MissingVariables? <==> MissingMembers(env, file) != []
    ensures r.MissingVariables? ==> r.names == MissingMembers(env, file)
    ensures r.Ok? ==> forall k :: Lookup(r.value, k) == Resolved(env, FileSection(file, k))
  {
    var members, missing := InterpolateMembers(env, file, []);
    if |missing| > 0 { return MissingVariables(missing); }
    var doc := AsDoc(members);
    forall k ensures Lookup(doc, k) == Resolved(env, FileSection(file, k)) {
      FindInMapped(file, members, k);
    }
    return Ok(doc);
  }

  /** A JavaScript object as a finite map. */
  method AsDoc(members: seq<Member>) returns (doc: Doc)
    requires DistinctKeys(members)
    ensures forall k :: Lookup(doc, k) == Field(Some(Obj(members)), k)
  {
    doc := map[];
    for i := 0 to |members|
      invariant forall k :: Lookup(doc, k) == if Find(members, k) < i then Some(Get(members, k)) else None
    {
      FindOwn(members, i);
      doc := doc[members[i].key := members[i].value];
    }
  }

  /** `validateMergedDoc` up to the call of validateConfigDoc: the document it validates. */
  method ValidateMergedDoc(keys: set<string>, env: Env, file: seq<Member>, overrides: seq<Member>) returns (r: Outcome<Doc>)
    requires DistinctKeys(file) && DistinctKeys(overrides)
    ensures r.MissingVariables? <==> MissingMembers(env, file) != []
    ensures r.Ok? ==> IsEffective(keys, env, file, ToMap(overrides), r.value)
  {
    r := InterpolateTrusted(env, file);
    if r.MissingVariables? { return; }
    var resolved := r.value;
    for i := 0 to |overrides|
      invariant IsEffective(keys, env, file, ToMap(overrides[..i]), resolved)
    {
      var section, raw := overrides[i].key, overrides[i].value;
      ToMapNext(overrides, i);
      LayerOne(keys, env, file, ToMap(overrides[..i]), section, raw, resolved);
      if section in keys {
        var merged := InheritFileInterpolation(FileSection(file, section), Lookup(resolved, section), raw);
        resolved := resolved[section := merged];
      }
    }
    assert overrides[..|overrides|] == overrides;
    r := Ok(resolved);
  }

  /** The document that a save of `value` is validated as: every other override, and the
      value in its section; without a value the section is gone. */
  function Candidate(keys: set<string>, env: Env, file: seq<Member>, overrides: Overrides,
                     section: string, value: Option<Json>, key: string): Option<Json> {
    if key != section then Effective(keys, env, file, overrides, key)
    else if value.None? then None
    else Some(OverriddenSection(env, file, section, value.value))
  }

  /** The effective document with one section left as the file has it. */
  ghost predicate IsEffectiveExcept(keys: set<string>, env: Env, file: seq<Member>, overrides: Overrides, section: string, doc: Doc) {
    && Lookup(doc, section) == Resolved(env, FileSection(file, section))
    && forall k :: k != section ==> Lookup(doc, k) == Effective(keys, env, file, overrides, k)
  }

  lemma LayerOther(keys: set<string>, env: Env, file: seq<Member>, overrides: Overrides, section: string,
                   key: string, raw: Json, doc: Doc)
    requires key !in overrides && IsEffectiveExcept(keys, env, file, overrides, section, doc)
    ensures Lookup(doc, key) == Resolved(env, FileSection(file, key))
    ensures IsEffectiveExcept(keys, env, file, overrides[key := raw], section,
                              if key != section && key in keys then doc[key := OverriddenSection(env, file, key, raw)] else doc)
  {
    var doc' := if key != section && key in keys then doc[key := OverriddenSection(env, file, key, raw)] else doc;
    assert key != section ==> Lookup(doc, key) == Effective(keys, env, file, overrides, key);
    forall k | k != section ensures Lookup(doc', k) == Effective(keys, env, file, overrides[key := raw], k) {
      assert Lookup(doc, k) == Effective(keys, env, file, overrides, k);
    }
  }

  ghost predicate IsCandidate(keys: set<string>, env: Env, file: seq<Member>, overrides: Overrides,
                        section: string, value: Option<Json>, doc: Doc) {
    forall k :: Lookup(doc, k) == Candidate(keys, env, file, overrides, section, value, k)
  }

  /** `validateMerged` up to the call of validateConfigDoc. */
  method ValidateMerged(keys: set<string>, env: Env, file: seq<Member>, overrides: seq<Member>,
                        section: string, value: Option<Json>) returns (r: Outcome<Doc>)
    requires DistinctKeys(file) && DistinctKeys(overrides)
    ensures r.MissingVariables? <==> MissingMembers(env, file) != []
    ensures r.Ok? ==> IsCandidate(keys, env, file, ToMap(overrides), section, value, r.value)
  {
    r := InterpolateTrusted(env, file);
    if r.MissingVariables? { return; }
    var resolved := LayerOthers(keys, env, file, overrides, section, r.value);
    if value.None? {
      resolved := resolved - {section};
    } else {
      var merged := InheritFileInterpolation(FileSection(file, section), Lookup(resolved, section), value.value);
      resolved := resolved[section := merged];
    }
    r := Ok(resolved);
  }

  /** The loop over the other sections' overrides. */
  method LayerOthers(keys: set<string>, env: Env, file: seq<Member>, overrides: seq<Member>, section: string, doc: Doc)
    returns (resolved: Doc)
    requires DistinctKeys(overrides)
    requires forall k :: Lookup(doc, k) == Resolved(env, FileSection(file, k))
    ensures IsEffectiveExcept(keys, env, file, ToMap(overrides), section, resolved)
  {
    resolved := doc;
    for i := 0 to |overrides|
      invariant IsEffectiveExcept(keys, env, file, ToMap(overrides[..i]), section, resolved)
    {
      var key, raw := overrides[i].key, overrides[i].value;
      ToMapNext(overrides, i);
      LayerOther(keys, env, file, ToMap(overrides[..i]), section, key, raw, resolved);
      if key != section && key in keys {
        var merged := InheritFileInterpolation(FileSection(file, key), Lookup(resolved, key), raw);
        resolved := resolved[key := merged];
      }
    }
    assert overrides[..|overrides|] == overrides;
  }

  // ----- saving a section -----

  datatype Plan = Store | Clear | Noop

  /** `planSectionSave`; `fileValue ?? undefined` turns null into undefined. */
  function PlanSectionSave(file: seq<Member>, overrides: Overrides, section: string, value: Option<Json>): Plan {
    var fileValue := match FileSection(file, section)
                     case Some(Null) => None
                     case v => v;
    if SectionsEqual(value, fileValue) then (if section in overrides then Clear else Noop) else Store
  }

  /** Which plan a save gets: none of the section changes exactly if the value equals the file's, up
      to member order (null in the file counts as absent). */
  lemma PlanMeans(file: seq<Member>, overrides: Overrides, section: string, value: Option<Json>)
    requires Valid(Obj(file)) && (value.Some? ==> Valid(value.value))
    ensures var inFile := if FileSection(file, section) == Some(Null) then None else FileSection(file, section);
            var same := if value.Some? && inFile.Some? then SameValue(value.value, inFile.value) else value == inFile;
            && (PlanSectionSave(file, overrides, section, value) == Store <==> !same)
            && (PlanSectionSave(file, overrides, section, value) == Clear <==> same && section in overrides)
            && (PlanSectionSave(file, overrides, section, value) == Noop <==> same && section !in overrides)
  {
    var inFile := if FileSection(file, section) == Some(Null) then None else FileSection(file, section);
    SectionsEqualIsSameValue(value, inFile);
  }

  /** The overrides in force after the plan has run. */
  function Saved(overrides: Overrides, section: string, value: Option<Json>, plan: Plan): Overrides
    requires plan == Store ==> value.Some?
  {
    match plan
    case Store => overrides[section := value.value]
    case Clear => overrides - {section}
    case Noop => overrides
  }

  /** Equal up to the order of members. */
  predicate SameSection(a: Option<Json>, b: Option<Json>) {
    a == b || (a.Some? && b.Some? && SameValue(a.value, b.value))
  }

  /** A store plan is validated on exactly the document that is applied afterwards. */
  lemma StoreValidatesAppliedDoc(keys: set<string>, env: Env, file: seq<Member>, overrides: Overrides, section: string, value: Json,
                                 validated: Doc, applied: Doc)
    requires section in keys
    requires IsCandidate(keys, env, file, overrides, section, Some(value), validated)
    requires IsEffective(keys, env, file, Saved(overrides, section, Some(value), Store), applied)
    ensures validated == applied
  {
    SameLookups(applied, validated);
  }

  /** A no-op plan is validated on the document already in force, up to member order (TOML has
      no null, so a file section is never null). */
  lemma NoopValidatesCurrentDoc(keys: set<string>, env: Env, file: seq<Member>, overrides: Overrides, section: string, value: Option<Json>)
    requires Valid(Obj(file)) && (value.Some? ==> Valid(value.value))
    requires FileSection(file, section) != Some(Null)
    requires PlanSectionSave(file, overrides, section, value) == Noop
    ensures forall k :: SameSection(Candidate(keys, env, file, overrides, section, value, k),
                                    Effective(keys, env, file, overrides, k))
  {
    SectionsEqualIsSameValue(value, FileSection(file, section));
    if value.Some? {
      EqualOverrideIsNeutral(env, FileSection(file, section).value, value.value);
    }
  }

  /** A clear plan validates a document without the section, but the file's own section comes
      back into force: the two agree exactly when the file has no such section. */
  lemma ClearValidatesAppliedDoc(keys: set<string>, env: Env, file: seq<Member>, overrides: Overrides, section: string, value: Option<Json>)
    requires PlanSectionSave(file, overrides, section, value) == Clear
    ensures (forall k :: Candidate(keys, env, file, overrides, section, None, k)
                      == Effective(keys, env, file, Saved(overrides, section, value, Clear), k))
       <==> FileSection(file, section).None?
  {
    var saved := Saved(overrides, section, value, Clear);
    assert Effective(keys, env, file, saved, section) == Resolved(env, FileSection(file, section));
    assert Candidate(keys, env, file, overrides, section, None, section) == None;
  }

  /** They do disagree whenever the overridden section is saved as the file has it. */
  lemma ClearMayMissTheSection(keys: set<string>, env: Env, file: seq<Member>, overrides: Overrides, section: string)
    requires FileSection(file, section).Some? && FileSection(file, section) != Some(Null) && section in overrides
    ensures var value := FileSection(file, section);
            && PlanSectionSave(file, overrides, section, value) == Clear
            && Candidate(keys, env, file, overrides, section, None, section) == None
            && Effective(keys, env, file, Saved(overrides, section, value, Clear), section).Some?
  {}

  /** Storing an override equal to the file section leaves the effective document as it is
      without that override, up to member order. */
  lemma EqualOverrideLeavesDoc(keys: set<string>, env: Env, file: seq<Member>, overrides: Overrides, section: string, value: Json)
    requires Valid(Obj(file)) && Valid(value) && section !in overrides
    requires FileSection(file, section).Some? && SameValue(value, FileSection(file, section).value)
    ensures forall k :: SameSection(Effective(keys, env, file, overrides[section := value], k),
                                    Effective(keys, env, file, overrides, k))
  {
    EqualOverrideIsNeutral(env, FileSection(file, section).value, value);
  }

  datatype SaveResult = Applied(plan: Plan) | Conflict | Invalid | NotStorable

  /** The panel's view of the runtime: the file as parsed, and the overrides in sqlite. */
  class ConfigPanel {
    const keys: set<string>
    const env: Env
    const file: seq<Member>
    var overrides: Overrides
    var updatedAt: map<string, int>

    ghost predicate Valid()
      reads this
    {
      DistinctKeys(file)
    }

    /** `eff.overrides.get(section)?.updatedAt ?? null` */
    function Stamp(section: string): Option<int>
      reads this
    {
      if section in updatedAt then Some(updatedAt[section]) else None
    }

    /** `saveSectionValue`: `check` is validateConfigDoc together with the admin.enabled guard.
        A refused save changes nothing; after a stored one the check cannot fail on the
        document that the runtime reloads. `listed` is the order the store lists its rows in. An
        undefined value has no JSON text to store: a store plan for it ends in the store's error. */
    method SaveSectionValue(listed: seq<Member>, section: string, value: Option<Json>,
                            expected: Option<Option<int>>, now: int, check: Doc -> bool)
      returns (r: SaveResult)
      requires Valid() && section in keys
      requires DistinctKeys(listed) && ToMap(listed) == overrides
      modifies this
      ensures Valid()
      ensures r.Conflict? <==> (expected.Some? && expected.value != old(Stamp(section)))
      ensures !r.Applied? ==> overrides == old(overrides) && updatedAt == old(updatedAt)
      ensures r.Applied? ==> r.plan == PlanSectionSave(file, old(overrides), section, value)
      ensures r.Applied? && r.plan == Store ==> value.Some?
      ensures r.NotStorable? ==> value.None? && PlanSectionSave(file, old(overrides), section, value) == Store
      ensures r.Applied? ==> overrides == Saved(old(overrides), section, value, r.plan)
      ensures r.Invalid? ==> MissingMembers(env, file) != [] || exists doc ::
                !check(doc) && IsCandidate(keys, env, file, old(overrides), section,
                  if PlanSectionSave(file, old(overrides), section, value) == Clear then None else value, doc)
      ensures r.Applied? && r.plan == Store ==>
                forall doc :: IsEffective(keys, env, file, overrides, doc) ==> check(doc)
    {
      var current := Stamp(section);
      if expected.Some? && expected.value != current { return Conflict; }
      var plan := PlanSectionSave(file, overrides, section, value);
      var validated := ValidateMerged(keys, env, file, listed, section, if plan == Clear then None else value);
      if validated.MissingVariables? || !check(validated.value) { return Invalid; }
      ghost var before := overrides;
      if plan == Store {
        if value.None? { return NotStorable; }
        overrides := overrides[section := value.value];
        updatedAt := updatedAt[section := now];
        forall doc | IsEffective(keys, env, file, overrides, doc) ensures check(doc) {
          StoreValidatesAppliedDoc(keys, env, file, before, section, value.value, validated.value, doc);
        }
      } else if plan == Clear {
        overrides := overrides - {section};
        updatedAt := updatedAt - {section};
      }
      return Applied(plan);
    }
  }

  lemma SameLookups(a: Doc, b: Doc)
    requires forall k :: Lookup(a, k) == Lookup(b, k)
    ensures a == b
  {
    forall k ensures k in a <==> k in b {
      assert Lookup(a, k) == Lookup(b, k);
    }
    forall k | k in a ensures a[k] == b[k] {
      assert Lookup(a, k) == Lookup(b, k);
    }
  }
}
