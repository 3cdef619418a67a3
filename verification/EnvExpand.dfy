// internal/config/loader_yaml.go: ${NAME} and ${NAME:-default} in the YAML source.
// The pattern's language is given by Text and WellFormed; MatchPrefix is a
// hand-written matcher for it.
module EnvExpand {
  import opened Options

  datatype Ref = Ref(name: string, default: Option<string>)

  predicate NameStart(c: char) {
    'A' <= c <= 'Z' || 'a' <= c <= 'z' || c == '_'
  }

  predicate NameChar(c: char) {
    NameStart(c) || '0' <= c <= '9'
  }

  predicate IsName(s: string) {
    s != "" && NameStart(s[0]) && forall i :: 0 <= i < |s| ==> NameChar(s[i])
  }

  predicate WellFormed(r: Ref) {
    IsName(r.name) && (r.default.Some? ==> '}' !in r.default.value)
  }

  function Tail(r: Ref): string {
    if r.default.Some? then ":-" + r.default.value + "}" else "}"
  }

  function Text(r: Ref): (s: string)
    ensures |s| >= 3
  {
    "${" + r.name + Tail(r)
  }

  // ----- The matcher -----

  // The length of the longest prefix of name characters.
  function NameLength(s: string): (n: nat)
    ensures n <= |s| && (forall i :: 0 <= i < n ==> NameChar(s[i])) && (n < |s| ==> !NameChar(s[n]))
  {
    if s != "" && NameChar(s[0]) then 1 + NameLength(s[1..]) else 0
  }

  // The index of the first closing brace, or the length.
  function BraceAt(s: string): (n: nat)
    ensures n <= |s| && (forall i :: 0 <= i < n ==> s[i] != '}') && (n < |s| ==> s[n] == '}')
  {
    if s != "" && s[0] != '}' then 1 + BraceAt(s[1..]) else 0
  }

  function MatchTail(name: string, s: string): Option<Ref> {
    if s != "" && s[0] == '}' then Some(Ref(name, None))
    else if |s| >= 2 && s[0] == ':' && s[1] == '-' && BraceAt(s[2..]) < |s| - 2 then
      Some(Ref(name, Some(s[2..][..BraceAt(s[2..])])))
    else None
  }

  // The reference a string starts with, if any.
  function MatchPrefix(s: string): Option<Ref> {
    if |s| >= 3 && s[0] == '$' && s[1] == '{' && NameStart(s[2]) then
      var n := NameLength(s[2..]);
      MatchTail(s[2..][..n], s[2..][n..])
    else None
  }

  lemma MatchTailSound(name: string, s: string)
    requires MatchTail(name, s).Some?
    ensures var r := MatchTail(name, s).value;
      r.name == name && Tail(r) <= s && (r.default.Some? ==> '}' !in r.default.value)
  {
    var r := MatchTail(name, s).value;
    if r.default.Some? {
      var n := BraceAt(s[2..]);
      assert s[..n + 3] == ":-" + r.default.value + "}";
    }
  }

  lemma MatchTailComplete(r: Ref, s: string)
    requires r.default.Some? ==> '}' !in r.default.value
    requires Tail(r) <= s
    ensures MatchTail(r.name, s) == Some(r)
  {
    if r.default.Some? {
      var d := r.default.value;
      assert s[2..][..|d|] == d && s[2..][|d|] == '}' by {
        assert forall i :: 0 <= i < |Tail(r)| ==> s[i] == Tail(r)[i];
      }
      assert forall i :: 0 <= i < |d| ==> s[2..][i] == d[i] && d[i] in d;
      assert BraceAt(s[2..]) == |d|;
    }
  }

  lemma Assoc(a: string, b: string, c: string)
    ensures a + (b + c) == a + b + c
  {
  }

  lemma PrefixJoin(name: string, tail: string, rest: string)
    requires tail <= rest
    ensures "${" + name + tail <= "${" + (name + rest)
  {
    Assoc("${", name, rest);
    Assoc("${" + name, tail, rest[|tail|..]);
    assert rest == tail + rest[|tail|..];
  }

  lemma NameStarts(u: string)
    requires u != "" && NameStart(u[0])
    ensures IsName(u[..NameLength(u)])
  {
  }

  lemma MatchPrefixSound(s: string, r: Ref)
    requires MatchPrefix(s) == Some(r)
    ensures WellFormed(r) && Text(r) <= s
  {
    var u := s[2..];
    var n := NameLength(u);
    NameStarts(u);
    MatchTailSound(u[..n], u[n..]);
    PrefixJoin(u[..n], Tail(r), u[n..]);
    assert u == u[..n] + u[n..] && s == "${" + u;
  }

  lemma NameEnds(name: string, tail: string)
    requires IsName(name) && tail != "" && !NameChar(tail[0])
    ensures NameLength(name + tail) == |name|
  {
    var s := name + tail;
    assert s[|name|] == tail[0];
  }

  lemma MatchNamed(name: string, after: string)
    requires IsName(name) && after != "" && !NameChar(after[0])
    ensures MatchPrefix("${" + (name + after)) == MatchTail(name, after)
  {
    var s, u := "${" + (name + after), name + after;
    NameEnds(name, after);
    assert s[2..] == u && u[..|name|] == name && u[|name|..] == after;
    assert |s| >= 3 && s[2] == name[0];
  }

  lemma TextIs(r: Ref, rest: string)
    ensures Text(r) + rest == "${" + (r.name + (Tail(r) + rest))
  {
  }

  lemma MatchPrefixComplete(s: string, r: Ref)
    requires WellFormed(r) && Text(r) <= s
    ensures MatchPrefix(s) == Some(r)
  {
    var rest := s[|Text(r)|..];
    var after := Tail(r) + rest;
    assert s == Text(r) + rest;
    TextIs(r, rest);
    MatchTailComplete(r, after);
    MatchNamed(r.name, after);
  }

  // The matcher finds exactly the references: it answers r on the strings that
  // start with the text of a well-formed r, so no position starts two.
  lemma MatchPrefixExact(s: string, r: Ref)
    ensures MatchPrefix(s) == Some(r) <==> WellFormed(r) && Text(r) <= s
  {
    if MatchPrefix(s) == Some(r) {
      MatchPrefixSound(s, r);
    } else if WellFormed(r) && Text(r) <= s {
      MatchPrefixComplete(s, r);
    }
  }

  // ----- Splitting a source -----

  datatype Piece = Literal(c: char) | Reference(r: Ref)

  function PieceText(p: Piece): string {
    match p case Literal(c) => [c] case Reference(r) => Text(r)
  }

  function Flatten(ps: seq<Piece>): string {
    if ps == [] then "" else PieceText(ps[0]) + Flatten(ps[1..])
  }

  function Scan(s: string): seq<Piece>
    decreases |s|
  {
    if s == "" then []
    else match MatchPrefix(s)
      case Some(r) =>
        MatchPrefixExact(s, r);
        [Reference(r)] + Scan(s[|Text(r)|..])
      case None => [Literal(s[0])] + Scan(s[1..])
  }

  ghost predicate StartsReference(s: string) {
    exists r :: WellFormed(r) && Text(r) <= s
  }

  // A left-to-right split: references where one starts, single characters elsewhere.
  ghost predicate IsSplit(s: string, ps: seq<Piece>)
    decreases |ps|
  {
    if ps == [] then s == ""
    else match ps[0]
      case Reference(r) => WellFormed(r) && Text(r) <= s && IsSplit(s[|Text(r)|..], ps[1..])
      case Literal(c) => s != "" && c == s[0] && !StartsReference(s) && IsSplit(s[1..], ps[1..])
  }

  // Every source splits, uniquely, and its pieces concatenate back to it.
  lemma {:induction false} ScanSplits(s: string)
    ensures IsSplit(s, Scan(s)) && Flatten(Scan(s)) == s
    decreases |s|
  {
    if s != "" {
      match MatchPrefix(s)
      case Some(r) =>
        MatchPrefixExact(s, r);
        ScanSplits(s[|Text(r)|..]);
      case None =>
        NoneStarts(s);
        ScanSplits(s[1..]);
    }
  }

  lemma {:induction false} SplitUnique(s: string, ps: seq<Piece>)
    requires IsSplit(s, ps)
    ensures ps == Scan(s)
    decreases |ps|
  {
    if ps != [] {
      assert ps == [ps[0]] + ps[1..];
      match ps[0]
      case Reference(r) =>
        MatchPrefixExact(s, r);
        SplitUnique(s[|Text(r)|..], ps[1..]);
      case Literal(_) =>
        if MatchPrefix(s).Some? {
          MatchPrefixExact(s, MatchPrefix(s).value);
        }
        SplitUnique(s[1..], ps[1..]);
    }
  }

  // ----- Expansion -----

  type Env = map<string, string>

  // The replacement function handed to ReplaceAllStringFunc: it matches the text
  // again for its groups, and tells a default by the length of the match.
  function Replacement(text: string, env: Env): string {
    match MatchPrefix(text)
    case None => text
    case Some(r) =>
      if r.name in env then env[r.name]
      else if |text| > |"${" + r.name + "}"| then (if r.default.Some? then r.default.value else "")
      else text
  }

  function ExpandConfigEnv(s: string, env: Env): string
    decreases |s|
  {
    if s == "" then ""
    else match MatchPrefix(s)
      case Some(r) =>
        MatchPrefixExact(s, r);
        Replacement(s[..|Text(r)|], env) + ExpandConfigEnv(s[|Text(r)|..], env)
      case None => [s[0]] + ExpandConfigEnv(s[1..], env)
  }

  // What a reference means: a set variable, even an empty one, beats the
  // default, the default beats nothing, and an unset reference stays as it is.
  function Value(p: Piece, env: Env): string {
    match p
    case Literal(c) => [c]
    case Reference(r) =>
      if r.name in env then env[r.name]
      else if r.default.Some? then r.default.value
      else Text(r)
  }

  function Values(ps: seq<Piece>, env: Env): string {
    if ps == [] then "" else Value(ps[0], env) + Values(ps[1..], env)
  }

  lemma ReplacementIsValue(r: Ref, env: Env)
    requires WellFormed(r)
    ensures Replacement(Text(r), env) == Value(Reference(r), env)
  {
    MatchPrefixExact(Text(r), r);
  }

  // Expansion evaluates the pieces of the source one by one, in one pass.
  lemma {:induction false} ExpandIsPiecewise(s: string, env: Env)
    ensures ExpandConfigEnv(s, env) == Values(Scan(s), env)
    decreases |s|
  {
    if s != "" {
      match MatchPrefix(s)
      case Some(r) =>
        MatchPrefixExact(s, r);
        ReplacementIsValue(r, env);
        assert s[..|Text(r)|] == Text(r);
        ExpandIsPiecewise(s[|Text(r)|..], env);
        assert Scan(s)[1..] == Scan(s[|Text(r)|..]);
      case None =>
        ExpandIsPiecewise(s[1..], env);
        assert Scan(s)[1..] == Scan(s[1..]);
    }
  }

  lemma {:induction false} ValuesOfUnset(ps: seq<Piece>, env: Env)
    requires forall p <- ps :: p.Reference? ==> p.r.name !in env && p.r.default.None?
    ensures Values(ps, env) == Flatten(ps)
  {
    if ps != [] {
      assert ps[0] in ps;
      ValuesOfUnset(ps[1..], env);
    }
  }

  // With no referenced variable set and no defaults present, expansion is the identity.
  lemma {:induction false} ExpandUnset(s: string, env: Env)
    requires forall p <- Scan(s) :: p.Reference? ==> p.r.name !in env && p.r.default.None?
    ensures ExpandConfigEnv(s, env) == s
  {
    ExpandIsPiecewise(s, env);
    ScanSplits(s);
    ValuesOfUnset(Scan(s), env);
  }

  // ----- Expanding twice -----

  // What expansion puts for the piece is not expanded again.
  predicate StaysPut(p: Piece, env: Env) {
    match p
    case Literal(c) => c != '$'
    case Reference(r) => (r.name !in env && r.default.None?) || '$' !in Value(p, env)
  }

  lemma {:induction false} ExpandReference(r: Ref, rest: string, env: Env)
    requires WellFormed(r)
    ensures ExpandConfigEnv(Text(r) + rest, env) == Value(Reference(r), env) + ExpandConfigEnv(rest, env)
  {
    var s := Text(r) + rest;
    MatchPrefixExact(s, r);
    ReplacementIsValue(r, env);
    assert s[..|Text(r)|] == Text(r) && s[|Text(r)|..] == rest;
  }

  // A single reference: a set variable gives its value, even an empty one, an
  // unset one its default, even an empty one, and without a default it stays.
  lemma ExpandCases(r: Ref, rest: string, env: Env)
    requires WellFormed(r)
    ensures var expanded := ExpandConfigEnv(Text(r) + rest, env);
      && (r.name in env ==> expanded == env[r.name] + ExpandConfigEnv(rest, env))
      && (r.name !in env && r.default.Some? ==> expanded == r.default.value + ExpandConfigEnv(rest, env))
      && (r.name !in env && r.default.None? ==> expanded == "${" + r.name + "}" + ExpandConfigEnv(rest, env))
  {
    ExpandReference(r, rest, env);
  }

  // Expansion as a text function: it skips characters where no reference starts
  // and replaces the references.
  ghost predicate Expands(expand: string -> string, env: Env) {
    && expand("") == ""
    && (forall c: char, rest: string :: !StartsReference([c] + rest) ==> expand([c] + rest) == [c] + expand(rest))
    && (forall r: Ref, rest: string :: WellFormed(r) ==>
         expand(Text(r) + rest) == Value(Reference(r), env) + expand(rest))
  }

  lemma ExpandSkip(c: char, rest: string, env: Env)
    requires !StartsReference([c] + rest)
    ensures ExpandConfigEnv([c] + rest, env) == [c] + ExpandConfigEnv(rest, env)
  {
    var s := [c] + rest;
    if MatchPrefix(s).Some? {
      MatchPrefixExact(s, MatchPrefix(s).value);
    }
    assert s[1..] == rest;
  }

  function Expander(env: Env): string -> string {
    s => ExpandConfigEnv(s, env)
  }

  lemma ExpanderExpands(env: Env)
    ensures Expands(Expander(env), env)
  {
    forall c: char, rest: string | !StartsReference([c] + rest)
      ensures Expander(env)([c] + rest) == [c] + Expander(env)(rest)
    {
      ExpandSkip(c, rest, env);
    }
    forall r: Ref, rest: string | WellFormed(r)
      ensures Expander(env)(Text(r) + rest) == Value(Reference(r), env) + Expander(env)(rest)
    {
      ExpandReference(r, rest, env);
    }
  }

  lemma StartsWithDollar(s: string)
    requires StartsReference(s)
    ensures s != "" && s[0] == '$'
  {
  }

  lemma {:induction false} ExpandPlain(expand: string -> string, t: string, rest: string, env: Env)
    requires Expands(expand, env) && '$' !in t
    ensures expand(t + rest) == t + expand(rest)
    decreases |t|
  {
    if t == "" {
      assert t + rest == rest;
    } else {
      var after := t[1..] + rest;
      assert t + rest == [t[0]] + after && t[0] in t;
      if StartsReference([t[0]] + after) {
        StartsWithDollar([t[0]] + after);
      }
      ExpandPlain(expand, t[1..], rest, env);
    }
  }

  ghost predicate AllWellFormed(ps: seq<Piece>) {
    forall p <- ps :: p.Reference? ==> WellFormed(p.r)
  }

  lemma {:induction false} ScanWellFormed(s: string)
    ensures AllWellFormed(Scan(s))
    decreases |s|
  {
    if s != "" {
      match MatchPrefix(s)
      case Some(r) =>
        MatchPrefixExact(s, r);
        ScanWellFormed(s[|Text(r)|..]);
      case None =>
        ScanWellFormed(s[1..]);
    }
  }

  lemma {:induction false} ExpandValues(expand: string -> string, ps: seq<Piece>, env: Env)
    requires Expands(expand, env) && AllWellFormed(ps) && forall p <- ps :: StaysPut(p, env)
    ensures expand(Values(ps, env)) == Values(ps, env)
    decreases |ps|
  {
    if ps != [] {
      var p, rest := ps[0], Values(ps[1..], env);
      assert p in ps;
      ExpandValues(expand, ps[1..], env);
      if !(p.Reference? && p.r.name !in env && p.r.default.None?) {
        ExpandPlain(expand, Value(p, env), rest, env);
      }
    }
  }

  // A second expansion changes nothing if no dollar sign stands outside the
  // references and none comes in through a value or a default.
  lemma {:induction false} ExpandTwice(s: string, env: Env)
    requires forall p <- Scan(s) :: StaysPut(p, env)
    ensures ExpandConfigEnv(ExpandConfigEnv(s, env), env) == ExpandConfigEnv(s, env)
  {
    ExpandIsPiecewise(s, env);
    ScanWellFormed(s);
    ExpanderExpands(env);
    ExpandValues(Expander(env), Scan(s), env);
  }

  // Sources that a second expansion leaves alone whatever the environment.
  ghost predicate StableEverywhere(s: string) {
    forall env :: ExpandConfigEnv(ExpandConfigEnv(s, env), env) == ExpandConfigEnv(s, env)
  }

  // A value that closes any reference left open before it and then names itself again.
  function Growing(a: string): string {
    "}" + Text(Ref(a, None))
  }

  predicate DifferAt(a: string, b: string, k: nat) {
    k < |a| && k < |b| && a[k] != b[k]
  }

  // What follows the brace of a growing value.
  predicate Regrows(expand: string -> string, w: string) {
    w != "" && w[0] == '$' && expand(w) != "" && expand(w)[0] == '}'
  }

  // No reference starts in front when back follows it.
  ghost predicate Bare(front: string, back: string) {
    front != "" ==> !StartsReference(front + back) && Bare(front[1..], back)
  }

  lemma SkipOne(expand: string -> string, front: string, back: string, env: Env)
    requires Expands(expand, env) && front != "" && !StartsReference(front + back)
    ensures expand(front + back) == [front[0]] + expand(front[1..] + back)
  {
    assert front + back == [front[0]] + (front[1..] + back);
  }

  lemma {:induction false} SkipBare(expand: string -> string, front: string, back: string, env: Env)
    requires Expands(expand, env) && Bare(front, back)
    ensures expand(front + back) == front + expand(back)
  {
    if front == "" {
      assert front + back == back;
    } else {
      SkipOne(expand, front, back, env);
      SkipBare(expand, front[1..], back, env);
    }
  }

  // The text before a growing value has no reference of its own, though the
  // brace may have completed one.
  lemma {:induction false} GrowingChanges(expand: string -> string, front: string, back: string, w: string,
                                          a: string, env: Env)
    returns (k: nat)
    requires Expands(expand, env) && env == map[a := Growing(a)] && Regrows(expand, w)
    requires Bare(front, back)
    ensures DifferAt(front + ("}" + w), expand(front + ("}" + w)), k)
    decreases |front|
  {
    if front == "" {
      BraceStays(expand, w, env);
      assert front + ("}" + w) == "}" + w;
      k := 1;
    } else if r :| WellFormed(r) && Text(r) <= front + ("}" + w) {
      k := CompletedChanges(expand, front, back, w, r, a, env);
    } else {
      var next := GrowingChanges(expand, front[1..], back, w, a, env);
      SkipOne(expand, front, "}" + w, env);
      DiffersLater(front, "}" + w, expand(front[1..] + ("}" + w)), next);
      k := next + 1;
    }
  }

  lemma CompletedChanges(expand: string -> string, front: string, back: string, w: string, r: Ref, a: string, env: Env)
    returns (k: nat)
    requires Expands(expand, env) && env == map[a := Growing(a)] && Regrows(expand, w)
    requires front != "" && !StartsReference(front + back)
    requires WellFormed(r) && Text(r) <= front + ("}" + w)
    ensures DifferAt(front + ("}" + w), expand(front + ("}" + w)), k)
  {
    EndsAtBrace(front, back, w, r);
    k := ReferenceChanges(expand, Text(r), w, r, a, env);
  }

  lemma ReferenceChanges(expand: string -> string, text: string, w: string, r: Ref, a: string, env: Env)
    returns (k: nat)
    requires Expands(expand, env) && env == map[a := Growing(a)] && Regrows(expand, w)
    requires WellFormed(r) && text == Text(r)
    ensures DifferAt(text + w, expand(text + w), k)
  {
    assert expand(Text(r) + w) == Value(Reference(r), env) + expand(w);
    k := ChangesAt(r, w, expand(w), a, env);
  }

  lemma DiffersLater(front: string, back: string, e: string, k: nat)
    requires front != "" && DifferAt(front[1..] + back, e, k)
    ensures DifferAt(front + back, [front[0]] + e, k + 1)
  {
    assert front + back == [front[0]] + (front[1..] + back);
  }

  lemma BraceStays(expand: string -> string, w: string, env: Env)
    requires Expands(expand, env)
    ensures expand("}" + w) == "}" + expand(w)
  {
    if StartsReference("}" + w) {
      StartsWithDollar("}" + w);
    }
    assert ['}'] + w == "}" + w;
  }

  lemma NoBraceInside(r: Ref)
    requires WellFormed(r)
    ensures forall i :: 0 <= i < |Text(r)| - 1 ==> Text(r)[i] != '}'
    ensures Text(r)[|Text(r)| - 1] == '}' && Text(r)[0] == '$'
  {
    forall i | 0 <= i < |Text(r)| - 1
      ensures Text(r)[i] != '}'
    {
      if r.default.Some? {
        var at := 4 + |r.name|;
        assert i >= at ==> Text(r)[i] == r.default.value[i - at] && r.default.value[i - at] in r.default.value;
      }
    }
  }

  lemma EndsAtBrace(front: string, back: string, w: string, r: Ref)
    requires front != "" && !StartsReference(front + back)
    requires WellFormed(r) && Text(r) <= front + ("}" + w)
    ensures front + ("}" + w) == Text(r) + w
  {
    var t, u := Text(r), front + ("}" + w);
    NoBraceInside(r);
    assert |t| > |front| by {
      assert |t| <= |front| ==> t <= front + back;
    }
    assert u[|front|] == '}' && t[|front|] == u[|front|];
    assert t == front + "}";
  }

  lemma ChangesAt(r: Ref, w: string, e: string, a: string, env: Env) returns (k: nat)
    requires WellFormed(r) && env == map[a := Growing(a)]
    requires w != "" && w[0] == '$' && e != "" && e[0] == '}'
    ensures DifferAt(Text(r) + w, Value(Reference(r), env) + e, k)
  {
    NoBraceInside(r);
    k := if r.name in env then 0 else |Value(Reference(r), env)|;
  }

  // The text before the first reference, the reference, and the rest.
  ghost predicate FirstAt(s: string, front: string, r: Ref, rest: string) {
    && s == front + (Text(r) + rest) && WellFormed(r)
    && Bare(front, Text(r) + rest)
  }

  lemma FirstLater(c: char, s: string, front: string, r: Ref, rest: string)
    requires MatchPrefix([c] + s).None? && FirstAt(s, front, r, rest)
    ensures FirstAt([c] + s, [c] + front, r, rest)
  {
    NoneStarts([c] + s);
    assert [c] + s == ([c] + front) + (Text(r) + rest);
  }

  lemma {:induction false} FirstReference(s: string) returns (front: string, r: Ref, rest: string)
    requires exists p <- Scan(s) :: p.Reference?
    ensures FirstAt(s, front, r, rest)
    decreases |s|
  {
    match MatchPrefix(s)
    case Some(found) =>
      MatchPrefixExact(s, found);
      front, r, rest := "", found, s[|Text(found)|..];
      assert s == Text(r) + rest;
    case None =>
      front, r, rest := FirstReference(s[1..]);
      assert s == [s[0]] + s[1..];
      FirstLater(s[0], s[1..], front, r, rest);
      front := [s[0]] + front;
  }

  lemma NoneStarts(s: string)
    requires MatchPrefix(s).None?
    ensures !StartsReference(s)
  {
    forall r
      ensures !(WellFormed(r) && Text(r) <= s)
    {
      MatchPrefixExact(s, r);
    }
  }

  // A second expansion is harmless in every environment exactly for the sources
  // without references.
  lemma {:induction false} StableIff(s: string)
    ensures StableEverywhere(s) <==> forall p <- Scan(s) :: p.Literal?
  {
    if forall p <- Scan(s) :: p.Literal? {
      forall env
        ensures ExpandConfigEnv(ExpandConfigEnv(s, env), env) == ExpandConfigEnv(s, env)
      {
        ExpandUnset(s, env);
      }
    } else {
      StableOnlyIf(s);
    }
  }

  lemma StableOnlyIf(s: string)
    requires exists p <- Scan(s) :: p.Reference?
    ensures !StableEverywhere(s)
  {
    var front, r, rest := FirstReference(s);
    NotStable(s, front, r, rest, map[r.name := Growing(r.name)]);
  }

  lemma NotStable(s: string, front: string, r: Ref, rest: string, env: Env)
    requires FirstAt(s, front, r, rest) && env == map[r.name := Growing(r.name)]
    ensures ExpandConfigEnv(ExpandConfigEnv(s, env), env) != ExpandConfigEnv(s, env)
  {
    ExpanderExpands(env);
    var k := ChangesTwice(Expander(env), s, front, r, rest, env);
  }

  lemma ChangesTwice(expand: string -> string, s: string, front: string, r: Ref, rest: string, env: Env)
    returns (k: nat)
    requires Expands(expand, env) && FirstAt(s, front, r, rest) && env == map[r.name := Growing(r.name)]
    ensures DifferAt(expand(s), expand(expand(s)), k)
  {
    var self := Text(Ref(r.name, None));
    var w := self + expand(rest);
    SkipBare(expand, front, Text(r) + rest, env);
    assert Growing(r.name) + expand(rest) == "}" + w;
    assert expand(w) == Growing(r.name) + expand(expand(rest));
    k := GrowingChanges(expand, front, Text(r) + rest, w, r.name, env);
  }

  // A value that looks like a reference is inserted as it is, so expanding twice
  // can differ from expanding once.
  lemma {:induction false} ExpandNotIdempotent(a: string, b: string, v: string)
    requires IsName(a) && IsName(b) && a != b && v != Text(Ref(b, None))
    ensures var env := map[a := Text(Ref(b, None)), b := v];
      var once := ExpandConfigEnv(Text(Ref(a, None)), env);
      once == Text(Ref(b, None)) && ExpandConfigEnv(once, env) == v != once
  {
    var env := map[a := Text(Ref(b, None)), b := v];
    ExpandReference(Ref(a, None), "", env);
    ExpandReference(Ref(b, None), "", env);
    assert Text(Ref(a, None)) + "" == Text(Ref(a, None)) && Text(Ref(b, None)) + "" == Text(Ref(b, None));
  }
}
