// internal/storage/s3vfs/path.go: logical paths, object keys and the prefix
// that separates cache instances sharing one bucket.
module Paths {
  import opened Strings

  // ----- path.Clean on rooted paths, as a stack of segments -----

  predicate Ordinary(seg: string) {
    seg != "" && seg != "." && seg != ".." && '/' !in seg
  }

  ghost predicate AllOrdinary(segs: seq<string>) {
    forall seg <- segs :: Ordinary(seg)
  }

  function Push(stack: seq<string>, seg: string): seq<string> {
    if seg == "" || seg == "." then stack
    else if seg == ".." then (if stack == [] then [] else stack[..|stack| - 1])
    else stack + [seg]
  }

  function Resolve(stack: seq<string>, segs: seq<string>): seq<string>
    decreases |segs|
  {
    if segs == [] then stack else Resolve(Push(stack, segs[0]), segs[1..])
  }

  // The segments of path.Clean("/" + p).
  function Segments(p: string): seq<string> {
    Resolve([], Split(p, '/'))
  }

  // path.Clean("/" + p)
  function CleanRooted(p: string): string {
    "/" + Join(Segments(p), '/')
  }

  // ----- path.go -----

  // unicode.IsSpace
  predicate IsSpace(c: char) {
    c in "\t\n\U{000B}\U{000C}\r \U{0085}\U{00A0}\U{1680}\U{2028}\U{2029}\U{202F}\U{205F}\U{3000}"
    || '\U{2000}' <= c <= '\U{200A}'
  }

  function SpaceEnd(s: string, n: nat): (r: nat)
    requires n <= |s|
    ensures r <= n && (r == 0 || !IsSpace(s[r - 1]))
  {
    if n > 0 && IsSpace(s[n - 1]) then SpaceEnd(s, n - 1) else n
  }

  function SpaceStart(s: string, n: nat): (r: nat)
    requires n <= |s|
    ensures n <= r <= |s| && (r == |s| || !IsSpace(s[r]))
    decreases |s| - n
  {
    if n < |s| && IsSpace(s[n]) then SpaceStart(s, n + 1) else n
  }

  function TrimSpace(s: string): string {
    var t := s[SpaceStart(s, 0)..];
    t[..SpaceEnd(t, |t|)]
  }

  // strings.Trim(s, "/")
  function TrimSlashes(s: string): string {
    TrimRight(TrimLeft(s, '/'), '/')
  }

  function NormalizePrefix(p: string): string {
    var q := TrimSlashes(TrimSpace(p));
    if q == "" then "" else q + "/"
  }

  function ToKey(prefix: string, p: string): string {
    var cleaned := CleanRooted(TrimRight(p, '/'));
    var marked := if EndsInSlash(p) && cleaned != "/" then cleaned + "/" else cleaned;
    if marked == "/" then prefix else prefix + TrimPrefix(marked, "/")
  }

  function FromKey(prefix: string, key: string): string {
    TrimPrefix(key, prefix)
  }

  function DirPrefix(prefix: string, p: string): string {
    var cleaned := CleanRooted(p);
    if cleaned == "/" then prefix else prefix + TrimPrefix(cleaned, "/") + "/"
  }

  function BaseName(key: string): string {
    var trimmed := TrimRight(key, '/');
    var i := LastIndex(trimmed, '/');
    if i >= 0 then trimmed[i + 1..] else trimmed
  }

  // ----- Segments -----

  lemma {:induction false} ResolveAppend(stack: seq<string>, a: seq<string>, b: seq<string>)
    ensures Resolve(stack, a + b) == Resolve(Resolve(stack, a), b)
    decreases |a|
  {
    if a == [] {
      assert a + b == b;
    } else {
      assert (a + b)[1..] == a[1..] + b;
      ResolveAppend(Push(stack, a[0]), a[1..], b);
    }
  }

  lemma {:induction false} ResolveOrdinary(stack: seq<string>, segs: seq<string>)
    requires AllOrdinary(stack)
    requires forall seg <- segs :: '/' !in seg
    ensures AllOrdinary(Resolve(stack, segs))
    decreases |segs|
  {
    if segs != [] {
      ResolveOrdinary(Push(stack, segs[0]), segs[1..]);
    }
  }

  // Ordinary segments are a fixed point of the stack.
  lemma {:induction false} ResolveFixed(stack: seq<string>, segs: seq<string>)
    requires AllOrdinary(segs)
    ensures Resolve(stack, segs) == stack + segs
    decreases |segs|
  {
    if segs != [] {
      assert Ordinary(segs[0]);
      ResolveFixed(stack + [segs[0]], segs[1..]);
      assert stack + segs == stack + [segs[0]] + segs[1..];
    }
  }

  lemma SegmentsOrdinary(p: string)
    ensures AllOrdinary(Segments(p))
  {
    ResolveOrdinary([], Split(p, '/'));
  }

  lemma {:induction false} SegmentsTrimmedTo(p: string, n: nat)
    requires n <= |p|
    ensures Segments(p[..TrimEnd(p, '/', n)]) == Segments(p[..n])
  {
    if n > 0 && p[n - 1] == '/' {
      SegmentsTrimmedTo(p, n - 1);
      assert p[..n] == p[..n - 1] + ['/'] + "";
      SplitAt(p[..n - 1], "", '/');
      ResolveAppend([], Split(p[..n - 1], '/'), [""]);
    }
  }

  lemma SegmentsTrimmed(p: string)
    ensures Segments(TrimRight(p, '/')) == Segments(p)
  {
    SegmentsTrimmedTo(p, |p|);
    assert p[..|p|] == p;
  }

  lemma SegmentsJoin(segs: seq<string>)
    requires AllOrdinary(segs)
    ensures Segments(Join(segs, '/')) == segs
  {
    if segs != [] {
      SplitJoin(segs, '/');
      ResolveFixed([], segs);
    }
  }

  lemma SegmentsChild(p: string, c: string)
    requires Ordinary(c)
    ensures Segments(p + "/" + c) == Segments(p) + [c]
  {
    assert p + "/" + c == p + ['/'] + c;
    SegmentsThen(p, c);
  }

  lemma {:induction false} JoinEnds(segs: seq<string>)
    requires AllOrdinary(segs) && segs != []
    ensures var s := Join(segs, '/'); s != "" && s[0] != '/' && s[|s| - 1] != '/'
  {
    assert Ordinary(segs[0]);
    assert segs[0][0] in segs[0] && segs[0][|segs[0]| - 1] in segs[0];
    if |segs| > 1 {
      JoinEnds(segs[1..]);
    }
  }

  // Cleaned paths are equal exactly when their segments are.
  lemma CleanInjective(p: string, q: string)
    ensures CleanRooted(p) == CleanRooted(q) <==> Segments(p) == Segments(q)
    ensures CleanRooted(p) == "/" <==> Segments(p) == []
  {
    SegmentsOrdinary(p);
    SegmentsOrdinary(q);
    SegmentsJoin(Segments(p));
    SegmentsJoin(Segments(q));
    assert CleanRooted(p)[1..] == Join(Segments(p), '/');
    assert CleanRooted(q)[1..] == Join(Segments(q), '/');
  }

  // ----- Keys -----

  // What follows the prefix in a key.
  function Remainder(segs: seq<string>, trailing: bool): string {
    if segs == [] then "" else if trailing then Join(segs, '/') + "/" else Join(segs, '/')
  }

  lemma KeyShape(prefix: string, p: string)
    ensures ToKey(prefix, p) == prefix + Remainder(Segments(p), EndsInSlash(p))
    ensures AllOrdinary(Segments(p))
  {
    SegmentsTrimmed(p);
    SegmentsOrdinary(p);
    CleanInjective(TrimRight(p, '/'), p);
    if Segments(p) != [] {
      JoinEnds(Segments(p));
    }
  }

  lemma DirPrefixShape(prefix: string, p: string)
    ensures DirPrefix(prefix, p) == prefix + Remainder(Segments(p), true)
  {
    CleanInjective(p, p);
  }

  lemma RemainderInjective(a: seq<string>, b: seq<string>, at: bool, bt: bool)
    requires AllOrdinary(a) && AllOrdinary(b)
    ensures Remainder(a, at) == Remainder(b, bt) <==> a == b && (a == [] || at == bt)
  {
    if Remainder(a, at) == Remainder(b, bt) && a != [] && b != [] {
      JoinEnds(a);
      JoinEnds(b);
      var r := Remainder(a, at);
      assert at == bt by {
        assert at <==> r[|r| - 1] == '/';
        assert bt <==> Remainder(b, bt)[|r| - 1] == '/';
      }
      assert Join(a, '/') == if at then r[..|r| - 1] else r;
      assert Join(b, '/') == if at then r[..|r| - 1] else r;
      SplitJoin(a, '/');
      SplitJoin(b, '/');
    } else if a != [] {
      JoinEnds(a);
    } else if b != [] {
      JoinEnds(b);
    }
  }

  lemma RemainderParts(segs: seq<string>, trailing: bool)
    requires AllOrdinary(segs) && segs != []
    ensures Split(Remainder(segs, trailing), '/') == if trailing then segs + [""] else segs
  {
    SplitJoin(segs, '/');
    assert Remainder(segs, true) == Join(segs, '/') + ['/'] + "";
    SplitAt(Join(segs, '/'), "", '/');
  }

  // Every key lies under the prefix, and its remainder splits into ordinary
  // segments, bar one empty segment after a trailing slash.
  lemma KeyUnderPrefix(prefix: string, p: string)
    ensures prefix <= ToKey(prefix, p)
    ensures var rest := ToKey(prefix, p)[|prefix|..];
      var parts := Split(rest, '/');
      rest == "" || AllOrdinary(parts)
      || (|parts| > 1 && parts[|parts| - 1] == "" && AllOrdinary(parts[..|parts| - 1]))
  {
    KeyShape(prefix, p);
    var segs, trailing := Segments(p), EndsInSlash(p);
    assert (prefix + Remainder(segs, trailing))[|prefix|..] == Remainder(segs, trailing);
    if segs != [] {
      RemainderParts(segs, trailing);
      assert (segs + [""])[..|segs|] == segs;
    }
  }

  lemma SegmentsOfRemainder(segs: seq<string>, trailing: bool)
    requires AllOrdinary(segs)
    ensures Segments(Remainder(segs, trailing)) == segs
    ensures segs != [] ==> EndsInSlash(Remainder(segs, trailing)) == trailing
  {
    SegmentsJoin(segs);
    if segs != [] {
      JoinEnds(segs);
      TrimRightOne(Join(segs, '/'), '/');
      SegmentsTrimmed(Join(segs, '/') + "/");
    }
  }

  // Mapping a key back to a path and forth again is the identity on keys.
  lemma KeyRoundTrip(prefix: string, p: string)
    ensures ToKey(prefix, FromKey(prefix, ToKey(prefix, p))) == ToKey(prefix, p)
  {
    var segs, trailing := Segments(p), EndsInSlash(p);
    KeyShape(prefix, p);
    assert FromKey(prefix, prefix + Remainder(segs, trailing)) == Remainder(segs, trailing);
    KeyShape(prefix, Remainder(segs, trailing));
    SegmentsOfRemainder(segs, trailing);
  }

  // Two paths share a key exactly when they clean to the same path and, unless
  // that path is the root, agree on a trailing slash.
  lemma KeySharing(prefix: string, p: string, q: string)
    ensures ToKey(prefix, p) == ToKey(prefix, q) <==>
      CleanRooted(p) == CleanRooted(q)
      && (CleanRooted(p) == "/" || EndsInSlash(p) == EndsInSlash(q))
  {
    KeyShape(prefix, p);
    KeyShape(prefix, q);
    CleanInjective(p, q);
    RemainderInjective(Segments(p), Segments(q), EndsInSlash(p), EndsInSlash(q));
    assert ToKey(prefix, p)[|prefix|..] == Remainder(Segments(p), EndsInSlash(p));
    assert ToKey(prefix, q)[|prefix|..] == Remainder(Segments(q), EndsInSlash(q));
  }

  lemma RemainderOfChild(segs: seq<string>, c: string)
    ensures Remainder(segs + [c], false) == Remainder(segs, true) + c
  {
    if segs != [] {
      JoinAppend(segs, [c], '/');
    }
  }

  lemma NoTrailingSlash(a: string, c: string)
    requires Ordinary(c)
    ensures !EndsInSlash(a + c)
  {
    assert (a + c)[|a + c| - 1] == c[|c| - 1] && c[|c| - 1] in c;
  }

  // The key of a child is the listing prefix of its directory plus its name.
  lemma KeyOfChild(prefix: string, p: string, c: string)
    requires Ordinary(c)
    ensures ToKey(prefix, p + "/" + c) == DirPrefix(prefix, p) + c
  {
    calc {
      ToKey(prefix, p + "/" + c);
    == { KeyShape(prefix, p + "/" + c); NoTrailingSlash(p + "/", c); }
      prefix + Remainder(Segments(p + "/" + c), false);
    == { SegmentsChild(p, c); }
      prefix + Remainder(Segments(p) + [c], false);
    == { RemainderOfChild(Segments(p), c); }
      prefix + (Remainder(Segments(p), true) + c);
    ==
      prefix + Remainder(Segments(p), true) + c;
    == { DirPrefixShape(prefix, p); }
      DirPrefix(prefix, p) + c;
    }
  }

  // A dot and a further slash leave the segments as they are, and two dots take
  // the last one away, if there is one.
  lemma SegmentsDots(p: string)
    ensures Segments("") == [] && Segments("/" + p) == Segments(p + "/") == Segments(p + "/.") == Segments(p)
    ensures Segments(p + "/..") == if Segments(p) == [] then [] else Segments(p)[..|Segments(p)| - 1]
  {
    SplitAt("", p, '/');
    assert "" + ['/'] + p == "/" + p && Split("/" + p, '/')[1..] == Split(p, '/');
    assert p + "/" == p + ['/'] + "" && p + "/." == p + ['/'] + "." && p + "/.." == p + ['/'] + "..";
    SegmentsThen(p, "");
    SegmentsThen(p, ".");
    SegmentsThen(p, "..");
  }

  lemma SegmentsThen(p: string, seg: string)
    requires '/' !in seg
    ensures Segments(p + ['/'] + seg) == Push(Segments(p), seg)
  {
    SplitAt(p, seg, '/');
    SplitFree(seg, '/');
    ResolveAppend([], Split(p, '/'), [seg]);
    assert [seg][1..] == [];
    assert Resolve(Segments(p), [seg]) == Resolve(Push(Segments(p), seg), []);
  }

  // ----- Prefixes -----

  lemma TrimSlashesShape(s: string)
    ensures var q := TrimSlashes(s); q == "" || (q[0] != '/' && q[|q| - 1] != '/')
    ensures s != "" && s[|s| - 1] == '/' ==> |TrimSlashes(s)| < |s|
  {
    var l := TrimLeft(s, '/');
    if l != "" {
      assert l[0] == s[|s| - |l|];
      assert l[|l| - 1] == s[|s| - 1];
      assert s[|s| - 1] == '/' ==> TrimEnd(l, '/', |l|) == TrimEnd(l, '/', |l| - 1);
      assert TrimRight(l, '/') != "" ==> TrimRight(l, '/')[0] == l[0];
    }
  }

  predicate Spaces(s: string) {
    forall i :: 0 <= i < |s| ==> IsSpace(s[i])
  }

  predicate Slashes(s: string) {
    forall i :: 0 <= i < |s| ==> s[i] == '/'
  }

  // p is q with slashes around it and white space around those; as much of both
  // as there is.
  ghost predicate TrimsTo(p: string, q: string) {
    exists i, j, k, l ::
      && 0 <= i <= j <= k <= l <= |p| && q == p[j..k]
      && Spaces(p[..i]) && Slashes(p[i..j]) && Slashes(p[k..l]) && Spaces(p[l..])
      && (q != "" ==> q[0] != '/' && q[|q| - 1] != '/')
      && (q != "" ==> !IsSpace(p[i]) && !IsSpace(p[l - 1]))
  }

  lemma {:induction false} SpaceEndSkips(s: string, n: nat)
    requires n <= |s|
    ensures forall i :: SpaceEnd(s, n) <= i < n ==> IsSpace(s[i])
  {
    if n > 0 && IsSpace(s[n - 1]) {
      SpaceEndSkips(s, n - 1);
    }
  }

  lemma {:induction false} SpaceStartSkips(s: string, n: nat)
    requires n <= |s|
    ensures forall i :: n <= i < SpaceStart(s, n) ==> IsSpace(s[i])
    decreases |s| - n
  {
    if n < |s| && IsSpace(s[n]) {
      SpaceStartSkips(s, n + 1);
    }
  }

  // t is p without the white space around it, and begins at i.
  predicate SpacesOff(p: string, i: nat, t: string) {
    && i + |t| <= |p| && t == p[i..i + |t|] && Spaces(p[..i]) && Spaces(p[i + |t|..])
    && (|t| > 0 ==> !IsSpace(p[i]) && !IsSpace(p[i + |t| - 1]))
  }

  // q is t without the slashes around it, and begins at a.
  predicate SlashesOff(t: string, a: nat, q: string) {
    && a + |q| <= |t| && q == t[a..a + |q|] && Slashes(t[..a]) && Slashes(t[a + |q|..])
    && (q != "" ==> q[0] != '/' && q[|q| - 1] != '/')
  }

  lemma TrimSpaceParts(p: string) returns (i: nat)
    ensures SpacesOff(p, i, TrimSpace(p))
  {
    i := SpaceStart(p, 0);
    var t := p[i..];
    var e := SpaceEnd(t, |t|);
    SpaceStartSkips(p, 0);
    SpaceEndSkips(t, |t|);
    assert t[..e] == p[i..i + e];
    if i < |p| {
      assert !IsSpace(t[0]);
    }
  }

  lemma TrimSlashesParts(s: string) returns (a: nat)
    ensures SlashesOff(s, a, TrimSlashes(s))
  {
    a := TrimStart(s, '/', 0);
    var t := s[a..];
    var e := TrimEnd(t, '/', |t|);
    TrimStartSkips(s, '/', 0);
    TrimEndSkips(t, '/', |t|);
    TrimSlashesShape(s);
    assert t[..e] == s[a..a + e];
  }

  lemma SliceOfSlice(s: string, i: nat, l: nat, a: nat, b: nat)
    requires i + l <= |s| && a <= b <= l
    ensures s[i..i + l][a..b] == s[i + a..i + b]
  {
    var t := s[i..i + l];
    assert forall k :: 0 <= k < b - a ==> t[a..b][k] == t[a + k] == s[i + a + k] == s[i + a..i + b][k];
  }

  lemma TrimsInTurn(p: string, i: nat, t: string, a: nat, q: string)
    requires SpacesOff(p, i, t) && SlashesOff(t, a, q)
    ensures TrimsTo(p, q)
  {
    var j, k, l := i + a, i + a + |q|, i + |t|;
    SliceOfSlice(p, i, |t|, 0, a);
    SliceOfSlice(p, i, |t|, a, a + |q|);
    SliceOfSlice(p, i, |t|, a + |q|, |t|);
    assert t[0..a] == t[..a] && t[a + |q|..|t|] == t[a + |q|..];
    assert Slashes(p[i..j]) && Slashes(p[k..l]) && q == p[j..k];
  }

  lemma TrimmedParts(p: string)
    ensures TrimsTo(p, TrimSlashes(TrimSpace(p)))
  {
    var t := TrimSpace(p);
    var i := TrimSpaceParts(p);
    var a := TrimSlashesParts(t);
    TrimsInTurn(p, i, t, a, TrimSlashes(t));
  }

  // The normalized prefix is what is between the slashes and the white space,
  // with one slash added unless that is nothing.
  lemma NormalizePrefixTrims(p: string)
    ensures var n := NormalizePrefix(p);
      && (n != "" ==> |n| > 1 && n[|n| - 1] == '/')
      && TrimsTo(p, if n == "" then "" else n[..|n| - 1])
  {
    var q := TrimSlashes(TrimSpace(p));
    TrimmedParts(p);
    assert (q + "/")[..|q|] == q;
  }

  // A normalized prefix is empty, or ends in exactly one slash and starts with none.
  lemma NormalizePrefixShape(p: string)
    ensures var n := NormalizePrefix(p);
      n == "" || (|n| > 1 && n[0] != '/' && n[|n| - 1] == '/' && n[|n| - 2] != '/')
  {
    TrimSlashesShape(TrimSpace(p));
  }

  lemma NormalizedAgain(p: string)
    ensures var n := NormalizePrefix(p);
      NormalizePrefix(n) == n <==> n == "" || !IsSpace(n[0])
  {
    var n := NormalizePrefix(p);
    if n != "" {
      NormalizePrefixShape(p);
      var t := n[SpaceStart(n, 0)..];
      if IsSpace(n[0]) {
        assert SpaceStart(n, 0) == SpaceStart(n, 1);
        if t != "" {
          assert t[|t| - 1] == '/' && TrimSpace(n) == t;
          TrimSlashesShape(t);
        }
      } else {
        var q := n[..|n| - 1];
        assert t == n && TrimSpace(n) == n && TrimLeft(n, '/') == n;
        assert n == q + ['/'];
        TrimRightOne(q, '/');
      }
    }
  }

  // Normalizing twice changes a prefix exactly when white space stands behind
  // its leading slashes.
  lemma NormalizePrefixTwice(p: string)
    ensures var t := TrimLeft(TrimSpace(p), '/');
      NormalizePrefix(NormalizePrefix(p)) == NormalizePrefix(p) <==> t == "" || !IsSpace(t[0])
  {
    var t := TrimLeft(TrimSpace(p), '/');
    NormalizedAgain(p);
    if t != "" {
      FirstStays(t, '/', |t|);
      assert NormalizePrefix(p)[0] == t[0];
    }
  }

  lemma FirstStays(s: string, c: char, n: nat)
    requires 0 < n <= |s| && s[0] != c
    ensures TrimEnd(s, c, n) > 0
  {
  }

  // "/ a" is such a prefix.
  lemma NormalizePrefixNotIdempotent()
    ensures var n := NormalizePrefix("/ a"); NormalizePrefix(n) != n
  {
    var p := "/ a";
    assert p[0..] == p && TrimSpace(p) == p;
    assert TrimStart(p, '/', 0) == TrimStart(p, '/', 1) == 1;
    assert TrimSlashes(p) == TrimLeft(p, '/') == p[1..];
    NormalizePrefixTwice(p);
  }
}
