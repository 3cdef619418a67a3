// The string operations of Go's standard library that the modelled code calls,
// on strings seen as sequences of characters.
module Strings {

  // strings.HasSuffix(s, "/")
  predicate EndsInSlash(s: string) {
    s != "" && s[|s| - 1] == '/'
  }

  // strings.TrimPrefix
  function TrimPrefix(s: string, prefix: string): string {
    if prefix <= s then s[|prefix|..] else s
  }

  // Where trailing (leading) characters c of s[..n] (s[n..]) end.
  function TrimEnd(s: string, c: char, n: nat): (r: nat)
    requires n <= |s|
    ensures r <= n && (r == 0 || s[r - 1] != c)
  {
    if n > 0 && s[n - 1] == c then TrimEnd(s, c, n - 1) else n
  }

  function TrimStart(s: string, c: char, n: nat): (r: nat)
    requires n <= |s|
    ensures n <= r <= |s| && (r == |s| || s[r] != c)
    decreases |s| - n
  {
    if n < |s| && s[n] == c then TrimStart(s, c, n + 1) else n
  }

  lemma {:induction false} TrimEndSkips(s: string, c: char, n: nat)
    requires n <= |s|
    ensures forall i :: TrimEnd(s, c, n) <= i < n ==> s[i] == c
  {
    if n > 0 && s[n - 1] == c {
      TrimEndSkips(s, c, n - 1);
    }
  }

  lemma {:induction false} TrimStartSkips(s: string, c: char, n: nat)
    requires n <= |s|
    ensures forall i :: n <= i < TrimStart(s, c, n) ==> s[i] == c
    decreases |s| - n
  {
    if n < |s| && s[n] == c {
      TrimStartSkips(s, c, n + 1);
    }
  }

  // strings.TrimLeft / strings.TrimRight with a one-character cutset
  function TrimLeft(s: string, c: char): string {
    s[TrimStart(s, c, 0)..]
  }

  function TrimRight(s: string, c: char): string {
    s[..TrimEnd(s, c, |s|)]
  }

  lemma TrimRightSolid(s: string, c: char)
    requires s == "" || s[|s| - 1] != c
    ensures TrimRight(s, c) == s
  {
  }

  lemma TrimRightOne(s: string, c: char)
    requires s == "" || s[|s| - 1] != c
    ensures TrimRight(s + [c], c) == s
  {
    assert TrimEnd(s + [c], c, |s|) == |s|;
  }

  // The index of the last c in s[..n], or -1.
  function LastIndexBelow(s: string, c: char, n: nat): (i: int)
    requires n <= |s|
    ensures -1 <= i < n
    ensures i >= 0 ==> s[i] == c
    ensures forall k :: i < k < n ==> s[k] != c
  {
    if n == 0 then -1 else if s[n - 1] == c then n - 1 else LastIndexBelow(s, c, n - 1)
  }

  // strings.LastIndex
  function LastIndex(s: string, c: char): int {
    LastIndexBelow(s, c, |s|)
  }

  // strings.Split with a one-character separator
  function Split(s: string, sep: char): (r: seq<string>)
    ensures r != []
    ensures forall seg <- r :: sep !in seg
  {
    if s == "" then [""]
    else
      var rest := Split(s[1..], sep);
      if s[0] == sep then [""] + rest else [[s[0]] + rest[0]] + rest[1..]
  }

  // strings.Join with a one-character separator
  function Join(segs: seq<string>, sep: char): string {
    if segs == [] then ""
    else if |segs| == 1 then segs[0]
    else segs[0] + [sep] + Join(segs[1..], sep)
  }

  lemma SplitFree(s: string, sep: char)
    requires sep !in s
    ensures Split(s, sep) == [s]
  {
    if s != "" {
      SplitFree(s[1..], sep);
      assert s[0] in s;
      assert s == [s[0]] + s[1..];
    }
  }

  // Splitting distributes over a separator: the one fact every path lemma rests on.
  lemma {:induction false} SplitAt(a: string, b: string, sep: char)
    ensures Split(a + [sep] + b, sep) == Split(a, sep) + Split(b, sep)
  {
    var s := a + [sep] + b;
    if a == "" {
      assert s[1..] == b;
    } else {
      assert s[1..] == a[1..] + [sep] + b;
      SplitAt(a[1..], b, sep);
      assert s[0] == a[0];
    }
  }

  lemma {:induction false} SplitJoin(segs: seq<string>, sep: char)
    requires segs != []
    requires forall seg <- segs :: sep !in seg
    ensures Split(Join(segs, sep), sep) == segs
  {
    SplitFree(segs[0], sep);
    if |segs| > 1 {
      SplitAt(segs[0], Join(segs[1..], sep), sep);
      SplitJoin(segs[1..], sep);
    }
  }

  lemma {:induction false} JoinAppend(a: seq<string>, b: seq<string>, sep: char)
    requires a != [] && b != []
    ensures Join(a + b, sep) == Join(a, sep) + [sep] + Join(b, sep)
  {
    if |a| == 1 {
      assert (a + b)[1..] == b;
    } else {
      assert (a + b)[1..] == a[1..] + b;
      JoinAppend(a[1..], b, sep);
    }
  }
}
