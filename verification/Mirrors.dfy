// internal/distro/distro.go: what a mirror's URL says about it.
module Mirrors {
  import opened Strings

  datatype Mirror = Mirror(url: string, scheme: string, alias: string, official: bool)

  // urlSchemeAndPathRegex: the scheme in front goes, and every slash with the
  // rest of its line.
  function DropPaths(s: string, dropping: bool): string {
    if s == "" then ""
    else if s[0] == '\n' then [s[0]] + DropPaths(s[1..], false)
    else if dropping || s[0] == '/' then DropPaths(s[1..], true)
    else [s[0]] + DropPaths(s[1..], false)
  }

  function HostOf(url: string): string {
    DropPaths(if "https://" <= url then url[8..] else TrimPrefix(url, "http://"), false)
  }

  predicate HasSuffix(s: string, suffix: string) {
    |suffix| <= |s| && s[|s| - |suffix|..] == suffix
  }

  // tldRemovalRegex matches at the earliest position, so the longest suffix goes.
  function DropTopLevel(host: string): string {
    if HasSuffix(host, ".edu.cn") || HasSuffix(host, ".net.cn") || HasSuffix(host, ".org.cn") then host[..|host| - 7]
    else if HasSuffix(host, ".com") || HasSuffix(host, ".net") || HasSuffix(host, ".org") then host[..|host| - 4]
    else if HasSuffix(host, ".cn") then host[..|host| - 3]
    else host
  }

  function AliasOf(url: string): string {
    var group := Split(DropTopLevel(HostOf(url)), '.');
    "cn:" + group[|group| - 1]
  }

  // GenerateBuiltinMirrorItem
  function MirrorItem(url: string, official: bool): Mirror {
    var scheme := if "http://" <= url then "http" else if "https://" <= url then "https" else "";
    Mirror(url, scheme, AliasOf(url), official)
  }

  // ----- What the alias is -----

  // A host name's label.
  predicate Label(name: string) {
    '.' !in name && '/' !in name && '\n' !in name
  }

  ghost predicate Host(labels: seq<string>) {
    labels != [] && forall name <- labels :: Label(name)
  }

  ghost predicate Plain(s: string) {
    '/' !in s && '\n' !in s
  }

  lemma {:induction false} JoinPlain(labels: seq<string>)
    requires Host(labels)
    ensures Plain(Join(labels, '.'))
  {
    if |labels| > 1 {
      JoinPlain(labels[1..]);
    }
    assert labels[0] in labels;
  }

  lemma {:induction false} DropsPath(path: string)
    requires '\n' !in path
    ensures DropPaths(path, true) == ""
  {
    if path != "" {
      assert path[0] in path;
      DropsPath(path[1..]);
    }
  }

  lemma {:induction false} KeepsHost(host: string, path: string)
    requires Plain(host) && '\n' !in path && (path != "" ==> path[0] == '/')
    ensures DropPaths(host + path, false) == host
  {
    if host == "" {
      assert host + path == path;
      if path != "" {
        DropsPath(path[1..]);
        assert path[0] in path;
      }
    } else {
      assert host[0] in host && (host + path)[1..] == host[1..] + path;
      KeepsHost(host[1..], path);
    }
  }

  lemma HostIs(scheme: string, host: string, path: string)
    requires scheme == "http://" || scheme == "https://" || scheme == ""
    requires Plain(host) && '\n' !in path && (path != "" ==> path[0] == '/')
    requires scheme == "" ==> !("http://" <= host + path) && !("https://" <= host + path)
    ensures HostOf(scheme + host + path) == host
  {
    var url := scheme + host + path;
    KeepsHost(host, path);
    if scheme == "" {
      assert url == host + path;
    } else {
      assert url == scheme + (host + path);
      assert url[|scheme|..] == host + path;
      assert scheme == "http://" ==> url[4] == ':';
    }
  }

  // One of the endings that count as a top-level domain, taken whole.
  predicate TopLevelOf(host: string, top: string) {
    match |top|
    case 7 => top == ".edu.cn" || top == ".net.cn" || top == ".org.cn"
    case 4 => top == ".com" || top == ".net" || top == ".org"
    case 3 => top == ".cn" && !HasSuffix(host, ".edu") && !HasSuffix(host, ".net") && !HasSuffix(host, ".org")
    case 0 => DropTopLevel(host) == host
    case _ => false
  }

  lemma SuffixOf(host: string, top: string)
    ensures HasSuffix(host + top, top) && (host + top)[..|host|] == host
  {
  }

  lemma LastOfSuffix(s: string, suffix: string)
    requires suffix != ""
    ensures HasSuffix(s, suffix) ==> s != "" && s[|s| - 1] == suffix[|suffix| - 1]
  {
  }

  lemma DropsTopLevel(host: string, top: string)
    requires TopLevelOf(host, top)
    ensures DropTopLevel(host + top) == host
  {
    var s := host + top;
    SuffixOf(host, top);
    if top == "" {
      assert s == host;
    } else if |top| == 4 {
      assert s[|s| - 1] == top[3];
      LastOfSuffix(s, ".edu.cn");
      LastOfSuffix(s, ".net.cn");
      LastOfSuffix(s, ".org.cn");
    } else if |top| == 3 {
      CountryOnly(host);
    }
  }

  lemma CountryOnly(host: string)
    requires !HasSuffix(host, ".edu") && !HasSuffix(host, ".net") && !HasSuffix(host, ".org")
    ensures DropTopLevel(host + ".cn") == host
  {
    var s := host + ".cn";
    if |host| >= 4 {
      assert s[|s| - 7..] == host[|host| - 4..] + ".cn";
      var end := host[|host| - 4..];
      assert (end + ".cn")[..4] == end;
      assert ".edu.cn"[..4] == ".edu" && ".net.cn"[..4] == ".net" && ".org.cn"[..4] == ".org";
    }
    assert s[|s| - 1] == 'n';
  }

  // The alias of a mirror is the last label of its host name in front of the
  // top-level domain, whatever scheme and path the URL has.
  lemma AliasOfHost(scheme: string, labels: seq<string>, top: string, path: string)
    requires scheme == "http://" || scheme == "https://" || scheme == ""
    requires Host(labels) && TopLevelOf(Join(labels, '.'), top)
    requires '\n' !in path && (path != "" ==> path[0] == '/')
    requires var host := Join(labels, '.') + top;
      scheme == "" ==> !("http://" <= host + path) && !("https://" <= host + path)
    ensures AliasOf(scheme + (Join(labels, '.') + top) + path) == "cn:" + labels[|labels| - 1]
  {
    var host := Join(labels, '.');
    JoinPlain(labels);
    PlainTop(host, top);
    HostIs(scheme, host + top, path);
    DropsTopLevel(host, top);
    SplitJoin(labels, '.');
    AliasFrom(scheme + (host + top) + path, host + top, labels);
  }

  lemma PlainTop(host: string, top: string)
    requires Plain(host) && TopLevelOf(host, top)
    ensures Plain(host + top)
  {
  }

  lemma AliasFrom(url: string, host: string, labels: seq<string>)
    requires HostOf(url) == host && Split(DropTopLevel(host), '.') == labels
    ensures AliasOf(url) == "cn:" + labels[|labels| - 1]
  {
  }
}
