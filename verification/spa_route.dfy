/** tools/servers/static/serve-react.py: the single-page-application
    fallback of the static React server. A GET whose URL path names a file
    (its last segment has a dot) is served as requested; any other request
    is answered with /index.html so the client-side router can take over.
    The URL path is what Python's `urllib.parse.urlparse` (3.9 and later)
    returns for the request target; the file serving itself is left out. */
module SpaRoute {
  import opened Strings
  import opened Wrappers

  /** Index of the first character of `s` in `cs`, or |s| when there is none. */
  function FindAny(s: string, cs: set<char>): (i: nat)
    ensures i <= |s|
    ensures i < |s| ==> s[i] in cs
    ensures forall j :: 0 <= j < i ==> s[j] !in cs
  {
    if |s| == 0 then 0
    else if s[0] in cs then 0
    else 1 + FindAny(s[1..], cs)
  }

  /** `os.path.basename`: the text after the last '/'. */
  function Basename(p: string): (r: string)
    ensures |r| <= |p| && p[|p| - |r|..] == r
    ensures '/' !in r
    ensures |r| < |p| ==> p[|p| - |r| - 1] == '/'
  {
    if |p| == 0 || p[|p| - 1] == '/' then ""
    else Basename(p[..|p| - 1]) + [p[|p| - 1]]
  }

  /** The characters `urlsplit` accepts in a scheme. */
  predicate IsSchemeChar(c: char) {
    IsAlnum(c) || c == '+' || c == '-' || c == '.'
  }

  /** Length of the scheme `urlsplit` recognises: the text before the first
      ':' when it is non-empty, starts with an ASCII letter and holds scheme
      characters only. */
  function SchemeLength(url: string): (n: Option<nat>)
    ensures n.Some? ==> 0 < n.value < |url| && url[n.value] == ':' && IsLetter(url[0])
    ensures n.Some? ==> forall j :: 0 <= j < n.value ==> IsSchemeChar(url[j])
    ensures n.None? && ':' in url && IsLetter(url[0]) ==> exists j :: 0 <= j < IndexOf(url, ':') && !IsSchemeChar(url[j])
  {
    if ':' !in url then None
    else
      var i := IndexOf(url, ':');
      if i > 0 && IsLetter(url[0]) && forall j :: 0 <= j < i ==> IsSchemeChar(url[j]) then Some(i) else None
  }

  /** The schemes for which `urlparse` splits `;params` off the path. */
  const UsesParams: seq<string> := ["", "ftp", "hdl", "prospero", "http", "imap", "https", "shttp",
    "rtsp", "rtspu", "sip", "sips", "mms", "sftp", "tel"]

  /** `_splitparams`: a ';' in the last segment cuts the path at the first
      ';' of that segment; the directories before it keep theirs. */
  function CutParams(u: string): (r: string)
    ensures |r| <= |u| && u[..|r|] == r
    ensures ';' !in Basename(u) ==> r == u
    ensures ';' in Basename(u) ==> DirLength(u) <= |r| < |u| && u[|r|] == ';'
    ensures forall j :: DirLength(u) <= j < |r| ==> u[j] != ';'
  {
    var d := DirLength(u);
    var k := FindAny(u[d..], {';'});
    SegmentSearch(u, d, k);
    u[..d + k]
  }

  /** Where the last segment of `u` starts: just after its last '/', or 0. */
  function DirLength(u: string): (d: nat)
    ensures d <= |u| && u[d..] == Basename(u)
  {
    |u| - |Basename(u)|
  }

  lemma SegmentSearch(u: string, d: nat, k: nat)
    requires d <= |u| && k == FindAny(u[d..], {';'})
    ensures d + k <= |u|
    ensures forall j :: d <= j < d + k ==> u[j] != ';'
    ensures d + k < |u| ==> u[d + k] == ';'
    ensures ';' !in u[d..] <==> d + k == |u|
  {
    var b := u[d..];
    forall j | d <= j < d + k
      ensures u[j] != ';'
    {
      assert u[j] == b[j - d];
    }
    if d + k < |u| {
      assert u[d + k] == b[k];
    }
    if ';' in b {
      var i :| 0 <= i < |b| && b[i] == ';';
      assert k <= i;
    }
  }

  /** Where the text after the scheme and its ':' starts. */
  function AfterScheme(target: string): (s: nat)
    ensures s <= |target|
  {
    match SchemeLength(target) case Some(n) => n + 1 case None => 0
  }

  /** Where the netloc of `rest` ends: after "//" and up to the next '/', '?'
      or '#'; 0 when `rest` does not start with "//". */
  function NetlocEnd(rest: string): (n: nat)
    ensures n <= |rest|
    ensures n == 0 || (2 <= n && rest[..2] == "//")
  {
    if |rest| >= 2 && rest[..2] == "//" then 2 + FindAny(rest[2..], {'/', '?', '#'}) else 0
  }

  /** Where the path of `target` starts and ends: after the scheme and the
      netloc, before the first '#' and then the first '?'. None when the
      netloc holds a '[' without a ']' or the other way round (`urlsplit`
      raises "Invalid IPv6 URL"). */
  function PathBounds(target: string): (b: Option<(nat, nat)>)
    ensures b.Some? ==> b.value.0 <= b.value.1 <= |target|
    ensures b.Some? ==> forall j :: b.value.0 <= j < b.value.1 ==> target[j] != '#' && target[j] != '?'
    ensures b.Some? ==> b.value.1 == |target| || target[b.value.1] in {'#', '?'}
  {
    var s := AfterScheme(target);
    var rest := target[s..];
    var netEnd := NetlocEnd(rest);
    var netloc := if netEnd >= 2 then rest[2..netEnd] else "";
    if ('[' in netloc) != (']' in netloc) then None
    else
      var start := s + netEnd;
      var tail := target[start..];
      var e := FindAny(tail, {'#', '?'});
      PathEnd(target, start, e);
      Some((start, start + e))
  }

  lemma PathEnd(target: string, start: nat, e: nat)
    requires start <= |target| && e == FindAny(target[start..], {'#', '?'})
    ensures start + e <= |target|
    ensures forall j :: start <= j < start + e ==> target[j] != '#' && target[j] != '?'
    ensures start + e == |target| || target[start + e] in {'#', '?'}
  {
    var tail := target[start..];
    assert forall j :: start <= j < start + e ==> target[j] == tail[j - start];
  }

  /** The scheme of `target` as `urlparse` reports it, lower-cased. */
  function Scheme(target: string): string {
    match SchemeLength(target) case Some(n) => Lower(target[..n]) case None => ""
  }

  /** Whether `urlparse` splits `;params` off the path of `target`. */
  predicate SplitsParams(target: string) {
    Scheme(target) in UsesParams
  }

  /** The path between the bounds, with `;params` cut off when `cut` holds. */
  function PathBetween(target: string, lo: nat, hi: nat, cut: bool): (q: string)
    requires lo <= hi <= |target|
    requires forall j :: lo <= j < hi ==> target[j] != '#' && target[j] != '?'
    ensures '?' !in q && '#' !in q
    ensures OccursAt(target, q, lo)
    ensures cut ==> ';' !in Basename(q) && DirLength(q) == DirLength(target[lo..hi])
    ensures !cut ==> q == target[lo..hi]
  {
    var p := target[lo..hi];
    var q := if cut then CutParams(p) else p;
    CutParamsKeepsDirectories(p);
    PrefixOfPiece(target, lo, hi, q);
    q
  }

  /** A prefix of a piece of `target` free of '?' and '#' is free of them too. */
  lemma PrefixOfPiece(target: string, lo: nat, hi: nat, q: string)
    requires lo <= hi <= |target| && |q| <= hi - lo && target[lo..hi][..|q|] == q
    requires forall j :: lo <= j < hi ==> target[j] != '#' && target[j] != '?'
    ensures '?' !in q && '#' !in q
    ensures OccursAt(target, q, lo)
  {
    assert forall j :: 0 <= j < |q| ==> q[j] == target[lo + j];
    assert target[lo..lo + |q|] == q;
  }

  /** `urlparse(target).path`; None where `urlparse` raises. The path is a
      piece of the target that holds no '?' and no '#'. */
  function UrlPath(target: string): (r: Option<string>)
    ensures r.Some? <==> PathBounds(target).Some?
    ensures r.Some? ==> '?' !in r.value && '#' !in r.value
    ensures r.Some? ==> Contains(target, r.value)
    ensures r.Some? && SplitsParams(target) ==> ';' !in Basename(r.value)
  {
    match PathBounds(target)
    case None => None
    case Some(b) =>
      var q := PathBetween(target, b.0, b.1, SplitsParams(target));
      Some(q)
  }

  /** The page every non-file request is answered with. */
  const IndexPage: string := "/index.html"

  /** `do_GET`: the target the file server is asked for, None where parsing raises. */
  function Rewrite(target: string): (r: Option<string>)
    ensures r.None? <==> UrlPath(target).None?
    ensures r.Some? ==> r.value == target || r.value == IndexPage
    ensures r.Some? && target != IndexPage ==> (r.value == target <==> '.' in Basename(UrlPath(target).value))
  {
    match UrlPath(target)
    case None => None
    case Some(path) => if '.' in Basename(path) then Some(target) else Some(IndexPage)
  }

  // ---------------------------------------------------------------------------
  // Properties
  // ---------------------------------------------------------------------------

  /** An origin-form target without query, fragment or `;params` in its last
      segment is its own URL path. */
  lemma PlainPath(t: string)
    requires OriginForm(t) && '?' !in t && '#' !in t && ';' !in Basename(t)
    ensures UrlPath(t) == Some(t)
  {
    OriginFormBounds(t);
    assert FindAny(t, {'#', '?'}) == |t|;
    assert t[0..|t|] == t;
    assert "" in UsesParams;
  }

  /** A top-level file name is served as requested. */
  lemma TopLevelFileServed(name: string)
    requires '/' !in name && ';' !in name && '?' !in name && '#' !in name && '.' in name
    ensures Rewrite("/" + name) == Some("/" + name)
  {
    var t := "/" + name;
    BasenameAfterSlash("", name);
    assert "" + "/" + name == t;
    assert forall j :: 1 <= j < |t| ==> t[j] == name[j - 1];
    PlainPath(t);
  }

  /** The fallback page is itself a file request. */
  lemma IndexHtmlServed()
    ensures Rewrite(IndexPage) == Some(IndexPage)
  {
    var name := IndexPage[1..];
    assert name[5] == '.';
    assert IndexPage == "/" + name;
    TopLevelFileServed(name);
  }

  /** Rewriting is idempotent: what the server is asked for is never rewritten again. */
  lemma RewriteIdempotent(target: string)
    ensures Rewrite(target).Some? ==> Rewrite(Rewrite(target).value) == Rewrite(target)
  {
    IndexHtmlServed();
  }

  /** The basename of `dir/name` is `name` when `name` has no '/'. */
  lemma {:induction false} BasenameAfterSlash(dir: string, name: string)
    requires '/' !in name
    ensures Basename(dir + "/" + name) == name
  {
    if |name| > 0 {
      var p := dir + "/" + name;
      assert p[..|p| - 1] == dir + "/" + name[..|name| - 1];
      BasenameAfterSlash(dir, name[..|name| - 1]);
      assert name == name[..|name| - 1] + [name[|name| - 1]];
    }
  }

  /** A dot in a directory does not make a file: a path whose last segment
      has no dot falls back to the application page. */
  lemma DottedDirectoryFallsBack(target: string, dir: string, name: string)
    requires UrlPath(target) == Some(dir + "/" + name)
    requires '/' !in name && '.' !in name
    ensures Rewrite(target) == Some(IndexPage)
  {
    BasenameAfterSlash(dir, name);
  }

  /** The last segment starts at `d` when nothing after `d` is a '/' and
      `d` is 0 or follows a '/'. */
  lemma DirLengthUnique(p: string, d: nat)
    requires d <= |p| && '/' !in p[d..] && (d == 0 || p[d - 1] == '/')
    ensures DirLength(p) == d
  {
  }

  /** Only the last segment loses its `;params`: the directories are kept,
      and the new last segment has no ';'. */
  lemma CutParamsKeepsDirectories(u: string)
    ensures DirLength(CutParams(u)) == DirLength(u)
    ensures u[..DirLength(u)] == CutParams(u)[..DirLength(u)]
    ensures ';' !in Basename(CutParams(u))
  {
    var r := CutParams(u);
    var d := DirLength(u);
    assert d <= |r| by {
      if ';' !in Basename(u) { assert r == u; }
    }
    PrefixKeepsSegment(u, r, d);
  }

  /** A prefix of `u` that reaches into its last segment, without a ';'
      there, has the same directories and no ';' in its basename. */
  lemma PrefixKeepsSegment(u: string, r: string, d: nat)
    requires d <= |r| <= |u| && u[..|r|] == r
    requires '/' !in u[d..] && (d == 0 || u[d - 1] == '/')
    requires forall j :: d <= j < |r| ==> u[j] != ';'
    ensures DirLength(r) == d && ';' !in Basename(r)
  {
    assert '/' !in r[d..] by {
      forall j | 0 <= j < |r| - d
        ensures r[d..][j] != '/'
      {
        assert r[d..][j] == u[d..][j];
      }
    }
    DirLengthUnique(r, d);
    forall j | 0 <= j < |r| - d
      ensures r[d..][j] != ';'
    {
      assert r[d..][j] == u[d + j];
    }
  }

  /** A ';' in a directory is kept: an origin-form target whose last
      segment `name;params` carries parameters has the path `dir/name`, so
      "/v1.2;x/users;y" has the path "/v1.2;x/users". */
  lemma ParamsCutFromLastSegment(dir: string, name: string, params: string)
    requires OriginForm(dir + "/" + name + ";" + params)
    requires '?' !in dir + name + params && '#' !in dir + name + params
    requires '/' !in name && ';' !in name && '/' !in params
    ensures UrlPath(dir + "/" + name + ";" + params) == Some(dir + "/" + name)
  {
    var t := dir + "/" + name + ";" + params;
    var c := |dir| + 1 + |name|;
    SegmentWithParams(dir, name, params);
    CutAtFirstSemicolon(t, |dir| + 1, c);
    assert t[..c] == dir + "/" + name;
    NoDelimiters(dir, name, params);
    OriginFormBounds(t);
    assert FindAny(t, {'#', '?'}) == |t|;
    assert t[0..|t|] == t;
    assert "" in UsesParams;
  }

  /** The last segment of `dir/name;params` is `name;params`. */
  lemma SegmentWithParams(dir: string, name: string, params: string)
    requires '/' !in name && '/' !in params
    ensures var t := dir + "/" + name + ";" + params;
      DirLength(t) == |dir| + 1 && t[|dir| + 1 + |name|] == ';'
      && forall j :: |dir| + 1 <= j < |dir| + 1 + |name| ==> t[j] == name[j - |dir| - 1]
  {
    var t := dir + "/" + name + ";" + params;
    var d := |dir| + 1;
    assert '/' !in t[d..] by {
      forall j | 0 <= j < |t| - d
        ensures t[d..][j] != '/'
      {
        if j < |name| { assert t[d..][j] == name[j]; }
        else if j > |name| { assert t[d..][j] == params[j - |name| - 1]; }
      }
    }
    assert t[d - 1] == '/';
    DirLengthUnique(t, d);
  }

  /** A ';' in the last segment with none before it in that segment is where the path is cut. */
  lemma CutAtFirstSemicolon(t: string, d: nat, c: nat)
    requires DirLength(t) == d <= c < |t| && t[c] == ';'
    requires forall j :: d <= j < c ==> t[j] != ';'
    ensures CutParams(t) == t[..c]
  {
    assert ';' in Basename(t) by { assert t[d..][c - d] == ';'; }
  }

  /** `dir/name;params` holds no '?' or '#' when its parts hold none. */
  lemma NoDelimiters(dir: string, name: string, params: string)
    requires '?' !in dir + name + params && '#' !in dir + name + params
    ensures var t := dir + "/" + name + ";" + params;
      forall j :: 0 <= j < |t| ==> t[j] != '#' && t[j] != '?'
  {
    var t := dir + "/" + name + ";" + params;
    var c := |dir| + 1 + |name|;
    forall j | 0 <= j < |t|
      ensures t[j] != '#' && t[j] != '?'
    {
      if j < |dir| { assert t[j] == (dir + name + params)[j]; }
      else if j == |dir| || j == c { }
      else if j < c { assert t[j] == (dir + name + params)[j - 1]; }
      else { assert t[j] == (dir + name + params)[j - 2]; }
    }
  }

  /** The path with a parameterised directory and an undotted last segment
      falls back to the application page. */
  lemma ParamsInDirectoryFallsBack(dir: string, name: string, params: string)
    requires OriginForm(dir + "/" + name + ";" + params)
    requires '?' !in dir + name + params && '#' !in dir + name + params
    requires '/' !in name && ';' !in name && '.' !in name && '/' !in params
    ensures Rewrite(dir + "/" + name + ";" + params) == Some(IndexPage)
  {
    ParamsCutFromLastSegment(dir, name, params);
    DottedDirectoryFallsBack(dir + "/" + name + ";" + params, dir, name);
  }

  /** An origin-form path (one '/' to start, no "//") has no scheme and no netloc. */
  predicate OriginForm(p: string) {
    |p| > 0 && p[0] == '/' && (|p| == 1 || p[1] != '/')
  }

  /** For an origin-form target, the path bounds are the target up to its first '#' or '?'. */
  lemma OriginFormBounds(t: string)
    requires OriginForm(t)
    ensures PathBounds(t) == Some((0, FindAny(t, {'#', '?'})))
    ensures Scheme(t) == ""
  {
    assert !IsLetter(t[0]);
    assert SchemeLength(t).None?;
    assert t[0..] == t;
    assert |t| < 2 || t[..2] != "//" by {
      if |t| >= 2 {
        assert t[..2][1] == t[1];
      }
    }
    assert NetlocEnd(t) == 0;
  }

  /** Two targets with the same path bounds, the same text within them and
      the same scheme have the same URL path. */
  lemma SamePath(t: string, u: string, n: nat)
    requires n <= |t| && n <= |u| && t[..n] == u[..n]
    requires PathBounds(t) == Some((0, n)) && PathBounds(u) == Some((0, n))
    requires Scheme(t) == Scheme(u)
    ensures UrlPath(t) == UrlPath(u)
  {
    assert t[0..n] == t[..n] && u[0..n] == u[..n];
  }

  /** A query string never changes the decision: an origin-form path with a
      query has the same URL path as the path alone. */
  lemma QueryIgnored(p: string, q: string)
    requires OriginForm(p) && '?' !in p && '#' !in p
    ensures UrlPath(p + "?" + q) == UrlPath(p)
  {
    assert p + "?" + q == p + ("?" + q);
    TailIgnored(p, "?" + q);
  }

  /** Nor does a fragment. */
  lemma FragmentIgnored(p: string, f: string)
    requires OriginForm(p) && '?' !in p && '#' !in p
    ensures UrlPath(p + "#" + f) == UrlPath(p)
  {
    assert p + "#" + f == p + ("#" + f);
    TailIgnored(p, "#" + f);
  }

  /** What follows a '?' or a '#' after an origin-form path is not part of the path. */
  lemma TailIgnored(p: string, tail: string)
    requires OriginForm(p) && '?' !in p && '#' !in p
    requires |tail| > 0 && tail[0] in {'#', '?'}
    ensures UrlPath(p + tail) == UrlPath(p)
  {
    var t := p + tail;
    assert t[0] == p[0];
    assert |p| >= 2 ==> t[1] == p[1];
    OriginFormBounds(p);
    OriginFormBounds(t);
    FindAnyBefore(p, tail, {'#', '?'});
    assert FindAny(p, {'#', '?'}) == |p|;
    assert t[..|p|] == p[..|p|];
    SamePath(t, p, |p|);
  }

  /** Searching `a + b` finds the first hit of `b` after `a` when `a` has none. */
  lemma FindAnyBefore(a: string, b: string, cs: set<char>)
    requires forall j :: 0 <= j < |a| ==> a[j] !in cs
    requires |b| > 0 && b[0] in cs
    ensures FindAny(a + b, cs) == |a|
  {
    var t := a + b;
    assert t[|a|] == b[0];
  }
}
