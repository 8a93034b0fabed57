/** The single-page-application fallback controller: any non-API request is
    answered with a static file from the configured directory, or with the
    application's index page so that client-side routing can take over. A
    path is a sequence of segments; the file system is a parameter telling
    which paths are regular files. */
module Spa {
  import opened Common
  import opened Strings

  const IndexFileName: string := "index.html"

  /** How a served response may be cached. */
  datatype CachePolicy = PublicFiveMinutes | NoCache

  datatype SpaResponse = NotFound | Serve(path: seq<string>, cache: CachePolicy)

  /** The segments of a path text: the pieces between slashes, empty ones
      (from repeated or trailing slashes) dropped. */
  function Segments(text: string): (r: seq<string>)
    ensures forall i :: 0 <= i < |r| ==> r[i] != ""
  {
    NonEmpty(Pieces(text, '/'))
  }

  function NonEmpty(p: seq<string>): (r: seq<string>)
    ensures forall i :: 0 <= i < |r| ==> r[i] != ""
    ensures forall x :: x in r <==> x in p && x != ""
  {
    if |p| == 0 then []
    else if p[|p| - 1] == "" then NonEmpty(p[..|p| - 1])
    else NonEmpty(p[..|p| - 1]) + [p[|p| - 1]]
  }

  /** A normal absolute path: no empty, "." or ".." segment. */
  predicate IsNormal(p: seq<string>) {
    forall i :: 0 <= i < |p| ==> p[i] != "" && p[i] != "." && p[i] != ".."
  }

  /** `Path.normalize` on an absolute path: "." segments vanish, ".." removes
      the segment before it, and a ".." at the root is dropped. */
  function Normalize(p: seq<string>): (r: seq<string>)
    requires forall i :: 0 <= i < |p| ==> p[i] != ""
    ensures IsNormal(r)
    ensures |r| <= |p|
  {
    if |p| == 0 then []
    else
      var n := Normalize(p[..|p| - 1]);
      var x := p[|p| - 1];
      if x == "." then n
      else if x == ".." then (if |n| > 0 then n[..|n| - 1] else n)
      else n + [x]
  }

  /** A path that is already normal is its own normal form. */
  lemma {:induction false} NormalizeNormal(p: seq<string>)
    requires IsNormal(p)
    ensures Normalize(p) == p
  {
    if |p| > 0 {
      NormalizeNormal(p[..|p| - 1]);
      assert p == p[..|p| - 1] + [p[|p| - 1]];
    }
  }

  /** Normalising the extension of a normal path by normal segments only
      appends them. */
  lemma {:induction false} NormalizeAppend(d: seq<string>, s: seq<string>)
    requires IsNormal(d) && IsNormal(s)
    ensures Normalize(d + s) == d + s
  {
    assert IsNormal(d + s) by {
      forall i | 0 <= i < |d + s| ensures (d + s)[i] != "" && (d + s)[i] != "." && (d + s)[i] != ".." {
        if i < |d| { assert (d + s)[i] == d[i]; } else { assert (d + s)[i] == s[i - |d|]; }
      }
    }
    NormalizeNormal(d + s);
  }

  /** `Path.startsWith` for paths: `dir` is a segment-wise prefix of `p`. */
  predicate IsUnder(p: seq<string>, dir: seq<string>) {
    |dir| <= |p| && p[..|dir|] == dir
  }

  /** `staticDirectory.resolve(relative).normalize()`: an absolute relative
      text replaces the directory. */
  function Resolve(dir: seq<string>, relative: string): (r: seq<string>)
    requires IsNormal(dir)
    ensures IsNormal(r)
  {
    var segs := Segments(relative);
    if |relative| > 0 && relative[0] == '/' then Normalize(segs) else Normalize(dir + segs)
  }

  /** `resolveStaticPath`: the resolved path, or `None` when it leaves the
      static directory. */
  function ResolveStaticPath(dir: seq<string>, relative: string): (r: Option<seq<string>>)
    requires IsNormal(dir)
    ensures r.Some? <==> IsUnder(Resolve(dir, relative), dir)
    ensures r.Some? ==> r.value == Resolve(dir, relative) && IsUnder(r.value, dir)
  {
    var target := Resolve(dir, relative);
    if IsUnder(target, dir) then Some(target) else None
  }

  /** `extractRelativePath`: "index.html" for an absent, blank or "/" URI;
      otherwise the URI without one leading "/", or "index.html" when that
      leaves nothing but white space. */
  function ExtractRelativePath(uri: Option<string>): (r: string)
    ensures !IsBlank(r)
    ensures uri.None? || IsBlank(uri.value) || uri.value == "/" ==> r == IndexFileName
    ensures uri.Some? && |uri.value| > 0 && uri.value[0] == '/' && !IsBlank(uri.value[1..]) ==> r == uri.value[1..]
    ensures uri.Some? && !IsBlank(uri.value) && (|uri.value| == 0 || uri.value[0] != '/') ==> r == uri.value
    ensures uri.Some? && |uri.value| > 0 && uri.value[0] == '/' && IsBlank(uri.value[1..]) ==> r == IndexFileName
  {
    if uri.None? || IsBlank(uri.value) || uri.value == "/" then (assert IndexFileName[0] == 'i'; IndexFileName)
    else
      var trimmed := if StartsWith(uri.value, "/") then uri.value[1..] else uri.value;
      if IsBlank(trimmed) then (assert IndexFileName[0] == 'i'; IndexFileName) else trimmed
  }

  /** `serveSpa`. `regularFile` tells whether a path exists and is a
      regular file; `uri` is the request URI. */
  function ServeSpa(dir: seq<string>, uri: string, regularFile: seq<string> -> bool): (r: SpaResponse)
    requires IsNormal(dir)
    ensures StartsWith(uri, "/api") ==> r == NotFound
    ensures r.Serve? ==> IsUnder(r.path, dir) && regularFile(r.path)
    ensures r.Serve? && r.cache == NoCache ==> r.path == dir + [IndexFileName] && '.' !in ExtractRelativePath(Some(uri))
    ensures r.Serve? && r.cache == PublicFiveMinutes ==> ResolveStaticPath(dir, ExtractRelativePath(Some(uri))) == Some(r.path)
    ensures !StartsWith(uri, "/api") ==>
      var relative := ExtractRelativePath(Some(uri));
      var candidate := ResolveStaticPath(dir, relative);
      var index := dir + [IndexFileName];
      r == if candidate.Some? && regularFile(candidate.value) then Serve(candidate.value, PublicFiveMinutes)
           else if '.' !in relative && regularFile(index) then Serve(index, NoCache)
           else NotFound
  {
    if StartsWith(uri, "/api") then NotFound
    else
      var relative := ExtractRelativePath(Some(uri));
      var isAsset := '.' in relative;
      var candidate := ResolveStaticPath(dir, relative);
      if candidate.Some? && regularFile(candidate.value) then Serve(candidate.value, PublicFiveMinutes)
      else
        var index := dir + [IndexFileName];
        if !isAsset && regularFile(index) then Serve(index, NoCache)
        else NotFound
  }

  /** An asset request (one whose path holds a '.') never falls back to the
      index page: it is the requested file or NOT_FOUND. */
  lemma AssetNeverFallsBack(dir: seq<string>, uri: string, regularFile: seq<string> -> bool)
    requires IsNormal(dir)
    requires '.' in ExtractRelativePath(Some(uri))
    ensures ServeSpa(dir, uri, regularFile) == NotFound ||
      ServeSpa(dir, uri, regularFile) == Serve(ResolveStaticPath(dir, ExtractRelativePath(Some(uri))).value, PublicFiveMinutes)
  {
  }

  /** A relative path of plain segments stays inside the static directory
      and names the file under it. */
  lemma PlainPathResolvesInside(dir: seq<string>, relative: string)
    requires IsNormal(dir)
    requires |relative| > 0 && relative[0] != '/'
    requires IsNormal(Segments(relative))
    ensures ResolveStaticPath(dir, relative) == Some(dir + Segments(relative))
  {
    NormalizeAppend(dir, Segments(relative));
    assert (dir + Segments(relative))[..|dir|] == dir;
  }

  /** "../name" has the segments ".." and `name`. */
  lemma ParentSegments(name: string)
    requires name != "" && '/' !in name
    ensures Segments("../" + name) == ["..", name]
  {
    var rel := "../" + name;
    assert Pieces(rel, '/') == [".."] + Pieces(name, '/') by {
      assert rel == ".." + ['/'] + name;
      PiecesAtFirstDelimiter("..", '/', name);
    }
    PiecesWithoutDelimiter(name, '/');
    assert ["..", name][..1] == [".."];
    assert [".."][..0] == [];
    assert NonEmpty([".."]) == [".."];
  }

  /** A ".." after a normal directory removes its last segment. */
  lemma NormalizeParent(dir: seq<string>, name: string)
    requires IsNormal(dir) && |dir| > 0
    requires name != "" && name != "." && name != ".."
    ensures var p := dir + ["..", name];
      (forall i :: 0 <= i < |p| ==> p[i] != "") && Normalize(p) == dir[..|dir| - 1] + [name]
  {
    var q := dir + [".."];
    var p := q + [name];
    assert p == dir + ["..", name];
    forall i | 0 <= i < |p| ensures p[i] != "" {
      if i < |dir| { assert p[i] == dir[i]; }
    }
    assert q[..|dir|] == dir;
    NormalizeNormal(dir);
    assert Normalize(q) == dir[..|dir| - 1];
    assert p[..|p| - 1] == q;
  }

  /** Climbing out of the static directory is refused: "../name" names a
      sibling of the directory, which is not under it unless it is the
      directory itself. */
  lemma ParentEscapeRejected(dir: seq<string>, name: string)
    requires IsNormal(dir) && |dir| > 0
    requires IsNormal([name]) && '/' !in name
    requires name != dir[|dir| - 1]
    ensures ResolveStaticPath(dir, "../" + name) == None
  {
    assert [name][0] == name;
    ParentSegments(name);
    NormalizeParent(dir, name);
    var target := dir[..|dir| - 1] + [name];
    assert ("../" + name)[0] == '.';
    assert Resolve(dir, "../" + name) == target;
    assert target[|dir| - 1] == name;
  }
}
