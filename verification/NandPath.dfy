/** NAND paths: the guest's spelling of a path is brought into a canonical form, which
    is then split below the host directory that stands for the NAND root. */
module NandPath {
  /** std::replace of backslashes. */
  function Slashed(s: string): (r: string)
    ensures |r| == |s| && forall i :: 0 <= i < |s| ==> r[i] == if s[i] == '\\' then '/' else s[i]
  {
    seq(|s|, i requires 0 <= i < |s| => if s[i] == '\\' then '/' else s[i])
  }

  /** A relative path is taken below the title's data directory. */
  function Absolute(path: string, dir: string): string
    requires path != ""
  {
    var p := Slashed(path);
    if p[0] == '/' then p else dir + "/" + p
  }

  // ---------------------------------------------------------------- components

  /** s cut at every slash; part is what was read of the first component. */
  function Split(part: string, s: string): (cs: seq<string>)
    ensures cs != []
    decreases |s|
  {
    if s == [] then [part]
    else if s[0] == '/' then [part] + Split([], s[1..])
    else Split(part + [s[0]], s[1..])
  }

  /** One component: ".." takes a name back, clamped at the root. */
  function Push(parts: seq<string>, c: string): seq<string> {
    if c == ".." then (if parts == [] then [] else parts[..|parts| - 1])
    else if c == "" || c == "." then parts
    else parts + [c]
  }

  function Resolve(parts: seq<string>, cs: seq<string>): seq<string>
    decreases |cs|
  {
    if cs == [] then parts else Resolve(Push(parts, cs[0]), cs[1..])
  }

  function Render(parts: seq<string>): string
    decreases |parts|
  {
    if parts == [] then "" else "/" + parts[0] + Render(parts[1..])
  }

  function Rendered(parts: seq<string>): string {
    if parts == [] then "/" else Render(parts)
  }

  function Parts(path: string, dir: string): seq<string>
    requires path != ""
    requires dir != ""
  {
    Resolve([], Split([], Absolute(path, dir)[1..]))
  }

  function Canonical(path: string, dir: string): string
    requires dir != ""
  {
    if path == "" then "" else Rendered(Parts(path, dir))
  }

  // ---------------------------------------------------------------- resolution

  predicate IsName(c: string) {
    c != "" && c != "." && c != ".."
  }

  /** Read from the end: a name stays unless one of the n pending ".." takes it. */
  function Survivors(cs: seq<string>, n: nat): seq<string>
    decreases |cs|
  {
    if cs == [] then []
    else
      var front, c := cs[..|cs| - 1], cs[|cs| - 1];
      if c == ".." then Survivors(front, n + 1)
      else if !IsName(c) then Survivors(front, n)
      else if n > 0 then Survivors(front, n - 1)
      else Survivors(front, 0) + [c]
  }

  function DropLast(parts: seq<string>, n: nat): seq<string> {
    if n >= |parts| then [] else parts[..|parts| - n]
  }

  lemma {:induction false} ResolveLast(parts: seq<string>, cs: seq<string>, c: string)
    ensures Resolve(parts, cs + [c]) == Push(Resolve(parts, cs), c)
    decreases |cs|
  {
    if cs == [] {
      assert ([] + [c])[1..] == [];
    } else {
      assert (cs + [c])[1..] == cs[1..] + [c];
      ResolveLast(Push(parts, cs[0]), cs[1..], c);
    }
  }

  /** The component stack computes the names that no later ".." takes back. */
  lemma {:induction false} ResolveIsSurvivors(cs: seq<string>, n: nat)
    ensures Survivors(cs, n) == DropLast(Resolve([], cs), n)
    decreases |cs|
  {
    if cs != [] {
      var front, c := cs[..|cs| - 1], cs[|cs| - 1];
      assert cs == front + [c];
      ResolveLast([], front, c);
      ResolveIsSurvivors(front, if c == ".." then n + 1 else if IsName(c) && n > 0 then n - 1 else n);
    }
  }

  // ---------------------------------------------------------------- the canonical form

  predicate CleanName(c: string) {
    IsName(c) && forall i :: 0 <= i < |c| ==> c[i] != '/' && c[i] != '\\'
  }

  predicate Clean(parts: seq<string>) {
    forall i :: 0 <= i < |parts| ==> CleanName(parts[i])
  }

  predicate NoSeparators(c: string) {
    forall i :: 0 <= i < |c| ==> c[i] != '/' && c[i] != '\\'
  }

  predicate NoBackslash(s: string) {
    forall i :: 0 <= i < |s| ==> s[i] != '\\'
  }

  lemma {:induction false} SplitNoSeparators(part: string, s: string)
    requires NoSeparators(part) && NoBackslash(s)
    ensures forall i :: 0 <= i < |Split(part, s)| ==> NoSeparators(Split(part, s)[i])
    decreases |s|
  {
    if s != [] {
      if s[0] == '/' {
        SplitNoSeparators([], s[1..]);
      } else {
        SplitNoSeparators(part + [s[0]], s[1..]);
      }
    }
  }

  lemma {:induction false} ResolveClean(parts: seq<string>, cs: seq<string>)
    requires Clean(parts) && forall i :: 0 <= i < |cs| ==> NoSeparators(cs[i])
    ensures Clean(Resolve(parts, cs))
    decreases |cs|
  {
    if cs != [] { ResolveClean(Push(parts, cs[0]), cs[1..]); }
  }

  /** For every non-empty path the canonical form is "/" or "/c1/.../cn" with clean
      names: nothing empty, ".", "..", no separator inside. */
  lemma CanonicalForm(path: string, dir: string)
    requires path != "" && dir != "" && NoBackslash(dir)
    ensures Clean(Parts(path, dir)) && Canonical(path, dir) == Rendered(Parts(path, dir))
  {
    var a := Absolute(path, dir);
    assert NoBackslash(a);
    SplitNoSeparators([], a[1..]);
    ResolveClean([], Split([], a[1..]));
  }

  lemma {:induction false} ResolveOver(parts: seq<string>, cs: seq<string>, ds: seq<string>)
    ensures Resolve(parts, cs + ds) == Resolve(Resolve(parts, cs), ds)
    decreases |cs|
  {
    if cs == [] {
      assert cs + ds == ds;
    } else {
      assert (cs + ds)[1..] == cs[1..] + ds;
      ResolveOver(Push(parts, cs[0]), cs[1..], ds);
    }
  }

  lemma {:induction false} SplitJoined(part: string, d: string, p: string)
    ensures Split(part, d + "/" + p) == Split(part, d) + Split([], p)
    decreases |d|
  {
    var s := d + "/" + p;
    if d == [] {
      assert s[0] == '/' && s[1..] == p;
    } else {
      assert s[0] == d[0] && s[1..] == d[1..] + "/" + p;
      if d[0] == '/' {
        SplitJoined([], d[1..], p);
        assert [part] + (Split([], d[1..]) + Split([], p)) == [part] + Split([], d[1..]) + Split([], p);
      } else {
        SplitJoined(part + [d[0]], d[1..], p);
      }
    }
  }

  /** A path that begins with a separator means the same whatever the data directory; any
      other is resolved component by component from the data directory's own names. */
  lemma RelativeBelowData(path: string, dir: string)
    requires path != "" && dir != "" && dir[0] == '/'
    ensures path[0] == '/' || path[0] == '\\' ==> Parts(path, dir) == Resolve([], Split([], Slashed(path)[1..]))
    ensures path[0] != '/' && path[0] != '\\' ==>
              Parts(path, dir) == Resolve(Resolve([], Split([], dir[1..])), Split([], Slashed(path)))
  {
    var p := Slashed(path);
    if p[0] != '/' {
      assert (dir + "/" + p)[1..] == dir[1..] + "/" + p;
      SplitJoined([], dir[1..], p);
      ResolveOver([], Split([], dir[1..]), Split([], p));
    }
  }

  lemma {:induction false} SplitRun(part: string, c: string, s: string)
    requires forall i :: 0 <= i < |c| ==> c[i] != '/'
    ensures Split(part, c + s) == Split(part + c, s)
    decreases |c|
  {
    if c == [] {
      assert c + s == s && part + c == part;
    } else {
      assert (c + s)[0] == c[0] && (c + s)[1..] == c[1..] + s;
      SplitRun(part + [c[0]], c[1..], s);
      assert part + [c[0]] + c[1..] == part + c;
    }
  }

  /** Cutting a rendered path gives its names back, after the empty text before the
      first slash. */
  lemma {:induction false} SplitRendered(part: string, parts: seq<string>)
    requires Clean(parts)
    ensures Split(part, Render(parts)) == [part] + parts
    decreases |parts|
  {
    if parts != [] {
      var c, rest := parts[0], Render(parts[1..]);
      assert CleanName(c);
      assert Render(parts) == ['/'] + c + rest;
      assert Render(parts)[0] == '/' && Render(parts)[1..] == c + rest;
      SplitRun([], c, rest);
      assert [] + c == c;
      SplitRendered(c, parts[1..]);
      assert [part] + ([c] + parts[1..]) == [part] + parts;
    }
  }

  lemma {:induction false} ResolveNames(parts: seq<string>, cs: seq<string>)
    requires Clean(cs)
    ensures Resolve(parts, cs) == parts + cs
    decreases |cs|
  {
    if cs != [] {
      assert CleanName(cs[0]);
      ResolveNames(parts + [cs[0]], cs[1..]);
      assert parts + [cs[0]] + cs[1..] == parts + cs;
    }
  }

  lemma {:induction false} RenderNoBackslash(parts: seq<string>)
    requires Clean(parts)
    ensures NoBackslash(Render(parts))
    decreases |parts|
  {
    if parts != [] {
      assert CleanName(parts[0]);
      RenderNoBackslash(parts[1..]);
    }
  }

  /** A canonical path is its own canonical form: its names are read back as they are. */
  lemma RenderedParts(parts: seq<string>, dir: string)
    requires Clean(parts) && dir != ""
    ensures Rendered(parts) != "" && Parts(Rendered(parts), dir) == parts
  {
    var p := Rendered(parts);
    if parts == [] {
      assert Absolute(p, dir) == p && p[1..] == "";
      assert Resolve([], [""]) == [] by { assert [""][1..] == []; }
    } else {
      RenderNoBackslash(parts);
      assert Slashed(p) == p;
      var c, rest := parts[0], Render(parts[1..]);
      assert CleanName(c);
      assert p[1..] == c + rest;
      SplitRun([], c, rest);
      assert [] + c == c;
      SplitRendered(c, parts[1..]);
      assert [c] + parts[1..] == parts;
      ResolveNames([], parts);
    }
  }

  /** Normalising twice changes nothing more, from whatever data directory. */
  lemma CanonicalIsIdempotent(path: string, dir: string, dir': string)
    requires dir != "" && dir' != "" && NoBackslash(dir)
    ensures Canonical(Canonical(path, dir), dir') == Canonical(path, dir)
  {
    if path != "" {
      CanonicalForm(path, dir);
      RenderedParts(Parts(path, dir), dir');
    }
  }

  // ---------------------------------------------------------------- the host path

  function NonEmpty(cs: seq<string>): seq<string>
    decreases |cs|
  {
    if cs == [] then [] else (if cs[0] == "" then [] else [cs[0]]) + NonEmpty(cs[1..])
  }

  /** The components HostPath appends to the NAND root. */
  function Below(path: string): seq<string> {
    NonEmpty(Split([], path))
  }

  lemma {:induction false} NonEmptyNames(cs: seq<string>)
    requires Clean(cs)
    ensures NonEmpty(cs) == cs
    decreases |cs|
  {
    if cs != [] {
      assert CleanName(cs[0]);
      NonEmptyNames(cs[1..]);
    }
  }

  /** HostPath splits a canonical path into exactly its names, so the file lies below
      the NAND root, one directory per name. */
  lemma HostPathOfCanonical(path: string, dir: string)
    requires path != "" && dir != "" && NoBackslash(dir)
    ensures Below(Canonical(path, dir)) == Parts(path, dir)
  {
    CanonicalForm(path, dir);
    var parts := Parts(path, dir);
    hide Parts, Canonical;
    if parts == [] {
      assert Split([], "/") == [""] + Split([], "") by { assert "/"[1..] == ""; }
      assert [""][1..] == [] && ["", ""][1..] == [""];
      assert NonEmpty([""]) == [];
      assert NonEmpty(["", ""]) == [];
    } else {
      SplitRendered([], parts);
      NonEmptyNames(parts);
      assert ([""] + parts)[1..] == parts;
    }
  }

  // ---------------------------------------------------------------- the loops

  /** Normalize. */
  method Normalize(path: string, dir: string) returns (r: string)
    requires dir != ""
    ensures r == Canonical(path, dir)
  {
    var p := Slashed(path);
    if p == "" {
      return "";
    }
    if p[0] != '/' {
      p := dir + "/" + p;
    }
    assert p == Absolute(path, dir);
    var parts: seq<string>, part: string := [], [];
    var i := 1;
    assert p[1..] == Absolute(path, dir)[1..];
    while i <= |p|
      invariant 1 <= i <= |p| + 1
      invariant i <= |p| ==> Resolve(parts, Split(part, p[i..])) == Parts(path, dir)
      invariant i == |p| + 1 ==> parts == Parts(path, dir)
    {
      if i < |p| && p[i] != '/' {
        assert p[i..][1..] == p[i + 1..];
        part := part + [p[i]];
        i := i + 1;
        continue;
      }
      assert i < |p| ==> p[i..][1..] == p[i + 1..] && ([part] + Split([], p[i + 1..]))[1..] == Split([], p[i + 1..]);
      assert i == |p| ==> p[i..] == [] && [part][1..] == [];
      if part == ".." {
        if parts != [] {
          parts := parts[..|parts| - 1];
        }
      } else if part != "" && part != "." {
        parts := parts + [part];
      }
      part := [];
      i := i + 1;
    }
    r := RenderLoop(parts);
    if r == "" {
      r := "/";
    }
  }

  method RenderLoop(parts: seq<string>) returns (r: string)
    ensures r == Render(parts) && (r == "" <==> parts == [])
  {
    r := "";
    var i := 0;
    while i < |parts|
      invariant i <= |parts| && r + Render(parts[i..]) == Render(parts)
      invariant r == "" <==> i == 0
    {
      assert parts[i..][1..] == parts[i + 1..];
      assert Render(parts[i..]) == ("/" + parts[i]) + Render(parts[i + 1..]);
      assert r + (("/" + parts[i]) + Render(parts[i + 1..])) == r + ("/" + parts[i]) + Render(parts[i + 1..]);
      r := r + ("/" + parts[i]);
      i := i + 1;
    }
    assert parts[i..] == [] && r + "" == r;
  }

  /** HostPath: the components appended to the NAND root, in order. */
  method HostPath(path: string) returns (names: seq<string>)
    ensures names == Below(path)
  {
    names := [];
    var cursor := 0;
    assert path[0..] == path && [] + Below(path) == Below(path);
    while cursor < |path|
      invariant cursor <= |path| && names + Below(path[cursor..]) == Below(path)
    {
      var end := FindSlash(path, cursor);
      CutAtSlash(path, cursor, end, names);
      if end != cursor {
        names := names + [path[cursor..end]];
      }
      if end == |path| {
        return;
      }
      cursor := end + 1;
    }
    assert path[cursor..] == [];
    assert NonEmpty([""]) == [] by { assert [""][1..] == []; }
    assert names + [] == names;
  }

  /** guestPath.find('/', cursor), the length standing for npos. */
  method FindSlash(path: string, cursor: nat) returns (end: nat)
    requires cursor <= |path|
    ensures cursor <= end <= |path| && (end < |path| ==> path[end] == '/')
    ensures forall i :: cursor <= i < end ==> path[i] != '/'
  {
    end := cursor;
    while end < |path|
      invariant cursor <= end <= |path| && forall i :: cursor <= i < end ==> path[i] != '/'
    {
      if path[end] == '/' {
        return;
      }
      end := end + 1;
    }
  }

  lemma CutAtSlash(path: string, cursor: nat, end: nat, names: seq<string>)
    requires cursor <= end <= |path| && (end < |path| ==> path[end] == '/')
    requires forall i :: cursor <= i < end ==> path[i] != '/'
    ensures var names' := if end != cursor then names + [path[cursor..end]] else names;
            names + Below(path[cursor..]) == names' + if end < |path| then Below(path[end + 1..]) else []
  {
    var c, s := path[cursor..end], path[end..];
    assert path[cursor..] == c + s;
    SplitRun([], c, s);
    assert [] + c == c;
    if end < |path| {
      assert s[1..] == path[end + 1..];
      var rest := Split([], path[end + 1..]);
      assert Split(c, s) == [c] + rest && ([c] + rest)[1..] == rest;
      var first := if c == "" then [] else [c];
      assert names + (first + NonEmpty(rest)) == names + first + NonEmpty(rest);
      assert names + [] == names;
    } else {
      assert [c][1..] == [];
      assert NonEmpty([c]) == if c == "" then [] else [c];
      assert names + [] == names && names + [c] + [] == names + [c];
    }
  }
}
