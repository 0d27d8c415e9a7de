/** Path normalisation for the path-taking tools (src/common.py): a fixed table of
    friendly directory names, then home expansion and absolutisation.

    The process environment is made explicit: `home` is the value of `$HOME` that
    `os.path.expanduser` reads, `cwd` the working directory that
    `os.path.abspath` joins relative paths to. */
module Common {
  import opened Wrappers
  import opened PyStr

  /** The friendly names and the directories they stand for. */
  const Aliases: map<string, string> := map[
    "documents" := "~/Documents",
    "desktop" := "~/Desktop",
    "downloads" := "~/Downloads",
    "pictures" := "~/Pictures",
    "videos" := "~/Videos",
    "music" := "~/Music",
    "home" := "~",
    "application documents" := "~/Documents/APPLICATION DOCUMENTS",
    "application documents folder" := "~/Documents/APPLICATION DOCUMENTS"
  ]

  /** Every friendly name begins with a lower-case letter, every target with `~`. */
  lemma AliasShapes()
    ensures forall k :: k in Aliases ==> k != [] && 'a' <= k[0] <= 'z'
    ensures forall k :: k in Aliases ==> Aliases[k] != [] && Aliases[k][0] == '~'
  {
    assert Aliases.Keys == {"documents", "desktop", "downloads", "pictures", "videos", "music", "home",
                            "application documents", "application documents folder"};
  }

  predicate IsAbs(p: string) {
    StartsWith(p, "/")
  }

  /** `os.path.expanduser(path)`: a leading `~` up to the first `/` is replaced by
      `home` without its trailing slashes. A `~name` prefix naming another user
      is returned unchanged. */
  function ExpandUser(path: string, home: string): (r: string)
    ensures !StartsWith(path, "~") ==> r == path
    ensures path == "~" ==> r == if RStripChar(home, '/') == "" then "/" else RStripChar(home, '/')
    ensures StartsWith(path, "~/") ==> r == RStripChar(home, '/') + path[1..]
    ensures StartsWith(path, "~") && |path| > 1 && path[1] != '/' ==> r == path
  {
    if !StartsWith(path, "~") then path
    else
      var i := match Find(path[1..], '/') case None => |path| case Some(j) => j + 1;
      assert StartsWith(path, "~/") ==> path[1..][0] == '/' && i == 1;
      if i != 1 then path
      else
        var joined := RStripChar(home, '/') + path[i..];
        if joined == "" then "/" else joined
  }

  /** `os.path.join(a, b)` for two components. */
  function JoinPath(a: string, b: string): (r: string)
    ensures IsAbs(a) ==> IsAbs(r)
  {
    if IsAbs(b) then b
    else if a == "" || EndsWith(a, "/") then a + b
    else a + "/" + b
  }

  /** How many slashes `normpath` keeps in front: POSIX gives exactly two leading
      slashes an implementation-defined meaning, so `//` is kept while `///` and
      longer runs collapse to one. */
  function LeadingSlashes(p: string): (n: nat)
    ensures n <= 2
    ensures n > 0 <==> IsAbs(p)
  {
    if StartsWith(p, "//") && !StartsWith(p, "///") then 2
    else if StartsWith(p, "/") then 1
    else 0
  }

  /** The component loop of `normpath`: empty and `.` components vanish; `..`
      removes the previous component, or is kept when there is nothing it can
      remove in a relative path; in a rooted path a `..` at the root is dropped. */
  function Resolve(acc: seq<string>, comps: seq<string>, rooted: bool): seq<string>
    decreases |comps|
  {
    if comps == [] then acc
    else
      var c := comps[0];
      var acc' :=
        if c == "" || c == "." then acc
        else if c != ".." || (!rooted && acc == []) || (acc != [] && acc[|acc| - 1] == "..") then acc + [c]
        else if acc != [] then acc[..|acc| - 1]
        else acc;
      Resolve(acc', comps[1..], rooted)
  }

  /** `os.path.normpath(p)`. */
  function NormPath(p: string): (r: string)
    ensures r != []
  {
    if p == "" then "."
    else
      var lead := LeadingSlashes(p);
      var r := seq(lead, _ => '/') + Join(Resolve([], Split(p, '/'), lead > 0), "/");
      if r == "" then "." else r
  }

  /** `os.path.abspath(p)` run in the directory `cwd`. */
  function AbsPath(p: string, cwd: string): (r: string)
    ensures IsAbs(cwd) ==> IsAbs(r) && NormPath(r) == r
  {
    var joined := if IsAbs(p) then p else JoinPath(cwd, p);
    if IsAbs(cwd) then NormPathIdempotent(joined); NormPath(joined)
    else NormPath(joined)
  }

  /** `normalize_path(path)`: the lower-cased, stripped input is looked up in the
      friendly-name table; a hit is replaced by its target, anything else is kept
      exactly as given, untrimmed. Then home expansion and absolutisation. */
  function NormalizePath(path: string, home: string, cwd: string): (r: string)
    ensures IsAbs(cwd) ==> IsAbs(r)
  {
    var key := Strip(Lower(path));
    var p := if key in Aliases then Aliases[key] else path;
    AbsPath(ExpandUser(p, home), cwd)
  }

  /** `expand_home_path(path)`: home expansion only. */
  function ExpandHomePath(path: string, home: string): (r: string)
    ensures !StartsWith(path, "~") ==> r == path
    ensures StartsWith(path, "~/") ==> r == RStripChar(home, '/') + path[1..]
  {
    ExpandUser(path, home)
  }

  /** Components that `normpath` of a rooted path can produce. */
  predicate Clean(cs: seq<string>) {
    forall i :: 0 <= i < |cs| ==> cs[i] != "" && cs[i] != "." && cs[i] != ".." && '/' !in cs[i]
  }

  /** In a rooted path the component loop only ever produces clean components. */
  lemma {:induction false} ResolveRootedClean(acc: seq<string>, comps: seq<string>)
    requires Clean(acc)
    requires forall i :: 0 <= i < |comps| ==> '/' !in comps[i]
    ensures Clean(Resolve(acc, comps, true))
    decreases |comps|
  {
    if comps != [] {
      var c := comps[0];
      var acc' :=
        if c == "" || c == "." then acc
        else if c != ".." || (false && acc == []) || (acc != [] && acc[|acc| - 1] == "..") then acc + [c]
        else if acc != [] then acc[..|acc| - 1]
        else acc;
      assert Clean(acc');
      ResolveRootedClean(acc', comps[1..]);
    }
  }

  /** Clean components pass through the component loop unchanged. */
  lemma {:induction false} ResolveClean(acc: seq<string>, cs: seq<string>, rooted: bool)
    requires Clean(cs)
    requires acc == [] || acc[|acc| - 1] != ".."
    ensures Resolve(acc, cs, rooted) == acc + cs
    decreases |cs|
  {
    if cs != [] {
      ResolveClean(acc + [cs[0]], cs[1..], rooted);
      assert acc + [cs[0]] + cs[1..] == acc + cs;
    }
  }

  /** The text of clean components joined by `/` does not start with `/`. */
  lemma JoinCleanHead(cs: seq<string>)
    requires Clean(cs)
    ensures Join(cs, "/") == [] <==> cs == []
    ensures cs != [] ==> Join(cs, "/")[0] == cs[0][0]
  {
    if |cs| > 1 {
      assert Join(cs, "/") == cs[0] + "/" + Join(cs[1..], "/");
    }
  }

  /** A rooted path normalises to its leading slashes followed by clean
      components joined by `/`. */
  lemma NormPathShape(p: string)
    requires IsAbs(p)
    ensures var cs := Resolve([], Split(p, '/'), true);
      Clean(cs) && NormPath(p) == seq(LeadingSlashes(p), _ => '/') + Join(cs, "/")
  {
    ResolveRootedClean([], Split(p, '/'));
  }

  /** Leading slashes followed by clean components read back as the same
      number of leading slashes and the same components. */
  lemma NormPathOfShape(lead: nat, cs: seq<string>)
    requires 1 <= lead <= 2 && Clean(cs)
    ensures var p := seq(lead, _ => '/') + Join(cs, "/");
      NormPath(p) == p
  {
    var j := Join(cs, "/");
    var slashes := seq(lead, _ => '/');
    assert slashes == if lead == 1 then "/" else "//";
    var p := slashes + j;
    JoinCleanHead(cs);
    assert j == [] || j[0] != '/' by {
      if cs != [] {
        assert cs[0][0] in cs[0];
      }
    }
    assert LeadingSlashes(p) == lead by {
      if lead == 1 {
        assert p == "/" + j;
        assert !StartsWith(p, "//") by {
          if |p| >= 2 { assert p[1] == j[0]; }
        }
      } else {
        assert p == "//" + j;
        assert !StartsWith(p, "///") by {
          if |p| >= 3 { assert p[2] == j[0]; }
        }
      }
    }
    var parts := if cs == [] then [""] else cs;
    assert Split(j, '/') == parts by {
      if cs != [] { SplitJoin(cs, '/'); }
    }
    assert Resolve([], parts, true) == cs by {
      if cs != [] { ResolveClean([], cs, true); }
    }
    if lead == 1 {
      assert p[1..] == j;
      assert Split(p, '/') == [""] + parts;
    } else {
      assert p[1..] == "/" + j && p[1..][1..] == j;
      assert Split(p, '/') == [""] + ([""] + parts);
      assert ([""] + ([""] + parts))[1..] == [""] + parts;
      assert ([""] + parts)[1..] == parts;
      assert Resolve([], [""] + ([""] + parts), true) == Resolve([], [""] + parts, true);
    }
  }

  /** `normpath` is idempotent on rooted paths. */
  lemma NormPathIdempotent(p: string)
    requires IsAbs(p)
    ensures IsAbs(NormPath(p))
    ensures NormPath(NormPath(p)) == NormPath(p)
  {
    NormPathShape(p);
    NormPathOfShape(LeadingSlashes(p), Resolve([], Split(p, '/'), true));
  }

  /** A path starting with `/` is never a friendly name. */
  lemma AbsNotAlias(p: string)
    requires IsAbs(p)
    ensures Strip(Lower(p)) !in Aliases
  {
    AliasShapes();
    StripKeepsHead(Lower(p));
  }

  /** A friendly-name target is not itself a friendly name. */
  lemma TargetNotAlias(key: string)
    requires key in Aliases
    ensures Strip(Lower(Aliases[key])) !in Aliases
  {
    AliasShapes();
    StripKeepsHead(Lower(Aliases[key]));
  }

  /** `normalize_path` is idempotent: its results are absolute, and an absolute
      path is neither a friendly name nor home-relative. */
  lemma NormalizePathIdempotent(path: string, home: string, cwd: string)
    requires IsAbs(cwd)
    ensures NormalizePath(NormalizePath(path, home, cwd), home, cwd) == NormalizePath(path, home, cwd)
  {
    AbsNotAlias(NormalizePath(path, home, cwd));
  }

  /** A friendly name, in any case and with any surrounding whitespace,
      normalises to the same path as its target. */
  lemma AliasMatchesTarget(path: string, home: string, cwd: string)
    requires Strip(Lower(path)) in Aliases
    ensures NormalizePath(path, home, cwd) == NormalizePath(Aliases[Strip(Lower(path))], home, cwd)
  {
    TargetNotAlias(Strip(Lower(path)));
  }

  /** The lookup key of `" Desktop "` is `desktop`. */
  lemma DesktopKey()
    ensures Strip(Lower(" Desktop ")) == "desktop"
  {
    DesktopLowered();
    DesktopStripped();
  }

  lemma DesktopLowered()
    ensures Lower(" Desktop ") == " desktop "
  {
    var lowered := Lower(" Desktop ");
    assert forall i :: 0 <= i < 9 ==> lowered[i] == " desktop "[i];
  }

  lemma DesktopStripped()
    ensures Strip(" desktop ") == "desktop"
  {
    RStripExact(" desktop ", 8);
    assert " desktop "[..8] == " desktop";
    LStripExact(" desktop", 1);
    assert " desktop"[1..] == "desktop";
  }

  /** `normalize_path(" Desktop ")` is `normalize_path("~/Desktop")`. */
  lemma DesktopExample(home: string, cwd: string)
    ensures NormalizePath(" Desktop ", home, cwd) == NormalizePath("~/Desktop", home, cwd)
  {
    DesktopKey();
    DesktopAlias();
    AliasMatchesTarget(" Desktop ", home, cwd);
  }

  lemma DesktopAlias()
    ensures "desktop" in Aliases && Aliases["desktop"] == "~/Desktop"
  {
  }

}
