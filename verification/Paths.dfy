/** The one path normaliser of the gate (pkg/gate/scope.go), over real path text on a
    slash-separated file system, with the library functions it stands on. */
module Paths {
  import Seqs

  // ---------------------------------------------------------------- text and segments

  /** strings.Split */
  function Split(s: string, sep: char := '/'): (r: seq<string>)
    ensures |r| >= 1
  {
    if s == "" then [""]
    else
      var rest := Split(s[1..], sep);
      if s[0] == sep then [""] + rest else [[s[0]] + rest[0]] + rest[1..]
  }

  function Join(segs: seq<string>): string {
    if |segs| == 0 then ""
    else if |segs| == 1 then segs[0]
    else segs[0] + "/" + Join(segs[1..])
  }

  predicate SlashFree(s: string) {
    '/' !in s
  }

  predicate IsAbs(s: string) {
    |s| > 0 && s[0] == '/'
  }

  // ---------------------------------------------------------------- cleaning

  /** One segment pushed on the cleaned stack: empty and "." vanish, ".." pops. */
  function Push(abs: bool, out: seq<string>, seg: string): seq<string> {
    if seg == "" || seg == "." then out
    else if seg == ".." then
      if out != [] && out[|out| - 1] != ".." then out[..|out| - 1]
      else if abs then out
      else out + [".."]
    else out + [seg]
  }

  function CleanSegs(abs: bool, segs: seq<string>): seq<string> {
    if segs == [] then []
    else Push(abs, CleanSegs(abs, segs[..|segs| - 1]), segs[|segs| - 1])
  }

  function Render(abs: bool, segs: seq<string>): string {
    if abs then "/" + Join(segs) else if segs == [] then "." else Join(segs)
  }

  function Segments(s: string): seq<string> {
    CleanSegs(IsAbs(s), Split(s))
  }

  /** filepath.Clean */
  function Clean(s: string): string {
    Render(IsAbs(s), Segments(s))
  }

  /** What a cleaned stack looks like: proper names, ".." only as a leading run, and
      none at all below the root. */
  ghost predicate Cleaned(abs: bool, segs: seq<string>) {
    && (forall i :: 0 <= i < |segs| ==> segs[i] != "" && segs[i] != "." && SlashFree(segs[i]))
    && (forall i :: 0 <= i < |segs| && segs[i] == ".." ==> !abs)
    && (forall i, j :: 0 <= i < j < |segs| && segs[j] == ".." ==> segs[i] == "..")
  }

  // ---------------------------------------------------------------- relativising

  function Common(a: seq<string>, b: seq<string>): (n: nat)
    ensures n <= |a| && n <= |b| && a[..n] == b[..n]
  {
    if a != [] && b != [] && a[0] == b[0] then
      var n := 1 + Common(a[1..], b[1..]);
      assert a[..n] == [a[0]] + a[1..][..n - 1];
      assert b[..n] == [b[0]] + b[1..][..n - 1];
      n
    else 0
  }

  function Ups(n: nat): (r: seq<string>)
    ensures |r| == n && forall i :: 0 <= i < n ==> r[i] == ".."
  {
    if n == 0 then [] else Ups(n - 1) + [".."]
  }

  function RelSegs(base: seq<string>, target: seq<string>): seq<string> {
    var n := Common(base, target);
    Ups(|base| - n) + target[n..]
  }

  /** NormalizePath.  filepath.Rel fails exactly when the root is not absolute, and the
      code then keeps the cleaned path. */
  function NormalizePath(root: string, file: string): string {
    if file == "" then ""
    else if IsAbs(Clean(file)) && IsAbs(root) then
      Render(false, RelSegs(Segments(root), Segments(file)))
    else Clean(file)
  }

  // ---------------------------------------------------------------- file names

  function LastSlash(s: string): (i: int)
    ensures -1 <= i < |s|
  {
    if s == "" then -1 else if s[|s| - 1] == '/' then |s| - 1 else LastSlash(s[..|s| - 1])
  }

  /** filepath.Dir */
  function Dir(s: string): string {
    Clean(s[..LastSlash(s) + 1])
  }

  /** filepath.Base */
  function Base(s: string): string {
    if s == "" then "."
    else if s[|s| - 1] != '/' then s[LastSlash(s) + 1..]
    else if |s| == 1 then "/"
    else Base(s[..|s| - 1])
  }

  // ---------------------------------------------------------------- proofs

  lemma {:induction false} SplitPieces(s: string)
    ensures forall i :: 0 <= i < |Split(s)| ==> SlashFree(Split(s)[i])
  {
    if s != "" { SplitPieces(s[1..]); }
  }

  lemma {:induction false} SplitAt(a: string, s: string, sep: char)
    requires sep !in a
    ensures Split(a + [sep] + s, sep) == [a] + Split(s, sep)
    ensures Split(a, sep) == [a]
  {
    if a == "" {
      assert a + [sep] + s == [sep] + s;
      assert ([sep] + s)[1..] == s;
    } else {
      assert (a + [sep] + s)[1..] == a[1..] + [sep] + s;
      assert a == [a[0]] + a[1..];
      SplitAt(a[1..], s, sep);
    }
  }

  lemma SplitHead(a: string, s: string)
    requires SlashFree(a)
    ensures Split(a + "/" + s) == [a] + Split(s)
    ensures Split(a) == [a]
  {
    SplitAt(a, s, '/');
  }

  lemma {:induction false} SplitTail(s: string)
    ensures Split(s + "/") == Split(s) + [""]
  {
    if s == "" {
      assert s + "/" == "/";
    } else {
      assert (s + "/")[1..] == s[1..] + "/";
      SplitTail(s[1..]);
    }
  }

  lemma {:induction false} SplitJoin(segs: seq<string>)
    requires segs != [] && forall i :: 0 <= i < |segs| ==> SlashFree(segs[i])
    ensures Split(Join(segs)) == segs
  {
    if |segs| == 1 {
      SplitHead(segs[0], "");
    } else {
      SplitJoin(segs[1..]);
      SplitHead(segs[0], Join(segs[1..]));
    }
  }

  lemma {:induction false} CleanSegsCleaned(abs: bool, segs: seq<string>)
    requires forall i :: 0 <= i < |segs| ==> SlashFree(segs[i])
    ensures Cleaned(abs, CleanSegs(abs, segs))
  {
    if segs != [] { CleanSegsCleaned(abs, segs[..|segs| - 1]); }
  }

  lemma {:induction false} CleanSegsFixed(abs: bool, segs: seq<string>)
    requires Cleaned(abs, segs)
    ensures CleanSegs(abs, segs) == segs
  {
    if segs != [] {
      var init := segs[..|segs| - 1];
      CleanSegsFixed(abs, init);
      assert segs == init + [segs[|segs| - 1]];
    }
  }

  lemma {:induction false} CleanSegsDropsEmpty(abs: bool, segs: seq<string>)
    ensures CleanSegs(abs, [""] + segs) == CleanSegs(abs, segs)
  {
    if segs == [] {
      assert [""] + segs == [""];
      assert [""][..0] == [];
    } else {
      CleanSegsDropsEmpty(abs, segs[..|segs| - 1]);
      assert ([""] + segs)[..|segs|] == [""] + segs[..|segs| - 1];
    }
  }

  lemma SegmentsCleaned(s: string)
    ensures Cleaned(IsAbs(s), Segments(s))
  {
    SplitPieces(s);
    CleanSegsCleaned(IsAbs(s), Split(s));
  }

  lemma JoinStartsWithName(segs: seq<string>)
    requires segs != [] && segs[0] != "" && SlashFree(segs[0])
    ensures Join(segs) != "" && !IsAbs(Join(segs))
  {
    assert Join(segs)[0] == segs[0][0];
  }

  /** A rendered clean path reads back as itself. */
  lemma RenderReads(abs: bool, segs: seq<string>)
    requires Cleaned(abs, segs)
    ensures Render(abs, segs) != ""
    ensures IsAbs(Render(abs, segs)) == abs
    ensures Segments(Render(abs, segs)) == segs
  {
    var s := Render(abs, segs);
    if segs == [] {
      assert s == if abs then "/" else ".";
      SplitHead(".", "");
      SplitHead("", "");
      assert "/" == "" + "/" + "";
      CleanSegsSnoc(abs, [], "");
      CleanSegsSnoc(abs, [], ".");
      assert [] + [""] == [""] && [] + ["."] == ["."];
      if abs { CleanSegsDropsEmpty(abs, [""]); }
    } else {
      SplitJoin(segs);
      CleanSegsFixed(abs, segs);
      if abs {
        SplitHead("", Join(segs));
        assert "" + "/" + Join(segs) == s;
        CleanSegsDropsEmpty(abs, segs);
      } else {
        JoinStartsWithName(segs);
      }
    }
  }

  lemma CleanReads(s: string)
    ensures Clean(s) != "" && IsAbs(Clean(s)) == IsAbs(s) && Segments(Clean(s)) == Segments(s)
  {
    SegmentsCleaned(s);
    RenderReads(IsAbs(s), Segments(s));
  }

  lemma CleanIdempotent(s: string)
    ensures Clean(Clean(s)) == Clean(s)
  {
    CleanReads(s);
  }

  lemma RelSegsCleaned(base: seq<string>, target: seq<string>)
    requires Cleaned(true, base) && Cleaned(true, target)
    ensures Cleaned(false, RelSegs(base, target))
  {
  }

  /** Identity canonicalisation (no root) and root-relative scope membership commute. */
  lemma NormalizeCommutes(root: string, file: string)
    ensures NormalizePath(root, NormalizePath("", file)) == NormalizePath(root, file)
  {
    if file != "" { CleanReads(file); }
  }

  lemma NormalizeIdempotent(root: string, file: string)
    ensures NormalizePath(root, NormalizePath(root, file)) == NormalizePath(root, file)
    ensures NormalizePath("", NormalizePath(root, file)) == NormalizePath(root, file)
  {
    if file != "" {
      CleanReads(file);
      if IsAbs(Clean(file)) && IsAbs(root) {
        SegmentsCleaned(root);
        SegmentsCleaned(file);
        RelSegsCleaned(Segments(root), Segments(file));
        RenderReads(false, RelSegs(Segments(root), Segments(file)));
      }
    }
  }

  lemma NormalizeEmpty(root: string, file: string)
    ensures NormalizePath(root, file) == "" <==> file == ""
  {
    if file != "" {
      CleanReads(file);
      if IsAbs(Clean(file)) && IsAbs(root) {
        SegmentsCleaned(root);
        SegmentsCleaned(file);
        RelSegsCleaned(Segments(root), Segments(file));
        RenderReads(false, RelSegs(Segments(root), Segments(file)));
      }
    }
  }

  // Joining the root back on recovers the absolute path.

  ghost predicate Names(segs: seq<string>) {
    forall i :: 0 <= i < |segs| ==> segs[i] != "" && segs[i] != "." && segs[i] != ".."
  }

  lemma CleanedNames(segs: seq<string>)
    requires Cleaned(true, segs)
    ensures Names(segs)
  {
    forall i | 0 <= i < |segs| ensures segs[i] != "" && segs[i] != "." && segs[i] != ".." {
      assert segs[i] != "..";
    }
  }

  lemma CleanSegsSnoc(abs: bool, segs: seq<string>, seg: string)
    ensures CleanSegs(abs, segs + [seg]) == Push(abs, CleanSegs(abs, segs), seg)
  {
    assert (segs + [seg])[..|segs|] == segs;
  }

  lemma {:induction false} CleanSegsPops(out: seq<string>, n: nat)
    requires CleanSegs(true, out) == out && Names(out) && n <= |out|
    ensures CleanSegs(true, out + Ups(n)) == out[..|out| - n]
  {
    if n == 0 {
      assert out + Ups(0) == out;
    } else {
      CleanSegsPops(out, n - 1);
      CleanSegsSnoc(true, out + Ups(n - 1), "..");
      Seqs.AppendAssoc(out, Ups(n - 1), [".."]);
      PopName(out, |out| - (n - 1));
    }
  }

  lemma PopName(out: seq<string>, n: nat)
    requires Names(out) && 0 < n <= |out|
    ensures Push(true, out[..n], "..") == out[..n - 1]
  {
    assert out[..n][n - 1] == out[n - 1];
    assert out[..n][..n - 1] == out[..n - 1];
  }

  lemma {:induction false} CleanSegsAppends(prefix: seq<string>, out: seq<string>, names: seq<string>)
    requires CleanSegs(true, prefix) == out && Names(names)
    ensures CleanSegs(true, prefix + names) == out + names
  {
    if names == [] {
      assert prefix + names == prefix;
    } else {
      var init, x := names[..|names| - 1], names[|names| - 1];
      CleanSegsAppends(prefix, out, init);
      assert names == init + [x];
      Seqs.AppendAssoc(prefix, init, [x]);
      CleanSegsSnoc(true, prefix + init, x);
      Seqs.AppendAssoc(out, init, [x]);
    }
  }

  lemma RelSegsResolve(base: seq<string>, target: seq<string>)
    requires CleanSegs(true, base) == base && Names(base) && Names(target)
    ensures CleanSegs(true, base + RelSegs(base, target)) == target
  {
    var n := Common(base, target);
    var ups, rest := Ups(|base| - n), target[n..];
    CleanSegsPops(base, |base| - n);
    NamesTail(target, n);
    CleanSegsAppends(base + ups, base[..n], rest);
    Seqs.AppendAssoc(base, ups, rest);
    SharedPrefix(base, target);
  }

  lemma SharedPrefix(base: seq<string>, target: seq<string>)
    ensures base[..Common(base, target)] + target[Common(base, target)..] == target
  {
  }

  lemma NamesTail(segs: seq<string>, n: nat)
    requires Names(segs) && n <= |segs|
    ensures Names(segs[n..])
  {
    forall i | 0 <= i < |segs[n..]| ensures segs[n..][i] == segs[n + i] {}
  }

  /** The relative form names the same file: resolving it against the root gives the
      absolute path back, and so two absolute files never share a normal form. */
  lemma RelativeResolves(root: string, file: string)
    requires IsAbs(root) && IsAbs(file)
    ensures CleanSegs(true, Segments(root) + Segments(NormalizePath(root, file))) == Segments(file)
  {
    var base, target := Segments(root), Segments(file);
    SegmentsCleaned(root);
    SegmentsCleaned(file);
    CleanReads(file);
    RelSegsCleaned(base, target);
    RenderReads(false, RelSegs(base, target));
    CleanSegsFixed(true, base);
    CleanedNames(base);
    CleanedNames(target);
    RelSegsResolve(base, target);
  }

  lemma NormalizeInjective(root: string, a: string, b: string)
    requires IsAbs(root) && IsAbs(a) && IsAbs(b)
    ensures NormalizePath(root, a) == NormalizePath(root, b) <==> Clean(a) == Clean(b)
  {
    RelativeResolves(root, a);
    RelativeResolves(root, b);
    CleanReads(a);
    CleanReads(b);
  }

  // ---------------------------------------------------------------- file names

  lemma {:induction false} LastSlashAt(d: string, name: string)
    requires SlashFree(name)
    ensures LastSlash(d + "/" + name) == |d|
    ensures LastSlash(name) == -1
  {
    var s := d + "/" + name;
    if name != "" {
      var init := name[..|name| - 1];
      LastSlashAt(d, init);
      assert s[..|s| - 1] == d + "/" + init;
    }
  }

  /** A trailing slash does not change the directory it names. */
  lemma CleanTrailing(d: string)
    requires d != ""
    ensures Clean(d + "/") == Clean(d)
  {
    SplitTail(d);
    CleanSegsSnoc(IsAbs(d), Split(d), "");
    assert IsAbs(d + "/") == IsAbs(d);
  }

  /** The directory and the last name of a path, a bare name and a path with a trailing slash. */
  lemma DirAndBase(d: string, name: string)
    requires SlashFree(name) && name != ""
    ensures Base(d + "/" + name) == name && Base(name) == name
    ensures Dir(d + "/" + name) == (if d == "" then "/" else Clean(d))
    ensures Dir(name) == "."
    ensures Base(d + "/" + name + "/") == name
  {
    var s := d + "/" + name;
    LastSlashAt(d, name);
    assert s[|d| + 1..] == name && s[..|d| + 1] == d + "/";
    assert (s + "/")[..|s + "/"| - 1] == s;
    RenderReads(true, []);
    RenderReads(false, []);
    SplitHead("", "");
    if d == "" {
      assert "" + "/" == "/" == Render(true, []);
      CleanOf(true, []);
    } else {
      CleanTrailing(d);
    }
    assert name[..0] == "";
    assert Split("") == [""] && [""][..0] == [];
    assert Clean("") == ".";
  }

  lemma CleanOf(abs: bool, segs: seq<string>)
    requires Cleaned(abs, segs)
    ensures Clean(Render(abs, segs)) == Render(abs, segs)
  {
    RenderReads(abs, segs);
  }
}
