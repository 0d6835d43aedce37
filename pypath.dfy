/** The `os.path` operations (POSIX flavour) that the rendering scripts use to
    build file names, and the temporary file names that `tex_to_img` derives
    from its output path. */
module PyPath {
  import opened PyStr

  /** Python's `s.rfind(c)`: the last index holding `c`, or -1. */
  function RFind(s: string, c: char): (r: int)
    ensures -1 <= r < |s|
    ensures r >= 0 ==> s[r] == c
    ensures forall i :: r < i < |s| ==> s[i] != c
    decreases |s|
  {
    if |s| == 0 then -1
    else if s[|s| - 1] == c then |s| - 1
    else RFind(s[..|s| - 1], c)
  }

  /** `os.path.join(a, b)`: an absolute `b` replaces `a`; otherwise a '/' is
      put between them unless `a` is empty or already ends with one. */
  function Join(a: string, b: string): string
  {
    if StartsWith(b, "/") then b
    else if a == [] || EndsWith(a, "/") then a + b
    else a + "/" + b
  }

  predicate AllSlashes(s: string)
  {
    forall i :: 0 <= i < |s| ==> s[i] == '/'
  }

  /** The tail of `os.path.split(p)`: what follows the last '/'. */
  function Basename(p: string): (r: string)
    ensures '/' !in r && EndsWith(p, r)
    ensures '/' !in p ==> r == p
    ensures '/' in p ==> |r| < |p| && p[|p| - |r| - 1] == '/'
  {
    p[RFind(p, '/') + 1..]
  }

  /** The head of `os.path.split(p)`: what precedes the last '/', with its
      trailing slashes removed unless it consists of slashes only. */
  function Dirname(p: string): string
  {
    var head := p[..RFind(p, '/') + 1];
    if head != [] && !AllSlashes(head) then RStrip(head, '/') else head
  }

  /** The head of `os.path.split(p)` is empty exactly when `p` holds no '/'. */
  lemma DirnameEmpty(p: string)
    ensures Dirname(p) == [] <==> '/' !in p
  {
    var k := RFind(p, '/');
    var head := p[..k + 1];
    if '/' in p {
      var j :| 0 <= j < |p| && p[j] == '/';
      assert k >= j;
      assert head[k] == '/';
      if !AllSlashes(head) {
        var i :| 0 <= i < |head| && head[i] != '/';
        assert |RStrip(head, '/')| > i;
      }
    }
  }

  /** `os.path.splitext(p)`: splits at the last '.' of the last component,
      unless that component has only dots before it. */
  function SplitExt(p: string): (r: (string, string))
    ensures r.0 + r.1 == p
    ensures r.1 == [] || (r.1[0] == '.' && '.' !in r.1[1..] && '/' !in r.1)
    ensures r.1 != [] <==>
      RFind(p, '/') < RFind(p, '.') && exists i :: RFind(p, '/') < i < RFind(p, '.') && p[i] != '.'
    ensures r.1 != [] ==> |r.0| == RFind(p, '.')
  {
    var sepIndex := RFind(p, '/');
    var dotIndex := RFind(p, '.');
    if dotIndex > sepIndex && exists i :: sepIndex + 1 <= i < dotIndex && p[i] != '.' then
      assert forall i :: dotIndex < i < |p| ==> p[i] != '.';
      assert p[..dotIndex] + p[dotIndex..] == p;
      (p[..dotIndex], p[dotIndex..])
    else
      (p, [])
  }

  predicate HasNonDot(s: string)
  {
    exists i :: 0 <= i < |s| && s[i] != '.'
  }

  /** The three temporary files of `tex_to_img`, named after the output. */
  datatype TempFiles = TempFiles(tex: string, dvi: string, png: string)

  /** The output file name without its directory and its final extension. */
  function TempBase(outputPath: string): (r: string)
    ensures '/' !in r
  {
    var name := Basename(outputPath);
    var split := SplitExt(name);
    assert forall i :: 0 <= i < |split.0| ==> split.0[i] == name[i];
    split.0
  }

  /** `"{}.{}".format(tmp_file, ext)` for the extensions tex, dvi and png. */
  function TempNames(outputPath: string): (r: TempFiles)
    ensures '/' !in r.tex && '/' !in r.dvi && '/' !in r.png
    ensures r.tex != r.dvi && r.dvi != r.png && r.tex != r.png
  {
    var base := TempBase(outputPath);
    TempExtensions(base);
    TempFiles(base + ".tex", base + ".dvi", base + ".png")
  }

  /** Appending ".tex", ".dvi" or ".png" adds no '/' and keeps the three apart. */
  lemma TempExtensions(base: string)
    requires '/' !in base
    ensures '/' !in base + ".tex" && '/' !in base + ".dvi" && '/' !in base + ".png"
    ensures base + ".tex" != base + ".dvi" && base + ".dvi" != base + ".png" && base + ".tex" != base + ".png"
  {
    WithExt(base, ".tex");
    WithExt(base, ".dvi");
    WithExt(base, ".png");
  }

  /** `base + ext` has no '/' and shows `ext` right after `base`. */
  lemma WithExt(base: string, ext: string)
    requires '/' !in base && '/' !in ext && |ext| >= 2
    ensures '/' !in base + ext
    ensures (base + ext)[|base| + 1] == ext[1]
  {
    var s := base + ext;
    assert forall i :: 0 <= i < |s| ==> s[i] == (if i < |base| then base[i] else ext[i - |base|]);
  }

  lemma BasenameOf(dir: string, name: string)
    requires '/' !in name
    ensures Basename(dir + "/" + name) == name
  {
    var p := dir + "/" + name;
    var k := RFind(p, '/');
    assert p[|dir|] == '/';
    assert forall i :: |dir| < i < |p| ==> p[i] == name[i - |dir| - 1];
    assert k == |dir|;
    assert p[k + 1..] == name;
  }

  /** `splitext` of a file name `name.ext` with `ext` free of '.' and
      `name` not made of dots only splits at that last '.'. */
  lemma SplitExtOf(name: string, ext: string)
    requires '/' !in name && '/' !in ext && '.' !in ext
    requires HasNonDot(name)
    ensures SplitExt(name + "." + ext).0 == name
  {
    var file := name + "." + ext;
    assert RFind(file, '/') == -1;
    assert file[|name|] == '.';
    assert forall i :: |name| < i < |file| ==> file[i] == ext[i - |name| - 1];
    var d := RFind(file, '.');
    assert d == |name|;
    var i :| 0 <= i < |name| && name[i] != '.';
    assert file[i] != '.';
    assert file[..d] == name;
  }

  /** A file name made of leading dots and a part free of '.' has no
      extension: `splitext(".png")` is `(".png", "")`. */
  lemma {:induction false} SplitExtLeadingDots(dots: string, rest: string)
    requires dots != [] && forall i :: 0 <= i < |dots| ==> dots[i] == '.'
    requires '/' !in rest && '.' !in rest
    ensures SplitExt(dots + rest) == (dots + rest, [])
  {
    var file := dots + rest;
    assert forall i :: 0 <= i < |dots| ==> file[i] == '.';
    assert forall i :: |dots| <= i < |file| ==> file[i] == rest[i - |dots|];
    assert RFind(file, '/') == -1;
    var d := RFind(file, '.');
    assert file[|dots| - 1] == '.';
    assert d == |dots| - 1;
  }

  /** For `dir/name.ext`, with `ext` free of '.' and `name` not made of dots
      only, the temporary files are `name.tex`, `name.dvi` and `name.png`. */
  lemma TempNamesOf(dir: string, name: string, ext: string)
    requires '/' !in name && '/' !in ext && '.' !in ext
    requires HasNonDot(name)
    ensures TempNames(dir + "/" + name + "." + ext) == TempFiles(name + ".tex", name + ".dvi", name + ".png")
  {
    var file := name + "." + ext;
    assert dir + "/" + name + "." + ext == dir + "/" + file;
    assert '/' !in file;
    BasenameOf(dir, file);
    SplitExtOf(name, ext);
  }

  /** For `dir/name` with no '.' in `name`, the temporary files are
      `name.tex`, `name.dvi` and `name.png`. */
  lemma TempNamesNoExtension(dir: string, name: string)
    requires '/' !in name && '.' !in name
    ensures TempNames(dir + "/" + name) == TempFiles(name + ".tex", name + ".dvi", name + ".png")
  {
    BasenameOf(dir, name);
    assert RFind(name, '.') == -1;
  }
}
