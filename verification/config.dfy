/** Configuration defaults and `~` expansion of the configuration path (src/config.rs).

    Paths are modelled as Rust sees them on a Unix system: as their sequence of components.
    `PathBuf` equality compares components, so `"~/"` and `"~"`, or `"/a/b/"` and `"/a//b"`,
    are the same path. */
module Config {
  import opened Errors
  import opened Text

  /* ---------- paths ---------- */

  datatype Component = RootDir | CurDir | ParentDir | Name(name: string)  // `Component::Normal`

  /** The components `Path::components` can yield: a root or `.` only first, and names that
      are non-empty, free of `/` and neither `.` nor `..`. */
  predicate WellFormed(p: seq<Component>)
  {
    forall i :: 0 <= i < |p| ==>
      match p[i]
      case RootDir => i == 0
      case CurDir => i == 0
      case ParentDir => true
      case Name(n) => |n| > 0 && !Contains(n, '/') && n != "." && n != ".."
  }

  type Path = p: seq<Component> | WellFormed(p)

  /** The components of the `/`-separated pieces of a path string, skipping empty pieces and
      `.` pieces. */
  function PieceComponents(pieces: seq<string>): (r: Path)
    requires forall i :: 0 <= i < |pieces| ==> !Contains(pieces[i], '/')
    ensures forall i :: 0 <= i < |r| ==> r[i].Name? || r[i].ParentDir?
  {
    if |pieces| == 0 then []
    else
      var rest := PieceComponents(pieces[1..]);
      var p := pieces[0];
      if p == "" || p == "." then rest
      else if p == ".." then [ParentDir] + rest
      else [Name(p)] + rest
  }

  /** `Path::new(s).components()` on Unix. */
  function ParsePath(s: string): Path
  {
    var rooted := StartsWith(s, "/");
    var current := !rooted && (s == "." || StartsWith(s, "./"));
    var names := PieceComponents(Split(s, '/'));
    (if rooted then [RootDir] else []) + (if current then [CurDir] else []) + names
  }

  /** `Path::strip_prefix`: `base` is a component-wise prefix of `p`, and what follows it. */
  function StripPrefix(p: Path, base: Path): (r: Option<Path>)
    ensures r.Some? <==> |base| <= |p| && p[..|base|] == base
    ensures r.Some? ==> base + r.value == p
  {
    if |base| <= |p| && p[..|base|] == base then
      assert base + p[|base|..] == p;
      Some(p[|base|..])
    else None
  }

  /** `Path::join`: an absolute `b` replaces `a`; otherwise `b` is appended, and a leading `.`
      of `b` disappears unless it ends up first. */
  function JoinPath(a: Path, b: Path): (r: Path)
    ensures |b| > 0 && b[0] == RootDir ==> r == b
    ensures (|b| == 0 || b[0].Name? || b[0].ParentDir?) ==> r == a + b
  {
    if |b| > 0 && b[0] == RootDir then b
    else if |b| > 0 && b[0] == CurDir && |a| > 0 then a + b[1..]
    else a + b
  }

  /** `expand_tilde`, with the home directory (`BaseDirs::new()`) passed in: a path whose
      first component is exactly `~` has it replaced by the home directory; every other path,
      and every path when no home directory is known, is returned unchanged. */
  function ExpandTilde(path: Path, home: Option<Path>): (r: Path)
    ensures home.Some? && |path| > 0 && path[0] == Name("~") ==> r == home.value + path[1..]
    ensures home.None? || |path| == 0 || path[0] != Name("~") ==> r == path
  {
    match (home, StripPrefix(path, [Name("~")]))
    case (Some(h), Some(rest)) => JoinPath(h, rest)
    case _ => path
  }

  /** An absolute path is never expanded. */
  lemma AbsoluteUnchanged(s: string, home: Option<Path>)
    requires StartsWith(s, "/")
    ensures ExpandTilde(ParsePath(s), home) == ParsePath(s)
  {
    assert ParsePath(s)[0] == RootDir;
  }

  /** The examples of `test_expand_tilde`, for any home directory: the root and a path with
      `~` inside a later name are left alone. */
  lemma ExpandTildeUnchangedExamples(home: Path)
    ensures ExpandTilde(ParsePath("/"), Some(home)) == ParsePath("/")
    ensures ExpandTilde(ParsePath("/abc/~def/ghi/"), Some(home)) == ParsePath("/abc/~def/ghi/")
  {
    assert StartsWith("/", "/");
    AbsoluteUnchanged("/", Some(home));
    assert StartsWith("/abc/~def/ghi/", "/");
    AbsoluteUnchanged("/abc/~def/ghi/", Some(home));
  }

  /** `~/` is the home directory itself. */
  lemma ExpandTildeHomeExample(home: Path)
    ensures ExpandTilde(ParsePath("~/"), Some(home)) == home
  {
    var s := "~/";
    assert s[..1][0] == '~' && s[..2][0] == '~';
    SplitOf(["~", ""], s);
    RelativePath(s);
    assert PieceComponents(["~", ""]) == [Name("~")];
    assert ParsePath(s) == [Name("~")];
  }

  /** A name usable as a path component. */
  predicate PlainName(n: string) { |n| > 0 && !Contains(n, '/') && n != "." && n != ".." }

  /** The last example of `test_expand_tilde`, `~/abc/def/ghi/`, for any three names: the path
      lands under the home directory. */
  lemma ExpandTildeNestedExample(home: Path, a: string, b: string, c: string)
    requires PlainName(a) && PlainName(b) && PlainName(c)
    ensures ExpandTilde(ParsePath("~/" + a + "/" + b + "/" + c + "/"), Some(home))
      == home + [Name(a), Name(b), Name(c)]
  {
    NestedPath(a, b, c);
    var p: Path := [Name("~"), Name(a), Name(b), Name(c)];
    assert p[1..] == [Name(a), Name(b), Name(c)];
  }

  lemma RelativePath(s: string)
    requires !StartsWith(s, "/") && !StartsWith(s, "./") && s != "."
    ensures ParsePath(s) == PieceComponents(Split(s, '/'))
  {
  }

  lemma NestedPath(a: string, b: string, c: string)
    requires PlainName(a) && PlainName(b) && PlainName(c)
    ensures ParsePath("~/" + a + "/" + b + "/" + c + "/") == [Name("~"), Name(a), Name(b), Name(c)]
  {
    var s := "~/" + a + "/" + b + "/" + c + "/";
    NestedSplit(a, b, c);
    NestedComponents(a, b, c);
    assert s[0] == '~';
    RelativePath(s);
  }

  lemma NestedSplit(a: string, b: string, c: string)
    requires PlainName(a) && PlainName(b) && PlainName(c)
    ensures Split("~/" + a + "/" + b + "/" + c + "/", '/') == ["~", a, b, c, ""]
  {
    var parts := ["~", a, b, c, ""];
    assert Join(parts[4..], "/") == "";
    assert Join(parts[3..], "/") == c + "/" + "";
    assert Join(parts[2..], "/") == b + "/" + (c + "/" + "");
    assert Join(parts[1..], "/") == a + "/" + (b + "/" + (c + "/" + ""));
    assert Join(parts, "/") == "~/" + a + "/" + b + "/" + c + "/";
    assert !Contains("~", '/');
    assert !Contains("", '/');
    SplitJoin(parts, '/');
  }

  lemma NestedComponents(a: string, b: string, c: string)
    requires PlainName(a) && PlainName(b) && PlainName(c)
    ensures PieceComponents(["~", a, b, c, ""]) == [Name("~"), Name(a), Name(b), Name(c)]
  {
    var parts := ["~", a, b, c, ""];
    assert PieceComponents(parts[4..]) == [];
    assert PieceComponents(parts[3..]) == [Name(c)];
    assert PieceComponents(parts[2..]) == [Name(b), Name(c)];
    assert PieceComponents(parts[1..]) == [Name(a), Name(b), Name(c)];
  }

  lemma SplitOf(parts: seq<string>, s: string)
    requires |parts| >= 1 && forall i :: 0 <= i < |parts| ==> !Contains(parts[i], '/')
    requires Join(parts, "/") == s
    ensures Split(s, '/') == parts
  {
    SplitJoin(parts, '/');
  }

  /** A `~` fused into a name is an ordinary name: `~user/x` is not expanded. */
  lemma FusedTildeNotExpanded(name: string, home: Option<Path>)
    requires |name| > 1 && name[0] == '~' && !Contains(name, '/')
    ensures ExpandTilde(ParsePath(name + "/x"), home) == ParsePath(name + "/x")
  {
    var s := name + "/x";
    assert !StartsWith(s, "/") && !StartsWith(s, "./") && s != "." by {
      assert s[0] == '~';
    }
    SplitPiece(name, "x", '/');
    assert s == name + ['/'] + "x";
    SplitSingle("x", '/');
    assert Split(s, '/') == [name, "x"];
    assert ParsePath(s)[0] == Name(name);
  }

  /* ---------- defaults ---------- */

  datatype HighlightMode = Normal | Fraktur | FrakturBold | Script | Bold | Italic | BoldItalic

  datatype Features = Features(maskHighlights: bool, sendNotice: bool)

  datatype Parameters = Parameters(taskLimit: U64, commandChannel: string)

  /** The configuration the bot writes when none exists.  The IRC connection settings
      (`client`) belong to the IRC library and are not part of this model. */
  datatype Conf = Conf(
    features: Features,
    params: Parameters,
    userLimits: map<string, U64>,
    userHighlights: map<string, HighlightMode>)

  /** An IRC channel name: it starts with one of the channel prefixes `#`, `&`, `+`, `!`. */
  predicate IsChannelName(s: string) { |s| > 0 && s[0] in {'#', '&', '+', '!'} }

  /** `Parameters::default`: a limit of 34 tasks, commands taken in `#youtubearchive`. */
  function DefaultParameters(): (p: Parameters)
    ensures p.taskLimit == 34 && p.commandChannel == "#youtubearchive"
    ensures IsChannelName(p.commandChannel)
  {
    Parameters(34, "#youtubearchive")
  }

  /** `Conf::default`: no per-user limits or highlight modes, default parameters, and every
      feature switched off. */
  function DefaultConf(): (c: Conf)
    ensures c.userLimits == map[] && c.userHighlights == map[]
    ensures c.params.taskLimit == 34 && c.params.commandChannel == "#youtubearchive"
    ensures !c.features.maskHighlights && !c.features.sendNotice
  {
    Conf(Features(false, false), DefaultParameters(), map[], map[])
  }
}
