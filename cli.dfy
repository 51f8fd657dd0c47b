/**
 * The command-line helpers of `brume` (brume/cli.py) that decide what is shown or done: the
 * parameters listing with its short stack names, which files become templates, whether assets
 * are sent, and the order of validation and upload.
 */
module Cli {
  import opened Wrappers
  import opened Strings
  import opened Paths
  import opened JsonModel
  import Tpl = Template

  /** The marker that precedes the stack name in a stack ARN. */
  const StackMarker := ":stack/"

  /**
   * The name shown for a stack: for an ARN, the text between the first `:stack/` and the next
   * `/`; any other name as it is.
   */
  function ShortName(name: string): string {
    match After(name, StackMarker)
    case None => name
    case Some(rest) => Split(rest, '/')[0]
  }

  /** `s.partition(sep)[2]` when `sep` occurs in `s`: the text after its first occurrence. */
  function After(s: string, sep: string): Option<string>
    decreases |s|
  {
    if StartsWith(s, sep) then Some(s[|sep|..])
    else if s == [] then None
    else After(s[1..], sep)
  }

  /** The partition is at the first occurrence of `sep`, and there is one exactly when `sep` occurs. */
  lemma {:induction false} AfterFirst(s: string, sep: string)
    ensures After(s, sep) == match IndexOf(s, sep) case None => None case Some(i) => Some(s[i + |sep|..])
    decreases |s|
  {
    if !StartsWith(s, sep) && s != [] {
      AfterFirst(s[1..], sep);
      match IndexOf(s[1..], sep)
      case None =>
      case Some(i) =>
        assert s[1..][i + |sep|..] == s[i + 1 + |sep|..];
    }
  }

  /** Text with no occurrence of `sep` starting in `a` is partitioned after `a`. */
  lemma {:induction false} AfterSkips(a: string, b: string, sep: string)
    requires forall j: nat :: j < |a| ==> !OccursAt(a + b, sep, j)
    ensures After(a + b, sep) == After(b, sep)
    decreases |a|
  {
    if a != [] {
      assert !OccursAt(a + b, sep, 0);
      assert (a + b)[1..] == a[1..] + b;
      forall j: nat | j < |a[1..]| ensures !OccursAt(a[1..] + b, sep, j) {
        OccursAtTail(a + b, sep, j);
      }
      AfterSkips(a[1..], b, sep);
    } else {
      assert a + b == b;
    }
  }

  /** A name without `:stack/` is shown as it is; the short name of an ARN has no `/`. */
  lemma ShortNameShape(name: string)
    ensures !Contains(name, StackMarker) ==> ShortName(name) == name
    ensures Contains(name, StackMarker) ==> '/' !in ShortName(name)
  {
    AfterFirst(name, StackMarker);
  }

  /**
   * A stack ARN, whose text before `:stack/` does not contain it, is shown as the name that
   * follows `:stack/`.
   */
  lemma ShortNameArn(prefix: string, name: string, rest: string)
    requires !Contains(prefix, StackMarker) && '/' !in name
    ensures ShortName(prefix + StackMarker + name + "/" + rest) == name
  {
    var s := prefix + StackMarker + name + "/" + rest;
    var m := StackMarker;
    forall j: nat | j < |prefix| ensures !OccursAt(s, m, j) {
      MarkerBefore(prefix, s, j);
    }
    var t := m + (name + ['/'] + rest);
    assert s == prefix + t;
    AfterSkips(prefix, t, m);
    assert StartsWith(t, m);
    assert t[|m|..] == name + ['/'] + rest;
    SplitFirst(name, '/', rest);
  }

  /** No occurrence of `:stack/` starts inside a prefix that does not contain it. */
  lemma MarkerBefore(prefix: string, s: string, j: nat)
    requires !Contains(prefix, StackMarker) && j < |prefix|
    requires |s| >= |prefix| + |StackMarker| && s[|prefix|..|prefix| + |StackMarker|] == StackMarker
    requires s[..|prefix|] == prefix
    ensures !OccursAt(s, StackMarker, j)
  {
    var m := StackMarker;
    if j + |m| <= |prefix| {
      if OccursAt(s, m, j) {
        assert prefix[j..j + |m|] == s[j..j + |m|];
        ContainsAt(prefix, m, j);
      }
    } else if j + |m| <= |s| {
      var k := |prefix| - j;
      assert s[j + k] == ':';
      assert 0 < k < |m| && m[k] != ':';
      NotOccursAt(s, m, j, k);
    }
  }

  /** The line shown for one parameter. */
  function ParamLine(name: string, value: string): string {
    "\t" + name + " = " + value
  }

  /** One line per parameter, in order. */
  function ParamLines(ps: seq<(string, string)>): (r: seq<string>)
    ensures |r| == |ps|
    ensures forall i :: 0 <= i < |ps| ==> r[i] == ParamLine(ps[i].0, ps[i].1)
  {
    if ps == [] then []
    else ParamLines(ps[..|ps| - 1]) + [ParamLine(ps[|ps| - 1].0, ps[|ps| - 1].1)]
  }

  /** The lines shown for one stack: nothing without parameters; else its name, its parameters, a blank line. */
  function Block(name: string, ps: seq<(string, string)>): seq<string> {
    if ps == [] then [] else [ShortName(name)] + ParamLines(ps) + [""]
  }

  /** The blocks of the stacks, in the order the stacks are given. */
  function Blocks(stacks: seq<(string, seq<(string, string)>)>): (r: seq<seq<string>>)
    ensures |r| == |stacks| && forall i :: 0 <= i < |stacks| ==> r[i] == Block(stacks[i].0, stacks[i].1)
  {
    seq(|stacks|, i requires 0 <= i < |stacks| => Block(stacks[i].0, stacks[i].1))
  }

  /** Blocks of lines, one after the other. */
  function Concat(blocks: seq<seq<string>>): seq<string> {
    if blocks == [] then [] else Concat(blocks[..|blocks| - 1]) + blocks[|blocks| - 1]
  }

  /** The whole listing. */
  function Listing(stacks: seq<(string, seq<(string, string)>)>): seq<string> {
    Concat(Blocks(stacks))
  }

  lemma {:induction false} ConcatAppend(x: seq<seq<string>>, y: seq<seq<string>>)
    ensures Concat(x + y) == Concat(x) + Concat(y)
    decreases |y|
  {
    if y == [] {
      assert x + y == x;
    } else {
      var n := |y| - 1;
      assert (x + y)[..|x + y| - 1] == x + y[..n];
      ConcatAppend(x, y[..n]);
      ConcatAssoc(Concat(x), Concat(y[..n]), y[n]);
    }
  }

  /** `parameters`: the lines it echoes. */
  method Parameters(stacks: seq<(string, seq<(string, string)>)>) returns (lines: seq<string>)
    ensures lines == Listing(stacks)
  {
    lines := [];
    for i := 0 to |stacks|
      invariant lines == Listing(stacks[..i])
    {
      var block := ShowStack(stacks[i].0, stacks[i].1);
      ListingSnoc(stacks, i);
      lines := lines + block;
    }
    assert stacks[..|stacks|] == stacks;
  }

  /** The listing of one more stack ends with that stack's block. */
  lemma ListingSnoc(stacks: seq<(string, seq<(string, string)>)>, i: nat)
    requires i < |stacks|
    ensures Listing(stacks[..i + 1]) == Listing(stacks[..i]) + Block(stacks[i].0, stacks[i].1)
  {
    var block := Block(stacks[i].0, stacks[i].1);
    assert Blocks(stacks[..i + 1]) == Blocks(stacks[..i]) + [block];
    ConcatAppend(Blocks(stacks[..i]), [block]);
    assert Concat([block]) == [] + block;
  }

  /** The lines `parameters` echoes for one stack; none when it has no parameters. */
  method ShowStack(name: string, ps: seq<(string, string)>) returns (lines: seq<string>)
    ensures lines == Block(name, ps)
  {
    lines := [];
    if ps == [] {
      return;
    }
    lines := [ShortName(name)];
    for k := 0 to |ps|
      invariant lines == [ShortName(name)] + ParamLines(ps[..k])
    {
      assert ps[..k + 1][..k] == ps[..k];
      lines := lines + [ParamLine(ps[k].0, ps[k].1)];
    }
    assert ps[..|ps|] == ps;
    lines := lines + [""];
  }

  /** The listing of consecutive groups of stacks is the concatenation of their listings. */
  lemma ListingAppend(a: seq<(string, seq<(string, string)>)>, b: seq<(string, seq<(string, string)>)>)
    ensures Listing(a + b) == Listing(a) + Listing(b)
  {
    assert Blocks(a + b) == Blocks(a) + Blocks(b);
    ConcatAppend(Blocks(a), Blocks(b));
  }

  /** A stack without parameters contributes nothing to the listing. */
  lemma EmptyStackSkipped(a: seq<(string, seq<(string, string)>)>, name: string, b: seq<(string, seq<(string, string)>)>)
    ensures Listing(a + [(name, [])] + b) == Listing(a + b)
  {
    var a' := a + [(name, [])];
    assert Listing([(name, [])]) == [] by {
      assert Blocks([(name, [])]) == [[]];
      assert Concat([[]]) == [] + [];
    }
    assert Listing(a') == Listing(a) by {
      ListingAppend(a, [(name, [])]);
      assert Listing(a) + [] == Listing(a);
    }
    ListingAppend(a', b);
    ListingAppend(a, b);
  }

  /**
   * A stack with parameters is shown as its short name, one tab-indented `name = value` line
   * per parameter, and an empty line.
   */
  lemma StackShown(name: string, ps: seq<(string, string)>)
    requires ps != []
    ensures var lines := Listing([(name, ps)]);
      |lines| == |ps| + 2 && lines[0] == ShortName(name) && lines[|ps| + 1] == "" &&
      forall i :: 0 <= i < |ps| ==> lines[i + 1] == "\t" + ps[i].0 + " = " + ps[i].1
  {
    assert Blocks([(name, ps)]) == [Block(name, ps)];
    assert Concat([Block(name, ps)]) == [] + Block(name, ps);
  }

  /**
   * The glob `*` followed by the extension: the name ends with the extension and, as `*`
   * never matches a leading dot, is not hidden.
   */
  predicate Matches(name: string, ext: string) {
    EndsWith(name, ext) && (name == [] || name[0] != '.')
  }

  /** The names of a directory listing the glob selects, in listing order. */
  function Selected(listing: seq<string>, ext: string): (r: seq<string>)
    ensures |r| <= |listing|
    ensures forall n :: n in r <==> n in listing && Matches(n, ext)
  {
    if listing == [] then []
    else if Matches(listing[0], ext) then [listing[0]] + Selected(listing[1..], ext)
    else Selected(listing[1..], ext)
  }

  /**
   * The directory `glob` reads for the pattern `join(local_path, '*' + ext)`: the head of the
   * pattern's `os.path.split`. The names it finds are joined to that head (an empty head leaves
   * them bare).
   */
  function GlobDir(localPath: string, ext: string): string {
    SplitPath(JoinPath(localPath, "*" + ext)).0
  }

  /** The directory `glob` reads is the local path without its trailing slashes, unless it is all slashes. */
  lemma GlobDirTrimmed(localPath: string, ext: string)
    requires '/' !in ext
    ensures GlobDir(localPath, ext) == if AllSlashes(localPath) then localPath else TrimRight(localPath, {'/'})
  {
    var pattern := "*" + ext;
    assert '/' !in pattern && !StartsWith(pattern, "/");
    if localPath == [] {
      assert JoinPath(localPath, pattern) == pattern;
      SplitPathBare(pattern);
    } else if EndsWith(localPath, "/") {
      assert JoinPath(localPath, pattern) == localPath + pattern;
      SplitPathAfter(localPath, pattern);
    } else {
      SplitPathUnslashed(localPath, pattern);
    }
  }

  /** A path that does not end with a slash is the head of itself joined to a name without one. */
  lemma SplitPathUnslashed(localPath: string, pattern: string)
    requires localPath != [] && !EndsWith(localPath, "/") && '/' !in pattern && !StartsWith(pattern, "/")
    ensures SplitPath(JoinPath(localPath, pattern)).0 == localPath
    ensures !AllSlashes(localPath) && TrimRight(localPath, {'/'}) == localPath
  {
    var head := localPath + "/";
    assert JoinPath(localPath, pattern) == head + pattern;
    SplitPathAfter(head, pattern);
    assert localPath[|localPath| - 1] != '/';
    assert !AllSlashes(head) by {
      assert head[|localPath| - 1] == localPath[|localPath| - 1];
    }
    assert head[..|head| - 1] == localPath;
  }

  /** A path without a slash has an empty head. */
  lemma SplitPathBare(t: string)
    requires '/' !in t
    ensures SplitPath(t).0 == []
  {
  }

  /** The head of `h + t`, when `h` ends with a slash and `t` has none, is `h` with its trailing slashes trimmed. */
  lemma SplitPathAfter(h: string, t: string)
    requires h != [] && h[|h| - 1] == '/' && '/' !in t
    ensures SplitPath(h + t).0 == if AllSlashes(h) then h else TrimRight(h, {'/'})
  {
    LastSlash(h, t);
    assert (h + t)[..|h|] == h;
  }

  /** The last slash of `h + t`, when `h` ends with one and `t` has none, ends `h`. */
  lemma LastSlash(h: string, t: string)
    requires h != [] && h[|h| - 1] == '/' && '/' !in t
    ensures LastIndexOf(h + t, '/') == Some(|h| - 1)
  {
    var p := h + t;
    assert p[|h| - 1] == '/';
    assert forall k :: |h| <= k < |p| ==> p[k] == t[k - |h|];
  }

  /** With `local_path: tpl//`, `glob` yields `tpl/a.json`: the doubled slash is gone from the path. */
  lemma GlobDirExample(localPath: string, ext: string, name: string)
    requires localPath == "tpl//" && ext == ".json" && name == "a.json"
    ensures JoinPath(GlobDir(localPath, ext), name) == "tpl/a.json"
  {
    TrimmedExample(localPath);
    GlobDirTrimmed(localPath, ext);
    assert !StartsWith(name, "/") && !EndsWith("tpl", "/");
  }

  /** `tpl//` is not all slashes, and trimming its trailing slashes leaves `tpl`. */
  lemma TrimmedExample(localPath: string)
    requires localPath == "tpl//"
    ensures !AllSlashes(localPath) && TrimRight(localPath, {'/'}) == "tpl"
  {
    assert localPath[0] == 't';
    var slash: set<char> := {'/'};
    var tpl := localPath[..3];
    assert localPath[..4] == tpl + "/" && (tpl + "/")[..3] == tpl && tpl == "tpl";
    assert TrimRight(tpl, slash) == tpl by {
      assert tpl[2] !in slash;
    }
  }

  /**
   * `collect_templates`: a template for every file of the directory `glob` reads (`listing`, the
   * names in it) with the extension of the stack's `template_body`.
   */
  function CollectTemplates(templateBody: string, config: Tpl.TemplateConfig, listing: seq<string>): (r: seq<Tpl.Template>)
    ensures var ext := SplitExt(templateBody).1;
      var names := Selected(listing, ext);
      |r| == |names| &&
      forall i :: 0 <= i < |r| ==>
        r[i] == Tpl.NewTemplate(JoinPath(GlobDir(config.localPath.GetOr(""), ext), names[i]), config)
  {
    var ext := SplitExt(templateBody).1;
    TemplatesIn(GlobDir(config.localPath.GetOr(""), ext), Selected(listing, ext), config)
  }

  /** A template for each name, at the name joined to `dir`. */
  function TemplatesIn(dir: string, names: seq<string>, config: Tpl.TemplateConfig): (r: seq<Tpl.Template>)
    ensures |r| == |names| && forall i :: 0 <= i < |r| ==> r[i] == Tpl.NewTemplate(JoinPath(dir, names[i]), config)
  {
    seq(|names|, i requires 0 <= i < |names| => Tpl.NewTemplate(JoinPath(dir, names[i]), config))
  }

  /**
   * The templates collected are exactly those of the files of the listing that have the
   * extension of the template body.
   */
  lemma CollectedTemplatesAreSelected(templateBody: string, config: Tpl.TemplateConfig, listing: seq<string>)
    ensures var ext := SplitExt(templateBody).1;
      var dir := GlobDir(config.localPath.GetOr(""), ext);
      var r := CollectTemplates(templateBody, config, listing);
      && (forall n :: n in listing && Matches(n, ext) ==> Tpl.NewTemplate(JoinPath(dir, n), config) in r)
      && (forall t :: t in r ==> exists n :: n in listing && Matches(n, ext) && t == Tpl.NewTemplate(JoinPath(dir, n), config))
  {
    var ext := SplitExt(templateBody).1;
    var dir := GlobDir(config.localPath.GetOr(""), ext);
    assert CollectTemplates(templateBody, config, listing) == TemplatesIn(dir, Selected(listing, ext), config);
    TemplatesInSelected(dir, listing, ext, config);
  }

  /** The templates in `dir` for the names selected from `listing` are those of its files with the extension. */
  lemma TemplatesInSelected(dir: string, listing: seq<string>, ext: string, config: Tpl.TemplateConfig)
    ensures var r := TemplatesIn(dir, Selected(listing, ext), config);
      && (forall n :: n in listing && Matches(n, ext) ==> Tpl.NewTemplate(JoinPath(dir, n), config) in r)
      && (forall t :: t in r ==> exists n :: n in listing && Matches(n, ext) && t == Tpl.NewTemplate(JoinPath(dir, n), config))
  {
    var names := Selected(listing, ext);
    var r := TemplatesIn(dir, names, config);
    forall n | n in listing && Matches(n, ext) ensures Tpl.NewTemplate(JoinPath(dir, n), config) in r {
      var i :| 0 <= i < |names| && names[i] == n;
      assert r[i] == Tpl.NewTemplate(JoinPath(dir, n), config);
    }
    forall t | t in r ensures exists n :: n in listing && Matches(n, ext) && t == Tpl.NewTemplate(JoinPath(dir, n), config) {
      var i :| 0 <= i < |r| && r[i] == t;
      assert names[i] in names;
    }
  }

  /**
   * A selected file name has the same extension as the template body, whenever the body has
   * one.
   */
  lemma SelectedSameExtension(templateBody: string, name: string)
    requires '/' !in name && SplitExt(templateBody).1 != [] && Matches(name, SplitExt(templateBody).1)
    ensures SplitExt(name).1 == SplitExt(templateBody).1
  {
    var ext := SplitExt(templateBody).1;
    var d := |name| - |ext|;
    assert name[d..] == ext;
    assert name[d] == '.';
    assert d > 0;
    assert LastIndexOf(name, '/').None?;
    var dot := LastIndexOf(name, '.').value;
    assert dot == d;
    assert name[0] != '.';
  }

  /** What `process_assets` does. */
  datatype AssetsStep =
    | NoAssets
    | SendAssets(localPath: Json, s3Bucket: Json, s3Path: Json)
    /**
     * The first setting that cannot be read: the `KeyError` of an `assets` object lacking it, or,
     * at `local_path`, the `TypeError` of an `assets` value that is not an object.
     */
    | MissingAssetsKey(key: string)

  /** The settings of `assets`, in the order `process_assets` reads them. */
  const AssetsSettings := ["local_path", "s3_bucket", "s3_path"]

  /** `process_assets`: nothing without an `assets` key; else its three settings, read in order. */
  function ProcessAssets(conf: Json): (r: AssetsStep)
    ensures r.NoAssets? <==> !HasKey(conf, "assets")
    ensures r.SendAssets? ==>
      var a := Get(conf, "assets").value;
      Get(a, "local_path") == Some(r.localPath) && Get(a, "s3_bucket") == Some(r.s3Bucket) &&
      Get(a, "s3_path") == Some(r.s3Path)
    ensures r.MissingAssetsKey? ==>
      var a := Get(conf, "assets").value;
      exists i :: 0 <= i < |AssetsSettings| && AssetsSettings[i] == r.key && !HasKey(a, r.key)
        && forall j :: 0 <= j < i ==> HasKey(a, AssetsSettings[j])
  {
    match Get(conf, "assets")
    case None => NoAssets
    case Some(a) =>
      match Get(a, "local_path")
      case None => assert AssetsSettings[0] == "local_path"; MissingAssetsKey("local_path")
      case Some(localPath) =>
        match Get(a, "s3_bucket")
        case None => assert AssetsSettings[1] == "s3_bucket"; MissingAssetsKey("s3_bucket")
        case Some(bucket) =>
          match Get(a, "s3_path")
          case None => assert AssetsSettings[2] == "s3_path"; MissingAssetsKey("s3_path")
          case Some(path) => SendAssets(localPath, bucket, path)
  }

  /** A collected template with what the file system and CloudFormation say about it. */
  datatype TemplateFile = TemplateFile(template: Tpl.Template, content: string, size: int, rejection: Option<string>)

  /** What `validate_and_upload` does, step by step. */
  datatype Action =
    | Validated(request: Tpl.ValidationRequest)
    | Published(target: Tpl.Upload, copy: bool)
    | Assets(step: AssetsStep)

  /** The steps taken and the exit status (1 when a template is rejected). */
  datatype Run = Run(actions: seq<Action>, exitCode: int)

  /** The steps of validating one template: its `.copy` upload if any, then the request. */
  function ValidationSteps(v: Tpl.Validation): seq<Action> {
    seq(|v.uploads|, i requires 0 <= i < |v.uploads| => Published(v.uploads[i], true)) + [Validated(v.request)]
  }

  function ValidateOne(f: TemplateFile): Tpl.Validation {
    Tpl.Validate(f.template, f.content, f.size, f.rejection)
  }

  /** The steps of validating each of `files` in turn, none of them stopping the others. */
  function Validations(files: seq<TemplateFile>): seq<Action>
    decreases |files|
  {
    if files == [] then [] else ValidationSteps(ValidateOne(files[0])) + Validations(files[1..])
  }

  /** Validating a template that `Validations` goes through includes its request. */
  lemma {:induction false} ValidationsInclude(files: seq<TemplateFile>, i: nat)
    requires i < |files|
    ensures Validated(ValidateOne(files[i]).request) in Validations(files)
    decreases |files|
  {
    var head := ValidationSteps(ValidateOne(files[0]));
    if i == 0 {
      assert head[|head| - 1] == Validated(ValidateOne(files[0]).request);
      assert Validations(files)[|head| - 1] == head[|head| - 1];
    } else {
      ValidationsInclude(files[1..], i - 1);
      assert files[1..][i - 1] == files[i];
      assert Validations(files) == head + Validations(files[1..]);
    }
  }

  /** `files[k]` is the first rejected template. */
  predicate FirstRejected(files: seq<TemplateFile>, k: int) {
    0 <= k < |files| && files[k].rejection.Some? && forall j :: 0 <= j < k ==> files[j].rejection.None?
  }

  /**
   * Validating every template in turn (`t.validate() for t in templates`): every template is
   * validated when all are accepted; otherwise every one up to the first rejected, which exits.
   */
  function ValidateAll(files: seq<TemplateFile>): (r: (seq<Action>, bool))
    ensures r.1 <==> forall i :: 0 <= i < |files| ==> files[i].rejection.None?
    ensures r.1 ==> r.0 == Validations(files)
    ensures !r.1 ==> exists k :: FirstRejected(files, k) && r.0 == Validations(files[..k + 1])
    ensures forall i :: 0 <= i < |r.0| ==> Stage(r.0[i]) == 0
    decreases |files|
  {
    if files == [] then ([], true)
    else
      var v := ValidateOne(files[0]);
      if v.exitCode == 1 then
        assert files[..1][0] == files[0] && files[..1][1..] == [];
        assert FirstRejected(files, 0) && Validations(files[..1]) == ValidationSteps(v) + [];
        (ValidationSteps(v), false)
      else
        var rest := ValidateAll(files[1..]);
        assert forall i :: 1 <= i < |files| ==> files[i] == files[1..][i - 1];
        RejectedAfterFirst(files, rest.0, rest.1);
        (ValidationSteps(v) + rest.0, rest.1)
  }

  /** The first rejection among `files[1..]`, when the first file is accepted, is the first among `files`. */
  lemma RejectedAfterFirst(files: seq<TemplateFile>, steps: seq<Action>, ok: bool)
    requires files != [] && files[0].rejection.None?
    requires !ok ==> exists k :: FirstRejected(files[1..], k) && steps == Validations(files[1..][..k + 1])
    ensures !ok ==> exists k :: FirstRejected(files, k) && ValidationSteps(ValidateOne(files[0])) + steps == Validations(files[..k + 1])
  {
    if !ok {
      var k :| FirstRejected(files[1..], k) && steps == Validations(files[1..][..k + 1]);
      assert files[..k + 2][0] == files[0] && files[..k + 2][1..] == files[1..][..k + 1];
      assert forall j :: 0 < j < k + 1 ==> files[j] == files[1..][j - 1];
      assert files[k + 1] == files[1..][k];
      assert FirstRejected(files, k + 1);
    }
  }

  /** Uploading every template under its own key. */
  function UploadAll(files: seq<TemplateFile>): seq<Action> {
    seq(|files|, i requires 0 <= i < |files| => Published(Tpl.UploadTarget(files[i].template, false), false))
  }

  /** `validate_and_upload`: validate all, then upload all, then process the assets. */
  function ValidateAndUpload(files: seq<TemplateFile>, conf: Json): Run {
    var (checks, ok) := ValidateAll(files);
    if !ok then Run(checks, 1)
    else Run(checks + UploadAll(files) + [Assets(ProcessAssets(conf))], 0)
  }

  /** The phase an action belongs to: validation (with its copies), upload, assets. */
  function Stage(a: Action): nat {
    match a
    case Validated(_) => 0
    case Published(_, copy) => if copy then 0 else 1
    case Assets(_) => 2
  }

  /**
   * Every template is validated before any is uploaded, and the assets come last; a rejected
   * template exits with status 1 before anything is uploaded.
   */
  lemma ValidateBeforeUpload(files: seq<TemplateFile>, conf: Json)
    ensures var r := ValidateAndUpload(files, conf);
      forall i, j :: 0 <= i < j < |r.actions| ==> Stage(r.actions[i]) <= Stage(r.actions[j])
    ensures var r := ValidateAndUpload(files, conf);
      r.exitCode == 1 <==> exists i :: 0 <= i < |files| && files[i].rejection.Some?
    ensures var r := ValidateAndUpload(files, conf);
      r.exitCode == 1 ==> forall i :: 0 <= i < |r.actions| ==> Stage(r.actions[i]) == 0
  {
    var checks := ValidateAll(files).0;
    var uploads := UploadAll(files);
    var r := ValidateAndUpload(files, conf);
    if r.exitCode == 0 {
      assert r.actions == checks + uploads + [Assets(ProcessAssets(conf))];
      forall i | 0 <= i < |r.actions|
        ensures Stage(r.actions[i]) == if i < |checks| then 0 else if i < |checks| + |uploads| then 1 else 2
      {
        if i < |checks| {
          assert r.actions[i] == checks[i];
        } else if i < |checks| + |uploads| {
          assert r.actions[i] == uploads[i - |checks|];
        }
      }
    }
  }

  /**
   * Every template before the first rejected one, and that one, is validated, and its request is
   * made before any template is uploaded.
   */
  lemma AllValidated(files: seq<TemplateFile>, conf: Json, i: nat)
    requires i < |files| && forall k :: 0 <= k < i ==> files[k].rejection.None?
    ensures var r := ValidateAndUpload(files, conf);
      exists p :: 0 <= p < |r.actions| && r.actions[p] == Validated(ValidateOne(files[i]).request)
        && forall q :: 0 <= q < |r.actions| && r.actions[q].Published? && !r.actions[q].copy ==> p < q
  {
    var (checks, ok) := ValidateAll(files);
    var r := ValidateAndUpload(files, conf);
    var wanted := Validated(ValidateOne(files[i]).request);
    if ok {
      ValidationsInclude(files, i);
    } else {
      var k :| FirstRejected(files, k) && checks == Validations(files[..k + 1]);
      assert i <= k;
      ValidationsInclude(files[..k + 1], i);
      assert files[..k + 1][i] == files[i];
    }
    assert wanted in checks;
    var p :| 0 <= p < |checks| && checks[p] == wanted;
    assert r.actions[..|checks|] == checks;
    assert r.actions[p] == wanted;
    ValidateBeforeUpload(files, conf);
    forall q | 0 <= q < |r.actions| && r.actions[q].Published? && !r.actions[q].copy ensures p < q {
      assert Stage(r.actions[q]) == 1 && Stage(r.actions[p]) == 0;
    }
  }

  /** When every template is accepted, each one is uploaded under its own key, and the assets are processed last. */
  lemma AllUploaded(files: seq<TemplateFile>, conf: Json, i: nat)
    requires forall k :: 0 <= k < |files| ==> files[k].rejection.None?
    requires i < |files|
    ensures var r := ValidateAndUpload(files, conf);
      r.exitCode == 0 && Published(Tpl.UploadTarget(files[i].template, false), false) in r.actions &&
      r.actions[|r.actions| - 1] == Assets(ProcessAssets(conf))
  {
    var checks := ValidateAll(files).0;
    var uploads := UploadAll(files);
    var r := ValidateAndUpload(files, conf);
    assert r.actions == checks + uploads + [Assets(ProcessAssets(conf))];
    assert r.actions[|checks| + i] == uploads[i];
  }
}
