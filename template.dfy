/**
 * Where a template of the `brume` tool goes on S3 and how it is validated (brume/template.py):
 * its object key and public URL, the `.copy` object used for templates too large to send inline,
 * and the validation request.
 */
module Template {
  import opened Wrappers
  import opened Strings
  import opened Paths

  /** The largest template body CloudFormation accepts inline, in bytes. */
  const SizeLimit := 51200
  const DefaultS3Path := "cloudformation"
  const CopySuffix := ".copy"
  const S3Host := ".s3.amazonaws.com"

  /** The `templates` section of the configuration; an absent key is `None`. */
  datatype TemplateConfig = TemplateConfig(s3Bucket: string, localPath: Option<string>, s3Path: Option<string>)

  /** What the constructor computes once; no method changes it afterwards. */
  datatype Template = Template(localFilePath: string, filePath: string, s3Bucket: string, s3Key: string, publicUrl: string)

  /** The file path with every occurrence of the local directory removed, unless that is `.`. */
  function RelativePath(filePath: string, localPath: string): (r: string)
    ensures localPath == "." || localPath == [] ==> r == filePath
    ensures localPath != "." && !Contains(filePath, localPath) ==> r == filePath
  {
    if localPath != "." then
      if !Contains(filePath, localPath) then
        RemoveAllAbsent(filePath, localPath);
        RemoveAll(filePath, localPath)
      else RemoveAll(filePath, localPath)
    else filePath
  }

  /**
   * The object key: the S3 prefix and the relative path joined by `/`, normalised, without
   * leading or trailing slashes.
   */
  function S3Key(filePath: string, localPath: string, s3Path: string): (r: string)
    ensures r == [] || (r[0] != '/' && r[|r| - 1] != '/')
  {
    Strip(NormPath(s3Path + "/" + RelativePath(filePath, localPath)), {'/'})
  }

  /** `_public_url`: `https://` and the normalised bucket host and key. */
  function PublicUrl(bucket: string, key: string): string {
    "https://" + NormPath(bucket + S3Host + "/" + key)
  }

  /** `Template.__init__`: the key and URL from the path and the configuration's defaults. */
  function NewTemplate(filePath: string, config: TemplateConfig): (t: Template)
    ensures t.localFilePath == filePath && t.s3Bucket == config.s3Bucket
    ensures t.s3Key == S3Key(filePath, config.localPath.GetOr(""), config.s3Path.GetOr(DefaultS3Path))
    ensures t.s3Key == [] || (t.s3Key[0] != '/' && t.s3Key[|t.s3Key| - 1] != '/')
    ensures t.publicUrl == PublicUrl(t.s3Bucket, t.s3Key)
  {
    var localPath := config.localPath.GetOr("");
    var filePath' := RelativePath(filePath, localPath);
    var key := S3Key(filePath, localPath, config.s3Path.GetOr(DefaultS3Path));
    Template(filePath, filePath', config.s3Bucket, key, PublicUrl(config.s3Bucket, key))
  }

  /** The object `upload` writes: the key, suffixed with `.copy` for a copy, and its URL. */
  datatype Upload = Upload(key: string, url: string)

  /** `upload(copy)`: what it publishes; the template's own key and URL stay as they are. */
  function UploadTarget(t: Template, copy: bool): (r: Upload)
    ensures copy ==> r.key == t.s3Key + CopySuffix && r.url == t.publicUrl + CopySuffix
    ensures !copy ==> r.key == t.s3Key && r.url == t.publicUrl
  {
    if copy then Upload(t.s3Key + CopySuffix, t.publicUrl + CopySuffix) else Upload(t.s3Key, t.publicUrl)
  }

  datatype ValidationRequest = TemplateBody(body: string) | TemplateUrl(url: string)

  /**
   * What `validate` does: the objects it uploads first, what it sends to `validate_template`,
   * and the exit status (1 when the service rejects the template, `self` returned otherwise).
   */
  datatype Validation = Validation(uploads: seq<Upload>, request: ValidationRequest, exitCode: int)

  /**
   * `validate`: a template of at most 51200 bytes goes inline; a larger one is uploaded as
   * its `.copy` object and validated by that object's URL.
   */
  function Validate(t: Template, content: string, size: int, rejection: Option<string>): (r: Validation)
    ensures size <= SizeLimit ==> r.uploads == [] && r.request == TemplateBody(content)
    ensures size > SizeLimit ==> r.uploads == [UploadTarget(t, true)] && r.request == TemplateUrl(r.uploads[0].url)
    ensures r.exitCode == (if rejection.Some? then 1 else 0)
  {
    var exitCode := if rejection.Some? then 1 else 0;
    if size > SizeLimit then
      var copy := UploadTarget(t, true);
      Validation([copy], TemplateUrl(t.publicUrl + CopySuffix), exitCode)
    else Validation([], TemplateBody(content), exitCode)
  }

  /** The bucket host is a plain segment. */
  lemma HostSegment(bucket: string)
    requires '/' !in bucket
    ensures PlainSegment(bucket + S3Host) && '/' !in bucket + S3Host
  {
    assert '/' !in S3Host;
    assert |bucket + S3Host| > 2;
  }

  /** For a key made of plain segments, the URL is the bucket host and the key, as they are. */
  lemma PublicUrlPlain(bucket: string, segs: seq<string>)
    requires '/' !in bucket && |segs| >= 1 && PlainSegments(segs)
    ensures PublicUrl(bucket, JoinWith(segs, '/')) == "https://" + (bucket + S3Host + "/" + JoinWith(segs, '/'))
  {
    var host := bucket + S3Host;
    var all := [host] + segs;
    HostSegment(bucket);
    assert all[0] == host && all[1..] == segs;
    assert JoinWith(all, '/') == host + "/" + JoinWith(segs, '/');
    assert PlainSegments(all) by {
      forall i | 1 <= i < |all| ensures PlainSegment(all[i]) && '/' !in all[i] {
        assert all[i] == segs[i - 1];
      }
    }
    NormPathPlain(all);
  }

  /** A segment with `.copy` appended stays plain. */
  lemma CopySegment(seg: string)
    requires '/' !in seg
    ensures PlainSegment(seg + CopySuffix) && '/' !in seg + CopySuffix
  {
    assert '/' !in CopySuffix;
    assert |seg + CopySuffix| > 2;
  }

  /**
   * The URL a large template is validated by is the public URL of the copy that was uploaded,
   * for a key made of plain segments.
   */
  lemma ValidatedCopyIsUploaded(t: Template, content: string, size: int, rejection: Option<string>, segs: seq<string>)
    requires size > SizeLimit && '/' !in t.s3Bucket
    requires |segs| >= 1 && PlainSegments(segs) && t.s3Key == JoinWith(segs, '/')
    requires t.publicUrl == PublicUrl(t.s3Bucket, t.s3Key)
    ensures Validate(t, content, size, rejection).request ==
      TemplateUrl(PublicUrl(t.s3Bucket, Validate(t, content, size, rejection).uploads[0].key))
  {
    CopyUrl(t.s3Bucket, segs);
  }

  /**
   * The `.copy` object `upload` publishes is addressed by its own public URL, for a template
   * whose key is made of plain segments.
   */
  lemma UploadedCopyUrl(t: Template, segs: seq<string>)
    requires '/' !in t.s3Bucket
    requires |segs| >= 1 && PlainSegments(segs) && t.s3Key == JoinWith(segs, '/')
    requires t.publicUrl == PublicUrl(t.s3Bucket, t.s3Key)
    ensures UploadTarget(t, true).url == PublicUrl(t.s3Bucket, UploadTarget(t, true).key)
  {
    CopyUrl(t.s3Bucket, segs);
  }

  /** For a key of plain segments, the URL of its copy is its URL with `.copy` appended. */
  lemma CopyUrl(bucket: string, segs: seq<string>)
    requires '/' !in bucket && |segs| >= 1 && PlainSegments(segs)
    ensures PublicUrl(bucket, JoinWith(segs, '/')) + CopySuffix == PublicUrl(bucket, JoinWith(segs, '/') + CopySuffix)
  {
    var n := |segs| - 1;
    var key := JoinWith(segs, '/');
    CopiedSegments(segs);
    PublicUrlPlain(bucket, segs);
    PublicUrlPlain(bucket, segs[..n] + [segs[n] + CopySuffix]);
    var host := bucket + S3Host + "/";
    ConcatAssoc(host, key, CopySuffix);
    ConcatAssoc("https://", host + key, CopySuffix);
  }

  /** Appending `.copy` to a key of plain segments appends it to the last segment, which stays plain. */
  lemma CopiedSegments(segs: seq<string>)
    requires |segs| >= 1 && PlainSegments(segs)
    ensures var copied := segs[..|segs| - 1] + [segs[|segs| - 1] + CopySuffix];
      |copied| >= 1 && PlainSegments(copied) && JoinWith(copied, '/') == JoinWith(segs, '/') + CopySuffix
  {
    var n := |segs| - 1;
    var copied := segs[..n] + [segs[n] + CopySuffix];
    JoinAppendLast(segs, '/', CopySuffix);
    forall i | 0 <= i < |copied| ensures PlainSegment(copied[i]) && '/' !in copied[i] {
      if i < n {
        assert copied[i] == segs[i];
      } else {
        CopySegment(segs[n]);
      }
    }
  }

  /** The relative path of the example: the local directory removed from the middle. */
  lemma RelativePathExample(filePath: string, localPath: string, dir: string, file: string)
    requires filePath == "tests/test_stack/main.json" && localPath == "test_stack"
    requires dir == "tests" && file == "main.json"
    ensures RelativePath(filePath, localPath) == dir + "/" + ("/" + file)
  {
    var a, c := dir + "/", "/" + file;
    assert filePath == a + (localPath + c);
    forall j | 0 <= j < |a| ensures !OccursAt(filePath, localPath, j) {
      NotOccursAt(filePath, localPath, j, if j == 0 then 4 else if j == 3 then 1 else 0);
    }
    RemoveAllKeep(a, localPath + c, localPath);
    RemoveAllFront(localPath, c);
    NotOccursAt(c, localPath, 0, 0);
    assert c + [] == c;
    RemoveAllKeep(c, [], localPath);
  }

  /**
   * A relative path that is a directory, a doubled slash and a file name gives, under a plain
   * prefix, the key made of the three as plain segments.
   */
  lemma S3KeyDoubledSlash(filePath: string, localPath: string, prefix: string, dir: string, file: string)
    requires RelativePath(filePath, localPath) == dir + "/" + ("/" + file)
    requires PlainSegments([prefix, dir, file])
    ensures S3Key(filePath, localPath, prefix) == JoinWith([prefix, dir, file], '/')
  {
    var plain := [prefix, dir, file];
    assert plain[0] == prefix && plain[1] == dir && plain[2] == file;
    var segs := [prefix, dir, "", file];
    JoinDoubled(prefix, dir, file);
    ConcatAssoc(prefix, "/", dir + "/" + ("/" + file));
    NormPathRelative(segs);
    JoinThree(prefix, dir, file);
    StripIdentity(JoinWith(plain, '/'), {'/'});
  }

  /** Joining around an empty segment doubles the slash; dropping empty segments removes it. */
  lemma JoinDoubled(prefix: string, dir: string, file: string)
    ensures JoinWith([prefix, dir, "", file], '/') == prefix + "/" + (dir + "/" + ("/" + file))
    ensures prefix != [] && dir != [] && file != [] ==> DropEmpty([prefix, dir, "", file]) == [prefix, dir, file]
  {
    var segs := [prefix, dir, "", file];
    assert segs[1..] == [dir, "", file] && segs[2..] == ["", file] && segs[3..] == [file];
    var tail := ['/'] + file;
    assert JoinWith(segs[2..], '/') == [] + ['/'] + file == tail;
    assert JoinWith(segs[1..], '/') == dir + ['/'] + tail;
    assert ['/'] == "/";
    if prefix != [] && dir != [] && file != [] {
      assert DropEmpty(segs[3..]) == [file];
      assert DropEmpty(segs[2..]) == [file];
      assert DropEmpty(segs[1..]) == [dir, file];
    }
  }

  /** Three segments joined by `/`, written out. */
  lemma JoinThree(a: string, b: string, c: string)
    ensures JoinWith([a, b, c], '/') == a + "/" + (b + "/" + c)
    ensures a != [] && c != [] ==> JoinWith([a, b, c], '/')[0] == a[0] && JoinWith([a, b, c], '/')[|JoinWith([a, b, c], '/')| - 1] == c[|c| - 1]
  {
    var s := [a, b, c];
    assert s[1..] == [b, c] && s[2..] == [c];
    assert JoinWith(s[1..], '/') == b + ['/'] + c;
    assert ['/'] == "/";
  }

  /**
   * A template whose relative path is a directory, a doubled slash and a file name, under a
   * plain prefix, has the three as its key and the bucket host and that key as its URL.
   */
  lemma TemplateDoubledSlash(filePath: string, config: TemplateConfig, prefix: string, dir: string, file: string)
    requires config.localPath.Some? && config.s3Path == Some(prefix) && '/' !in config.s3Bucket
    requires RelativePath(filePath, config.localPath.value) == dir + "/" + ("/" + file)
    requires PlainSegments([prefix, dir, file])
    ensures NewTemplate(filePath, config).s3Key == prefix + "/" + (dir + "/" + file)
    ensures NewTemplate(filePath, config).publicUrl ==
      "https://" + (config.s3Bucket + S3Host + "/" + (prefix + "/" + (dir + "/" + file)))
  {
    S3KeyDoubledSlash(filePath, config.localPath.value, prefix, dir, file);
    JoinThree(prefix, dir, file);
    PublicUrlPlain(config.s3Bucket, [prefix, dir, file]);
  }

  /**
   * `tests/test_stack/main.json` with local path `test_stack`, prefix `cloudformation` and bucket
   * `dummy-bucket` has key `cloudformation/tests/main.json` and URL
   * `https://dummy-bucket.s3.amazonaws.com/cloudformation/tests/main.json`.
   */
  lemma TemplateExample(filePath: string, config: TemplateConfig)
    requires filePath == "tests/test_stack/main.json"
    requires config == TemplateConfig("dummy-bucket", Some("test_stack"), Some("cloudformation"))
    ensures NewTemplate(filePath, config).s3Key == "cloudformation/tests/main.json"
    ensures NewTemplate(filePath, config).publicUrl == "https://" + ("dummy-bucket" + S3Host + "/" + "cloudformation/tests/main.json")
  {
    RelativePathExample(filePath, config.localPath.value, "tests", "main.json");
    TemplateDoubledSlash(filePath, config, "cloudformation", "tests", "main.json");
    ExampleSpelled("cloudformation", "tests", "main.json");
  }

  /** The example's key, written out. */
  lemma ExampleSpelled(prefix: string, dir: string, file: string)
    requires prefix == "cloudformation" && dir == "tests" && file == "main.json"
    ensures prefix + "/" + (dir + "/" + file) == "cloudformation/tests/main.json"
  {
  }
}
