/**
 * The template object of the `brumecli` variant (brumecli/template.py): a file read once, whose
 * S3 key and public URL are set by `upload`.
 */
module CliTemplate {
  import opened Wrappers
  import opened Strings
  import opened Paths
  import Brume = Template

  /** `InvalidTemplateError(m)`; its `str` is the message it was built with. */
  datatype InvalidTemplateError = InvalidTemplateError(m: string)

  /** `InvalidTemplateError.__str__` */
  function Message(e: InvalidTemplateError): (r: string)
    ensures InvalidTemplateError(r) == e
  {
    e.m
  }

  /** The key `upload` records: the path without surrounding slashes, `/`, the file. */
  function UploadKey(path: string, file: string): string {
    Strip(path, {'/'}) + "/" + file
  }

  /** The key `upload` writes the object under: the path as given, `/`, the file. */
  function ObjectKey(path: string, file: string): string {
    path + "/" + file
  }

  /** The URL `upload` records: the bucket host and the key, with no normalisation. */
  function UploadUrl(bucket: string, key: string): string {
    "https://" + (bucket + Brume.S3Host + "/" + key)
  }

  class Template {
    var file: string
    var content: string
    var key: string
    var publicUrl: string

    /** `Template.__init__` once the file is read: no key and no URL yet. */
    constructor (file: string, content: string)
      ensures this.file == file && this.content == content
      ensures key == "" && publicUrl == ""
    {
      this.file := file;
      this.content := content;
      key := "";
      publicUrl := "";
    }

    /**
     * Opening a file: `files` holds the readable files and their contents; a file that is not
     * there is the `IOError` the constructor re-raises.
     */
    static method Open(file: string, files: map<string, string>) returns (r: Option<Template>)
      ensures r.None? <==> file !in files
      ensures r.Some? ==> fresh(r.value) && r.value.file == file && r.value.content == files[file]
      ensures r.Some? ==> r.value.key == "" && r.value.publicUrl == ""
    {
      if file !in files {
        return None;
      }
      var t := new Template(file, files[file]);
      return Some(t);
    }

    /**
     * `validate`: the body sent to `validate_template` is the content; a rejection exits with
     * status 1, otherwise the template itself is returned (status 0).
     */
    method Validate(rejection: Option<string>) returns (body: string, exitCode: int)
      ensures body == content
      ensures exitCode == 1 <==> rejection.Some?
      ensures exitCode == 0 <==> rejection.None?
    {
      body := content;
      exitCode := if rejection.Some? then 1 else 0;
    }

    /**
     * `upload`: records the stripped key and its URL, and returns the key the object is
     * actually written under; the file and content stay as they are.
     */
    method Upload(bucket: string, path: string) returns (objectKey: string)
      modifies this
      ensures file == old(file) && content == old(content)
      ensures key == UploadKey(path, file) && publicUrl == UploadUrl(bucket, key)
      ensures objectKey == ObjectKey(path, file)
    {
      key := Strip(path, {'/'}) + "/" + file;
      publicUrl := "https://" + (bucket + Brume.S3Host + "/" + key);
      objectKey := path + "/" + file;
    }
  }

  /** Text followed by the same suffix is equal exactly when the text is. */
  lemma AppendCancel(a: string, b: string, c: string)
    ensures a + c == b + c <==> a == b
  {
    if a + c == b + c {
      assert |a| == |b|;
      assert a == (a + c)[..|a|] && b == (b + c)[..|b|];
    }
  }

  /**
   * The object is written under the recorded key exactly when the path is empty or has no
   * slash at either end.
   */
  lemma ObjectKeyMatches(path: string, file: string)
    ensures ObjectKey(path, file) == UploadKey(path, file) <==> (path == [] || (path[0] != '/' && path[|path| - 1] != '/'))
  {
    AppendCancel(path, Strip(path, {'/'}), "/" + file);
    ConcatAssoc(path, "/", file);
    ConcatAssoc(Strip(path, {'/'}), "/", file);
    StripIdentity(path, {'/'});
  }

  /**
   * The recorded key ends with `/` and the file, and starts with `/` exactly when the path is
   * made of slashes only.
   */
  lemma UploadKeyShape(path: string, file: string)
    ensures EndsWith(UploadKey(path, file), "/" + file)
    ensures UploadKey(path, file)[0] == '/' <==> Strip(path, {'/'}) == []
  {
    var s := Strip(path, {'/'});
    ConcatAssoc(s, "/", file);
    var k := UploadKey(path, file);
    assert k == s + ("/" + file);
    assert k[|k| - |"/" + file|..] == "/" + file;
    if s != [] {
      assert k[0] == s[0];
    }
  }

  /**
   * For a key made of plain segments and a bucket without `/`, the URL recorded here is the one
   * brume/template.py computes with `normpath`.
   */
  lemma UploadUrlNormalised(bucket: string, segs: seq<string>)
    requires '/' !in bucket && |segs| >= 1 && PlainSegments(segs)
    ensures UploadUrl(bucket, JoinWith(segs, '/')) == Brume.PublicUrl(bucket, JoinWith(segs, '/'))
  {
    Brume.PublicUrlPlain(bucket, segs);
  }
}
