// The Content-Type tesp gives each file it uploads to S3: README files are
// plain text, anything else is looked up by its lower-cased extension.

module MediaTypes {
  import opened Wrappers
  import opened Text

  /** `PackageS3.MEDIA_TYPES`. */
  const MediaTypes: map<string, string> := map[
    "geojson" := "application/geo+json",
    "htm" := "text/html",
    "html" := "text/html",
    "jpg" := "image/jpeg",
    "sha1" := "text/plain",
    "tif" := "image/tiff",
    "tiff" := "image/tiff",
    "vrt" := "text/xml",
    "xml" := "text/xml",
    "yaml" := "text/plain",
    "yml" := "text/plain",
    "md" := "text/plain"]

  const OctetStream := "application/octet-stream"

  /** The position of the last `c` in `s`, as `str.rfind`. */
  function LastIndex(s: string, c: char): (r: Option<nat>)
    ensures r.None? <==> c !in s
    ensures r.Some? ==> r.value < |s| && s[r.value] == c && c !in s[r.value + 1..]
  {
    if |s| == 0 then None
    else if s[|s| - 1] == c then Some(|s| - 1)
    else
      var r := LastIndex(s[..|s| - 1], c);
      assert r.Some? ==> s[r.value + 1..] == s[..|s| - 1][r.value + 1..] + [s[|s| - 1]];
      r
  }

  lemma {:induction false} LastIndexAtLeast(s: string, c: char, i: nat)
    requires i < |s| && s[i] == c
    ensures LastIndex(s, c).Some? && i <= LastIndex(s, c).value
  {
    if s[|s| - 1] != c {
      LastIndexAtLeast(s[..|s| - 1], c, i);
    }
  }

  /** `PurePath.name`: the path after its last `/`. */
  function BaseName(path: string): (r: string)
    ensures '/' !in r && |r| <= |path| && r == path[|path| - |r|..]
  {
    match LastIndex(path, '/')
    case None => path
    case Some(i) => path[i + 1..]
  }

  /** Where `PurePath.suffix` starts: the last dot of the name, unless it is
      the name's first or last character. */
  function SuffixStart(name: string): (r: nat)
    ensures r <= |name|
  {
    match LastIndex(name, '.')
    case Some(i) => if 0 < i < |name| - 1 then i else |name|
    case None => |name|
  }

  /** `PurePath.suffix`. */
  function Suffix(name: string): (r: string)
    ensures r == "" || (r[0] == '.' && |r| >= 2 && '.' !in r[1..])
  {
    name[SuffixStart(name)..]
  }

  /** `PurePath.stem`. */
  function Stem(name: string): (r: string)
    ensures |r| == |name| - |Suffix(name)|
  {
    name[..SuffixStart(name)]
  }

  /** The stem and the suffix are the name cut in two. */
  lemma StemSuffix(name: string)
    ensures Stem(name) + Suffix(name) == name
    ensures Suffix(name) != "" ==> |Stem(name)| > 0
  {
    assert name[..SuffixStart(name)] + name[SuffixStart(name)..] == name;
  }

  /** `str(path.suffix)[1:].lower()`: the extension without its dot, in
      lower case; empty when there is none. */
  function Extension(name: string): (r: string)
    ensures |r| == if Suffix(name) == "" then 0 else |Suffix(name)| - 1
  {
    var suffix := Suffix(name);
    Lower(if |suffix| == 0 then suffix else suffix[1..])
  }

  /** `PackageS3._get_content_mediatype`: a README is plain text whatever
      its suffix; any other file takes the type of its extension, or the
      octet-stream type for an extension outside the table. */
  function ContentMediaType(path: string): (r: string)
    ensures Stem(BaseName(path)) == "README" ==> r == "text/plain"
    ensures Stem(BaseName(path)) != "README" && Extension(BaseName(path)) in MediaTypes ==>
      r == MediaTypes[Extension(BaseName(path))]
    ensures Stem(BaseName(path)) != "README" && Extension(BaseName(path)) !in MediaTypes ==> r == OctetStream
  {
    var name := BaseName(path);
    if Stem(name) == "README" then "text/plain"
    else
      var ext := Extension(name);
      if ext in MediaTypes then MediaTypes[ext] else OctetStream
  }

  /** A name made of a stem and an extension without a dot. */
  lemma SplitName(stem: string, ext: string)
    requires |stem| > 0 && |ext| > 0 && '.' !in ext && '/' !in stem && '/' !in ext
    ensures BaseName(stem + "." + ext) == stem + "." + ext
    ensures Suffix(stem + "." + ext) == "." + ext
    ensures Stem(stem + "." + ext) == stem
  {
    var name := stem + "." + ext;
    forall k | 0 <= k < |name|
      ensures name[k] != '/' && (k > |stem| ==> name[k] != '.')
    {
      if k < |stem| {
        assert name[k] == stem[k];
      } else if k > |stem| {
        assert name[k] == ext[k - |stem| - 1];
      }
    }
    assert LastIndex(name, '/') == None;
    assert name[|stem|] == '.';
    assert name[|stem| + 1..] == ext;
    LastIndexAtLeast(name, '.', |stem|);
  }

  /** The lookup ignores the case of the extension: `.TIF` and `.tif` are
      both TIFF images. */
  lemma ExtensionCaseIgnored(stem: string, ext: string)
    requires |stem| > 0 && |ext| > 0 && '.' !in ext && '/' !in stem && '/' !in ext
    requires Lower(ext) == "tif"
    ensures stem != "README" ==> ContentMediaType(stem + "." + ext) == "image/tiff"
    ensures stem == "README" ==> ContentMediaType(stem + "." + ext) == "text/plain"
  {
    SplitName(stem, ext);
    assert ("." + ext)[1..] == ext;
  }

  /** A file without an extension is an octet stream, unless it is a README,
      whatever the directory. */
  lemma NoExtension(dir: string, name: string)
    requires '.' !in name && '/' !in name
    ensures name != "README" ==> ContentMediaType(dir + "/" + name) == OctetStream
    ensures name == "README" ==> ContentMediaType(dir + "/" + name) == "text/plain"
  {
    var path := dir + "/" + name;
    forall k | |dir| < k < |path|
      ensures path[k] != '/'
    {
      assert path[k] == name[k - |dir| - 1];
    }
    assert path[|dir|] == '/';
    LastIndexAtLeast(path, '/', |dir|);
    assert LastIndex(path, '/') == Some(|dir|);
    assert path[|dir| + 1..] == name;
    assert BaseName(path) == name;
    assert SuffixStart(name) == |name|;
    assert Suffix(name) == "" && Stem(name) == name;
    assert Extension(name) == "";
    assert "" !in MediaTypes;
  }
}
