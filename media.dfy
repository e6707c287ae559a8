/** vixen/media.py: classification of a file by its extension and the `Media`
    record that a project keeps for every file. */
module MediaModel {
  import opened Wrappers
  import opened PyStr
  import opened PyPath
  import opened Values

  const ImageExts: seq<string> := [".bmp", ".png", ".gif", ".jpg", ".jpeg", ".svg"]
  const VideoExts: seq<string> := [".avi", ".mp4", ".ogv", ".webm", ".flv"]
  const AudioExts: seq<string> := [".mp3", ".wav", ".ogg", ".m4a"]
  const HtmlExts: seq<string> := [".html", ".htm"]
  const PdfExts: seq<string> := [".pdf"]
  const TextExts: seq<string> := [".md", ".rst", ".pyx"]

  /** The kinds `find_type` can answer. */
  const Kinds: set<string> := {"image", "video", "audio", "html", "pdf", "text", "unknown"}

  /** The lower-cased extension of `path`, dot included. */
  function Extension(path: string): string
  {
    Lower(SplitExt(path).1)
  }

  predicate Listed(ext: string)
  {
    ext in ImageExts || ext in VideoExts || ext in AudioExts || ext in HtmlExts ||
    ext in PdfExts || ext in TextExts
  }

  /** The MIME fallback: the major type when it is text, video, audio or image. */
  function MimeKind(mime: string): (r: string)
    ensures r in Kinds
    ensures IsPrefix("text", mime) ==> r == "text"
    ensures IsPrefix("video", mime) ==> r == "video"
    ensures IsPrefix("audio", mime) ==> r == "audio"
    ensures IsPrefix("image", mime) ==> r == "image"
    ensures r == "unknown" <==>
      !(IsPrefix("text", mime) || IsPrefix("video", mime) || IsPrefix("audio", mime) || IsPrefix("image", mime))
  {
    if |mime| > 0 then
      if IsPrefix("text", mime) then (PrefixHead("text", mime); "text")
      else if IsPrefix("video", mime) then (PrefixHead("video", mime); "video")
      else if IsPrefix("audio", mime) then (PrefixHead("audio", mime); "audio")
      else if IsPrefix("image", mime) then (PrefixHead("image", mime); "image")
      else "unknown"
    else "unknown"
  }

  /** The kind a listed extension stands for. The lists are disjoint, so the
      order in which they are tried does not matter. */
  function ListedKind(ext: string): (r: string)
    requires Listed(ext)
    ensures ext in ImageExts ==> r == "image"
    ensures ext in VideoExts ==> r == "video"
    ensures ext in AudioExts ==> r == "audio"
    ensures ext in HtmlExts ==> r == "html"
    ensures ext in PdfExts ==> r == "pdf"
    ensures ext in TextExts ==> r == "text"
  {
    if ext in ImageExts then "image"
    else if ext in VideoExts then "video"
    else if ext in AudioExts then "audio"
    else if ext in HtmlExts then "html"
    else if ext in PdfExts then "pdf"
    else "text"
  }

  /** `find_type(path)`, where `mime` is the MIME type guessed for `path`
      ("" when none is guessed). The fixed lists win over the guess. */
  function FindType(path: string, mime: string): (r: string)
    ensures r in Kinds
    ensures Listed(Extension(path)) ==> r == ListedKind(Extension(path))
    ensures !Listed(Extension(path)) ==> r == MimeKind(mime)
  {
    var ext := Extension(path);
    if ext in ImageExts then "image"
    else if ext in VideoExts then "video"
    else if ext in AudioExts then "audio"
    else if ext in HtmlExts then "html"
    else if ext in PdfExts then "pdf"
    else if ext in TextExts then "text"
    else MimeKind(mime)
  }

  /** For a file name `stem + ext` with a single dot, the extension is `ext`
      lower-cased, so the kind does not depend on the case of `ext`. */
  lemma ExtensionOfName(stem: string, ext: string)
    requires stem != "" && '.' !in stem && '/' !in stem
    requires |ext| > 0 && ext[0] == '.' && '.' !in ext[1..] && '/' !in ext
    ensures Extension(stem + ext) == Lower(ext)
  {
    SplitExtOfStem(stem, ext);
  }

  /** The kind of a file name `stem + ext` with a single dot is decided by `ext`
      lower-cased, and by the MIME guess only when that is not listed. */
  lemma {:induction false} FindTypeOfName(stem: string, ext: string, mime: string, p: string)
    requires stem != "" && '.' !in stem && '/' !in stem
    requires |ext| > 0 && ext[0] == '.' && '.' !in ext[1..] && '/' !in ext
    requires p == stem + ext
    ensures FindType(p, mime) == if Listed(Lower(ext)) then ListedKind(Lower(ext)) else MimeKind(mime)
  {
    ExtensionOfName(stem, ext);
  }

  lemma LowerHtml()
    ensures Lower(".HTML") == ".html"
  {
    var r := Lower(".HTML");
    assert r[0] == '.' && r[1] == 'h' && r[2] == 't' && r[3] == 'm' && r[4] == 'l';
  }

  /** From vixen/tests/test_media.py: "test.HTML" is html whatever MIME type is
      guessed, since the extension is lower-cased before the lists are tried. */
  lemma {:induction false} FindTypeUpperCaseHtml(mime: string)
    ensures FindType("test.HTML", mime) == "html"
  {
    assert "test" + ".HTML" == "test.HTML";
    FindTypeOfName("test", ".HTML", mime, "test.HTML");
    LowerHtml();
    assert ".html" == HtmlExts[0];
  }

  lemma LowerMd()
    ensures Lower(".md") == ".md"
  {
    var r := Lower(".md");
    assert r[0] == '.' && r[1] == 'm' && r[2] == 'd';
  }

  /** From vixen/tests/test_media.py: "test.md" is text, a listed extension
      that the MIME table would not classify. */
  lemma {:induction false} FindTypeMarkdown(mime: string)
    ensures FindType("test.md", mime) == "text"
  {
    assert "test" + ".md" == "test.md";
    FindTypeOfName("test", ".md", mime, "test.md");
    LowerMd();
    assert ".md" == TextExts[0];
  }

  lemma LowerXxx()
    ensures Lower(".xxx") == ".xxx"
  {
    var r := Lower(".xxx");
    assert r[0] == '.' && r[1] == 'x' && r[2] == 'x' && r[3] == 'x';
  }

  /** No listed extension has `x` right after its dot. */
  lemma XxxNotListed()
    ensures !Listed(".xxx")
  {
    var lists := [ImageExts, VideoExts, AudioExts, HtmlExts, PdfExts, TextExts];
    forall l, e | l in lists && e in l
      ensures |e| > 1 && e[1] != 'x'
    {
    }
    assert ".xxx"[1] == 'x';
  }

  /** From vixen/tests/test_media.py: "test.xxx", with no MIME type guessed, is unknown. */
  lemma {:induction false} FindTypeUnknown()
    ensures FindType("test.xxx", "") == "unknown"
  {
    assert "test" + ".xxx" == "test.xxx";
    FindTypeOfName("test", ".xxx", "", "test.xxx");
    LowerXxx();
    XxxNotListed();
    assert MimeKind("") == "unknown";
  }

  /** What `os.stat` and the date formatting of `get_media_data` yield for a file. */
  datatype StatInfo = StatInfo(size: int, ctime: string, ctimeStamp: int, mtime: string, mtimeStamp: int)

  /** The `MediaData` named tuple (`kind` is its `type` field). */
  datatype MediaData = MediaData(
    path: string, relpath: string, fileName: string, size: int,
    ctime: string, ctimeStamp: int, mtime: string, mtimeStamp: int, kind: string)

  /** `get_media_data(path, relpath)`; `stat` is `None` when the file does not exist. */
  function GetMediaData(path: string, relpath: string, stat: Option<StatInfo>, mime: string): (r: Option<MediaData>)
    ensures r.None? <==> stat.None?
    ensures r.Some? ==> r.value.path == path && r.value.relpath == relpath
    ensures r.Some? ==> r.value.fileName == Basename(path) && r.value.kind == FindType(path, mime)
    ensures r.Some? ==> r.value.size == stat.value.size
    ensures r.Some? ==> r.value.ctimeStamp == stat.value.ctimeStamp && r.value.mtimeStamp == stat.value.mtimeStamp
    ensures r.Some? ==> r.value.ctime == stat.value.ctime && r.value.mtime == stat.value.mtime
  {
    match stat
    case None => None
    case Some(s) =>
      Some(MediaData(path, relpath, Basename(path), s.size, s.ctime, s.ctimeStamp, s.mtime, s.mtimeStamp,
                     FindType(path, mime)))
  }

  /** `dict.update`: the keys of both maps, with the values of `b` winning. */
  function MergeTags(a: map<string, Value>, b: map<string, Value>): (r: map<string, Value>)
    ensures r.Keys == a.Keys + b.Keys
    ensures forall k :: k in b ==> r[k] == b[k]
    ensures forall k :: k in a && k !in b ==> r[k] == a[k]
  {
    a + b
  }

  /** Merging the same tags twice changes nothing the second time. */
  lemma MergeTagsIdempotent(a: map<string, Value>, b: map<string, Value>)
    ensures MergeTags(MergeTags(a, b), b) == MergeTags(a, b)
  {
  }

  class Media {
    var kind: string
    var tags: map<string, Value>
    var path: string
    var relpath: string
    var mtime: string
    var ctime: string
    var size: int
    var ctimeStamp: int
    var mtimeStamp: int

    /** `Media()`: every field at its trait default. */
    constructor Empty()
      ensures kind == "" && tags == map[] && path == "" && relpath == ""
      ensures mtime == "" && ctime == "" && size == 0 && ctimeStamp == 0 && mtimeStamp == 0
    {
      kind, tags, path, relpath := "", map[], "", "";
      mtime, ctime, size, ctimeStamp, mtimeStamp := "", "", 0, 0, 0;
    }

    /** The record `d` the media would hold after copying `d` into it. */
    predicate Holds(d: MediaData)
      reads this
    {
      path == d.path && relpath == d.relpath && kind == d.kind && size == d.size &&
      ctime == d.ctime && ctimeStamp == d.ctimeStamp && mtime == d.mtime && mtimeStamp == d.mtimeStamp
    }

    /** `Media.update(data, tags)`. When `data` is `None` the metadata is read from
        the file, here `fetched` (what `stat` gives for `path`) and `mime`; when that
        is `None` too the fields keep their values. Tags are merged, not replaced. */
    method Update(data: Option<MediaData>, fetched: Option<StatInfo>, mime: string, newTags: Option<map<string, Value>>)
      modifies this
      ensures var d := if data.Some? then data else GetMediaData(old(path), old(relpath), fetched, mime);
        if d.Some? then Holds(d.value)
        else path == old(path) && relpath == old(relpath) && kind == old(kind) && size == old(size) &&
             ctime == old(ctime) && ctimeStamp == old(ctimeStamp) && mtime == old(mtime) &&
             mtimeStamp == old(mtimeStamp)
      ensures tags == if newTags.Some? then MergeTags(old(tags), newTags.value) else old(tags)
    {
      var d := data;
      if d.None? {
        d := GetMediaData(path, relpath, fetched, mime);
      }
      if d.Some? {
        var v := d.value;
        path, mtimeStamp, mtime, ctimeStamp := v.path, v.mtimeStamp, v.mtime, v.ctimeStamp;
        ctime, size, relpath, kind := v.ctime, v.size, v.relpath, v.kind;
        assert Holds(v);
      }
      if newTags.Some? {
        tags := MergeTags(tags, newTags.value);
      }
    }

    /** `Media.from_path(path, relpath)` for a `path` that is already absolute. */
    constructor FromPath(p: string, rel: string, fetched: Option<StatInfo>, mime: string)
      ensures fetched.Some? ==> Holds(GetMediaData(p, rel, fetched, mime).value)
      ensures fetched.Some? ==> FileName() == Basename(p) && kind == FindType(p, mime)
      ensures fetched.None? ==> path == p && relpath == rel && kind == "" && size == 0
      ensures fetched.None? ==> ctime == "" && mtime == "" && ctimeStamp == 0 && mtimeStamp == 0
      ensures tags == map[]
    {
      kind, tags, path, relpath := "", map[], p, rel;
      mtime, ctime, size, ctimeStamp, mtimeStamp := "", "", 0, 0, 0;
      new;
      Update(None, fetched, mime, None);
    }

    /** `Media.from_data(data, tags)`. */
    constructor FromData(data: MediaData, t: map<string, Value>)
      ensures Holds(data)
      ensures tags == t
    {
      kind, tags, path, relpath := "", map[], "", "";
      mtime, ctime, size, ctimeStamp, mtimeStamp := "", "", 0, 0, 0;
      new;
      Update(Some(data), None, "", Some(t));
    }

    /** The `file_name` property. */
    function FileName(): (r: string)
      reads this
      ensures '/' !in r
      ensures |r| <= |path| && r == path[|path| - |r|..]
    {
      Basename(path)
    }
  }

  /** The `file_name` of a media entry is the last component of its path. */
  lemma FileNameOfJoin(m: Media, dir: string, name: string)
    requires '/' !in name
    requires m.path == Join(dir, name)
    ensures m.FileName() == name
  {
    BasenameOfJoin(dir, name);
  }
}
