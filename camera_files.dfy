/** The camera-trap file convention of `process_file`: a video lives at
    `<date>/<grid>/<camera>/<video>`, and an AVI file of non-zero size is
    turned into a `video` media with its tags read off that path. */
module CameraFiles {
  import opened Wrappers
  import opened PyPath
  import opened Values

  /** Python's `s[n:]` for `n >= 0`: empty once `n` passes the end. */
  function SliceFrom(s: string, n: nat): (r: string)
    ensures n <= |s| ==> |r| == |s| - n && s == s[..n] + r
    ensures n >= |s| ==> r == ""
  {
    if n <= |s| then s[n..] else ""
  }

  /** `path` with its last `n` components split off: `dirname` applied `n` times. */
  function Ancestor(path: string, n: nat): string
    decreases n
  {
    if n == 0 then path else Ancestor(Dirname(path), n - 1)
  }

  /** The four `split` calls of `_parse_path`, keeping the camera, grid and date
      components before the grid's first five characters are dropped. */
  function PathComponents(path: string): (string, string, string)
  {
    (Basename(Ancestor(path, 1)), Basename(Ancestor(path, 2)), Basename(Ancestor(path, 3)))
  }

  /** `_parse_path`: camera, grid without its `Grid-`-style five-character
      prefix, and date. */
  function ParsePath(path: string): (string, string, string)
  {
    var (camera, grid, date) := PathComponents(path);
    (camera, SliceFrom(grid, 5), date)
  }

  /** A well-formed `date/grid/camera/video` path is read back component by
      component. */
  lemma {:induction false} ComponentsOfLayout(d: string, g: string, c: string, v: string, path: string)
    requires d != "" && d[|d| - 1] != '/'
    requires g != "" && '/' !in g && c != "" && '/' !in c && '/' !in v
    requires path == d + "/" + g + "/" + c + "/" + v
    ensures PathComponents(path) == (c, g, Basename(d))
  {
    var dg := d + "/" + g;
    var dgc := dg + "/" + c;
    assert dg[|dg| - 1] == g[|g| - 1];
    assert dgc[|dgc| - 1] == c[|c| - 1];
    SplitAtLastSlash(dgc, v, path);
    SplitAtLastSlash(dg, c, dgc);
    SplitAtLastSlash(d, g, dg);
    assert Ancestor(path, 1) == dgc;
    assert Ancestor(path, 2) == Ancestor(dgc, 1) == dg;
    assert Ancestor(path, 3) == Ancestor(dgc, 2) == Ancestor(dg, 1) == d;
  }

  /** So `_parse_path` of such a path names the camera directory, the grid
      directory less five characters and the date directory. */
  lemma {:induction false} ParsePathOfLayout(d: string, g: string, c: string, v: string, path: string)
    requires d != "" && d[|d| - 1] != '/'
    requires g != "" && '/' !in g && c != "" && '/' !in c && '/' !in v
    requires path == d + "/" + g + "/" + c + "/" + v
    ensures ParsePath(path) == (c, SliceFrom(g, 5), Basename(d))
    ensures |g| >= 5 ==> g == g[..5] + ParsePath(path).1
  {
    ComponentsOfLayout(d, g, c, v, path);
  }

  /** The names of the tags `process_file` fills in. */
  const CountTags: seq<string> := ["jackal", "indian_fox", "desert_fox", "dog"]
  const TextTags: seq<string> := ["others", "pressure", "temperature", "remarks"]
  const PathTags: seq<string> := ["poster", "camera", "grid", "grid_date"]

  /** The keys of the tag dict: twelve distinct names, each in exactly one of
      the three lists. */
  function TagNames(): (r: set<string>)
    ensures forall t :: t in r <==> t in PathTags || t in CountTags || t in TextTags
    ensures |r| == |PathTags| + |CountTags| + |TextTags| == 12
    ensures forall t :: t in CountTags ==> t !in PathTags && t !in TextTags
    ensures forall t :: t in TextTags ==> t !in PathTags
  {
    var all := PathTags + CountTags + TextTags;
    assert Distinct(all);
    DistinctCard(all);
    set t | t in all
  }

  /** No string occurs twice in `s`. */
  predicate Distinct(s: seq<string>)
  {
    forall i, j :: 0 <= i < j < |s| ==> s[i] != s[j]
  }

  /** A list without repetitions has as many elements as its set. */
  lemma {:induction false} DistinctCard(s: seq<string>)
    requires Distinct(s)
    ensures |set t | t in s| == |s|
  {
    if s != [] {
      var init := s[..|s| - 1];
      DistinctCard(init);
      assert (set t | t in s) == (set t | t in init) + {s[|s| - 1]};
    }
  }

  datatype ProcessedFile = ProcessedFile(kind: string, view: string, tags: map<string, Value>)

  /** The value `process_file` gives tag `t`. */
  function TagValue(t: string, poster: string, camera: string, grid: string, date: string): Value
  {
    if t == "poster" then VStr(poster)
    else if t == "camera" then VStr(camera)
    else if t == "grid" then VStr(grid)
    else if t == "grid_date" then VStr(date)
    else if t in CountTags then VInt(0)
    else VStr("")
  }

  /** The tag dict of `process_file`. */
  function Tags(poster: string, camera: string, grid: string, date: string): (m: map<string, Value>)
    ensures m.Keys == TagNames()
  {
    map t | t in TagNames() :: TagValue(t, poster, camera, grid, date)
  }

  /** Its path-derived tags carry the poster name and the parsed components. */
  lemma TagsFromPath(poster: string, camera: string, grid: string, date: string)
    ensures var m := Tags(poster, camera, grid, date);
      && "poster" in m && m["poster"] == VStr(poster)
      && "camera" in m && m["camera"] == VStr(camera)
      && "grid" in m && m["grid"] == VStr(grid)
      && "grid_date" in m && m["grid_date"] == VStr(date)
  {
    assert "poster" == PathTags[0] && "camera" == PathTags[1] && "grid" == PathTags[2] && "grid_date" == PathTags[3];
    assert "camera" != "poster" by { assert "camera"[0] != "poster"[0]; }
    assert "grid" != "poster" && "grid" != "camera" by { assert "grid"[0] == 'g'; }
    assert "grid_date" != "grid" by { assert |"grid_date"| != |"grid"|; }
    assert "grid_date" != "poster" && "grid_date" != "camera" by { assert "grid_date"[0] == 'g'; }
  }

  /** Its four animal counts start at zero. */
  lemma TagsCountsZero(poster: string, camera: string, grid: string, date: string)
    ensures forall t :: t in CountTags ==> Tags(poster, camera, grid, date)[t] == VInt(0)
  {
    forall t | t in CountTags ensures Tags(poster, camera, grid, date)[t] == VInt(0) {
      assert t in TagNames();
      assert |t| == 6 || |t| == 10 || |t| == 3;
      assert t != "poster" && t != "camera" && t != "grid" && t != "grid_date" by {
        assert t[0] != 'p' && t[0] != 'c' && t[0] != 'g' by {
          assert t[0] == 'j' || t[0] == 'i' || t[0] == 'd';
        }
      }
    }
  }

  /** Its four free-text tags start empty. */
  lemma TagsTextEmpty(poster: string, camera: string, grid: string, date: string)
    ensures forall t :: t in TextTags ==> Tags(poster, camera, grid, date)[t] == VStr("")
  {
    forall t | t in TextTags ensures Tags(poster, camera, grid, date)[t] == VStr("") {
      assert t in TagNames();
      assert t[0] == 'o' || t[0] == 'p' || t[0] == 't' || t[0] == 'r';
      assert t != "poster" by { assert t[0] != 'p' || t[1] == 'r'; }
      assert t != "camera" && t != "grid" && t != "grid_date" && t !in CountTags by {
        assert t[0] != 'c' && t[0] != 'g' && t[0] != 'j' && t[0] != 'i' && t[0] != 'd';
      }
    }
  }

  /** The extensions `process_file` accepts, as written: exactly two spellings. */
  predicate IsAvi(ext: string)
  {
    ext in [".avi", ".AVI"]
  }

  /** `process_file(path)`. The file size (`os.stat`) and the absolute path
      (`abspath`) are parameters; the ffmpeg conversion of `_process_avi` is not
      modelled, only the two output names it returns. */
  function ProcessFile(path: string, size: nat, absPath: string): (r: Option<ProcessedFile>)
    ensures r.Some? <==> IsAvi(SplitExt(path).1) && size != 0
    ensures r.Some? ==> r.value.kind == "video"
    ensures r.Some? ==> r.value.view == SplitExt(absPath).0 + ".webm"
    ensures r.Some? ==> var (camera, grid, date) := ParsePath(path);
      r.value.tags == Tags(SplitExt(absPath).0 + ".jpg", camera, grid, date)
  {
    var ext := SplitExt(path).1;
    if !IsAvi(ext) || size == 0 then None
    else
      var stem := SplitExt(absPath).0;
      var (camera, grid, gridDate) := ParsePath(path);
      Some(ProcessedFile("video", stem + ".webm", Tags(stem + ".jpg", camera, grid, gridDate)))
  }

  /** Both accepted extensions are a dot followed by three letters. */
  lemma AviShape(ext: string)
    requires IsAvi(ext)
    ensures |ext| == 4 && ext[0] == '.' && '.' !in ext[1..] && '/' !in ext
  {
  }

  /** An AVI file of non-zero size stored as `date/grid/camera/stem.avi` is
      processed, and its tags name its directories. */
  lemma {:induction false} ProcessFileOfLayout(d: string, g: string, c: string, stem: string, ext: string,
                                                path: string, size: nat, absPath: string)
    requires d != "" && d[|d| - 1] != '/'
    requires g != "" && '/' !in g && c != "" && '/' !in c
    requires stem != "" && '.' !in stem && '/' !in stem
    requires IsAvi(ext)
    requires path == d + "/" + g + "/" + c + "/" + (stem + ext) && size > 0
    ensures var r := ProcessFile(path, size, absPath);
      r.Some? && r.value.tags == Tags(SplitExt(absPath).0 + ".jpg", c, SliceFrom(g, 5), Basename(d))
  {
    AviShape(ext);
    var v := stem + ext;
    var pre := d + "/" + g + "/" + c + "/";
    assert path == pre + v;
    assert pre + v == pre + stem + ext;
    assert pre[|pre| - 1] == '/';
    SplitExtAfterSlash(path, pre, stem, ext);
    assert '/' !in v by {
      forall j | 0 <= j < |v| ensures v[j] != '/' {
        if j < |stem| { assert v[j] == stem[j]; } else { assert v[j] == ext[j - |stem|]; }
      }
    }
    ParsePathOfLayout(d, g, c, v, path);
  }

  /** The extension test is case-sensitive: `.Avi` is refused. */
  lemma AviGateIsCaseSensitive()
    ensures IsAvi(".avi") && IsAvi(".AVI") && !IsAvi(".Avi")
  {
    assert ".Avi"[1] != ".avi"[1] && ".Avi"[2] != ".AVI"[2];
  }
}
