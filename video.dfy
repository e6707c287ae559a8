/** `Video`: a camera-trap video with the names of its web conversion and
    poster, the tags read off its directory path, and the ffmpeg commands
    that produce the missing outputs. */
module VideoModel {
  import opened PyPath
  import opened CameraFiles
  import opened Values

  datatype Sex = Unknown | Male | Female

  /** The command converting `video` to the web format. */
  function ConvertCommand(video: string, webm: string): seq<string>
  {
    ["ffmpeg", "-i", video, webm]
  }

  /** The command extracting the first frame of `video` as a poster image. */
  function PosterCommand(video: string, poster: string): seq<string>
  {
    ["ffmpeg", "-i", video, "-ss", "0", "-vframes", "1", poster]
  }

  class Video {
    var video: string
    var webmVideo: string
    var poster: string
    var extractedTime: string
    var fileTime: string
    var fileDate: string
    var gridDate: string
    var videoMtime: int
    var grid: string
    var camera: string
    var species: string
    var number: int
    var age: real
    var sex: Sex
    var pressure: string
    var temperature: string
    var remarks: string

    /** `Video.from_video(path)`. The file's `st_mtime` is a parameter, and so are
        the local-time formatting of `datetime.fromtimestamp` into the time of
        day and the `%d %b %Y` date. */
    constructor FromVideo(path: string, stMtime: real,
                          formatTime: int -> string, formatDate: int -> string)
      ensures video == path
      ensures webmVideo == SplitExt(path).0 + ".webm" && poster == SplitExt(path).0 + ".jpg"
      ensures var (c, g, d) := PathComponents(path);
        camera == c && grid == SliceFrom(g, 5) && gridDate == d
      ensures videoMtime == Truncate(stMtime)
      ensures fileTime == formatTime(videoMtime) && fileDate == formatDate(videoMtime)
      ensures extractedTime == "" && species == "" && number == 0 && age == 0.0 && sex == Unknown
      ensures pressure == "" && temperature == "" && remarks == ""
      ensures Derived()
    {
      var stem := SplitExt(path).0;
      var comps := PathComponents(path);
      var mtime := Truncate(stMtime);
      video, webmVideo, poster := path, stem + ".webm", stem + ".jpg";
      camera, grid, gridDate := comps.0, SliceFrom(comps.1, 5), comps.2;
      videoMtime, fileTime, fileDate := mtime, formatTime(mtime), formatDate(mtime);
      extractedTime, species, number, age, sex := "", "", 0, 0.0, Unknown;
      pressure, temperature, remarks := "", "", "";
    }

    /** The names `from_video` derives share the video's stem. */
    ghost predicate Derived()
      reads this
    {
      var stem := SplitExt(video).0;
      webmVideo == stem + ".webm" && poster == stem + ".jpg"
    }

    /** `ready`: the web conversion exists. */
    predicate Ready(existing: set<string>)
      reads this
    {
      webmVideo in existing
    }

    /** `process(executor)`: the commands submitted, in order, given the set of
        files that exist. Each output is produced only when it is missing. */
    method Process(existing: set<string>) returns (submitted: seq<seq<string>>)
      ensures submitted ==
        (if !Ready(existing) then [ConvertCommand(video, webmVideo)] else []) +
        (if poster !in existing then [PosterCommand(video, poster)] else [])
      ensures ConvertCommand(video, webmVideo) in submitted <==> !Ready(existing)
      ensures PosterCommand(video, poster) in submitted <==> poster !in existing
    {
      submitted := [];
      if webmVideo !in existing {
        submitted := submitted + [ConvertCommand(video, webmVideo)];
      }
      if poster !in existing {
        submitted := submitted + [PosterCommand(video, poster)];
      }
      assert ConvertCommand(video, webmVideo) != PosterCommand(video, poster) by {
        assert |ConvertCommand(video, webmVideo)| != |PosterCommand(video, poster)|;
      }
    }
  }

  /** The web conversion and the poster are two different files, so `ready`
      says nothing about the poster. */
  lemma {:induction false} DerivedNamesDiffer(v: Video)
    requires v.Derived()
    ensures v.webmVideo != v.poster
    ensures v.webmVideo[..|v.webmVideo| - 5] == v.poster[..|v.poster| - 4]
  {
    var stem := SplitExt(v.video).0;
    assert |v.webmVideo| == |stem| + 5 && |v.poster| == |stem| + 4;
    assert v.webmVideo[..|stem|] == stem && v.poster[..|stem|] == stem;
  }
}
