/** vixen/processor.py, the factories: `CommandFactory`, `PythonFunctionFactory`
    and `TaggerFactory` turn media of a project into job descriptions, remember
    in `_done` what was processed, and are dumped and loaded by class name.
    The three classes share `FactoryBase` (`dest`, `_done`); here they are one
    class whose `settings` say which of the three it is. */
module Factories {
  import opened Wrappers
  import opened PyStr
  import opened PyPath
  import opened Values
  import opened Schema
  import opened MediaModel
  import opened JobModel

  /** The traits of each factory class beyond those of `FactoryBase`. */
  datatype Settings =
    | CommandSettings(mirrorTree: bool, copyTimestamps: bool, inputExtension: string,
                      outputExtension: string, command: string)
    | FunctionSettings(code: string)
    | TaggerSettings(command: string)

  /** The class name `dump` records. */
  function ClassName(s: Settings): (r: string)
    ensures s.CommandSettings? <==> r == "CommandFactory"
    ensures s.FunctionSettings? <==> r == "PythonFunctionFactory"
    ensures s.TaggerSettings? <==> r == "TaggerFactory"
  {
    match s
    case CommandSettings(_, _, _, _, _) => "CommandFactory"
    case FunctionSettings(_) => "PythonFunctionFactory"
    case TaggerSettings(_) => "TaggerFactory"
  }

  /** What a job made by a factory calls: `_run` of its factory with the job's `args`. */
  datatype Action =
    | RunCommand(cmd: seq<string>, inFile: string, outFile: string)
    | CallFunction(relpath: string, media: Media, dest: string)
    | RunTagger(cmd: seq<string>, media: Media)

  /** A job description: the call and the `info` text of the `Job`. */
  datatype Task = Task(action: Action, info: string)

  /** `_done.get(key, False)`. */
  predicate IsDone(done: map<string, bool>, key: string)
  {
    key in done && done[key]
  }

  // ---------------------------------------------------------------------------
  // CommandFactory: output paths and command lines

  /** The output extension of `make_jobs`: a non-empty extension without a dot
      gets one in front. */
  function OutputExtension(ext: string): (r: string)
    ensures r == "" <==> ext == ""
    ensures r != "" ==> '.' in r && (r == ext || r == "." + ext)
    ensures '.' in ext ==> r == ext
  {
    if |ext| > 0 then (if '.' in ext then ext else "." + ext) else ext
  }

  /** Normalising the extension twice changes nothing more. */
  lemma OutputExtensionIdempotent(ext: string)
    ensures OutputExtension(OutputExtension(ext)) == OutputExtension(ext)
  {
    if ext != "" && '.' !in ext {
      assert ("." + ext)[0] == '.';
    }
  }

  /** `_get_output(relpath, media, ext)`: the path under `dest`, mirroring the
      tree or flat, with the extension replaced when `ext` is not empty. */
  function OutputPath(dest: string, relpath: string, mirror: bool, ext: string): (r: string)
    ensures ext == "" ==> r == Join(dest, if mirror then relpath else Basename(relpath))
  {
    var base := Join(dest, if mirror then relpath else Basename(relpath));
    if |ext| > 0 then SplitExt(base).0 + ext else base
  }

  /** Without `mirror_tree`, a file named `stem + e` with one extension, at
      any depth, gives the output `stem + ext` directly in `dest`. */
  lemma {:induction false} OutputPathFlat(dest: string, relpath: string, stem: string, e: string, ext: string)
    requires stem != "" && '.' !in stem && '/' !in stem
    requires |e| > 0 && e[0] == '.' && '.' !in e[1..] && '/' !in e
    requires ext != "" && Basename(relpath) == stem + e
    ensures OutputPath(dest, relpath, false, ext) == Join(dest, stem + ext)
  {
    SplitExtOfJoin(dest, stem, e);
    JoinAppend(dest, stem, ext);
  }

  /** With `mirror_tree`, a file `dir/stem + e` gives the output
      `dest/dir/stem + ext`: the place in the tree is kept. */
  lemma {:induction false} OutputPathMirror(dest: string, dir: string, stem: string, e: string, ext: string)
    requires stem != "" && '.' !in stem && '/' !in stem
    requires |e| > 0 && e[0] == '.' && '.' !in e[1..] && '/' !in e
    requires ext != ""
    requires dir == "" || dir[0] != '/'
    ensures OutputPath(dest, Join(dir, stem + e), true, ext) == Join(dest, Join(dir, stem) + ext)
  {
    var d := Join(dest, dir);
    JoinAssoc(dest, dir, stem + e);
    SplitExtOfJoin(d, stem, e);
    JoinAppend(d, stem, ext);
    JoinAppend(dir, stem, ext);
    JoinAssoc(dest, dir, stem + ext);
  }

  /** One token of `_get_command`: `$input`, then `$output` replaced, then every
      backslash doubled. */
  function Substitute(token: string, input: string, output: string): string
  {
    Replace(Replace(Replace(token, "$input", input), "$output", output), "\\", "\\\\")
  }

  /** `_get_command(media, out_file)` over the tokens of the factory's command. */
  function CommandLine(tokens: seq<string>, input: string, output: string): (r: seq<string>)
    ensures |r| == |tokens|
    ensures forall i :: 0 <= i < |tokens| ==> r[i] == Substitute(tokens[i], input, output)
  {
    seq(|tokens|, i requires 0 <= i < |tokens| => Substitute(tokens[i], input, output))
  }

  /** A string shorter than the searched text does not contain it. */
  lemma {:induction false} ShortNoContains(hay: string, needle: string)
    requires |hay| < |needle|
    ensures !Contains(hay, needle)
    decreases |hay|
  {
    if |hay| > 0 {
      ShortNoContains(hay[1..], needle);
    }
  }

  /** A one-character text is contained exactly where the character occurs. */
  lemma {:induction false} ContainsChar(s: string, c: char)
    ensures Contains(s, [c]) <==> c in s
    decreases |s|
  {
    if |s| > 0 {
      ContainsChar(s[1..], c);
      assert s == [s[0]] + s[1..];
    }
  }

  /** A token with no placeholder and no backslash is passed on as it is. */
  lemma {:induction false} SubstitutePlain(token: string, input: string, output: string)
    requires !Contains(token, "$input") && !Contains(token, "$output") && '\\' !in token
    ensures Substitute(token, input, output) == token
  {
    ReplaceAbsent(token, "$input", input);
    ReplaceAbsent(token, "$output", output);
    ContainsChar(token, '\\');
    ReplaceAbsent(token, "\\", "\\\\");
  }

  /** The token `$input` becomes the input path, and `$output` the output path,
      when the paths hold no placeholder and no backslash. */
  lemma {:induction false} SubstitutePlaceholders(input: string, output: string)
    requires !Contains(input, "$output") && '\\' !in input && '\\' !in output
    ensures Substitute("$input", input, output) == input
    ensures Substitute("$output", input, output) == output
  {
    ReplaceWhole("$input", input);
    ReplaceAbsent(input, "$output", output);
    ContainsChar(input, '\\');
    ReplaceAbsent(input, "\\", "\\\\");
    assert "$output"[..6][1] != "$input"[1];
    assert "$output"[1..][..6][0] != "$input"[0];
    ShortNoContains("$output"[2..], "$input");
    assert !Contains("$output", "$input");
    ReplaceAbsent("$output", "$input", input);
    ReplaceWhole("$output", output);
    ContainsChar(output, '\\');
    ReplaceAbsent(output, "\\", "\\\\");
  }

  /** A token that holds no placeholder and no backslash. */
  predicate PlainToken(token: string)
  {
    !Contains(token, "$input") && !Contains(token, "$output") && '\\' !in token
  }

  /** The command line keeps the tokens in order: a `$input` token becomes the
      input path, a `$output` token the output path, and a plain token stays as
      it is, for paths with no backslash where the input holds no `$output`. */
  lemma {:induction false} CommandLineSubstitutes(tokens: seq<string>, input: string, output: string)
    requires !Contains(input, "$output") && '\\' !in input && '\\' !in output
    ensures var r := CommandLine(tokens, input, output);
      |r| == |tokens| &&
      (forall i :: 0 <= i < |tokens| && tokens[i] == "$input" ==> r[i] == input) &&
      (forall i :: 0 <= i < |tokens| && tokens[i] == "$output" ==> r[i] == output) &&
      (forall i :: 0 <= i < |tokens| && PlainToken(tokens[i]) ==> r[i] == tokens[i])
  {
    SubstitutePlaceholders(input, output);
    forall i | 0 <= i < |tokens| && PlainToken(tokens[i])
      ensures Substitute(tokens[i], input, output) == tokens[i]
    {
      SubstitutePlain(tokens[i], input, output);
    }
  }

  /** vixen/tests/test_processor.py, test_command_factory_commands: the command
      "echo $input $output" becomes ["echo", input, output]. */
  lemma {:induction false} EchoCommandLine(input: string, output: string)
    requires !Contains(input, "$output") && '\\' !in input && '\\' !in output
    ensures CommandLine(["echo", "$input", "$output"], input, output) == ["echo", input, output]
  {
    ShortNoContains("echo", "$input");
    ShortNoContains("echo", "$output");
    SubstitutePlain("echo", input, output);
    SubstitutePlaceholders(input, output);
  }

  // ---------------------------------------------------------------------------
  // make_jobs of the three factories

  /** The file whose `_done` entry a job for `m` sets when it succeeds: the
      output file for a command, the media's path for the other two. */
  function DoneKey(s: Settings, dest: string, m: Media): string
    reads m
  {
    match s
    case CommandSettings(mirror, _, _, outExt, _) => OutputPath(dest, m.relpath, mirror, OutputExtension(outExt))
    case FunctionSettings(_) => m.path
    case TaggerSettings(_) => m.path
  }

  /** The filters of `make_jobs` other than `_done`: a command takes files with
      the input extension (of the lower-cased relpath) that exist, a tagger
      files that exist, a Python function every media. */
  predicate Eligible(s: Settings, m: Media, fileExists: string -> bool)
    reads m
  {
    match s
    case CommandSettings(_, _, inExt, _, _) => SplitExt(Lower(m.relpath)).1 == inExt && fileExists(m.path)
    case FunctionSettings(_) => true
    case TaggerSettings(_) => fileExists(m.path)
  }

  /** The job the loop of `make_jobs` makes for the media `m`, if any; `shlex`
      is `shlex.split`. */
  function TaskFor(s: Settings, dest: string, done: map<string, bool>, m: Media,
                   fileExists: string -> bool, shlex: string -> seq<string>): (r: Option<Task>)
    reads m
    ensures r.Some? <==> Eligible(s, m, fileExists) && !IsDone(done, DoneKey(s, dest, m))
  {
    match s
    case CommandSettings(mirror, _, inExt, outExt, command) =>
      if SplitExt(Lower(m.relpath)).1 != inExt || !fileExists(m.path) then None
      else
        var out := OutputPath(dest, m.relpath, mirror, OutputExtension(outExt));
        if IsDone(done, out) then None
        else
          var cmd := CommandLine(shlex(command), m.path, out);
          Some(Task(RunCommand(cmd, m.path, out), JoinWith(" ", cmd)))
    case FunctionSettings(_) =>
      if IsDone(done, m.path) then None
      else Some(Task(CallFunction(m.relpath, m, dest), "Processing " + m.path))
    case TaggerSettings(command) =>
      if !fileExists(m.path) || IsDone(done, m.path) then None
      else
        var cmd := shlex(command) + [m.path];
        Some(Task(RunTagger(cmd, m), JoinWith(" ", cmd)))
  }

  /** The job for `m`: a command runs the factory's command line on the media's
      path and its output file, a Python function gets the media, its relpath
      and `dest`, and a tagger runs its command with the media's path appended;
      the info of a command or tagger job is its command line. */
  lemma TaskForShape(s: Settings, dest: string, done: map<string, bool>, m: Media,
                     fileExists: string -> bool, shlex: string -> seq<string>)
    requires TaskFor(s, dest, done, m, fileExists, shlex).Some?
    ensures var t := TaskFor(s, dest, done, m, fileExists, shlex).value;
      match s
      case CommandSettings(_, _, _, _, command) =>
        t.action == RunCommand(CommandLine(shlex(command), m.path, DoneKey(s, dest, m)), m.path, DoneKey(s, dest, m)) &&
        t.info == JoinWith(" ", t.action.cmd)
      case FunctionSettings(_) =>
        t.action == CallFunction(m.relpath, m, dest) && t.info == "Processing " + m.path
      case TaggerSettings(command) =>
        t.action == RunTagger(shlex(command) + [m.path], m) && t.info == JoinWith(" ", t.action.cmd)
  {
  }

  /** `make_jobs(media_keys, project)`: the jobs for the keys in order, or `None`
      when `project.get` raises KeyError for a key. */
  function JobsFor(s: Settings, dest: string, done: map<string, bool>, keys: seq<string>,
                   media: map<string, Media>, fileExists: string -> bool, shlex: string -> seq<string>): Option<seq<Task>>
    reads media.Values
  {
    if keys == [] then Some([])
    else
      var k := keys[|keys| - 1];
      var init := JobsFor(s, dest, done, keys[..|keys| - 1], media, fileExists, shlex);
      if init.None? || k !in media then None
      else
        var t := TaskFor(s, dest, done, media[k], fileExists, shlex);
        Some(init.value + (if t.Some? then [t.value] else []))
  }

  /** `make_jobs` raises exactly when some key is not in the project. */
  lemma {:induction false} JobsForRaises(s: Settings, dest: string, done: map<string, bool>, keys: seq<string>,
                                         media: map<string, Media>, fileExists: string -> bool, shlex: string -> seq<string>)
    ensures JobsFor(s, dest, done, keys, media, fileExists, shlex).None? <==> exists i :: 0 <= i < |keys| && keys[i] !in media
  {
    if keys != [] {
      var init := keys[..|keys| - 1];
      JobsForRaises(s, dest, done, init, media, fileExists, shlex);
      if exists i :: 0 <= i < |init| && init[i] !in media {
        var i :| 0 <= i < |init| && init[i] !in media;
        assert keys[i] !in media;
      }
      if exists i :: 0 <= i < |keys| && keys[i] !in media {
        var i :| 0 <= i < |keys| && keys[i] !in media;
        if i < |init| {
          assert init[i] !in media;
        }
      }
    }
  }

  /** The jobs among the per-key results, in order. */
  function Present(opts: seq<Option<Task>>): (r: seq<Task>)
    ensures |r| <= |opts|
  {
    if opts == [] then []
    else
      var last := opts[|opts| - 1];
      Present(opts[..|opts| - 1]) + (if last.Some? then [last.value] else [])
  }

  /** A job is kept exactly when some per-key result holds it. */
  lemma {:induction false} PresentContents(opts: seq<Option<Task>>, t: Task)
    ensures t in Present(opts) <==> Some(t) in opts
  {
    if opts != [] {
      var init := opts[..|opts| - 1];
      PresentContents(init, t);
      assert opts == init + [opts[|opts| - 1]];
    }
  }

  /** What the loop of `make_jobs` yields for each key, when every key is in
      the project: the job for its media, if any. */
  function Options(s: Settings, dest: string, done: map<string, bool>, keys: seq<string>,
                   media: map<string, Media>, fileExists: string -> bool, shlex: string -> seq<string>): (r: seq<Option<Task>>)
    requires forall i :: 0 <= i < |keys| ==> keys[i] in media
    reads media.Values
    ensures |r| == |keys|
  {
    seq(|keys|, i reads media.Values requires 0 <= i < |keys| && keys[i] in media =>
      TaskFor(s, dest, done, media[keys[i]], fileExists, shlex))
  }

  /** When every key is in the project, `make_jobs` returns the jobs of the
      keys in key order: a key's job is there exactly when its media passes
      the filters and is not done. */
  lemma {:induction false} JobsForPresent(s: Settings, dest: string, done: map<string, bool>, keys: seq<string>,
                                          media: map<string, Media>, fileExists: string -> bool, shlex: string -> seq<string>)
    requires forall i :: 0 <= i < |keys| ==> keys[i] in media
    ensures JobsFor(s, dest, done, keys, media, fileExists, shlex) == Some(Present(Options(s, dest, done, keys, media, fileExists, shlex)))
  {
    if keys != [] {
      var init := keys[..|keys| - 1];
      assert forall i :: 0 <= i < |init| ==> init[i] == keys[i];
      OptionsInit(s, dest, done, keys, media, fileExists, shlex);
      JobsForPresent(s, dest, done, init, media, fileExists, shlex);
    }
  }

  /** The results of all keys but the last are those of the shorter list. */
  lemma OptionsInit(s: Settings, dest: string, done: map<string, bool>, keys: seq<string>,
                    media: map<string, Media>, fileExists: string -> bool, shlex: string -> seq<string>)
    requires forall i :: 0 <= i < |keys| ==> keys[i] in media
    requires keys != []
    ensures var opts := Options(s, dest, done, keys, media, fileExists, shlex);
      opts[..|opts| - 1] == Options(s, dest, done, keys[..|keys| - 1], media, fileExists, shlex)
  {
    var init := keys[..|keys| - 1];
    assert forall i :: 0 <= i < |init| ==> init[i] == keys[i];
    var opts := Options(s, dest, done, keys, media, fileExists, shlex);
    assert opts[..|opts| - 1] == Options(s, dest, done, init, media, fileExists, shlex);
  }

  /** Once the `_done` entry of every media of the keys is set, `make_jobs`
      returns no job: what ran successfully is not made again. */
  lemma {:induction false} JobsForAllDone(s: Settings, dest: string, done: map<string, bool>, keys: seq<string>,
                                          media: map<string, Media>, fileExists: string -> bool, shlex: string -> seq<string>)
    requires forall i :: 0 <= i < |keys| ==> keys[i] in media && IsDone(done, DoneKey(s, dest, media[keys[i]]))
    ensures JobsFor(s, dest, done, keys, media, fileExists, shlex) == Some([])
  {
    if keys != [] {
      var init := keys[..|keys| - 1];
      assert forall i :: 0 <= i < |init| ==> init[i] == keys[i];
      JobsForAllDone(s, dest, done, init, media, fileExists, shlex);
      assert JobsFor(s, dest, done, init, media, fileExists, shlex).value + [] == [];
    }
  }

  /** One more key extends the jobs of the keys before it. */
  lemma JobsForStep(s: Settings, dest: string, done: map<string, bool>, keys: seq<string>, n: int,
                    media: map<string, Media>, fileExists: string -> bool, shlex: string -> seq<string>)
    requires 0 <= n < |keys|
    ensures var init := JobsFor(s, dest, done, keys[..n], media, fileExists, shlex);
      JobsFor(s, dest, done, keys[..n + 1], media, fileExists, shlex) ==
        if init.None? || keys[n] !in media then None
        else if TaskFor(s, dest, done, media[keys[n]], fileExists, shlex).Some? then
          Some(init.value + [TaskFor(s, dest, done, media[keys[n]], fileExists, shlex).value])
        else init
  {
    assert keys[..n + 1][..n] == keys[..n];
    var init := JobsFor(s, dest, done, keys[..n], media, fileExists, shlex);
    if init.Some? {
      assert init.value + [] == init.value;
    }
  }

  // ---------------------------------------------------------------------------
  // TaggerFactory._run: the `key: value` lines of the command's output

  /** The effect of one output line on the `updates` so far, given the tag types
      (`None` when `make_jobs` was not called since loading: `tag in None` raises
      TypeError). `None` is a raise: the int and float conversions raise
      ValueError outside the `try`. */
  function LineUpdate(u: map<string, Value>, line: string, types: Option<map<string, TagType>>,
                      conv: Conversions): (r: Option<map<string, Value>>)
  {
    if |line| == 0 then Some(u)
    else
      match SplitOnce(line, ':')
      case None => Some(u)
      case Some((a, b)) =>
        var tag, value := Strip(a), Strip(b);
        if types.None? then None
        else if tag !in types.value then Some(u)
        else
          var v := Coerce(types.value[tag], value, conv);
          if v.None? then None else Some(u[tag := v.value])
  }

  /** The `updates` the loop of `_run` gathers from `lines`, or `None` when it raises. */
  function ParseLines(lines: seq<string>, types: Option<map<string, TagType>>, conv: Conversions): Option<map<string, Value>>
  {
    if lines == [] then Some(map[])
    else
      var init := ParseLines(lines[..|lines| - 1], types, conv);
      if init.None? then None else LineUpdate(init.value, lines[|lines| - 1], types, conv)
  }

  /** The updates hold known tags only, each with a value of its own type. */
  predicate Typed(u: map<string, Value>, types: map<string, TagType>)
  {
    u.Keys <= types.Keys && forall k :: k in u ==> HasType(u[k], types[k])
  }

  /** One line keeps the updates typed. */
  lemma LineUpdateTyped(u: map<string, Value>, line: string, types: map<string, TagType>, conv: Conversions)
    requires Typed(u, types) && LineUpdate(u, line, Some(types), conv).Some?
    ensures Typed(LineUpdate(u, line, Some(types), conv).value, types)
  {
    if |line| > 0 && SplitOnce(line, ':').Some? {
      var (a, b) := SplitOnce(line, ':').value;
      var tag := Strip(a);
      if tag in types {
        var v := Coerce(types[tag], Strip(b), conv);
        assert HasType(v.value, types[tag]);
        var u2 := u[tag := v.value];
        assert LineUpdate(u, line, Some(types), conv).value == u2;
        forall k | k in u2 ensures HasType(u2[k], types[k]) {
          if k != tag {
            assert u2[k] == u[k];
          }
        }
      }
    }
  }

  /** Only known tags are updated, each with a value of its own type. */
  lemma {:induction false} ParseLinesTyped(lines: seq<string>, types: map<string, TagType>, conv: Conversions)
    requires ParseLines(lines, Some(types), conv).Some?
    ensures Typed(ParseLines(lines, Some(types), conv).value, types)
  {
    if lines != [] {
      var init := lines[..|lines| - 1];
      ParseLinesTyped(init, types, conv);
      LineUpdateTyped(ParseLines(init, Some(types), conv).value, lines[|lines| - 1], types, conv);
    }
  }

  /** A raise ends the loop: whatever follows, `_run` raises. */
  lemma {:induction false} ParseLinesRaisePersists(lines: seq<string>, n: int, types: Option<map<string, TagType>>, conv: Conversions)
    requires 0 <= n <= |lines| && ParseLines(lines[..n], types, conv).None?
    ensures ParseLines(lines, types, conv).None?
    decreases |lines| - n
  {
    if n < |lines| {
      ParseLinesStep(lines, n, types, conv);
      ParseLinesRaisePersists(lines, n + 1, types, conv);
    } else {
      assert lines[..n] == lines;
    }
  }

  /** The prefix `lines[..n + 1]` extends `lines[..n]` by one line. */
  lemma ParseLinesStep(lines: seq<string>, n: int, types: Option<map<string, TagType>>, conv: Conversions)
    requires 0 <= n < |lines|
    ensures var init := ParseLines(lines[..n], types, conv);
      ParseLines(lines[..n + 1], types, conv) == if init.None? then None else LineUpdate(init.value, lines[n], types, conv)
  {
    assert lines[..n + 1][..n] == lines[..n];
  }

  /** Empty lines, lines with no `:` and lines naming an unknown tag change nothing. */
  lemma ParseLinesSkip(lines: seq<string>, line: string, types: map<string, TagType>, conv: Conversions)
    requires ParseLines(lines, Some(types), conv).Some?
    requires Skipped(line, types)
    ensures ParseLines(lines + [line], Some(types), conv) == ParseLines(lines, Some(types), conv)
  {
    assert (lines + [line])[..|lines|] == lines;
  }

  /** A line `key:value` naming a known tag sets it to its coerced value,
      whatever the lines before said about it (the last line wins), or raises
      when the value does not convert. */
  lemma {:induction false} ParseLinesLastWins(lines: seq<string>, key: string, value: string,
                                              types: map<string, TagType>, conv: Conversions)
    requires ParseLines(lines, Some(types), conv).Some?
    requires ':' !in key && Strip(key) in types
    ensures var v := Coerce(types[Strip(key)], Strip(value), conv);
      var r := ParseLines(lines + [key + ":" + value], Some(types), conv);
      (v.None? ==> r.None?) &&
      (v.Some? ==> r == Some(ParseLines(lines, Some(types), conv).value[Strip(key) := v.value]))
  {
    assert (lines + [key + ":" + value])[..|lines|] == lines;
    SplitKeyValue(key, value);
  }

  /** `key + ":" + value` splits into `key` and `value` when `key` has no `:`. */
  lemma {:induction false} SplitKeyValue(key: string, value: string)
    requires ':' !in key
    ensures SplitOnce(key + ":" + value, ':') == Some((key, value))
  {
    var s := key + ":" + value;
    assert s[|key|] == ':';
    assert s[..|key|] == key;
    assert Find(s, ':') == |key|;
    assert s[|key| + 1..] == value;
  }

  /** A line `_run` skips: empty, without `:`, or naming a tag the project
      does not have. */
  predicate Skipped(line: string, types: map<string, TagType>)
  {
    line == "" || ':' !in line || Strip(SplitOnce(line, ':').value.0) !in types
  }

  /** vixen/tests/test_processor.py, test_tagger_factory_skips_unknown_tags:
      output made of skipped lines updates nothing. */
  lemma {:induction false} UnknownTagsIgnored(lines: seq<string>, types: map<string, TagType>, conv: Conversions)
    requires forall i :: 0 <= i < |lines| ==> Skipped(lines[i], types)
    ensures ParseLines(lines, Some(types), conv) == Some(map[])
  {
    if lines != [] {
      var init := lines[..|lines| - 1];
      assert forall i :: 0 <= i < |init| ==> init[i] == lines[i];
      UnknownTagsIgnored(init, types, conv);
      ParseLinesSkip(init, lines[|lines| - 1], types, conv);
      assert init + [lines[|lines| - 1]] == lines;
    }
  }

  // ---------------------------------------------------------------------------
  // dump and load

  /** What `__getstate__` keeps: the class's traits and `FactoryBase`'s, but not
      the transient `_func` and `_tag_types`. */
  datatype FactoryState = FactoryState(settings: Settings, dest: string, done: map<string, bool>)

  class Factory {
    var settings: Settings
    var dest: string
    var done: map<string, bool>
    /** `TaggerFactory._tag_types`: `None` until `make_jobs` sets it up. */
    var tagTypes: Option<map<string, TagType>>

    /** A new factory of the kind `s` with destination `d`. */
    constructor (s: Settings, d: string)
      ensures settings == s && dest == d && done == map[] && tagTypes == None
    {
      settings, dest, done, tagTypes := s, d, map[], None;
    }

    /** `clear()`: forgets what was processed. */
    method Clear()
      modifies this`done
      ensures done == map[]
    {
      done := map[];
    }

    /** `make_jobs(media_keys, project)`, where `media` is the project's map from
        relative path to media and `fileExists` is `os.path.exists`. The tagger
        first sets up its tag types from the project's tags (`_setup_tag_types`). */
    method MakeJobs(keys: seq<string>, media: map<string, Media>, fileExists: string -> bool,
                    shlex: string -> seq<string>, projectTags: seq<TagInfo>) returns (r: Option<seq<Task>>)
      modifies this`tagTypes
      ensures r == JobsFor(settings, dest, done, keys, media, fileExists, shlex)
      ensures tagTypes == if settings.TaggerSettings? then Some(TypesByName(projectTags)) else old(tagTypes)
    {
      if settings.TaggerSettings? {
        tagTypes := Some(TypesByName(projectTags));
      }
      var s, d, finished := settings, dest, done;
      var jobs := [];
      var n := 0;
      while n < |keys|
        modifies {}
        invariant 0 <= n <= |keys|
        invariant JobsFor(s, d, finished, keys[..n], media, fileExists, shlex) == Some(jobs)
      {
        JobsForStep(s, d, finished, keys, n, media, fileExists, shlex);
        if keys[n] !in media {
          JobsForRaises(s, d, finished, keys, media, fileExists, shlex);
          return None;
        }
        var t := TaskFor(s, d, finished, media[keys[n]], fileExists, shlex);
        if t.Some? {
          jobs := jobs + [t.value];
        }
        n := n + 1;
      }
      assert keys[..n] == keys;
      r := Some(jobs);
    }

    /** The loop of `TaggerFactory._run` over the output lines. */
    method ParseOutput(lines: seq<string>, conv: Conversions) returns (r: Option<map<string, Value>>)
      ensures r == ParseLines(lines, tagTypes, conv)
    {
      var updates := map[];
      var n := 0;
      while n < |lines|
        invariant 0 <= n <= |lines|
        invariant ParseLines(lines[..n], tagTypes, conv) == Some(updates)
      {
        ParseLinesStep(lines, n, tagTypes, conv);
        var line := lines[n];
        if |line| > 0 {
          var parts := SplitOnce(line, ':');
          if parts.Some? {
            var tag, value := Strip(parts.value.0), Strip(parts.value.1);
            if tagTypes.None? {
              ParseLinesRaisePersists(lines, n + 1, tagTypes, conv);
              return None;
            }
            if tag in tagTypes.value {
              var v := Coerce(tagTypes.value[tag], value, conv);
              if v.None? {
                ParseLinesRaisePersists(lines, n + 1, tagTypes, conv);
                return None;
              }
              updates := updates[tag := v.value];
            }
          }
        }
        n := n + 1;
      }
      assert lines[..n] == lines;
      r := Some(updates);
    }

    /** `TaggerFactory._run(command, media)`, given what the command does: its
        exit code and its output lines. On exit code 0 the gathered updates are
        merged into the tags and the file is done; a raise changes neither; any
        other exit code changes nothing and does not raise. */
    method RunTagger(m: Media, returnCode: int, lines: seq<string>, conv: Conversions) returns (raised: bool)
      modifies m`tags, this`done
      ensures var u := ParseLines(lines, tagTypes, conv);
        raised <==> returnCode == 0 && u.None?
      ensures var u := ParseLines(lines, tagTypes, conv);
        if returnCode == 0 && u.Some? then m.tags == MergeTags(old(m.tags), u.value) && done == old(done)[m.path := true]
        else m.tags == old(m.tags) && done == old(done)
    {
      raised := false;
      if returnCode == 0 {
        var u := ParseOutput(lines, conv);
        if u.None? {
          return true;
        }
        m.tags := MergeTags(m.tags, u.value);
        done := done[m.path := true];
      }
    }

    /** `CommandFactory._run(command, in_file, out_file)`, given whether the lock
        file and the output exist and how the command ends (`failure` holds its
        output when it exits non-zero). A lock left by an interrupted run means
        the output is stale and is made again; an output without a lock is kept.
        A failing command raises with its output, and only success sets `_done`. */
    method RunCommandTask(outFile: string, lockExists: bool, outExists: bool, failure: Option<string>,
                          traceback: string) returns (ran: bool, o: Outcome)
      modifies this`done
      ensures ran <==> lockExists || !outExists
      ensures o == if ran && failure.Some? then Raised(traceback, failure) else Returned(VNone)
      ensures done == if o.Raised? then old(done) else old(done)[outFile := true]
    {
      var present := outExists;
      if lockExists && present {
        present := false;
      }
      ran := !present;
      if ran && failure.Some? {
        return ran, Raised(traceback, failure);
      }
      done := done[outFile := true];
      o := Returned(VNone);
    }

    /** `PythonFunctionFactory._run(relpath, media, dest)`, given what the user's
        `process` function does: when it returns, the media's path is done. */
    method RunFunction(m: Media, call: Outcome) returns (o: Outcome)
      modifies this`done
      ensures o == if call.Raised? then call else Returned(VNone)
      ensures done == if call.Raised? then old(done) else old(done)[m.path := true]
    {
      if call.Raised? {
        return call;
      }
      done := done[m.path := true];
      o := Returned(VNone);
    }

    /** `dump(factory)`: the class name and the persistent state. */
    function Dump(): (r: (string, FactoryState))
      reads this
      ensures r.0 == ClassName(settings)
      ensures r.1 == FactoryState(settings, dest, done)
    {
      (ClassName(settings), FactoryState(settings, dest, done))
    }

    /** `load(state)`: a new factory of the named class with the state set; the
        transient tag types are unset. Only a name that matches the state's kind
        loads. */
    static method Load(name: string, data: FactoryState) returns (r: Option<Factory>)
      ensures r.Some? <==> name == ClassName(data.settings)
      ensures r.Some? ==> fresh(r.value) && r.value.Dump() == (name, data) && r.value.tagTypes.None?
    {
      if name != ClassName(data.settings) {
        return None;
      }
      var f := new Factory(data.settings, data.dest);
      f.done := data.done;
      r := Some(f);
    }
  }

  /** The class name tells the factory kinds apart. */
  lemma ClassNameDistinguishes(a: Settings, b: Settings)
    requires ClassName(a) == ClassName(b)
    ensures a.CommandSettings? == b.CommandSettings? && a.FunctionSettings? == b.FunctionSettings?
  {
  }
}
