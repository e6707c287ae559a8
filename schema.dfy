/** The tag schema of a project (vixen/project.py): `TagInfo`, the helpers that
    turn a project name into a file name, and the diff that `update_tags`
    computes between the old and the new schema. */
module Schema {
  import opened Wrappers
  import opened PyStr
  import opened PyPath
  import opened Values

  /** `TagInfo(name, type, default)`; `kind` is its `type` field. */
  datatype TagInfo = TagInfo(name: string, kind: TagType, default: Value)

  /** `TagInfo(name=n, type=t)`, whose default comes from `_default_default`. */
  function NewTag(n: string, t: TagType): (r: TagInfo)
    ensures r.name == n && r.kind == t
    ensures HasType(r.default, t) && IsZero(r.default)
  {
    TagInfo(n, t, Default(t))
  }

  /** Every tag carries the default of its type. */
  predicate DefaultsFixed(tags: seq<TagInfo>)
  {
    forall i :: 0 <= i < |tags| ==> tags[i].default == Default(tags[i].kind)
  }

  /** `Project._tags_default`: a new project has the one tag `completed` of type bool. */
  function ProjectDefaultTags(): (r: seq<TagInfo>)
    ensures |r| == 1 && r[0].name == "completed" && r[0].kind == BoolTag
    ensures r[0].default == VBool(false)
  {
    [NewTag("completed", BoolTag)]
  }

  function Names(tags: seq<TagInfo>): (r: set<string>)
    ensures forall i :: 0 <= i < |tags| ==> tags[i].name in r
  {
    set i | 0 <= i < |tags| :: tags[i].name
  }

  /** Every name in `Names(tags)` is the name of some tag. */
  lemma NameOfSomeTag(tags: seq<TagInfo>, n: string)
    requires n in Names(tags)
    ensures exists i :: 0 <= i < |tags| && tags[i].name == n
  {
  }

  predicate UniqueNames(tags: seq<TagInfo>)
  {
    forall i, j :: 0 <= i < j < |tags| ==> tags[i].name != tags[j].name
  }

  // ---------------------------------------------------------------------------
  // sanitize_name and get_non_existing_filename

  /** `re.sub(r'\s+', '_', s)`: every maximal run of whitespace becomes one `_`. */
  function CollapseSpace(s: string): (r: string)
    ensures forall i :: 0 <= i < |r| ==> !IsSpace(r[i])
    decreases |s|
  {
    if s == [] then []
    else if IsSpace(s[0]) then
      var rest := DropLeadingSpace(s);
      assert rest != s;
      ['_'] + CollapseSpace(rest)
    else [s[0]] + CollapseSpace(s[1..])
  }

  /** `re.sub(r'\W+', '', s)`: every character outside `\w` is dropped. */
  function KeepWordChars(s: string): (r: string)
    ensures |r| <= |s|
    ensures forall i :: 0 <= i < |r| ==> IsWordChar(r[i])
    ensures (forall i :: 0 <= i < |s| ==> IsWordChar(s[i])) ==> r == s
  {
    if s == [] then []
    else if IsWordChar(s[0]) then [s[0]] + KeepWordChars(s[1..])
    else KeepWordChars(s[1..])
  }

  /** Dropping characters keeps the text free of capital letters. */
  lemma {:induction false} KeepWordCharsNoUpper(s: string)
    requires NoUpper(s)
    ensures NoUpper(KeepWordChars(s))
  {
    if s != [] {
      KeepWordCharsNoUpper(s[1..]);
    }
  }

  /** Collapsing whitespace only introduces `_`, which is not a capital letter. */
  lemma {:induction false} CollapseSpaceNoUpper(s: string)
    requires NoUpper(s)
    ensures NoUpper(CollapseSpace(s))
    decreases |s|
  {
    if s != [] {
      if IsSpace(s[0]) {
        var rest := DropLeadingSpace(s);
        assert rest != s;
        assert forall i :: 0 <= i < |rest| ==> rest[i] == s[|s| - |rest| + i];
        CollapseSpaceNoUpper(rest);
      } else {
        CollapseSpaceNoUpper(s[1..]);
      }
    }
  }

  /** `sanitize_name(name)`: lower-case, whitespace runs to `_`, non-word characters dropped. */
  function SanitizeName(name: string): (r: string)
    ensures forall i :: 0 <= i < |r| ==> IsWordChar(r[i]) && !IsUpper(r[i]) && !IsSpace(r[i])
  {
    LowerIsLowercase(name);
    CollapseSpaceNoUpper(Lower(name));
    KeepWordCharsNoUpper(CollapseSpace(Lower(name)));
    KeepWordChars(CollapseSpace(Lower(name)))
  }

  /** Sanitizing twice is the same as sanitizing once. */
  lemma {:induction false} SanitizeNameIdempotent(name: string)
    ensures SanitizeName(SanitizeName(name)) == SanitizeName(name)
  {
    var r := SanitizeName(name);
    LowerOfLowercase(r);
    assert Lower(r) == r;
    CollapseSpaceFreePrefix(r, []);
    assert r + [] == r;
    assert KeepWordChars(r) == r;
  }

  predicate IsNameWord(w: string)
  {
    forall i :: 0 <= i < |w| ==> IsWordChar(w[i]) && !IsUpper(w[i]) && !IsSpace(w[i])
  }

  /** Space-free text in front passes through the collapse unchanged; with
      nothing behind it, space-free text is left as it is. */
  lemma {:induction false} CollapseSpaceFreePrefix(a: string, s: string)
    requires forall i :: 0 <= i < |a| ==> !IsSpace(a[i])
    ensures CollapseSpace(a + s) == a + CollapseSpace(s)
    decreases |a|
  {
    if a != [] {
      var t := a + s;
      assert t[0] == a[0] && !IsSpace(t[0]);
      assert t[1..] == a[1..] + s;
      assert CollapseSpace(t) == [a[0]] + CollapseSpace(t[1..]);
      assert forall i :: 0 <= i < |a[1..]| ==> a[1..][i] == a[i + 1];
      CollapseSpaceFreePrefix(a[1..], s);
      assert a == [a[0]] + a[1..];
    } else {
      assert a + s == s;
      assert a + CollapseSpace(s) == CollapseSpace(s);
    }
  }

  /** A single space between two space-free words becomes one `_`. */
  lemma {:induction false} CollapseSingleSpace(a: string, b: string)
    requires forall i :: 0 <= i < |a| ==> !IsSpace(a[i])
    requires forall i :: 0 <= i < |b| ==> !IsSpace(b[i])
    ensures CollapseSpace(a + " " + b) == a + "_" + b
  {
    assert a + " " + b == a + ([' '] + b);
    CollapseSpaceFreePrefix(a, [' '] + b);
    assert CollapseSpace([' '] + b) == ['_'] + b by {
      assert DropLeadingSpace([' '] + b) == b by {
        assert ([' '] + b)[1..] == b;
      }
      CollapseSpaceFreePrefix(b, []);
      assert b + [] == b;
    }
    assert a + "_" + b == a + (['_'] + b);
  }

  /** Two lower-case words separated by one space, as in the project name
      "new name" of vixen/tests/test_project.py, become `word_word` ("new_name"). */
  lemma {:induction false} SanitizeTwoWords(a: string, b: string)
    requires IsNameWord(a) && IsNameWord(b)
    ensures SanitizeName(a + " " + b) == a + "_" + b
  {
    var s := a + " " + b;
    assert NoUpper(s) by {
      forall i | 0 <= i < |s| ensures !IsUpper(s[i]) {
        if i < |a| { assert s[i] == a[i]; } else if i > |a| { assert s[i] == b[i - |a| - 1]; }
      }
    }
    LowerOfLowercase(s);
    CollapseSingleSpace(a, b);
    var t := a + "_" + b;
    assert forall i :: 0 <= i < |t| ==> IsWordChar(t[i]) by {
      forall i | 0 <= i < |t| ensures IsWordChar(t[i]) {
        if i < |a| { assert t[i] == a[i]; } else if i > |a| { assert t[i] == b[i - |a| - 1]; }
      }
    }
  }

  /** `get_non_existing_filename(fname)`, where `fileExists` says whether `fname`
      exists: an existing file gets `_a` before its extension, in its own directory. */
  function NonExistingFilename(fname: string, fileExists: bool): (r: string)
    ensures !fileExists ==> r == fname
  {
    if fileExists then
      var parts := SplitExt(Basename(fname));
      Join(Dirname(fname), parts.0 + "_a" + parts.1)
    else fname
  }

  /** The directory part of `dir/name` is `dir` when neither holds a `/`. */
  lemma {:induction false} DirnameOfJoin(dir: string, name: string)
    requires dir != "" && '/' !in dir && '/' !in name
    ensures Dirname(dir + "/" + name) == dir
  {
    var f := dir + "/" + name;
    assert RFind(f, '/') == |dir| by {
      assert f[|dir|] == '/';
      forall j | |dir| < j < |f| ensures f[j] != '/' {
        assert f[j] == name[j - |dir| - 1];
      }
    }
    var head := dir + "/";
    assert f[..|dir| + 1] == head;
    assert RStripSlashes(head) == dir by {
      assert head[..|dir|] == dir;
      assert dir[|dir| - 1] in dir;
    }
    assert !AllSlashes(head) by {
      assert head[0] == dir[0];
      assert dir[0] in dir;
    }
  }

  /** The name chosen for an existing file keeps its extension and gains `_a`
      before it: for `dir/base.ext` it is `dir/base_a.ext`. */
  lemma {:induction false} NonExistingFilenameOfExisting(dir: string, base: string, ext: string)
    requires dir != "" && '/' !in dir
    requires base != "" && '.' !in base && '/' !in base
    requires |ext| > 0 && ext[0] == '.' && '.' !in ext[1..] && '/' !in ext
    ensures NonExistingFilename(dir + "/" + (base + ext), true) == dir + "/" + (base + "_a" + ext)
  {
    var name := base + ext;
    var f := dir + "/" + name;
    assert '/' !in name;
    assert f == Join(dir, name);
    BasenameOfJoin(dir, name);
    assert Basename(f) == name;
    SplitExtOfStem(base, ext);
    DirnameOfJoin(dir, name);
    var renamed := base + "_a" + ext;
    assert NonExistingFilename(f, true) == Join(dir, renamed);
    assert renamed[0] == base[0] && base[0] in base;
    assert Join(dir, renamed) == dir + "/" + renamed;
  }

  // ---------------------------------------------------------------------------
  // The diff of update_tags

  /** `tag_info`: the type of every old tag by name (the last one wins). */
  function TypesByName(tags: seq<TagInfo>): (r: map<string, TagType>)
    ensures r.Keys == Names(tags)
    ensures |tags| > 0 ==> r[tags[|tags| - 1].name] == tags[|tags| - 1].kind
  {
    if tags == [] then map[]
    else TypesByName(tags[..|tags| - 1])[tags[|tags| - 1].name := tags[|tags| - 1].kind]
  }

  /** With unique names, each tag's own type is the one recorded for its name. */
  lemma {:induction false} TypesByNameUnique(tags: seq<TagInfo>, i: int)
    requires UniqueNames(tags) && 0 <= i < |tags|
    ensures TypesByName(tags)[tags[i].name] == tags[i].kind
  {
    if i < |tags| - 1 {
      TypesByNameUnique(tags[..|tags| - 1], i);
    }
  }

  /** A new tag whose name is new or whose type changed. */
  predicate IsChanged(t: TagInfo, oldTypes: map<string, TagType>)
  {
    t.name !in oldTypes || oldTypes[t.name] != t.kind
  }

  /** The `added` list: the new tags whose name is new or whose type changed, in order. */
  function AddedTags(oldTags: seq<TagInfo>, newTags: seq<TagInfo>): (r: seq<TagInfo>)
    ensures forall t :: t in r <==> t in newTags && IsChanged(t, TypesByName(oldTags))
  {
    if newTags == [] then []
    else
      var init := AddedTags(oldTags, newTags[..|newTags| - 1]);
      var t := newTags[|newTags| - 1];
      assert newTags == newTags[..|newTags| - 1] + [t];
      init + (if IsChanged(t, TypesByName(oldTags)) then [t] else [])
  }

  /** The first part of `removed`: the new tags whose type changed, in order. */
  function Retyped(oldTags: seq<TagInfo>, newTags: seq<TagInfo>): (r: seq<TagInfo>)
    ensures forall t :: t in r <==>
      t in newTags && t.name in TypesByName(oldTags) && TypesByName(oldTags)[t.name] != t.kind
  {
    if newTags == [] then []
    else
      var init := Retyped(oldTags, newTags[..|newTags| - 1]);
      var t := newTags[|newTags| - 1];
      assert newTags == newTags[..|newTags| - 1] + [t];
      var types := TypesByName(oldTags);
      init + (if t.name in types && types[t.name] != t.kind then [t] else [])
  }

  /** The second part of `removed`: the old tags whose name is gone, in order. */
  function Dropped(oldTags: seq<TagInfo>, newNames: set<string>): (r: seq<TagInfo>)
    ensures forall t :: t in r <==> t in oldTags && t.name !in newNames
  {
    if oldTags == [] then []
    else
      var init := Dropped(oldTags[..|oldTags| - 1], newNames);
      var t := oldTags[|oldTags| - 1];
      assert oldTags == oldTags[..|oldTags| - 1] + [t];
      init + (if t.name !in newNames then [t] else [])
  }

  /** The `removed` list of `update_tags`. */
  function RemovedTags(oldTags: seq<TagInfo>, newTags: seq<TagInfo>): seq<TagInfo>
  {
    Retyped(oldTags, newTags) + Dropped(oldTags, Names(newTags))
  }

  /** In name terms: a name is removed iff it is gone or retyped, and added iff
      it is new or retyped, exactly as the old and new schemas say. */
  lemma {:induction false} DiffByName(oldTags: seq<TagInfo>, newTags: seq<TagInfo>, n: string)
    requires UniqueNames(oldTags) && UniqueNames(newTags)
    ensures n in Names(RemovedTags(oldTags, newTags)) <==>
      (n in Names(oldTags) && n !in Names(newTags)) ||
      (n in Names(oldTags) && n in Names(newTags) && TypesByName(oldTags)[n] != TypesByName(newTags)[n])
    ensures n in Names(AddedTags(oldTags, newTags)) <==>
      n in Names(newTags) && (n !in Names(oldTags) || TypesByName(oldTags)[n] != TypesByName(newTags)[n])
  {
    RemovedByName(oldTags, newTags, n);
    AddedByName(oldTags, newTags, n);
  }

  /** A name is removed iff it is gone from the new schema or its type changed. */
  lemma {:induction false} RemovedByName(oldTags: seq<TagInfo>, newTags: seq<TagInfo>, n: string)
    requires UniqueNames(newTags)
    ensures n in Names(RemovedTags(oldTags, newTags)) <==>
      (n in Names(oldTags) && n !in Names(newTags)) ||
      (n in Names(oldTags) && n in Names(newTags) && TypesByName(oldTags)[n] != TypesByName(newTags)[n])
  {
    var removed := RemovedTags(oldTags, newTags);
    if n in Names(removed) {
      var i :| 0 <= i < |removed| && removed[i].name == n;
      assert removed[i] in removed;
      if removed[i] in Retyped(oldTags, newTags) {
        var j :| 0 <= j < |newTags| && newTags[j] == removed[i];
        TypesByNameUnique(newTags, j);
      }
    }
    if n in Names(newTags) {
      var j :| 0 <= j < |newTags| && newTags[j].name == n;
      TypesByNameUnique(newTags, j);
      assert newTags[j] in newTags;
      if n in Names(oldTags) && TypesByName(oldTags)[n] != TypesByName(newTags)[n] {
        assert newTags[j] in Retyped(oldTags, newTags);
        assert newTags[j] in removed;
      }
    } else if n in Names(oldTags) {
      var j :| 0 <= j < |oldTags| && oldTags[j].name == n;
      assert oldTags[j] in oldTags;
      assert oldTags[j] in Dropped(oldTags, Names(newTags));
      assert oldTags[j] in removed;
    }
  }

  /** A name is added iff it is in the new schema and is new or retyped. */
  lemma {:induction false} AddedByName(oldTags: seq<TagInfo>, newTags: seq<TagInfo>, n: string)
    requires UniqueNames(newTags)
    ensures n in Names(AddedTags(oldTags, newTags)) <==>
      n in Names(newTags) && (n !in Names(oldTags) || TypesByName(oldTags)[n] != TypesByName(newTags)[n])
  {
    var added := AddedTags(oldTags, newTags);
    if n in Names(added) {
      var i :| 0 <= i < |added| && added[i].name == n;
      assert added[i] in added;
      var j :| 0 <= j < |newTags| && newTags[j] == added[i];
      TypesByNameUnique(newTags, j);
    }
    if n in Names(newTags) {
      var j :| 0 <= j < |newTags| && newTags[j].name == n;
      TypesByNameUnique(newTags, j);
      assert newTags[j] in newTags;
      if n !in Names(oldTags) || TypesByName(oldTags)[n] != TypesByName(newTags)[n] {
        assert newTags[j] in added;
      }
    }
  }

  /** Calling `update_tags` with the current schema yields an empty diff. */
  lemma {:induction false} DiffOfSameSchemaIsEmpty(tags: seq<TagInfo>)
    requires UniqueNames(tags)
    ensures AddedTags(tags, tags) == [] && RemovedTags(tags, tags) == []
  {
    forall t | t in tags ensures !IsChanged(t, TypesByName(tags)) {
      var i :| 0 <= i < |tags| && tags[i] == t;
      TypesByNameUnique(tags, i);
    }
    if AddedTags(tags, tags) != [] {
      assert AddedTags(tags, tags)[0] in AddedTags(tags, tags);
    }
    if Retyped(tags, tags) != [] {
      assert Retyped(tags, tags)[0] in Retyped(tags, tags);
    }
    if Dropped(tags, Names(tags)) != [] {
      assert Dropped(tags, Names(tags))[0] in Dropped(tags, Names(tags));
    }
  }

  /** What one `Media.tags` map becomes when the key of every removed tag is
      deleted in order; `None` where a deletion meets a missing key, which
      raises KeyError. */
  function DeleteAll(t: map<string, Value>, removed: seq<TagInfo>): (r: Option<map<string, Value>>)
    ensures r.Some? ==> r.value.Keys == t.Keys - Names(removed)
    ensures r.Some? ==> forall k :: k in r.value ==> r.value[k] == t[k]
    ensures UniqueNames(removed) && Names(removed) <= t.Keys ==> r.Some?
  {
    if removed == [] then Some(t)
    else if removed[0].name !in t then None
    else
      var rest := DeleteAll(t - {removed[0].name}, removed[1..]);
      assert Names(removed) == {removed[0].name} + Names(removed[1..]);
      assert UniqueNames(removed) ==> removed[0].name !in Names(removed[1..]) && UniqueNames(removed[1..]);
      rest
  }

  function SetDefaults(t: map<string, Value>, added: seq<TagInfo>): (r: map<string, Value>)
    ensures r.Keys == t.Keys + Names(added)
    ensures forall k :: k in r && k !in Names(added) ==> r[k] == t[k]
  {
    if added == [] then t
    else
      var init := added[..|added| - 1];
      var last := added[|added| - 1];
      NamesSnoc(init, last);
      assert added == init + [last];
      SetDefaults(t, init)[last.name := last.default]
  }

  /** An added name holds the default of one of the added tags of that name. */
  lemma {:induction false} SetDefaultsValue(t: map<string, Value>, added: seq<TagInfo>, n: string)
    requires n in Names(added)
    ensures exists i :: 0 <= i < |added| && added[i].name == n && SetDefaults(t, added)[n] == added[i].default
  {
    var init := added[..|added| - 1];
    var last := added[|added| - 1];
    NamesSnoc(init, last);
    assert added == init + [last];
    if n != last.name {
      SetDefaultsValue(t, init, n);
      var i :| 0 <= i < |init| && init[i].name == n && SetDefaults(t, init)[n] == init[i].default;
      assert added[i] == init[i];
    } else {
      assert added[|added| - 1].name == n;
    }
  }

  /** Appending a tag whose name is new keeps the names unique. */
  lemma UniqueSnoc(s: seq<TagInfo>, t: TagInfo)
    requires UniqueNames(s) && t.name !in Names(s)
    ensures UniqueNames(s + [t])
  {
    forall i, j | 0 <= i < j < |s + [t]| ensures (s + [t])[i].name != (s + [t])[j].name {
      if j == |s| {
        assert s[i].name in Names(s);
      }
    }
  }

  /** The retyped tags are new tags, so their names are unique and new. */
  lemma {:induction false} RetypedNames(oldTags: seq<TagInfo>, newTags: seq<TagInfo>)
    requires UniqueNames(newTags)
    ensures UniqueNames(Retyped(oldTags, newTags))
    ensures Names(Retyped(oldTags, newTags)) <= Names(newTags) * Names(oldTags)
  {
    RetypedNamesBound(oldTags, newTags);
    RetypedUnique(oldTags, newTags);
  }

  /** Every retyped tag is named in both schemas. */
  lemma {:induction false} RetypedNamesBound(oldTags: seq<TagInfo>, newTags: seq<TagInfo>)
    ensures Names(Retyped(oldTags, newTags)) <= Names(newTags) * Names(oldTags)
  {
    if newTags != [] {
      var init := newTags[..|newTags| - 1];
      var t := newTags[|newTags| - 1];
      var r0 := Retyped(oldTags, init);
      assert newTags == init + [t];
      RetypedNamesBound(oldTags, init);
      NamesSnoc(init, t);
      var types := TypesByName(oldTags);
      if t.name in types && types[t.name] != t.kind {
        assert Retyped(oldTags, newTags) == r0 + [t];
        NamesSnoc(r0, t);
      } else {
        assert Retyped(oldTags, newTags) == r0;
      }
    }
  }

  /** Under unique new names the retyped tags have unique names. */
  lemma {:induction false} RetypedUnique(oldTags: seq<TagInfo>, newTags: seq<TagInfo>)
    requires UniqueNames(newTags)
    ensures UniqueNames(Retyped(oldTags, newTags))
  {
    if newTags != [] {
      var init := newTags[..|newTags| - 1];
      var t := newTags[|newTags| - 1];
      var r0 := Retyped(oldTags, init);
      assert newTags == init + [t];
      assert UniqueNames(init);
      RetypedUnique(oldTags, init);
      var types := TypesByName(oldTags);
      if t.name in types && types[t.name] != t.kind {
        assert Retyped(oldTags, newTags) == r0 + [t];
        RetypedNamesBound(oldTags, init);
        assert t.name !in Names(init) by {
          forall i | 0 <= i < |init| ensures init[i].name != t.name {
            assert init[i] == newTags[i];
          }
        }
        UniqueSnoc(r0, t);
      } else {
        assert Retyped(oldTags, newTags) == r0;
      }
    }
  }



  /** The dropped tags are old tags, so their names are unique and old. */
  lemma {:induction false} DroppedNames(oldTags: seq<TagInfo>, newNames: set<string>)
    requires UniqueNames(oldTags)
    ensures UniqueNames(Dropped(oldTags, newNames))
    ensures Names(Dropped(oldTags, newNames)) <= Names(oldTags) - newNames
  {
    if oldTags != [] {
      var init := oldTags[..|oldTags| - 1];
      var t := oldTags[|oldTags| - 1];
      assert UniqueNames(init);
      DroppedNames(init, newNames);
      var d := Dropped(init, newNames);
      assert Names(init) <= Names(oldTags);
      assert forall i :: 0 <= i < |init| ==> init[i].name != t.name;
      assert t.name !in Names(d);
      if t.name !in newNames {
        UniqueSnoc(d, t);
        assert Dropped(oldTags, newNames) == d + [t];
        NamesSnoc(d, t);
      } else {
        assert Dropped(oldTags, newNames) == d;
      }
    }
  }

  lemma NamesSnoc(s: seq<TagInfo>, t: TagInfo)
    ensures Names(s + [t]) == Names(s) + {t.name}
  {
    assert (s + [t])[|s|] == t;
    forall n | n in Names(s) ensures n in Names(s + [t]) {
      var i :| 0 <= i < |s| && s[i].name == n;
      assert (s + [t])[i] == s[i];
    }
  }

  /** Under unique names the `removed` list names each old tag at most once. */
  lemma RemovedNames(oldTags: seq<TagInfo>, newTags: seq<TagInfo>)
    requires UniqueNames(oldTags) && UniqueNames(newTags)
    ensures UniqueNames(RemovedTags(oldTags, newTags))
    ensures Names(RemovedTags(oldTags, newTags)) <= Names(oldTags)
  {
    var a: seq<TagInfo> := Retyped(oldTags, newTags);
    var b: seq<TagInfo> := Dropped(oldTags, Names(newTags));
    var ab: seq<TagInfo> := a + b;
    RetypedNames(oldTags, newTags);
    DroppedNames(oldTags, Names(newTags));
    forall i, j | 0 <= i < j < |ab| ensures ab[i].name != ab[j].name {
      if i < |a| && j >= |a| {
        assert a[i].name in Names(a);
        assert b[j - |a|].name in Names(b);
      }
    }
    assert Names(ab) <= Names(a) + Names(b) by {
      forall n | n in Names(ab) ensures n in Names(a) + Names(b) {
        var i :| 0 <= i < |ab| && ab[i].name == n;
        if i < |a| { assert a[i].name in Names(a); } else { assert b[i - |a|].name in Names(b); }
      }
    }
  }

  /** What `update_tags(newTags)` makes of one media's tags when the schema was
      `oldTags`: the removed names deleted, then the added names set to their
      defaults; `None` where a `del` raises KeyError. */
  function Retag(t: map<string, Value>, oldTags: seq<TagInfo>, newTags: seq<TagInfo>): Option<map<string, Value>>
  {
    ApplyDiff(t, RemovedTags(oldTags, newTags), AddedTags(oldTags, newTags))
  }

  /** The removed names deleted from `t`, then the added names set to their defaults. */
  function ApplyDiff(t: map<string, Value>, removed: seq<TagInfo>, added: seq<TagInfo>): Option<map<string, Value>>
  {
    var d := DeleteAll(t, removed);
    if d.None? then None else Some(SetDefaults(d.value, added))
  }

  /** When every schema name is a key of the media's tags and names are unique,
      `update_tags` succeeds on that media and, for each name `n`: the keys
      become the old non-schema keys plus the new schema names; a tag whose name
      and type are unchanged keeps its value; a new or retyped tag gets its default;
      a key outside both schemas keeps its value. */
  lemma {:induction false} RetagSpec(t: map<string, Value>, oldTags: seq<TagInfo>, newTags: seq<TagInfo>, n: string)
    requires UniqueNames(oldTags) && UniqueNames(newTags) && Names(oldTags) <= t.Keys
    ensures Retag(t, oldTags, newTags).Some?
    ensures n in Retag(t, oldTags, newTags).value <==> (n in t && n !in Names(oldTags)) || n in Names(newTags)
    ensures n in Names(oldTags) && n in Names(newTags) && TypesByName(oldTags)[n] == TypesByName(newTags)[n] ==>
      Retag(t, oldTags, newTags).value[n] == t[n]
    ensures n in t && n !in Names(oldTags) && n !in Names(newTags) ==>
      Retag(t, oldTags, newTags).value[n] == t[n]
    ensures (DefaultsFixed(newTags) && n in Names(newTags) &&
      (n !in Names(oldTags) || TypesByName(oldTags)[n] != TypesByName(newTags)[n])) ==>
      Retag(t, oldTags, newTags).value[n] == Default(TypesByName(newTags)[n])
  {
    var removed := RemovedTags(oldTags, newTags);
    var added := AddedTags(oldTags, newTags);
    RemovedNames(oldTags, newTags);
    DiffByName(oldTags, newTags, n);
    var d := DeleteAll(t, removed).value;
    var r := SetDefaults(d, added);
    if DefaultsFixed(newTags) && n in Names(added) {
      SetDefaultsValue(d, added, n);
      var i :| 0 <= i < |added| && added[i].name == n && r[n] == added[i].default;
      assert added[i] in added;
      var j :| 0 <= j < |newTags| && newTags[j] == added[i];
      TypesByNameUnique(newTags, j);
    }
  }

  /** Retagging a map that holds the old schema succeeds and gives a map that
      holds the new schema. */
  lemma {:induction false} RetagHoldsNewSchema(t: map<string, Value>, oldTags: seq<TagInfo>, newTags: seq<TagInfo>)
    requires UniqueNames(oldTags) && UniqueNames(newTags) && Names(oldTags) <= t.Keys
    ensures Retag(t, oldTags, newTags).Some?
    ensures Names(newTags) <= Retag(t, oldTags, newTags).value.Keys
  {
    RetagSpec(t, oldTags, newTags, "");
    forall n | n in Names(newTags) ensures n in Retag(t, oldTags, newTags).value {
      RetagSpec(t, oldTags, newTags, n);
    }
  }

  /** `update_tags` with the current schema changes no media's tags. */
  lemma RetagSameSchema(t: map<string, Value>, tags: seq<TagInfo>)
    requires UniqueNames(tags)
    ensures Retag(t, tags, tags) == Some(t)
  {
    DiffOfSameSchemaIsEmpty(tags);
  }
}
