/** vixen/project.py: the `Project` class, whose tag schema and map from relative
    paths to `Media` objects are changed by `update_tags`, `add_tags`,
    `import_csv` and `scan`, and read by `search`. */
module ProjectModel {
  import opened Wrappers
  import opened PyPath
  import opened Values
  import opened Schema
  import opened MediaModel
  import opened Query

  /** The tags a new media starts with: each tag's name mapped to its default value. */
  function DefaultTagMap(tags: seq<TagInfo>): (r: map<string, Value>)
    ensures r.Keys == Names(tags)
  {
    if tags == [] then map[]
    else
      var init := tags[..|tags| - 1];
      var last := tags[|tags| - 1];
      assert tags == init + [last];
      NamesSnoc(init, last);
      DefaultTagMap(init)[last.name := last.default]
  }

  /** Under unique names every tag starts with its own default. */
  lemma {:induction false} DefaultTagMapValues(tags: seq<TagInfo>, i: int)
    requires UniqueNames(tags) && 0 <= i < |tags|
    ensures DefaultTagMap(tags)[tags[i].name] == tags[i].default
  {
    var init := tags[..|tags| - 1];
    if i < |tags| - 1 {
      assert init[i] == tags[i];
      DefaultTagMapValues(init, i);
    }
  }

  // ---------------------------------------------------------------------------
  // import_csv

  /** A CSV column that holds a schema tag: the tag and `header.index(tag.name)`. */
  datatype Column = Column(tag: TagInfo, index: nat)

  /** `header.index(x)`: the first position of `x`. */
  function IndexOf(header: seq<string>, x: string): (r: nat)
    requires x in header
    ensures r < |header| && header[r] == x
    ensures forall j :: 0 <= j < r ==> header[j] != x
  {
    if header[0] == x then 0
    else
      var r := 1 + IndexOf(header[1..], x);
      assert forall j :: 1 <= j < r ==> header[j] == header[1..][j - 1];
      r
  }

  /** The schema tags whose names appear in a CSV header, each paired with the
      position of its column in that header, in schema order. */
  function Columns(tags: seq<TagInfo>, header: seq<string>): (r: seq<Column>)
    ensures forall c :: c in r <==> c.tag in tags && c.tag.name in header && c.index == IndexOf(header, c.tag.name)
    ensures forall i :: 0 <= i < |r| ==> r[i].tag.name in Names(tags)
  {
    if tags == [] then []
    else
      assert tags == [tags[0]] + tags[1..];
      var rest := Columns(tags[1..], header);
      assert Names(tags[1..]) <= Names(tags) by {
        forall n | n in Names(tags[1..]) ensures n in Names(tags) {
          var i :| 0 <= i < |tags[1..]| && tags[1..][i].name == n;
          assert tags[i + 1].name == n;
        }
      }
      (if tags[0].name in header then [Column(tags[0], IndexOf(header, tags[0].name))] else []) + rest
  }

  predicate UniqueColumns(cols: seq<Column>)
  {
    forall i, j :: 0 <= i < j < |cols| ==> cols[i].tag.name != cols[j].tag.name
  }

  /** Under unique tag names every column names a different tag. */
  lemma {:induction false} ColumnsUnique(tags: seq<TagInfo>, header: seq<string>)
    requires UniqueNames(tags)
    ensures UniqueColumns(Columns(tags, header))
  {
    if tags != [] {
      var rest := Columns(tags[1..], header);
      assert UniqueNames(tags[1..]);
      ColumnsUnique(tags[1..], header);
      forall i | 0 <= i < |rest| ensures rest[i].tag.name != tags[0].name {
        var j :| 0 <= j < |tags[1..]| && tags[1..][j].name == rest[i].tag.name;
        assert tags[j + 1].name == rest[i].tag.name;
      }
    }
  }

  /** The names of the tags the columns hold. */
  function ColumnNames(cols: seq<Column>): set<string>
  {
    set i | 0 <= i < |cols| :: cols[i].tag.name
  }

  /** The inner loop of `import_csv` for one record and one media's tags: the
      text of each column is coerced to the type of its tag and stored, and a
      ValueError leaves that tag as it was. The flag is false where `record[index]`
      raises IndexError, with the columns before that one already stored. */
  function ApplyColumns(t: map<string, Value>, cols: seq<Column>, record: seq<string>, conv: Conversions): (r: (map<string, Value>, bool))
    ensures t.Keys <= r.0.Keys <= t.Keys + ColumnNames(cols)
    ensures r.1 <==> forall i :: 0 <= i < |cols| ==> cols[i].index < |record|
    ensures forall k :: k in t && k !in ColumnNames(cols) ==> r.0[k] == t[k]
    decreases |cols|
  {
    if cols == [] then (t, true)
    else if cols[0].index >= |record| then (t, false)
    else
      var v := Coerce(cols[0].tag.kind, record[cols[0].index], conv);
      var t' := if v.Some? then t[cols[0].tag.name := v.value] else t;
      assert ColumnNames(cols) == {cols[0].tag.name} + ColumnNames(cols[1..]) by {
        forall n | n in ColumnNames(cols) ensures n in {cols[0].tag.name} + ColumnNames(cols[1..]) {
          var i :| 0 <= i < |cols| && cols[i].tag.name == n;
          if i > 0 { assert cols[1..][i - 1] == cols[i]; }
        }
      }
      ApplyColumns(t', cols[1..], record, conv)
  }

  /** For a record with every column present, the tag of column `i` ends up
      holding the coerced text when the conversion succeeds, and keeps its old
      value (or stays absent) when it raises ValueError. */
  lemma {:induction false} ApplyColumnsStores(t: map<string, Value>, cols: seq<Column>, record: seq<string>, conv: Conversions, i: int)
    requires UniqueColumns(cols) && 0 <= i < |cols|
    requires forall j :: 0 <= j < |cols| ==> cols[j].index < |record|
    ensures var v := Coerce(cols[i].tag.kind, record[cols[i].index], conv);
      var r := ApplyColumns(t, cols, record, conv).0;
      (v.Some? ==> cols[i].tag.name in r && r[cols[i].tag.name] == v.value) &&
      (v.None? ==> (cols[i].tag.name in r <==> cols[i].tag.name in t)) &&
      (v.None? && cols[i].tag.name in t ==> r[cols[i].tag.name] == t[cols[i].tag.name])
    decreases |cols|
  {
    var v := Coerce(cols[0].tag.kind, record[cols[0].index], conv);
    var t' := if v.Some? then t[cols[0].tag.name := v.value] else t;
    assert UniqueColumns(cols[1..]);
    if i == 0 {
      assert cols[0].tag.name !in ColumnNames(cols[1..]);
    } else {
      ApplyColumnsStores(t', cols[1..], record, conv, i - 1);
    }
  }

  /** The state the record loop of `import_csv` has built: every media's tags
      (by key), `count` and `total`. */
  datatype CsvState = CsvState(tagMaps: map<string, map<string, Value>>, count: nat, total: nat)

  /** One record of the `import_csv` loop from state `st`: it counts towards
      `total`; when its path, made relative by `relTo`, is a media key it counts
      towards `count` and its columns are stored in that media's tags. The flag is
      false where the record is too short (an IndexError ends the loop). */
  function RecordStep(st: CsvState, record: seq<string>, pathIdx: nat, cols: seq<Column>,
                      relTo: string -> string, conv: Conversions): (r: (CsvState, bool))
    ensures r.0.tagMaps.Keys == st.tagMaps.Keys
    ensures forall k :: k in st.tagMaps ==> st.tagMaps[k].Keys <= r.0.tagMaps[k].Keys
    ensures r.0.total == st.total + 1 && st.count <= r.0.count <= st.count + 1
    ensures pathIdx >= |record| ==> !r.1 && r.0 == st.(total := st.total + 1)
    ensures pathIdx < |record| && relTo(record[pathIdx]) !in st.tagMaps ==> r == (st.(total := st.total + 1), true)
  {
    var total := st.total + 1;
    if pathIdx >= |record| then (st.(total := total), false)
    else
      var key := relTo(record[pathIdx]);
      if key !in st.tagMaps then (st.(total := total), true)
      else
        var applied := ApplyColumns(st.tagMaps[key], cols, record, conv);
        (CsvState(st.tagMaps[key := applied.0], st.count + 1, total), applied.1)
  }

  /** The record loop of `import_csv` from state `st`, stopping at the first
      record that raises IndexError. */
  function ImportRecords(st: CsvState, records: seq<seq<string>>, pathIdx: nat, cols: seq<Column>,
                         relTo: string -> string, conv: Conversions): (r: (CsvState, bool))
    ensures r.0.tagMaps.Keys == st.tagMaps.Keys
    ensures forall k :: k in st.tagMaps ==> st.tagMaps[k].Keys <= r.0.tagMaps[k].Keys
    ensures st.count <= r.0.count && r.0.count - st.count <= r.0.total - st.total
    ensures r.0.total - st.total <= |records|
    ensures r.1 ==> r.0.total == st.total + |records|
    decreases |records|
  {
    if records == [] then (st, true)
    else
      var s := RecordStep(st, records[0], pathIdx, cols, relTo, conv);
      if !s.1 then s
      else ImportRecords(s.0, records[1..], pathIdx, cols, relTo, conv)
  }

  /** One step of the record loop, on the record at position `i`. */
  lemma ImportStep(st: CsvState, records: seq<seq<string>>, i: int, pathIdx: nat, cols: seq<Column>,
                   relTo: string -> string, conv: Conversions)
    requires 0 <= i < |records|
    ensures var s := RecordStep(st, records[i], pathIdx, cols, relTo, conv);
      ImportRecords(st, records[i..], pathIdx, cols, relTo, conv) ==
        if !s.1 then s else ImportRecords(s.0, records[i + 1..], pathIdx, cols, relTo, conv)
  {
    assert records[i..][0] == records[i] && records[i..][1..] == records[i + 1..];
  }

  /** What `import_csv` reports: the two header failures, or the counts read. */
  datatype CsvReport = NoHeader | NoPathColumn | Read(count: nat, total: nat)

  // ---------------------------------------------------------------------------
  // search

  /** The `(basename(key), key)` pairs `search` yields for `keys`, in order, or
      `None` where evaluating the query raises for one of the media. */
  function Hits(q: Query, keys: seq<string>, media: map<string, Media>): (r: Option<seq<(string, string)>>)
    requires forall i :: 0 <= i < |keys| ==> keys[i] in media
    reads media.Values
    ensures r.Some? ==> |r.value| <= |keys|
  {
    if keys == [] then Some([])
    else
      var k := keys[|keys| - 1];
      var before := Hits(q, keys[..|keys| - 1], media);
      if before.None? then None
      else
        var e := Eval(q, media[k]);
        if e.None? then None
        else if e.value then Some(before.value + [(Basename(k), k)])
        else before
  }

  /** `search` yields exactly the keys whose media satisfy the query, each with
      its basename, and it raises exactly when the query raises on some media. */
  lemma {:induction false} HitsSpec(q: Query, keys: seq<string>, media: map<string, Media>)
    requires forall i :: 0 <= i < |keys| ==> keys[i] in media
    ensures Hits(q, keys, media).None? <==> exists i :: 0 <= i < |keys| && Eval(q, media[keys[i]]).None?
    ensures Hits(q, keys, media).Some? ==>
      (forall p :: p in Hits(q, keys, media).value ==>
        p.0 == Basename(p.1) && p.1 in keys && Eval(q, media[p.1]) == Some(true)) &&
      (forall i :: 0 <= i < |keys| && Eval(q, media[keys[i]]) == Some(true) ==>
        (Basename(keys[i]), keys[i]) in Hits(q, keys, media).value)
  {
    HitsRaises(q, keys, media);
    HitsContents(q, keys, media);
  }

  /** The search raises exactly when the query raises on the media of some key. */
  lemma {:induction false} HitsRaises(q: Query, keys: seq<string>, media: map<string, Media>)
    requires forall i :: 0 <= i < |keys| ==> keys[i] in media
    ensures Hits(q, keys, media).None? <==> exists i :: 0 <= i < |keys| && Eval(q, media[keys[i]]).None?
  {
    if keys != [] {
      var init := keys[..|keys| - 1];
      HitsRaises(q, init, media);
      assert forall i :: 0 <= i < |init| ==> init[i] == keys[i];
    }
  }

  /** A search that does not raise yields a key iff its media satisfy the query. */
  lemma {:induction false} HitsContents(q: Query, keys: seq<string>, media: map<string, Media>)
    requires forall i :: 0 <= i < |keys| ==> keys[i] in media
    ensures Hits(q, keys, media).Some? ==>
      (forall p :: p in Hits(q, keys, media).value ==>
        p.0 == Basename(p.1) && p.1 in keys && Eval(q, media[p.1]) == Some(true)) &&
      (forall i :: 0 <= i < |keys| && Eval(q, media[keys[i]]) == Some(true) ==>
        (Basename(keys[i]), keys[i]) in Hits(q, keys, media).value)
  {
    if keys != [] {
      var init := keys[..|keys| - 1];
      var k := keys[|keys| - 1];
      HitsContents(q, init, media);
      assert forall i :: 0 <= i < |init| ==> init[i] == keys[i];
      assert keys == init + [k];
      var before := Hits(q, init, media);
      var r := Hits(q, keys, media);
      if r.Some? {
        assert before.Some? && Eval(q, media[k]).Some?;
        var e := Eval(q, media[k]).value;
        assert r.value == if e then before.value + [(Basename(k), k)] else before.value;
        forall i | 0 <= i < |keys| && Eval(q, media[keys[i]]) == Some(true)
          ensures (Basename(keys[i]), keys[i]) in r.value
        {
          if i < |init| {
            assert (Basename(init[i]), init[i]) in before.value;
          }
        }
      }
    }
  }

  /** Once a prefix of the keys raises, so does the whole search. */
  lemma {:induction false} HitsPrefixNone(q: Query, keys: seq<string>, j: int, media: map<string, Media>)
    requires forall i :: 0 <= i < |keys| ==> keys[i] in media
    requires 0 <= j <= |keys| && Hits(q, keys[..j], media).None?
    ensures Hits(q, keys, media).None?
    decreases |keys|
  {
    if j < |keys| {
      var init := keys[..|keys| - 1];
      assert init[..j] == keys[..j];
      HitsPrefixNone(q, init, j, media);
    } else {
      assert keys[..j] == keys;
    }
  }

  // ---------------------------------------------------------------------------
  // scan

  /** A file found under the root: its path and relpath, what `stat` gives for it,
      and the MIME type guessed for it. */
  datatype FoundFile = FoundFile(path: string, relpath: string, stat: Option<StatInfo>, mime: string)

  function RelPaths(files: seq<FoundFile>): set<string>
  {
    set i | 0 <= i < |files| :: files[i].relpath
  }

  /** The last of `files` whose relpath is `rel`. */
  function LastWith(files: seq<FoundFile>, rel: string): (r: FoundFile)
    requires rel in RelPaths(files)
    ensures r.relpath == rel
  {
    var n := |files| - 1;
    if files[n].relpath == rel then files[n]
    else
      assert rel in RelPaths(files[..n]) by {
        var i :| 0 <= i < |files| && files[i].relpath == rel;
        assert files[..n][i] == files[i];
      }
      LastWith(files[..n], rel)
  }

  /** `m` is what `_create_media(f, defaults)` makes of `f`. */
  predicate CreatedFrom(m: Media, f: FoundFile, defaults: map<string, Value>)
    reads m
  {
    m.path == f.path && m.relpath == f.relpath && m.tags == defaults &&
    (f.stat.Some? ==> m.Holds(GetMediaData(f.path, f.relpath, f.stat, f.mime).value))
  }

  // ---------------------------------------------------------------------------
  // update_tags

  /** The loop of `update_tags` over one media: the key of every removed tag is
      deleted, then every added tag is set to its default. */
  method RetagMedia(m: Media, removed: seq<TagInfo>, added: seq<TagInfo>)
    requires DeleteAll(m.tags, removed).Some?
    modifies m`tags
    ensures Some(m.tags) == ApplyDiff(old(m.tags), removed, added)
  {
    DeleteTags(m, removed);
    SetTagDefaults(m, added);
  }

  /** Removes the key of every removed tag from a media's tags, one tag at a time. */
  method DeleteTags(m: Media, removed: seq<TagInfo>)
    requires DeleteAll(m.tags, removed).Some?
    modifies m`tags
    ensures Some(m.tags) == DeleteAll(old(m.tags), removed)
  {
    var j := 0;
    while j < |removed|
      invariant 0 <= j <= |removed|
      invariant DeleteAll(m.tags, removed[j..]) == DeleteAll(old(m.tags), removed)
    {
      assert removed[j..][1..] == removed[j + 1..];
      m.tags := m.tags - {removed[j].name};
      j := j + 1;
    }
    assert removed[j..] == [];
  }

  lemma SetDefaultsStep(t: map<string, Value>, added: seq<TagInfo>, k: int)
    requires 0 <= k < |added|
    ensures SetDefaults(t, added[..k + 1]) == SetDefaults(t, added[..k])[added[k].name := added[k].default]
  {
    assert added[..k + 1][..k] == added[..k];
  }

  /** Gives a media every added tag, set to that tag's default, one tag at a time. */
  method SetTagDefaults(m: Media, added: seq<TagInfo>)
    modifies m`tags
    ensures m.tags == SetDefaults(old(m.tags), added)
  {
    var k := 0;
    while k < |added|
      invariant 0 <= k <= |added|
      invariant m.tags == SetDefaults(old(m.tags), added[..k])
    {
      SetDefaultsStep(old(m.tags), added, k);
      m.tags := m.tags[added[k].name := added[k].default];
      k := k + 1;
    }
    assert added[..k] == added;
  }

  /** The media loop of `update_tags` over the media map `ms`, given the
      `removed` and `added` lists computed from the two schemas. */
  method RetagMap(ms: map<string, Media>, oldTags: seq<TagInfo>, newTags: seq<TagInfo>,
                  removed: seq<TagInfo>, added: seq<TagInfo>)
    requires UniqueNames(oldTags) && UniqueNames(newTags)
    requires Distinct(ms) && HasSchema(ms, oldTags)
    requires removed == RemovedTags(oldTags, newTags) && added == AddedTags(oldTags, newTags)
    modifies ms.Values`tags
    ensures HasSchema(ms, newTags)
    ensures forall k :: k in ms ==> Retag(old(ms[k].tags), oldTags, newTags) == Some(ms[k].tags)
  {
    RemovedNames(oldTags, newTags);
    forall k | k in ms ensures DeleteAll(ms[k].tags, removed).Some? {
      assert Names(removed) <= ms[k].tags.Keys;
    }
    RetagAll(ms, removed, added);
    forall k | k in ms ensures Names(newTags) <= ms[k].tags.Keys {
      RetagHoldsNewSchema(old(ms[k].tags), oldTags, newTags);
    }
  }

  /** The second half of `update_tags`: `RetagMedia` on every media of `ms`. */
  method RetagAll(ms: map<string, Media>, removed: seq<TagInfo>, added: seq<TagInfo>)
    requires Distinct(ms)
    requires forall k :: k in ms ==> DeleteAll(ms[k].tags, removed).Some?
    modifies ms.Values`tags
    ensures forall k :: k in ms ==> ApplyDiff(old(ms[k].tags), removed, added) == Some(ms[k].tags)
  {
    var todo := ms.Keys;
    while todo != {}
      invariant todo <= ms.Keys
      invariant forall k :: k in ms && k !in todo ==> ApplyDiff(old(ms[k].tags), removed, added) == Some(ms[k].tags)
      invariant forall k :: k in todo ==> ms[k].tags == old(ms[k].tags)
      decreases todo
    {
      var k :| k in todo;
      var m := ms[k];
      assert forall k' :: k' in ms && k' != k ==> ms[k'] != m;
      RetagMedia(m, removed, added);
      todo := todo - {k};
    }
  }

  /** The first half of `update_tags`: the `removed` and `added` lists. */
  method TagDiff(oldTags: seq<TagInfo>, newTags: seq<TagInfo>) returns (removed: seq<TagInfo>, added: seq<TagInfo>)
    ensures removed == RemovedTags(oldTags, newTags) && added == AddedTags(oldTags, newTags)
  {
    var retyped;
    retyped, added := ChangedTags(oldTags, newTags);
    var dropped := DroppedTags(oldTags, Names(newTags));
    removed := retyped + dropped;
  }

  /** The loop of `update_tags` over the new tags: a tag whose name is new is
      added; a tag whose type changed is both removed and added. */
  method ChangedTags(oldTags: seq<TagInfo>, newTags: seq<TagInfo>) returns (retyped: seq<TagInfo>, added: seq<TagInfo>)
    ensures retyped == Retyped(oldTags, newTags) && added == AddedTags(oldTags, newTags)
  {
    var types := TypesByName(oldTags);
    retyped, added := [], [];
    var i := 0;
    while i < |newTags|
      invariant 0 <= i <= |newTags|
      invariant retyped == Retyped(oldTags, newTags[..i]) && added == AddedTags(oldTags, newTags[..i])
    {
      DiffStep(oldTags, newTags, i);
      var t := newTags[i];
      if t.name !in types {
        added := added + [t];
      } else if types[t.name] != t.kind {
        retyped := retyped + [t];
        added := added + [t];
      }
      i := i + 1;
    }
    assert newTags[..i] == newTags;
  }

  /** The loop of `update_tags` over the old tags: a tag whose name is gone is removed. */
  method DroppedTags(oldTags: seq<TagInfo>, newNames: set<string>) returns (dropped: seq<TagInfo>)
    ensures dropped == Dropped(oldTags, newNames)
  {
    dropped := [];
    var j := 0;
    while j < |oldTags|
      invariant 0 <= j <= |oldTags|
      invariant dropped == Dropped(oldTags[..j], newNames)
    {
      DroppedStep(oldTags, newNames, j);
      var t := oldTags[j];
      if t.name !in newNames {
        dropped := dropped + [t];
      }
      j := j + 1;
    }
    assert oldTags[..j] == oldTags;
  }

  lemma DiffStep(oldTags: seq<TagInfo>, newTags: seq<TagInfo>, i: int)
    requires 0 <= i < |newTags|
    ensures var t := newTags[i];
      Retyped(oldTags, newTags[..i + 1]) == Retyped(oldTags, newTags[..i]) +
        (if t.name in TypesByName(oldTags) && TypesByName(oldTags)[t.name] != t.kind then [t] else []) &&
      AddedTags(oldTags, newTags[..i + 1]) == AddedTags(oldTags, newTags[..i]) +
        (if IsChanged(t, TypesByName(oldTags)) then [t] else [])
  {
    assert newTags[..i + 1][..i] == newTags[..i];
  }

  lemma DroppedStep(oldTags: seq<TagInfo>, newNames: set<string>, j: int)
    requires 0 <= j < |oldTags|
    ensures Dropped(oldTags[..j + 1], newNames) ==
      Dropped(oldTags[..j], newNames) + (if oldTags[j].name !in newNames then [oldTags[j]] else [])
  {
    assert oldTags[..j + 1][..j] == oldTags[..j];
  }

  class Project {
    var path: string
    var tags: seq<TagInfo>
    var media: map<string, Media>
    var numberOfFiles: int

    /** Tag names are unique, no two keys share a `Media` object, and every
        schema tag is present in every media's tags. */
    ghost predicate Valid()
      reads this, media.Values
    {
      UniqueNames(tags) && Distinct(media) && HasSchema(media, tags)
    }

    /** The tags of every media, by key. */
    function TagsOf(): map<string, map<string, Value>>
      reads this, media.Values
    {
      TagMaps(media)
    }

    /** `Project(path=p)`: the schema is the single tag `completed`, and no media. */
    constructor (p: string)
      ensures path == p && tags == ProjectDefaultTags() && media == map[] && numberOfFiles == 0
      ensures Valid()
    {
      path, tags, media, numberOfFiles := p, ProjectDefaultTags(), map[], 0;
    }

    /** `update_tags(new_tags)`: the schema becomes `newTags`, and every media's
        tags lose the removed names and gain the added ones with their defaults. */
    method UpdateTags(newTags: seq<TagInfo>)
      requires Valid() && UniqueNames(newTags)
      modifies this`tags, media.Values`tags
      ensures Valid()
      ensures tags == newTags
      ensures forall k :: k in media ==> Retag(old(media[k].tags), old(tags), newTags) == Some(media[k].tags)
    {
      var oldTags := tags;
      var removed, added := TagDiff(oldTags, newTags);
      tags := newTags;
      RetagMap(media, oldTags, newTags, removed, added);
    }

    /** `add_tags(extra)`: `update_tags(tags + extra)`. */
    method AddTags(extra: seq<TagInfo>)
      requires Valid() && UniqueNames(tags + extra)
      modifies this`tags, media.Values`tags
      ensures Valid()
      ensures tags == old(tags) + extra
      ensures forall k :: k in media ==> Retag(old(media[k].tags), old(tags), old(tags) + extra) == Some(media[k].tags)
    {
      UpdateTags(tags + extra);
    }

    /** The record loop of `import_csv`, after the CSV sniffer has said whether the
        file has a header and read it. `records` are the rows after the header,
        `relTo` is `os.path.relpath(_, self.path)` and `conv` the `int`/`float`
        conversions. A `Failure` is the IndexError of a short row; otherwise `ok`
        is the returned flag. */
    method ImportCsv(hasHeader: bool, header: seq<string>, records: seq<seq<string>>,
                     relTo: string -> string, conv: Conversions) returns (res: Result<CsvReport>, ok: bool)
      requires Valid()
      modifies media.Values`tags
      ensures Valid()
      ensures !hasHeader ==> res == Success(NoHeader) && !ok && TagsOf() == old(TagsOf())
      ensures hasHeader && "path" !in header ==> res == Success(NoPathColumn) && !ok && TagsOf() == old(TagsOf())
      ensures hasHeader && "path" in header ==>
        var out := ImportRecords(CsvState(old(TagsOf()), 0, 0), records, IndexOf(header, "path"),
                                 Columns(tags, header), relTo, conv);
        TagsOf() == out.0.tagMaps && (res.Success? <==> out.1) &&
        (res.Success? ==> res.value == Read(out.0.count, out.0.total) &&
                          (ok <==> !(out.0.count == 0 && out.0.total > 0)))
    {
      if !hasHeader {
        return Success(NoHeader), false;
      }
      if "path" !in header {
        return Success(NoPathColumn), false;
      }
      var cols := Columns(tags, header);
      var pathIdx := IndexOf(header, "path");
      ghost var before := TagsOf();
      var complete, count, total := ReadRecords(media, records, pathIdx, cols, relTo, conv);
      forall k | k in media ensures Names(tags) <= media[k].tags.Keys {
        assert TagsOf()[k] == media[k].tags && before[k] == old(media[k].tags);
      }
      if !complete {
        return Failure("IndexError"), false;
      }
      res := Success(Read(count, total));
      ok := !(count == 0 && total > 0);
    }

    /** `scan()` over the files found under the root: each file whose relpath is
        not yet a key gets a new media with the default tags (the last such file
        wins for a relpath listed twice); existing media are kept as they are. */
    method Scan(files: seq<FoundFile>)
      requires Valid()
      modifies this
      ensures Valid()
      ensures tags == old(tags) && path == old(path)
      ensures media.Keys == old(media).Keys + RelPaths(files)
      ensures forall k :: k in old(media) ==> media[k] == old(media)[k]
      ensures forall k :: k in media && k !in old(media) ==>
        fresh(media[k]) && CreatedFrom(media[k], LastWith(files, k), DefaultTagMap(tags))
      ensures numberOfFiles == if RelPaths(files) <= old(media).Keys then old(numberOfFiles) else |media|
    {
      var defaults := DefaultTagMap(tags);
      var newMedia := NewMedia(media, files, defaults);
      MergeKeys(media, newMedia, RelPaths(files));
      NothingToAdd(media, newMedia, RelPaths(files));
      ghost var before := media;
      AddMedia(newMedia, defaults);
      forall k | k in media && k !in before
        ensures fresh(media[k]) && CreatedFrom(media[k], LastWith(files, k), defaults)
      {
        assert k in newMedia && media[k] == newMedia[k];
      }
    }

    /** The end of `scan`: when there are new media, the media map becomes a copy
        of itself updated with them, and `number_of_files` its new size. */
    method AddMedia(newMedia: map<string, Media>, defaults: map<string, Value>)
      requires Valid()
      requires forall k :: k in newMedia ==> k !in media && newMedia[k] !in media.Values && newMedia[k].tags == defaults
      requires Names(tags) <= defaults.Keys
      requires Distinct(newMedia)
      modifies this`media, this`numberOfFiles
      ensures Valid()
      ensures tags == old(tags) && path == old(path)
      ensures media == old(media) + newMedia
      ensures unchanged(newMedia.Values)
      ensures numberOfFiles == if |newMedia| > 0 then |media| else old(numberOfFiles)
    {
      // With no new media the copy equals the map, so assigning it either way
      // leaves the same state as the guarded assignment of the source.
      var merged := media + newMedia;
      MergeMedia(media, newMedia, tags, defaults);
      if |newMedia| == 0 {
        assert merged == media;
      }
      var n := if |newMedia| > 0 then |merged| else numberOfFiles;
      media, numberOfFiles := merged, n;
    }

    /** `search(q)`, given what the query parser made of `q` (`None` when it
        raised) and the keys of the media map in the order the dictionary yields
        them. Nothing is yielded for a query that does not parse; a `Failure` is a
        KeyError from the cleanup or an exception from evaluating the query. */
    method Search(parsed: Option<Query>, order: seq<string>, dec: Decoders) returns (r: Result<seq<(string, string)>>)
      requires forall i :: 0 <= i < |order| ==> order[i] in media
      requires forall k :: k in media ==> k in order
      ensures parsed.None? ==> r == Success([])
      ensures parsed.Some? && Cleanup(parsed.value, TagTypes(tags), dec).Failure? ==> r.Failure?
      ensures parsed.Some? && Cleanup(parsed.value, TagTypes(tags), dec).Success? ==>
        var h := Hits(Cleanup(parsed.value, TagTypes(tags), dec).value, order, media);
        (r.Success? <==> h.Some?) && (r.Success? ==> r.value == h.value)
    {
      if parsed.None? {
        return Success([]);
      }
      var c := Cleanup(parsed.value, TagTypes(tags), dec);
      if c.Failure? {
        return Failure(c.error);
      }
      var q := c.value;
      var out: seq<(string, string)> := [];
      var i := 0;
      while i < |order|
        invariant 0 <= i <= |order|
        invariant Hits(q, order[..i], media) == Some(out)
      {
        assert order[..i + 1][..i] == order[..i];
        var key := order[i];
        var e := Eval(q, media[key]);
        if e.None? {
          HitsPrefixNone(q, order, i + 1, media);
          return Failure("exception while evaluating the query");
        }
        if e.value {
          out := out + [(Basename(key), key)];
        }
        i := i + 1;
      }
      assert order[..i] == order;
      return Success(out);
    }
  }

  /** No two keys of `ms` share a `Media` object. */
  predicate Distinct(ms: map<string, Media>)
  {
    forall k, k' :: k in ms && k' in ms && k != k' ==> ms[k] != ms[k']
  }

  /** Every media of `ms` has a value for every tag of the schema `tags`. */
  ghost predicate HasSchema(ms: map<string, Media>, tags: seq<TagInfo>)
    reads ms.Values
  {
    forall k :: k in ms ==> Names(tags) <= ms[k].tags.Keys
  }

  /** Adding the new media of a scan to the media map keeps the map injective and
      every schema tag present. */
  lemma MergeMedia(before: map<string, Media>, newMedia: map<string, Media>, tags: seq<TagInfo>,
                   defaults: map<string, Value>)
    requires forall k :: k in newMedia ==> k !in before && newMedia[k] !in before.Values && newMedia[k].tags == defaults
    requires Names(tags) <= defaults.Keys
    requires Distinct(before) && Distinct(newMedia) && HasSchema(before, tags)
    ensures Distinct(before + newMedia) && HasSchema(before + newMedia, tags)
  {
    var merged := before + newMedia;
    forall k, k' | k in merged && k' in merged && k != k' ensures merged[k] != merged[k'] {
      if k in newMedia && k' !in newMedia {
        assert merged[k'] in before.Values;
      } else if k !in newMedia && k' in newMedia {
        assert merged[k] in before.Values;
      }
    }
  }

  /** Updating `before` with entries for exactly the keys of `found` it lacks
      gives the keys of both and keeps the old entries. */
  lemma MergeKeys<V>(before: map<string, V>, added: map<string, V>, found: set<string>)
    requires added.Keys == found - before.Keys
    ensures (before + added).Keys == before.Keys + found
    ensures forall k :: k in before ==> (before + added)[k] == before[k]
    ensures forall k :: k in before + added && k !in before ==> (before + added)[k] == added[k]
  {
  }

  /** There is something to add exactly when `found` has a key `before` lacks. */
  lemma NothingToAdd<V>(before: map<string, V>, added: map<string, V>, found: set<string>)
    requires added.Keys == found - before.Keys
    ensures |added| > 0 <==> !(found <= before.Keys)
  {
    if |added| > 0 {
      var k :| k in added;
      assert k in found && k !in before;
    } else {
      assert |added.Keys| == 0;
      forall k | k in found ensures k in before.Keys {
        assert k !in added.Keys;
      }
    }
  }

  /** The `_scan` walk, collecting into `new_media` a new media (with the tags
      `defaults`) for every file whose relpath is not a key of `media`. */
  method NewMedia(media: map<string, Media>, files: seq<FoundFile>, defaults: map<string, Value>)
    returns (newMedia: map<string, Media>)
    ensures newMedia.Keys == RelPaths(files) - media.Keys
    ensures media.Keys + newMedia.Keys == media.Keys + RelPaths(files)
    ensures forall k :: k in newMedia ==> k !in media && newMedia[k] !in media.Values
    ensures forall k :: k in newMedia ==> fresh(newMedia[k]) && CreatedFrom(newMedia[k], LastWith(files, k), defaults)
    ensures forall k, k' :: k in newMedia && k' in newMedia && k != k' ==> newMedia[k] != newMedia[k']
  {
    newMedia := map[];
    var i := 0;
    while i < |files|
      invariant 0 <= i <= |files|
      invariant newMedia.Keys == RelPaths(files[..i]) - media.Keys
      invariant forall k :: k in newMedia ==> fresh(newMedia[k]) && CreatedFrom(newMedia[k], LastWith(files[..i], k), defaults)
      invariant forall k, k' :: k in newMedia && k' in newMedia && k != k' ==> newMedia[k] != newMedia[k']
    {
      var f := files[i];
      RelPathsStep(files, i);
      ghost var prev := newMedia;
      if f.relpath !in media {
        var m := CreateMedia(f, defaults);
        newMedia := newMedia[f.relpath := m];
      }
      forall k | k in newMedia
        ensures fresh(newMedia[k]) && CreatedFrom(newMedia[k], LastWith(files[..i + 1], k), defaults)
      {
        LastWithStep(files, i, k);
      }
      i := i + 1;
    }
    assert files[..i] == files;
    assert forall k :: k in newMedia ==> newMedia[k] !in media.Values;
  }

  /** `_create_media(f, defaults)`. */
  method CreateMedia(f: FoundFile, defaults: map<string, Value>) returns (m: Media)
    ensures fresh(m) && CreatedFrom(m, f, defaults)
  {
    m := new Media.FromPath(f.path, f.relpath, f.stat, f.mime);
    ghost var fields := (m.path, m.relpath, m.kind, m.size, m.ctime, m.ctimeStamp, m.mtime, m.mtimeStamp);
    m.tags := defaults;
    assert fields == (m.path, m.relpath, m.kind, m.size, m.ctime, m.ctimeStamp, m.mtime, m.mtimeStamp);
  }

  lemma RelPathsStep(files: seq<FoundFile>, i: int)
    requires 0 <= i < |files|
    ensures RelPaths(files[..i + 1]) == RelPaths(files[..i]) + {files[i].relpath}
  {
    var a, b := files[..i], files[..i + 1];
    assert b == a + [files[i]];
    forall r | r in RelPaths(b) ensures r in RelPaths(a) + {files[i].relpath} {
      var j :| 0 <= j < |b| && b[j].relpath == r;
      if j < i { assert a[j] == b[j]; }
    }
    forall r | r in RelPaths(a) ensures r in RelPaths(b) {
      var j :| 0 <= j < |a| && a[j].relpath == r;
      assert b[j] == a[j];
    }
  }

  lemma LastWithStep(files: seq<FoundFile>, i: int, k: string)
    requires 0 <= i < |files|
    requires k == files[i].relpath || k in RelPaths(files[..i])
    ensures k in RelPaths(files[..i + 1])
    ensures LastWith(files[..i + 1], k) == if k == files[i].relpath then files[i] else LastWith(files[..i], k)
  {
    RelPathsStep(files, i);
    assert files[..i + 1][..i] == files[..i];
  }

  /** The tags of every media of `ms`, by key. */
  function TagMaps(ms: map<string, Media>): map<string, map<string, Value>>
    reads ms.Values
  {
    map k | k in ms :: ms[k].tags
  }

  /** The record loop of `import_csv` over the media map `ms`: `complete` is false
      where a short record raises IndexError. */
  method ReadRecords(ms: map<string, Media>, records: seq<seq<string>>, pathIdx: nat, cols: seq<Column>,
                     relTo: string -> string, conv: Conversions) returns (complete: bool, count: nat, total: nat)
    requires Distinct(ms)
    modifies ms.Values`tags
    ensures var out := ImportRecords(CsvState(old(TagMaps(ms)), 0, 0), records, pathIdx, cols, relTo, conv);
      TagMaps(ms) == out.0.tagMaps && complete == out.1 && count == out.0.count && total == out.0.total
  {
    ghost var goal := ImportRecords(CsvState(TagMaps(ms), 0, 0), records, pathIdx, cols, relTo, conv);
    count, total := 0, 0;
    var i := 0;
    while i < |records|
      invariant 0 <= i <= |records|
      invariant ImportRecords(CsvState(TagMaps(ms), count, total), records[i..], pathIdx, cols, relTo, conv) == goal
    {
      ImportStep(CsvState(TagMaps(ms), count, total), records, i, pathIdx, cols, relTo, conv);
      var ok;
      ok, count, total := ReadRecord(ms, records[i], pathIdx, cols, relTo, conv, count, total);
      if !ok {
        return false, count, total;
      }
      i := i + 1;
    }
    assert records[i..] == [];
    return true, count, total;
  }

  /** One record of the loop of `import_csv`, from the counts `count` and `total`. */
  method ReadRecord(ms: map<string, Media>, record: seq<string>, pathIdx: nat, cols: seq<Column>,
                    relTo: string -> string, conv: Conversions, count: nat, total: nat)
    returns (ok: bool, count': nat, total': nat)
    requires Distinct(ms)
    modifies ms.Values`tags
    ensures var s := RecordStep(CsvState(old(TagMaps(ms)), count, total), record, pathIdx, cols, relTo, conv);
      TagMaps(ms) == s.0.tagMaps && ok == s.1 && count' == s.0.count && total' == s.0.total
  {
    total' := total + 1;
    if pathIdx >= |record| {
      return false, count, total';
    }
    var key := relTo(record[pathIdx]);
    if key !in ms {
      return true, count, total';
    }
    var m := ms[key];
    ok := ApplyRecord(m, cols, record, conv);
    count' := count + 1;
    forall k' | k' in ms ensures TagMaps(ms)[k'] == old(TagMaps(ms))[key := m.tags][k'] {
      if k' != key {
        assert ms[k'] != m;
      }
    }
  }

  method ApplyRecord(m: Media, cols: seq<Column>, record: seq<string>, conv: Conversions) returns (complete: bool)
    modifies m`tags
    ensures (m.tags, complete) == ApplyColumns(old(m.tags), cols, record, conv)
  {
    var j := 0;
    while j < |cols|
      invariant 0 <= j <= |cols|
      invariant ApplyColumns(m.tags, cols[j..], record, conv) == ApplyColumns(old(m.tags), cols, record, conv)
    {
      assert cols[j..][0] == cols[j] && cols[j..][1..] == cols[j + 1..];
      var c := cols[j];
      if c.index >= |record| {
        return false;
      }
      var v := Coerce(c.tag.kind, record[c.index], conv);
      if v.Some? {
        m.tags := m.tags[c.tag.name := v.value];
      }
      j := j + 1;
    }
    assert cols[j..] == [];
    return true;
  }
}
