/** `FilteredView`: the media of a project grouped by the `grid` and
    `camera` tags, with the current grid and camera choosing which group is
    shown. Each trait assignment runs its change handler only when the value
    changes, and an exception in a handler ends that handler while the
    assignment that triggered it stands. */
module FilteredViewModel {
  import opened Wrappers
  import opened Values
  import opened MediaModel

  /** `grid_camera_map`: grid number to camera tag to the media filed there. */
  type GridMap = map<int, map<Value, seq<Media>>>

  /** `tags.get(name)`, with Python's `None` for a missing key. */
  function Get(tags: map<string, Value>, name: string): Value
  {
    if name in tags then tags[name] else VNone
  }

  /** Python's `int(v)`, or `None` where it raises: `TypeError` on `None`,
      `ValueError` on text that is not an integer. */
  function IntOf(v: Value, conv: Conversions): Option<int>
  {
    match v
    case VNone => None
    case VStr(s) => conv.parseInt(s)
    case VInt(i) => Some(i)
    case VFloat(x) => Some(Truncate(x))
    case VBool(b) => Some(if b then 1 else 0)
  }

  /** The `(int(grid), camera)` key `_manager_changed` files a media under. */
  function KeyOf(tags: map<string, Value>, conv: Conversions): Option<(int, Value)>
  {
    var g := IntOf(Get(tags, "grid"), conv);
    if g.None? then None else Some((g.value, Get(tags, "camera")))
  }

  /** The tag maps of `items`, in order. */
  function TagsOf(items: seq<Media>): (r: seq<map<string, Value>>)
    reads items
    ensures |r| == |items| && forall i :: 0 <= i < |items| ==> r[i] == items[i].tags
  {
    if items == [] then [] else TagsOf(items[..|items| - 1]) + [items[|items| - 1].tags]
  }

  /** The keys of all items, or `None` when `int` raises on one of them. */
  function KeysOf(ts: seq<map<string, Value>>, conv: Conversions): (r: Option<seq<(int, Value)>>)
    ensures r.Some? ==> |r.value| == |ts| && forall i :: 0 <= i < |ts| ==> KeyOf(ts[i], conv) == Some(r.value[i])
    ensures r.None? ==> exists i :: 0 <= i < |ts| && KeyOf(ts[i], conv).None?
  {
    if ts == [] then Some([])
    else
      var n := |ts| - 1;
      var p := KeysOf(ts[..n], conv);
      var k := KeyOf(ts[n], conv);
      if p.None? then
        var i :| 0 <= i < n && KeyOf(ts[..n][i], conv).None?;
        assert ts[..n][i] == ts[i];
        None
      else if k.None? then None
      else
        assert forall i :: 0 <= i < n ==> ts[..n][i] == ts[i];
        Some(p.value + [k.value])
  }

  /** The keys of one more tag map extend the keys so far. */
  lemma KeysSnoc(ts: seq<map<string, Value>>, t: map<string, Value>, conv: Conversions)
    ensures KeysOf(ts + [t], conv) ==
      if KeysOf(ts, conv).None? || KeyOf(t, conv).None? then None
      else Some(KeysOf(ts, conv).value + [KeyOf(t, conv).value])
  {
    assert (ts + [t])[..|ts|] == ts;
  }

  /** The nested `defaultdict` after appending item `ms[i]` under key `ks[i]`
      for every `i`, in order. */
  function Group(ks: seq<(int, Value)>, ms: seq<Media>): GridMap
    requires |ks| == |ms|
  {
    if ks == [] then map[]
    else
      var n := |ks| - 1;
      var g := Group(ks[..n], ms[..n]);
      var grid := ks[n].0;
      var camera := ks[n].1;
      var inner := if grid in g then g[grid] else map[];
      var bucket := if camera in inner then inner[camera] else [];
      g[grid := inner[camera := bucket + [ms[n]]]]
  }

  /** The items filed under `key`, in input order. */
  function Bucket(ks: seq<(int, Value)>, ms: seq<Media>, key: (int, Value)): seq<Media>
    requires |ks| == |ms|
  {
    if ks == [] then []
    else
      var n := |ks| - 1;
      Bucket(ks[..n], ms[..n], key) + (if ks[n] == key then [ms[n]] else [])
  }

  /** Filing one more item updates only its own list. */
  lemma GroupSnoc(ks: seq<(int, Value)>, ms: seq<Media>, key: (int, Value), m: Media)
    requires |ks| == |ms|
    ensures var g := Group(ks, ms);
      var inner := if key.0 in g then g[key.0] else map[];
      var bucket := if key.1 in inner then inner[key.1] else [];
      Group(ks + [key], ms + [m]) == g[key.0 := inner[key.1 := bucket + [m]]]
  {
    assert (ks + [key])[..|ks|] == ks && (ms + [m])[..|ms|] == ms;
  }

  /** One more item appends its camera to its grid's key order when new. */
  lemma OrderSnoc(ks: seq<(int, Value)>, key: (int, Value))
    ensures var o := Order(ks);
      var cams := if key.0 in o then o[key.0] else [];
      Order(ks + [key]) == o[key.0 := if key.1 in cams then cams else cams + [key.1]]
  {
    assert (ks + [key])[..|ks|] == ks;
  }

  /** A grid is in the map iff some item is keyed with it. */
  lemma {:induction false} GroupGrid(ks: seq<(int, Value)>, ms: seq<Media>, grid: int)
    requires |ks| == |ms|
    ensures grid in Group(ks, ms) <==> exists k :: k in ks && k.0 == grid
  {
    if ks != [] {
      var n := |ks| - 1;
      GroupGrid(ks[..n], ms[..n], grid);
      assert ks == ks[..n] + [ks[n]];
    }
  }

  /** Under a grid of the map, a camera is present iff some item is keyed with
      that grid and camera. */
  lemma {:induction false} GroupCamera(ks: seq<(int, Value)>, ms: seq<Media>, grid: int, camera: Value)
    requires |ks| == |ms| && grid in Group(ks, ms)
    ensures camera in Group(ks, ms)[grid] <==> (grid, camera) in ks
  {
    var n := |ks| - 1;
    var g := Group(ks[..n], ms[..n]);
    assert ks == ks[..n] + [ks[n]];
    if grid in g {
      GroupCamera(ks[..n], ms[..n], grid, camera);
    } else {
      GroupGrid(ks[..n], ms[..n], grid);
      assert (grid, camera) !in ks[..n];
    }
  }

  /** Each item is appended, in input order, to the list of its key. */
  lemma {:induction false} GroupBucket(ks: seq<(int, Value)>, ms: seq<Media>, grid: int, camera: Value)
    requires |ks| == |ms| && grid in Group(ks, ms) && camera in Group(ks, ms)[grid]
    ensures Group(ks, ms)[grid][camera] == Bucket(ks, ms, (grid, camera))
  {
    var n := |ks| - 1;
    var g := Group(ks[..n], ms[..n]);
    if ks[n] == (grid, camera) {
      if grid in g && camera in g[grid] {
        GroupBucket(ks[..n], ms[..n], grid, camera);
      } else {
        if grid in g {
          GroupCamera(ks[..n], ms[..n], grid, camera);
        } else {
          GroupGrid(ks[..n], ms[..n], grid);
        }
        BucketEmpty(ks[..n], ms[..n], (grid, camera));
      }
    } else {
      assert grid in g && camera in g[grid];
      GroupBucket(ks[..n], ms[..n], grid, camera);
    }
  }

  /** A key that no item has collects nothing. */
  lemma {:induction false} BucketEmpty(ks: seq<(int, Value)>, ms: seq<Media>, key: (int, Value))
    requires |ks| == |ms|
    requires key !in ks
    ensures Bucket(ks, ms, key) == []
  {
    if ks != [] {
      var n := |ks| - 1;
      assert key !in ks[..n] by {
        forall i | 0 <= i < n ensures ks[..n][i] != key { assert ks[..n][i] == ks[i]; }
      }
      BucketEmpty(ks[..n], ms[..n], key);
    }
  }

  predicate Distinct<T(==)>(s: seq<T>)
  {
    forall i, j :: 0 <= i < j < |s| ==> s[i] != s[j]
  }

  /** The key order of each inner dict: cameras in the order they first
      appear under that grid. */
  function Order(ks: seq<(int, Value)>): map<int, seq<Value>>
  {
    if ks == [] then map[]
    else
      var n := |ks| - 1;
      var o := Order(ks[..n]);
      var grid := ks[n].0;
      var camera := ks[n].1;
      var cams := if grid in o then o[grid] else [];
      o[grid := if camera in cams then cams else cams + [camera]]
  }

  /** `o` is a key order of `m`: for each grid of `m` it lists every camera of
      that grid once, and nothing else. */
  ghost predicate KeyOrderOf(m: GridMap, o: map<int, seq<Value>>)
  {
    && o.Keys == m.Keys
    && (forall g :: g in o ==> |o[g]| > 0 && Distinct(o[g]))
    && (forall g, c :: g in o ==> (c in o[g] <==> c in m[g]))
  }

  /** `Order` is the key order of `Group`: `keys()` of each inner dict lists
      every camera of the grid once. */
  lemma {:induction false} OrderMatchesGroup(ks: seq<(int, Value)>, ms: seq<Media>)
    requires |ks| == |ms|
    ensures KeyOrderOf(Group(ks, ms), Order(ks))
  {
    if ks != [] {
      var n := |ks| - 1;
      OrderMatchesGroup(ks[..n], ms[..n]);
    }
  }

  /** A non-empty set of integers has a least element. */
  lemma {:induction false} MinExists(s: set<int>)
    requires s != {}
    ensures exists m :: m in s && forall x :: x in s ==> m <= x
    decreases s
  {
    assert exists y :: y in s by {
      if forall y :: y !in s { assert false; }
    }
    var y :| y in s;
    if s != {y} {
      MinExists(s - {y});
      var m :| m in s - {y} && forall x :: x in s - {y} ==> m <= x;
      var least := if y < m then y else m;
      forall x | x in s ensures least <= x {
        if x != y { assert x in s - {y}; }
      }
      assert least in s;
    } else {
      assert forall x :: x in s ==> y <= x;
    }
  }

  predicate StrictlySorted(s: seq<int>)
  {
    forall i, j :: 0 <= i < j < |s| ==> s[i] < s[j]
  }

  /** `sorted(s)`: the elements of `s` in increasing order. */
  method SortedList(s: set<int>) returns (r: seq<int>)
    ensures StrictlySorted(r) && forall x :: x in r <==> x in s
  {
    r := [];
    var rest := s;
    while rest != {}
      invariant StrictlySorted(r)
      invariant forall x :: x in r <==> x in s && x !in rest
      invariant rest <= s
      invariant forall x, y :: x in r && y in rest ==> x < y
      decreases rest
    {
      MinExists(rest);
      var m :| m in rest && forall x :: x in rest ==> m <= x;
      assert forall i :: 0 <= i < |r| ==> r[i] < m by {
        forall i | 0 <= i < |r| ensures r[i] < m { assert r[i] in r; }
      }
      r := r + [m];
      rest := rest - {m};
    }
  }

  class FilteredView {
    var grid: int
    var camera: string
    var media: seq<Media>
    var gridCameraMap: GridMap
    /** The key order of each inner dict of `grid_camera_map`. */
    var cameraOrder: map<int, seq<Value>>
    var availableCameras: seq<Value>
    var availableGrids: seq<int>

    /** `FilteredView()`: grid 1, the empty camera and no media. */
    constructor ()
      ensures grid == 1 && camera == "" && media == []
      ensures gridCameraMap == map[] && cameraOrder == map[]
      ensures availableCameras == [] && availableGrids == []
      ensures Valid()
    {
      grid, camera, media := 1, "", [];
      gridCameraMap, cameraOrder := map[], map[];
      availableCameras, availableGrids := [], [];
    }

    /** Every grid of the map lists its cameras, none twice. */
    ghost predicate Valid()
      reads this
    {
      && KeyOrderOf(gridCameraMap, cameraOrder)
      && StrictlySorted(availableGrids)
      && (forall x :: x in availableGrids <==> x in gridCameraMap)
    }

    /** The fields only `_manager_changed` assigns. */
    function Catalogue(): (GridMap, map<int, seq<Value>>, seq<int>)
      reads this
    {
      (gridCameraMap, cameraOrder, availableGrids)
    }

    /** The list `_camera_changed` assigns for camera `name` under the current
        grid, or `fallback` where the lookup fails (the grid is missing, or the
        camera is, and `List(Media)` refuses `None`). */
    function CameraMedia(name: string, fallback: seq<Media>): seq<Media>
      reads this
    {
      if grid in gridCameraMap && VStr(name) in gridCameraMap[grid]
      then gridCameraMap[grid][VStr(name)] else fallback
    }

    /** `_camera_changed`. */
    method CameraChanged()
      modifies this
      ensures media == CameraMedia(camera, old(media))
      ensures grid == old(grid) && camera == old(camera) && availableCameras == old(availableCameras)
      ensures Catalogue() == old(Catalogue())
    {
      if grid in gridCameraMap && VStr(camera) in gridCameraMap[grid] {
        media := gridCameraMap[grid][VStr(camera)];
      }
    }

    /** Assigning `v` to the `camera` trait: `Str` refuses anything but text,
        and the handler runs when the name changes. */
    method SetCamera(v: Value) returns (ok: bool)
      modifies this
      ensures ok <==> v.VStr?
      ensures !ok ==> unchanged(this)
      ensures ok ==> camera == v.s && media == if v.s != old(camera) then CameraMedia(v.s, old(media)) else old(media)
      ensures grid == old(grid) && availableCameras == old(availableCameras)
      ensures Catalogue() == old(Catalogue())
    {
      if !v.VStr? {
        return false;
      }
      if v.s != camera {
        camera := v.s;
        CameraChanged();
      }
      return true;
    }

    /** What `_available_cameras_changed` leaves when the list is `l`, the handler
        ran iff `fired`, and the camera and media were `cam` and `ms`: the camera
        goes to the first of `l` if it is not in `l`. */
    ghost predicate CameraReset(l: seq<Value>, fired: bool, cam: string, ms: seq<Media>)
      reads this
    {
      var reset := fired && VStr(cam) !in l && |l| > 0 && l[0].VStr?;
      && camera == (if reset then l[0].s else cam)
      && media == (if reset then CameraMedia(l[0].s, ms) else ms)
    }

    /** `_available_cameras_changed`. */
    method AvailableCamerasChanged()
      modifies this
      ensures CameraReset(availableCameras, true, old(camera), old(media))
      ensures grid == old(grid) && availableCameras == old(availableCameras)
      ensures Catalogue() == old(Catalogue())
    {
      if VStr(camera) !in availableCameras {
        if |availableCameras| == 0 {
          return;
        }
        var ok := SetCamera(availableCameras[0]);
      }
    }

    /** Assigning `l` to the `available_cameras` trait. */
    method SetAvailableCameras(l: seq<Value>)
      modifies this
      ensures availableCameras == l
      ensures CameraReset(l, l != old(availableCameras), old(camera), old(media))
      ensures grid == old(grid) && Catalogue() == old(Catalogue())
    {
      if l != availableCameras {
        availableCameras := l;
        AvailableCamerasChanged();
      }
    }

    /** `_grid_changed`: the grid's camera keys become the available cameras;
        a grid missing from the map raises `KeyError` and changes nothing. */
    method GridChanged()
      requires Valid()
      modifies this
      ensures grid == old(grid) && Catalogue() == old(Catalogue()) && Valid()
      ensures old(grid) !in gridCameraMap ==> unchanged(this)
      ensures old(grid) in gridCameraMap ==>
        var l := cameraOrder[grid];
        availableCameras == l && CameraReset(l, l != old(availableCameras), old(camera), old(media))
    {
      if grid !in gridCameraMap {
        return;
      }
      SetAvailableCameras(cameraOrder[grid]);
    }

    /** Assigning `g` to the `grid` trait. */
    method SetGrid(g: int)
      requires Valid()
      modifies this
      ensures grid == g && Catalogue() == old(Catalogue()) && Valid()
      ensures g == old(grid) || g !in gridCameraMap ==>
        camera == old(camera) && media == old(media) && availableCameras == old(availableCameras)
      ensures g != old(grid) && g in gridCameraMap ==>
        var l := cameraOrder[g];
        availableCameras == l && CameraReset(l, l != old(availableCameras), old(camera), old(media))
    {
      if g != grid {
        grid := g;
        GridChanged();
      }
    }

    /** The end of `_manager_changed`: a grid that is not in the new map moves
        to the first grid, and the camera to that grid's first camera. With no
        grid at all, `available_grids[0]` raises `IndexError` and nothing moves. */
    method Regrid()
      requires Valid()
      modifies this
      ensures Catalogue() == old(Catalogue()) && Valid()
      ensures old(grid) in gridCameraMap || availableGrids == [] ==> unchanged(this)
      ensures old(grid) !in gridCameraMap && availableGrids != [] ==>
        && grid == availableGrids[0] && availableCameras == cameraOrder[grid]
        && |availableCameras| > 0
        && var c0 := availableCameras[0];
           && camera == (if c0.VStr? then c0.s else old(camera))
           && media == (if c0.VStr? && c0.s != old(camera) then gridCameraMap[grid][c0] else old(media))
    {
      if grid in gridCameraMap {
        return;
      }
      if |availableGrids| == 0 {
        return;
      }
      assert availableGrids[0] in availableGrids;
      SetGrid(availableGrids[0]);
      if |availableCameras| == 0 {
        return;
      }
      var accepted := SetCamera(availableCameras[0]);
    }

    /** `_manager_changed` for a manager holding `items`: on success the map,
        its key order and the sorted grids are replaced, then `Regrid` runs.
        When `int` raises on a grid tag nothing changes. */
    method ManagerChanged(items: seq<Media>, conv: Conversions)
      modifies this
      ensures old(KeysOf(TagsOf(items), conv)).None? ==> unchanged(this)
      ensures old(KeysOf(TagsOf(items), conv)).Some? ==>
        var ks := old(KeysOf(TagsOf(items), conv)).value;
        && gridCameraMap == Group(ks, items) && cameraOrder == Order(ks)
        && (items == [] <==> availableGrids == [])
        && Valid()
      ensures old(KeysOf(TagsOf(items), conv)).Some? && (old(grid) in gridCameraMap || items == []) ==>
        grid == old(grid) && camera == old(camera) && media == old(media) &&
        availableCameras == old(availableCameras)
      ensures old(KeysOf(TagsOf(items), conv)).Some? && old(grid) !in gridCameraMap && items != [] ==>
        && grid == availableGrids[0] && availableCameras == cameraOrder[grid]
        && |availableCameras| > 0
        && var c0 := availableCameras[0];
           && camera == (if c0.VStr? then c0.s else old(camera))
           && media == (if c0.VStr? && c0.s != old(camera) then gridCameraMap[grid][c0] else old(media))
    {
      var ok, grids, order := GroupItems(items, conv);
      if !ok {
        return;
      }
      ghost var ks := old(KeysOf(TagsOf(items), conv)).value;
      var sortedGrids := SortedList(grids.Keys);
      OrderMatchesGroup(ks, items);
      if items != [] {
        GroupGrid(ks, items, ks[0].0);
        assert ks[0] in ks;
        assert ks[0].0 in sortedGrids;
      }
      gridCameraMap, cameraOrder, availableGrids := grids, order, sortedGrids;
      Regrid();
    }
  }

  /** The loop of `_manager_changed`: the nested `defaultdict` of the items and
      each inner dict's key order, or `ok == false` when `int` raises on a grid
      tag. */
  method GroupItems(items: seq<Media>, conv: Conversions) returns (ok: bool, grids: GridMap, order: map<int, seq<Value>>)
    ensures ok <==> KeysOf(TagsOf(items), conv).Some?
    ensures ok ==> var ks := KeysOf(TagsOf(items), conv).value;
      grids == Group(ks, items) && order == Order(ks)
  {
    grids, order := map[], map[];
    ghost var ts := TagsOf(items);
    ghost var ks: seq<(int, Value)> := [];
    var k := 0;
    while k < |items|
      invariant 0 <= k <= |items|
      invariant KeysOf(ts[..k], conv) == Some(ks)
      invariant |ks| == k
      invariant grids == Group(ks, items[..k]) && order == Order(ks)
    {
      var tags := items[k].tags;
      TakeOneMore(ts, k);
      TakeOneMore(items, k);
      var g := IntOf(Get(tags, "grid"), conv);
      KeysSnoc(ts[..k], tags, conv);
      if g.None? {
        KeysPrefixFails(ts, k + 1, conv);
        return false, grids, order;
      }
      var c := Get(tags, "camera");
      var inner := if g.value in grids then grids[g.value] else map[];
      var bucket := if c in inner then inner[c] else [];
      grids := grids[g.value := inner[c := bucket + [items[k]]]];
      var cams := if g.value in order then order[g.value] else [];
      order := order[g.value := if c in cams then cams else cams + [c]];
      GroupSnoc(ks, items[..k], (g.value, c), items[k]);
      OrderSnoc(ks, (g.value, c));
      ks := ks + [(g.value, c)];
      k := k + 1;
    }
    assert items[..k] == items && ts[..k] == ts;
    return true, grids, order;
  }

  /** A prefix one element longer. */
  lemma TakeOneMore<T>(s: seq<T>, k: nat)
    requires k < |s|
    ensures s[..k + 1] == s[..k] + [s[k]]
  {
  }

  /** Once the keys of a prefix fail, so do the keys of the whole list. */
  lemma {:induction false} KeysPrefixFails(ts: seq<map<string, Value>>, k: nat, conv: Conversions)
    requires k <= |ts| && KeysOf(ts[..k], conv).None?
    ensures KeysOf(ts, conv).None?
  {
    var i :| 0 <= i < k && KeyOf(ts[..k][i], conv).None?;
    assert ts[..k][i] == ts[i];
  }
}
