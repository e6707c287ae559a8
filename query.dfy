/** The query evaluator of vixen/project.py: the parsed query tree, the
    normalisation `_cleanup_query` applies to its literals, the leaf checks and
    the recursive `_search_media`. Comparisons follow Python 2, where values of
    different kinds are ordered instead of raising. */
module Query {
  import opened Wrappers
  import opened PyStr
  import opened Values
  import opened Schema
  import opened MediaModel

  /** The nodes of a parsed whoosh query that the evaluator distinguishes.
      Range texts are already values; `Other` is any other node, with its children. */
  datatype Query =
    | Term(field: string, text: Value)
    | Phrase(field: string, words: seq<string>)
    | NumericRange(field: string, start: Option<Value>, end: Option<Value>, startExcl: bool, endExcl: bool)
    | DateRange(field: string, startDate: Option<int>, endDate: Option<int>, startExcl: bool, endExcl: bool)
    | And(children: seq<Query>)
    | Or(children: seq<Query>)
    | Not(child: Query)
    | Other(children: seq<Query>)

  // ---------------------------------------------------------------------------
  // Python 2 ordering of values

  /** Python 2 orders `None` below numbers and numbers below strings. */
  function Rank(v: Value): (r: int)
    ensures 0 <= r <= 2
    ensures r == 1 <==> AsNumber(v).Some?
  {
    match v
    case VNone => 0
    case VStr(_) => 2
    case _ => 1
  }

  /** Lexicographic order of strings by character code. */
  predicate StrLess(a: string, b: string)
    decreases |a|
  {
    if a == [] then b != []
    else if b == [] then false
    else if a[0] != b[0] then a[0] < b[0]
    else StrLess(a[1..], b[1..])
  }

  lemma {:induction false} StrLessTrichotomy(a: string, b: string)
    ensures StrLess(a, b) || a == b || StrLess(b, a)
    ensures !(StrLess(a, b) && StrLess(b, a)) && !StrLess(a, a)
    decreases |a|
  {
    if a != [] && b != [] && a[0] == b[0] {
      StrLessTrichotomy(a[1..], b[1..]);
      if a[1..] == b[1..] {
        assert a == [a[0]] + a[1..] && b == [b[0]] + b[1..];
      }
    }
    if a != [] {
      StrLessTrichotomy(a[1..], a[1..]);
    }
  }

  lemma {:induction false} StrLessTransitive(a: string, b: string, c: string)
    requires StrLess(a, b) && StrLess(b, c)
    ensures StrLess(a, c)
    decreases |a|
  {
    if a != [] && a[0] == b[0] && b[0] == c[0] {
      StrLessTransitive(a[1..], b[1..], c[1..]);
    }
  }

  /** Python 2's `a < b` on these values. */
  predicate PyLess(a: Value, b: Value)
  {
    if Rank(a) != Rank(b) then Rank(a) < Rank(b)
    else if Rank(a) == 1 then AsNumber(a).value < AsNumber(b).value
    else if Rank(a) == 2 then StrLess(a.s, b.s)
    else false
  }

  /** Python 2's `a <= b`. */
  predicate PyLessEq(a: Value, b: Value)
  {
    PyLess(a, b) || PyEq(a, b)
  }

  /** Python 2's comparison is a total order, with `==` as its equivalence:
      exactly one of `a < b`, `a == b`, `b < a` holds, and `<` is transitive. */
  lemma {:induction false} PyOrderIsTotal(a: Value, b: Value, c: Value)
    ensures PyLess(a, b) || PyEq(a, b) || PyLess(b, a)
    ensures !(PyLess(a, b) && PyEq(a, b)) && !(PyLess(a, b) && PyLess(b, a))
    ensures PyLess(a, b) && PyLess(b, c) ==> PyLess(a, c)
  {
    if a.VStr? && b.VStr? {
      StrLessTrichotomy(a.s, b.s);
    }
    if a.VStr? && b.VStr? && c.VStr? && PyLess(a, b) && PyLess(b, c) {
      StrLessTransitive(a.s, b.s, c.s);
    }
  }

  // ---------------------------------------------------------------------------
  // Leaf checks

  /** `_check_value(value, expr)`: a string matches as a substring of the lower-cased
      value, anything else by equality. `None` where `value.lower()` raises
      (a string expression against a value that is not a string). */
  function CheckValue(value: Value, expr: Value): (r: Option<bool>)
    ensures expr.VStr? && value.VStr? ==>
      r.Some? && (r.value <==> IsSubstring(expr.s, Lower(value.s)))
    ensures expr.VStr? && !value.VStr? ==> r.None?
    ensures !expr.VStr? ==> r.Some? && (r.value <==> PyEq(expr, value))
  {
    if expr.VStr? then
      if value.VStr? then
        var hay := Lower(value.s);
        ContainsIffOccurs(hay, expr.s);
        Some(Contains(hay, expr.s))
      else None
    else Some(PyEq(expr, value))
  }

  /** The value is above a lower bound (`x > start` or `x >= start`); a missing bound holds. */
  predicate AboveStart(x: Value, start: Option<Value>, excl: bool)
  {
    start.None? || (if excl then PyLess(start.value, x) else PyLessEq(start.value, x))
  }

  /** The value is below an upper bound (`x < end` or `x <= end`); a missing bound holds. */
  predicate BelowEnd(x: Value, end: Option<Value>, excl: bool)
  {
    end.None? || (if excl then PyLess(x, end.value) else PyLessEq(x, end.value))
  }

  /** `_check_range(x, term)`. */
  function CheckRange(x: Value, start: Option<Value>, end: Option<Value>, startExcl: bool, endExcl: bool): (r: bool)
    ensures r <==> AboveStart(x, start, startExcl) && BelowEnd(x, end, endExcl)
  {
    var result := if start.None? then true
      else if startExcl then PyLess(start.value, x) else PyLessEq(start.value, x);
    if end.Some? && result then
      if endExcl then PyLess(x, end.value) else PyLessEq(x, end.value)
    else result
  }

  /** An exclusive range selects a subset of the inclusive one, and a range
      without bounds selects everything. */
  lemma RangeExclusiveWithinInclusive(x: Value, start: Option<Value>, end: Option<Value>, a: bool, b: bool)
    ensures CheckRange(x, start, end, true, true) ==> CheckRange(x, start, end, a, b)
    ensures CheckRange(x, start, end, a, b) ==> CheckRange(x, start, end, false, false)
    ensures CheckRange(x, None, None, a, b)
  {
  }

  /** vixen/tests/test_project.py: over the values 0, 1 and 2, `{0 TO 2}` selects
      only 1, `{0 TO 2]` selects 1 and 2, `>=1` rejects 0 and `<1` accepts 0. */
  lemma {:induction false} RangeExamples()
    ensures !CheckRange(VInt(0), Some(VInt(0)), Some(VInt(2)), true, true)
    ensures CheckRange(VInt(1), Some(VInt(0)), Some(VInt(2)), true, true)
    ensures !CheckRange(VInt(2), Some(VInt(0)), Some(VInt(2)), true, true)
    ensures CheckRange(VInt(2), Some(VInt(0)), Some(VInt(2)), true, false)
    ensures !CheckRange(VInt(0), Some(VInt(1)), None, false, false)
    ensures CheckRange(VInt(0), None, Some(VInt(1)), false, true)
    ensures CheckRange(VFloat(50.5), Some(VInt(50)), None, true, false)
  {
  }

  /** `_check_date_range(x, term)`: inclusive at both ends. */
  function CheckDateRange(x: int, startDate: Option<int>, endDate: Option<int>): (r: bool)
    ensures r <==> (startDate.None? || startDate.value <= x) && (endDate.None? || x <= endDate.value)
  {
    var result := startDate.None? || x >= startDate.value;
    if endDate.Some? && result then x <= endDate.value else result
  }

  // ---------------------------------------------------------------------------
  // Fields of a media entry

  /** `COMMON_TAGS`: the attributes every media entry has, with their tag types. */
  const CommonTagTypes: map<string, TagType> := map[
    "type" := StringTag, "file_name" := StringTag, "path" := StringTag,
    "ctime" := StringTag, "mtime" := StringTag, "size" := IntTag]

  /** `_get_tag(media, attr)`: a common attribute is read from the media itself,
      any other name from its tags, `None` when absent. */
  function GetTag(m: Media, attr: string): (r: Value)
    reads m
    ensures attr in CommonTagTypes ==> HasType(r, CommonTagTypes[attr])
    ensures attr !in CommonTagTypes && attr in m.tags ==> r == m.tags[attr]
    ensures attr !in CommonTagTypes && attr !in m.tags ==> r == VNone
    ensures attr == "file_name" ==> r == VStr(m.FileName())
  {
    if attr == "type" then VStr(m.kind)
    else if attr == "file_name" then VStr(m.FileName())
    else if attr == "path" then VStr(m.path)
    else if attr == "ctime" then VStr(m.ctime)
    else if attr == "mtime" then VStr(m.mtime)
    else if attr == "size" then VInt(m.size)
    else if attr in m.tags then m.tags[attr]
    else VNone
  }

  /** A tag named like a common attribute is never consulted: the attribute wins. */
  lemma CommonAttributeShadowsTag(m: Media, attr: string)
    requires attr in CommonTagTypes && attr in m.tags && !HasType(m.tags[attr], CommonTagTypes[attr])
    ensures GetTag(m, attr) != m.tags[attr]
  {
  }

  /** `_get_tag_types`: `COMMON_TAGS` overridden by the schema. */
  function TagTypes(tags: seq<TagInfo>): (r: map<string, TagType>)
    ensures r.Keys == CommonTagTypes.Keys + Names(tags)
    ensures forall k :: k in CommonTagTypes && k !in Names(tags) ==> r[k] == CommonTagTypes[k]
    ensures UniqueNames(tags) ==> forall i :: 0 <= i < |tags| ==> r[tags[i].name] == tags[i].kind
  {
    var own := TypesByName(tags);
    assert UniqueNames(tags) ==> forall i :: 0 <= i < |tags| ==> own[tags[i].name] == tags[i].kind by {
      if UniqueNames(tags) {
        forall i | 0 <= i < |tags| ensures own[tags[i].name] == tags[i].kind {
          TypesByNameUnique(tags, i);
        }
      }
    }
    CommonTagTypes + own
  }

  // ---------------------------------------------------------------------------
  // _search_media

  /** `_search_media(expr, media)`; `None` where an exception escapes. */
  function Eval(q: Query, m: Media): (r: Option<bool>)
    reads m
    decreases q, 1
  {
    match q
    case Term(f, t) => CheckValue(GetTag(m, f), t)
    case Phrase(f, ws) => CheckValue(GetTag(m, f), VStr(JoinWith(" ", ws)))
    case DateRange(f, sd, ed, _, _) =>
      Some(CheckDateRange(if f == "ctime" then m.ctimeStamp else m.mtimeStamp, sd, ed))
    case NumericRange(f, s, e, se, ee) => Some(CheckRange(GetTag(m, f), s, e, se, ee))
    case And(cs) => EvalAnd(q, 0, m)
    case Or(cs) => EvalOr(q, 0, m)
    case Not(c) => if Eval(c, m).Some? then Some(!Eval(c, m).value) else None
    case Other(_) => Some(false)
  }

  /** The loop of the `And` case from child `i` on: the first child that is not
      true ends it. */
  function EvalAnd(q: Query, i: nat, m: Media): Option<bool>
    requires q.And? && i <= |q.children|
    reads m
    decreases q, 0, |q.children| - i
  {
    if i == |q.children| then Some(true)
    else
      var c := Eval(q.children[i], m);
      if c == Some(true) then EvalAnd(q, i + 1, m) else c
  }

  /** The loop of the `Or` case from child `i` on: the first child that is not
      false ends it. */
  function EvalOr(q: Query, i: nat, m: Media): Option<bool>
    requires q.Or? && i <= |q.children|
    reads m
    decreases q, 0, |q.children| - i
  {
    if i == |q.children| then Some(false)
    else
      var c := Eval(q.children[i], m);
      if c == Some(false) then EvalOr(q, i + 1, m) else c
  }

  lemma {:induction false} EvalAndFrom(q: Query, i: nat, m: Media)
    requires q.And? && i <= |q.children|
    ensures EvalAnd(q, i, m) == Some(true) <==> forall j :: i <= j < |q.children| ==> Eval(q.children[j], m) == Some(true)
    ensures forall k ::
      (i <= k < |q.children| && Eval(q.children[k], m) != Some(true) &&
       (forall j :: i <= j < k ==> Eval(q.children[j], m) == Some(true))) ==> EvalAnd(q, i, m) == Eval(q.children[k], m)
    decreases |q.children| - i
  {
    if i < |q.children| {
      EvalAndFrom(q, i + 1, m);
    }
  }

  lemma {:induction false} EvalOrFrom(q: Query, i: nat, m: Media)
    requires q.Or? && i <= |q.children|
    ensures EvalOr(q, i, m) == Some(false) <==> forall j :: i <= j < |q.children| ==> Eval(q.children[j], m) == Some(false)
    ensures forall k ::
      (i <= k < |q.children| && Eval(q.children[k], m) != Some(false) &&
       (forall j :: i <= j < k ==> Eval(q.children[j], m) == Some(false))) ==> EvalOr(q, i, m) == Eval(q.children[k], m)
    decreases |q.children| - i
  {
    if i < |q.children| {
      EvalOrFrom(q, i + 1, m);
    }
  }

  /** `And` is true exactly when every child is true (so the empty `And` is true);
      otherwise the first child that is not true gives the outcome, so a false
      child hides an exception in a later one. */
  lemma EvalAndIsConjunction(cs: seq<Query>, m: Media)
    ensures Eval(And(cs), m) == Some(true) <==> forall j :: 0 <= j < |cs| ==> Eval(cs[j], m) == Some(true)
    ensures forall k ::
      (0 <= k < |cs| && Eval(cs[k], m) != Some(true) &&
       (forall j :: 0 <= j < k ==> Eval(cs[j], m) == Some(true))) ==> Eval(And(cs), m) == Eval(cs[k], m)
  {
    EvalAndFrom(And(cs), 0, m);
  }

  /** `Or` is false exactly when every child is false (so the empty `Or` is false);
      otherwise the first child that is not false gives the outcome. */
  lemma EvalOrIsDisjunction(cs: seq<Query>, m: Media)
    ensures Eval(Or(cs), m) == Some(false) <==> forall j :: 0 <= j < |cs| ==> Eval(cs[j], m) == Some(false)
    ensures forall k ::
      (0 <= k < |cs| && Eval(cs[k], m) != Some(false) &&
       (forall j :: 0 <= j < k ==> Eval(cs[j], m) == Some(false))) ==> Eval(Or(cs), m) == Eval(cs[k], m)
  {
    EvalOrFrom(Or(cs), 0, m);
  }

  /** When no child raises, `And` is plain conjunction. */
  lemma {:induction false} EvalAndWithoutErrors(cs: seq<Query>, m: Media)
    requires forall j :: 0 <= j < |cs| ==> Eval(cs[j], m).Some?
    ensures Eval(And(cs), m) == Some(forall j :: 0 <= j < |cs| ==> Eval(cs[j], m) == Some(true))
  {
    EvalAndIsConjunction(cs, m);
    if !(forall j :: 0 <= j < |cs| ==> Eval(cs[j], m) == Some(true)) {
      var k := FirstOther(cs, m, true);
      var r := Eval(cs[k], m);
      assert r.Some? && r != Some(true);
      assert !r.value;
      assert Eval(And(cs), m) == r;
    }
  }

  /** When no child raises, `Or` is plain disjunction. */
  lemma {:induction false} EvalOrWithoutErrors(cs: seq<Query>, m: Media)
    requires forall j :: 0 <= j < |cs| ==> Eval(cs[j], m).Some?
    ensures Eval(Or(cs), m) == Some(exists j :: 0 <= j < |cs| && Eval(cs[j], m) == Some(true))
  {
    EvalOrIsDisjunction(cs, m);
    if exists j :: 0 <= j < |cs| && Eval(cs[j], m) == Some(true) {
      var k := FirstOther(cs, m, false);
      var r := Eval(cs[k], m);
      assert r.Some? && r != Some(false);
      assert r.value;
      assert Eval(Or(cs), m) == r;
    } else {
      forall j | 0 <= j < |cs| ensures Eval(cs[j], m) == Some(false) {
        assert Eval(cs[j], m).Some? && Eval(cs[j], m) != Some(true);
        assert !Eval(cs[j], m).value;
      }
    }
  }

  /** The first child whose outcome is not `Some(b)`, when there is one. */
  lemma {:induction false} FirstOther(cs: seq<Query>, m: Media, b: bool) returns (k: int)
    requires exists j :: 0 <= j < |cs| && Eval(cs[j], m) != Some(b)
    ensures 0 <= k < |cs| && Eval(cs[k], m) != Some(b)
    ensures forall j :: 0 <= j < k ==> Eval(cs[j], m) == Some(b)
  {
    k := 0;
    while Eval(cs[k], m) == Some(b)
      invariant 0 <= k < |cs|
      invariant forall j :: 0 <= j < k ==> Eval(cs[j], m) == Some(b)
      invariant exists j :: k <= j < |cs| && Eval(cs[j], m) != Some(b)
      decreases |cs| - k
    {
      k := k + 1;
    }
  }

  /** `Not` negates its child and passes an exception on; unsupported nodes never match. */
  lemma EvalNotAndOther(c: Query, cs: seq<Query>, m: Media)
    ensures Eval(Not(c), m) == (if Eval(c, m).Some? then Some(!Eval(c, m).value) else None)
    ensures Eval(Not(Not(c)), m) == Eval(c, m)
    ensures Eval(Other(cs), m) == Some(false)
  {
  }

  /** A date range ignores its exclusivity flags and reads `_ctime` for the field
      `ctime` and `_mtime` for any other field. */
  lemma EvalDateRange(f: string, sd: Option<int>, ed: Option<int>, a: bool, b: bool, m: Media)
    ensures Eval(DateRange(f, sd, ed, a, b), m) == Eval(DateRange(f, sd, ed, false, false), m)
    ensures Eval(DateRange(f, sd, ed, a, b), m) ==
      Some((sd.None? || sd.value <= (if f == "ctime" then m.ctimeStamp else m.mtimeStamp)) &&
           (ed.None? || (if f == "ctime" then m.ctimeStamp else m.mtimeStamp) <= ed.value))
  {
  }

  // ---------------------------------------------------------------------------
  // _cleanup_query

  /** `INT.from_bytes` and `FLOAT.from_bytes`, which this model does not define. */
  datatype Decoders = Decoders(decodeInt: string -> int, decodeFloat: string -> real)

  function LowerAll(ws: seq<string>): (r: seq<string>)
    ensures |r| == |ws| && forall i :: 0 <= i < |ws| ==> r[i] == Lower(ws[i])
  {
    if ws == [] then [] else [Lower(ws[0])] + LowerAll(ws[1..])
  }

  /** `_cleanup_query(q, tag_types)` on a query value: the string text of a `Term`
      is decoded for an int or float field and lower-cased otherwise, and phrase
      words are lower-cased. A `Term` whose field has no type is a KeyError. */
  function Cleanup(q: Query, types: map<string, TagType>, dec: Decoders): (r: Result<Query>)
    decreases q, 1
  {
    match q
    case Term(f, VStr(t)) =>
      if f !in types then Failure("KeyError: " + f)
      else if types[f] == IntTag then Success(Term(f, VInt(dec.decodeInt(t))))
      else if types[f] == FloatTag then Success(Term(f, VFloat(dec.decodeFloat(t))))
      else Success(Term(f, VStr(Lower(t))))
    case Phrase(f, ws) => Success(Phrase(f, LowerAll(ws)))
    case And(cs) =>
      var r := CleanupAll(q, 0, types, dec);
      if r.Success? then Success(And(r.value)) else Failure(r.error)
    case Or(cs) =>
      var r := CleanupAll(q, 0, types, dec);
      if r.Success? then Success(Or(r.value)) else Failure(r.error)
    case Other(cs) =>
      var r := CleanupAll(q, 0, types, dec);
      if r.Success? then Success(Other(r.value)) else Failure(r.error)
    case Not(c) =>
      var r := Cleanup(c, types, dec);
      if r.Success? then Success(Not(r.value)) else Failure(r.error)
    case _ => Success(q)
  }

  /** The children of `q` from `i` on, cleaned. */
  function CleanupAll(q: Query, i: nat, types: map<string, TagType>, dec: Decoders): (r: Result<seq<Query>>)
    requires (q.And? || q.Or? || q.Other?) && i <= |q.children|
    ensures r.Success? ==> |r.value| == |q.children| - i
    ensures r.Success? ==> forall j :: i <= j < |q.children| ==> Cleanup(q.children[j], types, dec) == Success(r.value[j - i])
    ensures r.Failure? ==> exists j :: i <= j < |q.children| && Cleanup(q.children[j], types, dec).Failure?
    decreases q, 0, |q.children| - i
  {
    if i == |q.children| then Success([])
    else
      var c := Cleanup(q.children[i], types, dec);
      var rest := CleanupAll(q, i + 1, types, dec);
      if c.Failure? then Failure(c.error)
      else if rest.Failure? then Failure(rest.error)
      else Success([c.value] + rest.value)
  }

  /** Cleaning a cleaned query changes nothing: decoded numbers stay numbers and
      lower-cased text stays lower-cased. */
  lemma {:induction false} CleanupIdempotent(q: Query, types: map<string, TagType>, dec: Decoders)
    requires Cleanup(q, types, dec).Success?
    ensures Cleanup(Cleanup(q, types, dec).value, types, dec) == Cleanup(q, types, dec)
    decreases q
  {
    match q
    case Term(f, t) =>
      if t.VStr? && types[f] != IntTag && types[f] != FloatTag {
        LowerIdempotent(t.s);
      }
    case Phrase(f, ws) =>
      var ws' := LowerAll(ws);
      forall i | 0 <= i < |ws| ensures Lower(ws'[i]) == ws'[i] {
        LowerIdempotent(ws[i]);
      }
      assert LowerAll(ws') == ws';
    case And(cs) => CleanupChildrenIdempotent(q, types, dec);
    case Or(cs) => CleanupChildrenIdempotent(q, types, dec);
    case Other(cs) => CleanupChildrenIdempotent(q, types, dec);
    case Not(c) => CleanupIdempotent(c, types, dec);
    case _ =>
  }

  lemma {:induction false} CleanupChildrenIdempotent(q: Query, types: map<string, TagType>, dec: Decoders)
    requires q.And? || q.Or? || q.Other?
    requires CleanupAll(q, 0, types, dec).Success?
    ensures var cs := CleanupAll(q, 0, types, dec).value;
      forall j :: 0 <= j < |cs| ==> Cleanup(cs[j], types, dec) == Success(cs[j])
    ensures var cs := CleanupAll(q, 0, types, dec).value;
      CleanupAll(q.(children := cs), 0, types, dec) == Success(cs)
    decreases q, 0
  {
    var cs := CleanupAll(q, 0, types, dec).value;
    forall j | 0 <= j < |cs| ensures Cleanup(cs[j], types, dec) == Success(cs[j]) {
      assert Cleanup(q.children[j], types, dec) == Success(cs[j]);
      CleanupIdempotent(q.children[j], types, dec);
    }
    CleanupAllOfClean(q.(children := cs), 0, types, dec);
  }

  lemma {:induction false} CleanupAllOfClean(q: Query, i: nat, types: map<string, TagType>, dec: Decoders)
    requires (q.And? || q.Or? || q.Other?) && i <= |q.children|
    requires forall j :: 0 <= j < |q.children| ==> Cleanup(q.children[j], types, dec) == Success(q.children[j])
    ensures CleanupAll(q, i, types, dec) == Success(q.children[i..])
    decreases |q.children| - i
  {
    if i < |q.children| {
      CleanupAllOfClean(q, i + 1, types, dec);
      assert Cleanup(q.children[i], types, dec) == Success(q.children[i]);
      assert q.children[i..] == [q.children[i]] + q.children[i + 1..];
    } else {
      assert q.children[i..] == [];
    }
  }

  /** After cleanup a string term matches a string field without regard to case:
      "Hola" and "hola" find the same entries. */
  lemma TermIgnoresCase(f: string, t: string, types: map<string, TagType>, dec: Decoders, m: Media)
    requires f in types && types[f] == StringTag
    requires GetTag(m, f).VStr?
    ensures Cleanup(Term(f, VStr(t)), types, dec).Success?
    ensures Eval(Cleanup(Term(f, VStr(t)), types, dec).value, m) ==
      Some(Contains(Lower(GetTag(m, f).s), Lower(t)))
  {
  }
}
