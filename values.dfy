/** Tag values and tag types (`TagInfo.type` in vixen/project.py) together with the
    text-to-value coercion that `import_csv` and `TaggerFactory` both use. */
module Values {
  import opened Wrappers
  import opened PyStr

  /** The four tag types of `TagInfo`: "string", "int", "float", "bool". */
  datatype TagType = StringTag | IntTag | FloatTag | BoolTag

  /** A Python value as stored in a tag or a query literal. Python floats are
      modelled by the real numbers they denote (finite floats only). */
  datatype Value = VNone | VStr(s: string) | VInt(i: int) | VFloat(r: real) | VBool(b: bool)

  function TypeName(t: TagType): string
  {
    match t
    case StringTag => "string"
    case IntTag => "int"
    case FloatTag => "float"
    case BoolTag => "bool"
  }

  /** The check the `Enum("string", "int", "float", "bool")` trait makes on assignment. */
  function ParseTypeName(s: string): (r: Option<TagType>)
    ensures r.Some? ==> TypeName(r.value) == s
    ensures forall t :: TypeName(t) == s ==> r == Some(t)
  {
    if s == "string" then Some(StringTag)
    else if s == "int" then Some(IntTag)
    else if s == "float" then Some(FloatTag)
    else if s == "bool" then Some(BoolTag)
    else None
  }

  /** The runtime type of `v` is the one that tag type `t` stands for. */
  predicate HasType(v: Value, t: TagType)
  {
    match t
    case StringTag => v.VStr?
    case IntTag => v.VInt?
    case FloatTag => v.VFloat?
    case BoolTag => v.VBool?
  }

  /** The zero of each kind: "", 0, 0.0 and False. */
  predicate IsZero(v: Value)
  {
    v == VStr("") || v == VInt(0) || v == VFloat(0.0) || v == VBool(false)
  }

  /** `TagInfo._default_default`: the default of a tag is the zero of its type. */
  function Default(t: TagType): (v: Value)
    ensures HasType(v, t) && IsZero(v)
  {
    match t
    case StringTag => VStr("")
    case IntTag => VInt(0)
    case FloatTag => VFloat(0.0)
    case BoolTag => VBool(false)
  }

  /** The default is determined by the type alone: two tags of the same type
      share it, and tags of different types never do. */
  lemma DefaultDeterminesType(t: TagType, u: TagType)
    ensures Default(t) == Default(u) <==> t == u
  {
  }

  /** The numeric value of `v` when it is a number; `bool` counts as a number
      because Python's `bool` is a subclass of `int`. */
  function AsNumber(v: Value): (r: Option<real>)
    ensures r.Some? <==> (v.VInt? || v.VFloat? || v.VBool?)
  {
    match v
    case VInt(i) => Some(i as real)
    case VFloat(x) => Some(x)
    case VBool(b) => Some(if b then 1.0 else 0.0)
    case _ => None
  }

  /** Python's `int(x)` (and Python 2's `long(x)`) on a finite float:
      truncation toward zero. */
  function Truncate(x: real): (r: int)
    ensures x >= 0.0 ==> r as real <= x < r as real + 1.0
    ensures x < 0.0 ==> r as real - 1.0 < x <= r as real
  {
    if x >= 0.0 then x.Floor else -((-x).Floor)
  }

  /** Python's `a == b` on these values: numbers compare by value whatever
      their kind, strings by content, `None` only equals `None`. */
  predicate PyEq(a: Value, b: Value)
  {
    if AsNumber(a).Some? && AsNumber(b).Some? then AsNumber(a).value == AsNumber(b).value
    else if a.VStr? && b.VStr? then a.s == b.s
    else a.VNone? && b.VNone?
  }

  /** Python's `==` is an equivalence relation on these values. */
  lemma PyEqIsEquivalence(a: Value, b: Value, c: Value)
    ensures PyEq(a, a)
    ensures PyEq(a, b) ==> PyEq(b, a)
    ensures PyEq(a, b) && PyEq(b, c) ==> PyEq(a, c)
  {
  }

  /** `int(text)` and `float(text)`: `None` where Python raises ValueError. */
  datatype Conversions = Conversions(parseInt: string -> Option<int>, parseFloat: string -> Option<real>)

  /** The tokens that the "bool" conversion accepts as True. */
  const TrueTokens: seq<string> := ["1", "t", "true", "y", "yes"]

  /** The `type_map` of `import_csv` and `TaggerFactory._setup_tag_types`: the value
      of `text` as a tag of type `t`, or `None` where the conversion raises ValueError. */
  function Coerce(t: TagType, text: string, conv: Conversions): (r: Option<Value>)
    ensures r.Some? ==> HasType(r.value, t)
    ensures t == StringTag ==> r == Some(VStr(text))
    ensures t == BoolTag ==> r == Some(VBool(Lower(text) in TrueTokens))
    ensures t == IntTag ==> (r.None? <==> conv.parseInt(text).None?)
    ensures t == FloatTag ==> (r.None? <==> conv.parseFloat(text).None?)
    ensures t == IntTag && conv.parseInt(text).Some? ==> r == Some(VInt(conv.parseInt(text).value))
    ensures t == FloatTag && conv.parseFloat(text).Some? ==> r == Some(VFloat(conv.parseFloat(text).value))
  {
    match t
    case StringTag => Some(VStr(text))
    case BoolTag => Some(VBool(Lower(text) in TrueTokens))
    case IntTag => if conv.parseInt(text).Some? then Some(VInt(conv.parseInt(text).value)) else None
    case FloatTag => if conv.parseFloat(text).Some? then Some(VFloat(conv.parseFloat(text).value)) else None
  }

  /** The bool conversion ignores case: "YES", "True" and "t" are True. */
  lemma {:induction false} BoolCoercionIgnoresCase(conv: Conversions)
    ensures Coerce(BoolTag, "YES", conv) == Some(VBool(true))
    ensures Coerce(BoolTag, "True", conv) == Some(VBool(true))
    ensures Coerce(BoolTag, "t", conv) == Some(VBool(true))
  {
    assert Lower("YES") == "yes";
    assert Lower("True") == "true";
    assert Lower("t") == "t";
  }

  /** Text outside the accepted spellings, the empty string included, is false. */
  lemma {:induction false} BoolCoercionOtherText(conv: Conversions)
    ensures Coerce(BoolTag, "no", conv) == Some(VBool(false))
    ensures Coerce(BoolTag, "0", conv) == Some(VBool(false))
    ensures Coerce(BoolTag, "", conv) == Some(VBool(false))
  {
    assert Lower("no") == "no";
    assert Lower("0") == "0";
  }

  /** Converting the same text under two capitalisations gives the same bool. */
  lemma BoolCoercionCaseInsensitive(a: string, b: string, conv: Conversions)
    requires Lower(a) == Lower(b)
    ensures Coerce(BoolTag, a, conv) == Coerce(BoolTag, b, conv)
  {
  }
}
