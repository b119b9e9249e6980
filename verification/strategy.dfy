/** The extraction strategy resolver: which Bundle accessor a field is read
    with, decided by a first-match-wins chain over the field's static type. */
module Strategy {
  import opened FieldInfo

  /** The categories the generator tells apart, plus Unsupported. */
  datatype Category =
    | IntField | LongField | FloatField | DoubleField | BooleanField
    | StringField | SerializableField | ParcelableField
    | Unsupported

  /** The printed name the generator compares a type against to recognise String. */
  const StringTypeName := "java.lang.String"

  /** The kinds the generator reads with a primitive accessor. */
  const PrimitiveKinds := {Int, Long, Float, Double, Boolean}

  /** The category a field type falls into, tested in the generator's order.
      A primitive category is chosen exactly for the five primitive kinds, and
      no category exactly when the type passes none of the eight tests. */
  function Classify(t: FieldType): (c: Category)
    ensures IsPrimitive(c) <==> t.kind in PrimitiveKinds
    ensures c == Unsupported <==> t.kind !in PrimitiveKinds && t.name != StringTypeName && !t.serializable && !t.parcelable
  {
    if t.kind == Int then IntField
    else if t.kind == Long then LongField
    else if t.kind == Float then FloatField
    else if t.kind == Double then DoubleField
    else if t.kind == Boolean then BooleanField
    else if t.name == StringTypeName then StringField
    else if t.serializable then SerializableField
    else if t.parcelable then ParcelableField
    else Unsupported
  }

  /** Whether a field type passes the one test that admits it to category c,
      regardless of every other test. */
  predicate Matches(c: Category, t: FieldType)
  {
    match c
    case IntField => t.kind == Int
    case LongField => t.kind == Long
    case FloatField => t.kind == Float
    case DoubleField => t.kind == Double
    case BooleanField => t.kind == Boolean
    case StringField => t.name == StringTypeName
    case SerializableField => t.serializable
    case ParcelableField => t.parcelable
    case Unsupported => false
  }

  /** The order in which the categories are tried. */
  const Precedence: seq<Category> :=
    [IntField, LongField, FloatField, DoubleField, BooleanField, StringField, SerializableField, ParcelableField]

  /** The first category of cs whose test t passes, or Unsupported if none does. */
  function FirstMatch(cs: seq<Category>, t: FieldType): Category
  {
    if cs == [] then Unsupported
    else if Matches(cs[0], t) then cs[0]
    else FirstMatch(cs[1..], t)
  }

  lemma {:induction false} FirstMatchIsFirst(cs: seq<Category>, t: FieldType)
    ensures FirstMatch(cs, t) == Unsupported <==> forall i :: 0 <= i < |cs| ==> !Matches(cs[i], t)
    ensures FirstMatch(cs, t) != Unsupported ==>
      exists i :: 0 <= i < |cs| && cs[i] == FirstMatch(cs, t) && Matches(cs[i], t)
        && forall j :: 0 <= j < i ==> !Matches(cs[j], t)
  {
    if cs != [] && !Matches(cs[0], t) {
      FirstMatchIsFirst(cs[1..], t);
      if FirstMatch(cs, t) != Unsupported {
        var i :| 0 <= i < |cs[1..]| && cs[1..][i] == FirstMatch(cs[1..], t) && Matches(cs[1..][i], t)
          && forall j :: 0 <= j < i ==> !Matches(cs[1..][j], t);
        assert cs[i + 1] == FirstMatch(cs, t);
        forall j | 0 <= j < i + 1 ensures !Matches(cs[j], t) {
          if j > 0 { assert cs[j] == cs[1..][j - 1]; }
        }
      } else {
        forall i | 0 <= i < |cs| ensures !Matches(cs[i], t) {
          if i > 0 { assert cs[i] == cs[1..][i - 1]; }
        }
      }
    }
  }

  /** The last three categories tried: the reference types. */
  lemma ReferenceTail(t: FieldType)
    ensures FirstMatch(Precedence[5..], t) ==
      if t.name == StringTypeName then StringField
      else if t.serializable then SerializableField
      else if t.parcelable then ParcelableField
      else Unsupported
  {
    var p := Precedence;
    assert p[5..][1..] == p[6..];
    assert FirstMatch(p[5..], t) == if Matches(p[5], t) then p[5] else FirstMatch(p[6..], t);
    assert p[6..][1..] == p[7..];
    assert FirstMatch(p[6..], t) == if Matches(p[6], t) then p[6] else FirstMatch(p[7..], t);
    assert p[7..][1..] == p[8..];
    assert FirstMatch(p[7..], t) == if Matches(p[7], t) then p[7] else FirstMatch(p[8..], t);
    assert FirstMatch(p[8..], t) == Unsupported;
  }

  /** The first five categories tried: the primitive kinds. */
  lemma ClassifyIsFirstMatch(t: FieldType)
    ensures Classify(t) == FirstMatch(Precedence, t)
  {
    var p := Precedence;
    assert FirstMatch(p, t) == if Matches(p[0], t) then p[0] else FirstMatch(p[1..], t);
    assert p[1..][1..] == p[2..];
    assert FirstMatch(p[1..], t) == if Matches(p[1], t) then p[1] else FirstMatch(p[2..], t);
    assert p[2..][1..] == p[3..];
    assert FirstMatch(p[2..], t) == if Matches(p[2], t) then p[2] else FirstMatch(p[3..], t);
    assert p[3..][1..] == p[4..];
    assert FirstMatch(p[3..], t) == if Matches(p[3], t) then p[3] else FirstMatch(p[4..], t);
    assert p[4..][1..] == p[5..];
    assert FirstMatch(p[4..], t) == if Matches(p[4], t) then p[4] else FirstMatch(p[5..], t);
    ReferenceTail(t);
  }

  /** The resolver picks the first category in precedence order whose test the
      type passes, and Unsupported exactly when it passes none. */
  lemma ClassifyByPrecedence(t: FieldType)
    ensures Classify(t) == FirstMatch(Precedence, t)
    ensures Classify(t) == Unsupported <==> forall i :: 0 <= i < |Precedence| ==> !Matches(Precedence[i], t)
    ensures Classify(t) != Unsupported ==>
      exists i :: 0 <= i < |Precedence| && Precedence[i] == Classify(t) && Matches(Precedence[i], t)
        && forall j :: 0 <= j < i ==> !Matches(Precedence[j], t)
  {
    ClassifyIsFirstMatch(t);
    FirstMatchIsFirst(Precedence, t);
  }

  /** A type that is both Serializable and Parcelable (and neither a primitive
      nor String) is read as Serializable. */
  lemma SerializableBeforeParcelable(t: FieldType)
    requires t.kind == Other && t.name != StringTypeName
    requires t.serializable && t.parcelable
    ensures Classify(t) == SerializableField
  {
  }

  predicate IsPrimitive(c: Category)
  {
    c == IntField || c == LongField || c == FloatField || c == DoubleField || c == BooleanField
  }

  /** The Bundle accessors the generated code calls. */
  datatype Getter =
    | GetInt | GetLong | GetFloat | GetDouble | GetBoolean
    | GetString | GetSerializable | GetParcelable

  /** The accessor each supported category is read with. */
  function Accessor(c: Category): Getter
    requires c != Unsupported
  {
    match c
    case IntField => GetInt
    case LongField => GetLong
    case FloatField => GetFloat
    case DoubleField => GetDouble
    case BooleanField => GetBoolean
    case StringField => GetString
    case SerializableField => GetSerializable
    case ParcelableField => GetParcelable
  }
}
