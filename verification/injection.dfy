/** What the generated injectBundle(target, bundle) does when it runs: a small
    semantics of the emitted statements over a Bundle and the target's fields.
    The Android Bundle accessors are outside this repository; their behaviour
    is taken as given here (see Read). */
module Injection {
  import opened FieldInfo
  import opened Strategy
  import opened Emitter

  /** A value stored in a Bundle or in a field. Float and double payloads are
      opaque. */
  datatype Value =
    | Null
    | IntValue(i: int)
    | LongValue(l: int)
    | FloatValue(fbits: int)
    | DoubleValue(dbits: int)
    | BooleanValue(b: bool)
    | StringValue(s: string)
    | ObjectValue(id: nat, serializable: bool, parcelable: bool)

  /** The bundle argument: null, or a map from keys to stored values. */
  datatype Container = NullBundle | Bundle(entries: map<string, Value>)

  /** Whether an accessor hands back a stored value rather than its fallback:
      the stored value must be of the accessor's type. Boxed primitives and
      strings are Serializable. */
  predicate Accepts(g: Getter, v: Value)
  {
    match g
    case GetInt => v.IntValue?
    case GetLong => v.LongValue?
    case GetFloat => v.FloatValue?
    case GetDouble => v.DoubleValue?
    case GetBoolean => v.BooleanValue?
    case GetString => v.StringValue?
    case GetSerializable => v != Null && !(v.ObjectValue? && !v.serializable)
    case GetParcelable => v.ObjectValue? && v.parcelable
  }

  /** The accessor contract taken as given: getX(key, fallback) returns the stored
      value when the key is present with a value of the right type, and the
      fallback otherwise; the one-argument getters use null as the fallback. */
  function Read(entries: map<string, Value>, key: string, g: Getter, fallback: Value): Value
  {
    if key in entries && Accepts(g, entries[key]) then entries[key] else fallback
  }

  /** The target object's fields and the method's local variables. */
  datatype Frame = Frame(target: map<string, Value>, locals: map<string, Value>)

  /** Running on, returned early, or stopped by an exception (a null bundle
      dereferenced, or a field or local that does not exist). */
  datatype Outcome = Running(frame: Frame) | Returned(frame: Frame) | Crashed

  function Step(s: Stmt, bundle: Container, f: Frame): Outcome
  {
    match s
    case ReturnIfNull =>
      if bundle.NullBundle? then Returned(f) else Running(f)
    case AssignWithDefault(field, g, key) =>
      if bundle.NullBundle? || field !in f.target then Crashed
      else Running(f.(target := f.target[field := Read(bundle.entries, key, g, f.target[field])]))
    case DeclareLocal(local, g, key) =>
      if bundle.NullBundle? then Crashed
      else Running(f.(locals := f.locals[local := Read(bundle.entries, key, g, Null)]))
    case AssignIfNotNull(field, local) =>
      if local !in f.locals || field !in f.target then Crashed
      else if f.locals[local] == Null then Running(f)
      else Running(f.(target := f.target[field := f.locals[local]]))
  }

  function Exec(body: seq<Stmt>, bundle: Container, f: Frame): Outcome
    decreases |body|
  {
    if body == [] then Running(f)
    else
      var o := Step(body[0], bundle, f);
      if o.Running? then Exec(body[1..], bundle, o.frame) else o
  }

  /** The result of a call: the target's fields afterwards, or an exception. */
  datatype Result = Finished(target: map<string, Value>) | Threw

  function Inject(body: seq<Stmt>, bundle: Container, target: map<string, Value>): Result
  {
    match Exec(body, bundle, Frame(target, map[]))
    case Running(f) => Finished(f.target)
    case Returned(f) => Finished(f.target)
    case Crashed => Threw
  }

  /** Reference definition of what one field ends up holding: a supported
      field takes the stored value when its key holds a value of the right
      type, and otherwise keeps its current value; an unsupported field is
      never written. */
  function Effect(d: FieldDescriptor, entries: map<string, Value>, current: Value): Value
  {
    var c := Classify(d.fieldType);
    if c == Unsupported then current
    else if IsPrimitive(c) then Read(entries, d.bundleName, Accessor(c), current)
    else
      var v := Read(entries, d.bundleName, Accessor(c), Null);
      if v == Null then current else v
  }

  /** A field keeps its value when its key is missing or holds a value of the
      wrong type, and when its type is unsupported; otherwise it takes the
      stored value. Primitive and reference fields behave alike, because no
      accessor hands back null as a stored value. */
  lemma EffectOfField(d: FieldDescriptor, entries: map<string, Value>, current: Value)
    ensures d.bundleName !in entries ==> Effect(d, entries, current) == current
    ensures Classify(d.fieldType) == Unsupported ==> Effect(d, entries, current) == current
    ensures Effect(d, entries, current) ==
      var c := Classify(d.fieldType);
      if c != Unsupported && d.bundleName in entries && Accepts(Accessor(c), entries[d.bundleName])
      then entries[d.bundleName] else current
  {
  }

  /** The target after one field's block. */
  function Apply(d: FieldDescriptor, entries: map<string, Value>, target: map<string, Value>): map<string, Value>
  {
    if d.fieldName in target then target[d.fieldName := Effect(d, entries, target[d.fieldName])] else target
  }

  /** The target after the blocks of ds, in order. */
  function ApplyAll(ds: seq<FieldDescriptor>, entries: map<string, Value>, target: map<string, Value>): (r: map<string, Value>)
    ensures r.Keys == target.Keys
  {
    if ds == [] then target else Apply(ds[|ds| - 1], entries, ApplyAll(ds[..|ds| - 1], entries, target))
  }

  /** Every supported field the blocks write exists on the target, as the Java
      compiler guarantees for the fields of the owning type. */
  predicate Fits(ds: seq<FieldDescriptor>, target: map<string, Value>)
  {
    forall i :: 0 <= i < |ds| && Classify(ds[i].fieldType) != Unsupported ==> ds[i].fieldName in target
  }

  /** No two descriptors name the same field, as for the fields of one type. */
  predicate DistinctFieldNames(ds: seq<FieldDescriptor>)
  {
    forall i, j :: 0 <= i < j < |ds| ==> ds[i].fieldName != ds[j].fieldName
  }

  lemma {:induction false} ExecAppend(a: seq<Stmt>, b: seq<Stmt>, bundle: Container, f: Frame)
    ensures Exec(a + b, bundle, f) ==
      var o := Exec(a, bundle, f);
      if o.Running? then Exec(b, bundle, o.frame) else o
    decreases |a|
  {
    if a == [] {
      assert a + b == b;
    } else {
      assert (a + b)[0] == a[0];
      assert (a + b)[1..] == a[1..] + b;
      var o := Step(a[0], bundle, f);
      if o.Running? {
        ExecAppend(a[1..], b, bundle, o.frame);
      }
    }
  }

  lemma ExecAssignWithDefault(field: string, g: Getter, key: string, entries: map<string, Value>, f: Frame)
    requires field in f.target
    ensures Exec([AssignWithDefault(field, g, key)], Bundle(entries), f)
      == Running(f.(target := f.target[field := Read(entries, key, g, f.target[field])]))
  {
    assert [AssignWithDefault(field, g, key)][1..] == [];
  }

  lemma ExecReadIfNotNull(field: string, g: Getter, key: string, entries: map<string, Value>, f: Frame)
    requires field in f.target
    ensures Exec([DeclareLocal(field, g, key), AssignIfNotNull(field, field)], Bundle(entries), f).Running?
    ensures Exec([DeclareLocal(field, g, key), AssignIfNotNull(field, field)], Bundle(entries), f).frame.target
      == (var v := Read(entries, key, g, Null); if v == Null then f.target else f.target[field := v])
  {
    var b := [DeclareLocal(field, g, key), AssignIfNotNull(field, field)];
    var v := Read(entries, key, g, Null);
    var f1 := f.(locals := f.locals[field := v]);
    assert Step(b[0], Bundle(entries), f) == Running(f1);
    assert b[1..] == [AssignIfNotNull(field, field)];
    assert b[1..][1..] == [];
    var o := Step(AssignIfNotNull(field, field), Bundle(entries), f1);
    assert Exec(b[1..], Bundle(entries), f1) == o;
  }

  /** One field's block, run with a bundle, runs through and leaves the target
      as Apply says. */
  lemma ExecBlock(d: FieldDescriptor, entries: map<string, Value>, f: Frame)
    requires Classify(d.fieldType) != Unsupported ==> d.fieldName in f.target
    ensures Exec(Block(d), Bundle(entries), f).Running?
    ensures Exec(Block(d), Bundle(entries), f).frame.target == Apply(d, entries, f.target)
  {
    var c := Classify(d.fieldType);
    if c == Unsupported {
      if d.fieldName in f.target {
        assert f.target[d.fieldName := f.target[d.fieldName]] == f.target;
      }
    } else if IsPrimitive(c) {
      ExecAssignWithDefault(d.fieldName, Accessor(c), d.bundleName, entries, f);
    } else {
      ExecReadIfNotNull(d.fieldName, Accessor(c), d.bundleName, entries, f);
      var v := Read(entries, d.bundleName, Accessor(c), Null);
      if v == Null {
        assert f.target[d.fieldName := f.target[d.fieldName]] == f.target;
      }
    }
  }

  lemma {:induction false} ExecBlocks(ds: seq<FieldDescriptor>, entries: map<string, Value>, f: Frame)
    requires Fits(ds, f.target)
    ensures Exec(Blocks(ds), Bundle(entries), f).Running?
    ensures Exec(Blocks(ds), Bundle(entries), f).frame.target == ApplyAll(ds, entries, f.target)
  {
    if ds != [] {
      var init, d := ds[..|ds| - 1], ds[|ds| - 1];
      assert Fits(init, f.target) by {
        forall i | 0 <= i < |init| && Classify(init[i].fieldType) != Unsupported
          ensures init[i].fieldName in f.target
        {
          assert init[i] == ds[i];
        }
      }
      ExecBlocks(init, entries, f);
      ExecAppend(Blocks(init), Block(d), Bundle(entries), f);
      var mid := Exec(Blocks(init), Bundle(entries), f).frame;
      ExecBlock(d, entries, mid);
    }
  }

  /** With a bundle, the generated method runs through and leaves the target
      as the reference definition says. */
  lemma InjectWithBundle(ds: seq<FieldDescriptor>, entries: map<string, Value>, target: map<string, Value>)
    requires Fits(ds, target)
    ensures Inject(EmitBody(ds), Bundle(entries), target) == Finished(ApplyAll(ds, entries, target))
  {
    var f := Frame(target, map[]);
    ExecAppend([ReturnIfNull], Blocks(ds), Bundle(entries), f);
    assert Exec([ReturnIfNull], Bundle(entries), f) == Running(f) by {
      assert [ReturnIfNull][1..] == [];
    }
    ExecBlocks(ds, entries, f);
  }

  /** With a null bundle, the generated method returns at once and touches no
      field. */
  lemma InjectWithNullBundle(ds: seq<FieldDescriptor>, target: map<string, Value>)
    ensures Inject(EmitBody(ds), NullBundle, target) == Finished(target)
  {
    assert EmitBody(ds)[0] == ReturnIfNull;
  }

  /** Without the leading guard, a null bundle makes the blocks throw as soon
      as one field is supported, and leaves the frame as it was otherwise. */
  lemma {:induction false} BlocksWithNullBundle(ds: seq<FieldDescriptor>, f: Frame)
    ensures (exists i :: 0 <= i < |ds| && Classify(ds[i].fieldType) != Unsupported)
      ==> Exec(Blocks(ds), NullBundle, f) == Crashed
    ensures (forall i :: 0 <= i < |ds| ==> Classify(ds[i].fieldType) == Unsupported)
      ==> Exec(Blocks(ds), NullBundle, f) == Running(f)
  {
    if ds != [] {
      var init, d := ds[..|ds| - 1], ds[|ds| - 1];
      BlocksWithNullBundle(init, f);
      ExecAppend(Blocks(init), Block(d), NullBundle, f);
      forall i | 0 <= i < |init| ensures init[i] == ds[i] { }
      if Classify(d.fieldType) != Unsupported {
        assert Block(d)[0].AssignWithDefault? || Block(d)[0].DeclareLocal?;
      }
    }
  }

  /** A field no descriptor names keeps its value. */
  lemma {:induction false} ApplyAllUntouched(ds: seq<FieldDescriptor>, entries: map<string, Value>, target: map<string, Value>, x: string)
    requires x in target
    requires forall i :: 0 <= i < |ds| ==> ds[i].fieldName != x
    ensures ApplyAll(ds, entries, target)[x] == target[x]
  {
    if ds != [] {
      var init, d := ds[..|ds| - 1], ds[|ds| - 1];
      forall i | 0 <= i < |init| ensures init[i].fieldName != x { assert init[i] == ds[i]; }
      ApplyAllUntouched(init, entries, target, x);
    }
  }

  /** With distinct field names, a field named by a descriptor ends up with
      that descriptor's Effect. */
  lemma {:induction false} ApplyAllNamed(ds: seq<FieldDescriptor>, entries: map<string, Value>, target: map<string, Value>, i: nat)
    requires DistinctFieldNames(ds)
    requires i < |ds| && ds[i].fieldName in target
    ensures ApplyAll(ds, entries, target)[ds[i].fieldName] == Effect(ds[i], entries, target[ds[i].fieldName])
  {
    var init, d := ds[..|ds| - 1], ds[|ds| - 1];
    if i < |init| {
      assert init[i] == ds[i];
      assert DistinctFieldNames(init) by {
        forall j, k | 0 <= j < k < |init| ensures init[j].fieldName != init[k].fieldName {
          assert init[j] == ds[j] && init[k] == ds[k];
        }
      }
      ApplyAllNamed(init, entries, target, i);
    } else {
      forall k | 0 <= k < |init| ensures init[k].fieldName != d.fieldName {
        assert init[k] == ds[k];
      }
      ApplyAllUntouched(init, entries, target, d.fieldName);
    }
  }

  /** The behaviour of the generated injectBundle with a bundle: it runs
      through, keeps the target's set of fields, gives each tagged field the
      Effect of its descriptor and leaves every other field as it was. */
  lemma InjectorBehaviour(ds: seq<FieldDescriptor>, entries: map<string, Value>, target: map<string, Value>)
    requires Fits(ds, target)
    requires DistinctFieldNames(ds)
    ensures Inject(EmitBody(ds), Bundle(entries), target).Finished?
    ensures Inject(EmitBody(ds), Bundle(entries), target).target.Keys == target.Keys
    ensures forall i :: 0 <= i < |ds| && ds[i].fieldName in target ==>
      Inject(EmitBody(ds), Bundle(entries), target).target[ds[i].fieldName]
        == Effect(ds[i], entries, target[ds[i].fieldName])
    ensures forall x :: x in target && (forall i :: 0 <= i < |ds| ==> ds[i].fieldName != x) ==>
      Inject(EmitBody(ds), Bundle(entries), target).target[x] == target[x]
  {
    InjectWithBundle(ds, entries, target);
    forall i | 0 <= i < |ds| && ds[i].fieldName in target
      ensures ApplyAll(ds, entries, target)[ds[i].fieldName] == Effect(ds[i], entries, target[ds[i].fieldName])
    {
      ApplyAllNamed(ds, entries, target, i);
    }
    forall x | x in target && (forall i :: 0 <= i < |ds| ==> ds[i].fieldName != x)
      ensures ApplyAll(ds, entries, target)[x] == target[x]
    {
      ApplyAllUntouched(ds, entries, target, x);
    }
  }

  /** A type with an int field `count` tagged without a name and a String
      field `title` tagged "t". */
  const ScreenFields: seq<FieldDescriptor> :=
    [FieldDescriptor(FieldType(Int, "int", false, false), "count", "count"),
     FieldDescriptor(FieldType(Other, StringTypeName, true, false), "title", "t")]

  const ScreenTarget: map<string, Value> := map["count" := IntValue(5), "title" := Null]

  lemma ScreenApply(entries: map<string, Value>)
    requires entries == map["t" := StringValue("Hello")]
    ensures ApplyAll(ScreenFields, entries, ScreenTarget) == ScreenTarget["title" := StringValue("Hello")]
  {
    var ds, target := ScreenFields, ScreenTarget;
    assert ds[..1][..0] == [];
    assert Effect(ds[0], entries, IntValue(5)) == IntValue(5);
    assert ApplyAll(ds[..1], entries, target) == target;
    assert Effect(ds[1], entries, Null) == StringValue("Hello");
  }

  /** For that type, a bundle holding only "t" sets the title and leaves the
      count alone. */
  lemma ScreenExample()
    ensures Inject(EmitBody(ScreenFields), Bundle(map["t" := StringValue("Hello")]), ScreenTarget)
      == Finished(ScreenTarget["title" := StringValue("Hello")])
  {
    InjectWithBundle(ScreenFields, map["t" := StringValue("Hello")], ScreenTarget);
    ScreenApply(map["t" := StringValue("Hello")]);
  }
}
