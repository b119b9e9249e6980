/** The injector emitter: the statements generated for one owning type's
    fields, and the companion type and file that carry them. */
module Emitter {
  import opened FieldInfo
  import opened Strategy

  /** The statements the generated injectBundle(target, bundle) method is made of. */
  datatype Stmt =
    /** if (bundle == null) { return; } */
    | ReturnIfNull
    /** target.field = bundle.getX(key, target.field); */
    | AssignWithDefault(field: string, getter: Getter, key: string)
    /** T local = (T) bundle.getX(key); */
    | DeclareLocal(local: string, getter: Getter, key: string)
    /** if (local != null) { target.field = local; } */
    | AssignIfNotNull(field: string, local: string)

  /** The generated public static void injectBundle(Target target, Bundle bundle). */
  datatype InjectMethod = InjectMethod(targetType: string, body: seq<Stmt>)

  /** The generated public companion class, with its one method. */
  datatype TypeSpec = TypeSpec(name: string, injectBundle: InjectMethod)

  /** A generated source file: the package it goes into and the class it holds. */
  datatype JavaFile = JavaFile(packageName: string, typeSpec: TypeSpec)

  /** The statements emitted for one field descriptor: none for an unsupported
      type, one for a primitive, two for a reference type. The first reads the
      descriptor's key with its category's accessor, and only the descriptor's
      own field is written. */
  function Block(d: FieldDescriptor): (r: seq<Stmt>)
    ensures r == [] <==> Classify(d.fieldType) == Unsupported
    ensures |r| == 1 <==> IsPrimitive(Classify(d.fieldType))
    ensures |r| <= 2
    ensures r != [] ==>
      (r[0].AssignWithDefault? || r[0].DeclareLocal?) && r[0].getter == Accessor(Classify(d.fieldType)) && r[0].key == d.bundleName
    ensures forall k :: 0 <= k < |r| ==> !r[k].ReturnIfNull? && (r[k].DeclareLocal? || r[k].field == d.fieldName)
  {
    var c := Classify(d.fieldType);
    if c == Unsupported then []
    else if IsPrimitive(c) then [AssignWithDefault(d.fieldName, Accessor(c), d.bundleName)]
    else [DeclareLocal(d.fieldName, Accessor(c), d.bundleName), AssignIfNotNull(d.fieldName, d.fieldName)]
  }

  /** The blocks of a descriptor list, in list order: at most two statements
      per descriptor, and never a null guard. */
  function Blocks(ds: seq<FieldDescriptor>): (r: seq<Stmt>)
    ensures |r| <= 2 * |ds|
    ensures ReturnIfNull !in r
  {
    if ds == [] then [] else Blocks(ds[..|ds| - 1]) + Block(ds[|ds| - 1])
  }

  /** The whole body of injectBundle: the null guard, then one block per field.
      The guard comes first and nowhere else. */
  function EmitBody(ds: seq<FieldDescriptor>): (r: seq<Stmt>)
    ensures 1 <= |r| <= 1 + 2 * |ds|
    ensures r[0] == ReturnIfNull && ReturnIfNull !in r[1..]
  {
    [ReturnIfNull] + Blocks(ds)
  }

  /** The local variables a body declares, in order. */
  function DeclaredLocals(body: seq<Stmt>): seq<string>
  {
    if body == [] then []
    else
      var last := body[|body| - 1];
      DeclaredLocals(body[..|body| - 1]) + (if last.DeclareLocal? then [last.local] else [])
  }

  predicate IsReference(c: Category)
  {
    c == StringField || c == SerializableField || c == ParcelableField
  }

  /** The generated body declares a local variable named x exactly when some
      String, Serializable or Parcelable field is named x. So a field of one of
      these categories named `bundle` or `target` yields a local that redeclares
      a parameter of injectBundle. */
  lemma {:induction false} DeclaredLocalsAreReferenceFields(ds: seq<FieldDescriptor>, x: string)
    ensures x in DeclaredLocals(EmitBody(ds)) <==>
      exists i :: 0 <= i < |ds| && IsReference(Classify(ds[i].fieldType)) && ds[i].fieldName == x
  {
    BlocksLocals(ds);
    ReferenceNamesMembers(ds, x);
    assert DeclaredLocals([ReturnIfNull]) == [];
    LocalsAppend([ReturnIfNull], Blocks(ds));
  }

  lemma {:induction false} LocalsAppend(a: seq<Stmt>, b: seq<Stmt>)
    ensures DeclaredLocals(a + b) == DeclaredLocals(a) + DeclaredLocals(b)
    decreases |b|
  {
    if b == [] {
      assert a + b == a;
    } else {
      var b' := b[..|b| - 1];
      assert (a + b)[..|a + b| - 1] == a + b';
      LocalsAppend(a, b');
    }
  }

  lemma BlockLocals(d: FieldDescriptor)
    ensures DeclaredLocals(Block(d)) == if IsReference(Classify(d.fieldType)) then [d.fieldName] else []
  {
    var c := Classify(d.fieldType);
    if IsPrimitive(c) {
      assert Block(d)[..0] == [];
    } else if c != Unsupported {
      assert Block(d)[..1] == [DeclareLocal(d.fieldName, Accessor(c), d.bundleName)];
      assert Block(d)[..1][..0] == [];
      assert DeclaredLocals(Block(d)[..1]) == [d.fieldName];
    }
  }

  /** The names of the String, Serializable and Parcelable fields of ds, in order. */
  function ReferenceNames(ds: seq<FieldDescriptor>): seq<string>
  {
    if ds == [] then []
    else
      var d := ds[|ds| - 1];
      ReferenceNames(ds[..|ds| - 1]) + (if IsReference(Classify(d.fieldType)) then [d.fieldName] else [])
  }

  lemma {:induction false} BlocksLocals(ds: seq<FieldDescriptor>)
    ensures DeclaredLocals(Blocks(ds)) == ReferenceNames(ds)
  {
    if ds != [] {
      var init, d := ds[..|ds| - 1], ds[|ds| - 1];
      BlocksLocals(init);
      LocalsAppend(Blocks(init), Block(d));
      BlockLocals(d);
    }
  }

  lemma {:induction false} ReferenceNamesMembers(ds: seq<FieldDescriptor>, x: string)
    ensures x in ReferenceNames(ds) <==>
      exists i :: 0 <= i < |ds| && IsReference(Classify(ds[i].fieldType)) && ds[i].fieldName == x
  {
    if ds != [] {
      var init, d := ds[..|ds| - 1], ds[|ds| - 1];
      ReferenceNamesMembers(init, x);
      if x in ReferenceNames(init) {
        var i :| 0 <= i < |init| && IsReference(Classify(init[i].fieldType)) && init[i].fieldName == x;
        assert ds[i] == init[i];
      }
      if exists i :: 0 <= i < |ds| && IsReference(Classify(ds[i].fieldType)) && ds[i].fieldName == x {
        var i :| 0 <= i < |ds| && IsReference(Classify(ds[i].fieldType)) && ds[i].fieldName == x;
        if i < |init| { assert init[i] == ds[i]; }
      }
    }
  }

  /** One more descriptor adds its block at the end of the body. */
  lemma EmitBodyPrefix(ds: seq<FieldDescriptor>, i: nat)
    requires i < |ds|
    ensures EmitBody(ds[..i + 1]) == EmitBody(ds[..i]) + Block(ds[i])
  {
    var p := ds[..i + 1];
    assert p[..|p| - 1] == ds[..i] && p[|p| - 1] == ds[i];
    assert Blocks(p) == Blocks(ds[..i]) + Block(ds[i]);
  }

  /** The statements one field contributes: the resolver's tests in order,
      the first that passes choosing the accessor; nothing for a field none
      of them admits. */
  method FieldStatements(t: FieldType, fieldName: string, bundleName: string) returns (block: seq<Stmt>)
    ensures block == Block(FieldDescriptor(t, fieldName, bundleName))
  {
    block := [];
    if t.kind == Int {
      block := [AssignWithDefault(fieldName, GetInt, bundleName)];
    } else if t.kind == Long {
      block := [AssignWithDefault(fieldName, GetLong, bundleName)];
    } else if t.kind == Float {
      block := [AssignWithDefault(fieldName, GetFloat, bundleName)];
    } else if t.kind == Double {
      block := [AssignWithDefault(fieldName, GetDouble, bundleName)];
    } else if t.kind == Boolean {
      block := [AssignWithDefault(fieldName, GetBoolean, bundleName)];
    } else if t.name == StringTypeName {
      block := [DeclareLocal(fieldName, GetString, bundleName), AssignIfNotNull(fieldName, fieldName)];
    } else if t.serializable {
      block := [DeclareLocal(fieldName, GetSerializable, bundleName), AssignIfNotNull(fieldName, fieldName)];
    } else if t.parcelable {
      block := [DeclareLocal(fieldName, GetParcelable, bundleName), AssignIfNotNull(fieldName, fieldName)];
    }
  }

  /** Builds the injectBundle method for a list of BundleFieldInfo objects,
      reading each object through its getters. */
  method CreateBundleFun(targetType: string, bindingList: seq<BundleFieldInfo>) returns (m: InjectMethod)
    ensures m == InjectMethod(targetType, EmitBody(Values(bindingList)))
  {
    ghost var ds := Values(bindingList);
    var body := [ReturnIfNull];
    var i := 0;
    while i < |bindingList|
      invariant 0 <= i <= |bindingList|
      invariant body == EmitBody(ds[..i])
    {
      var fieldInfo := bindingList[i];
      var fieldName := fieldInfo.GetFieldName();
      var bundleName := fieldInfo.GetBundleName();
      var t := fieldInfo.GetTypeMirror();
      assert ds[i] == FieldDescriptor(t, fieldName, bundleName);
      var block := FieldStatements(t, fieldName, bundleName);
      EmitBodyPrefix(ds, i);
      body := body + block;
      i := i + 1;
    }
    assert ds[..i] == ds;
    m := InjectMethod(targetType, body);
  }
}
