# bundleWrite annotation processor, modelled in Dafny

The bundleWrite processor is a Java annotation processor for Android. A
field tagged with `@WriteBundle(name = ...)` is filled from an Android
`Bundle` by a generated companion class. In one processing round the
processor does two things:

1. It walks the tagged fields and records a `BundleFieldInfo` for each:
   the field's type, its simple name, and its key. The key is the tag's
   `name`, or the field name when `name` is empty. The records are grouped
   in a map keyed by the enclosing type.
2. For every enclosing type with a non-empty list, it generates a public
   class `<Name>$$BundleInit` in the type's package. That class has one
   method, `public static void injectBundle(Target target, Bundle bundle)`.
   - The method returns at once when `bundle` is null.
   - Then it emits one block per field. Which block depends on the first
     test in this chain that the field's type passes: `int`, `long`,
     `float`, `double`, `boolean`, `java.lang.String`, assignable to
     `Serializable`, assignable to `Parcelable`.
   - Primitive fields are assigned `bundle.getX(key, target.field)`.
   - For the three reference categories, a local is declared from
     `bundle.getX(key)`, and the field is assigned only when that local is
     non-null.
   - A field that passes none of the tests gets no block.

The model is split into modules:

- `FieldInfo` (field_info.dfy): the `BundleFieldInfo` class with its three
  mutable fields, and the value types the generator queries. A field's
  type is abstracted to its kind, its printed name, and its two
  assignability facts.
- `Strategy` (strategy.dfy): the classification chain, proved equal to a
  first-match search over an explicit precedence list.
- `Emitter` (emitter.dfy): the generated statements as a datatype. The
  `createBundleFun` loop is an imperative method reading the objects
  through their getters, proved to produce `EmitBody` of the values the
  objects hold.
- `Injection` (injection.dfy): a small semantics of the generated
  statements over a bundle and the target's fields. It is used to prove
  what the generated method does at run time.
- `Collector` (collector.dfy): key resolution and the grouping, specified
  by functions over the sequence of tagged fields.
- `Naming` (naming.dfy): `getClassName` and the companion's name.
- `Processor` (processor.dfy): `process` as two imperative loops.
  - The first allocates the `BundleFieldInfo` objects with `new` into a map
    of sequences.
  - The second visits the map's keys in an unspecified order, chosen with
    `:|`.

One would expect distinct qualified names to give distinct companion
names. `getClassName` does not ensure this, in two ways:

- It turns every `.` after the package into `_`, so a top-level `a.B_C` and
  a nested `a.B.C` both get `B_C$$BundleInit`
  (`Naming.NestedAndUnderscoreNamesCollide`).
- It always drops the package name plus one character. In the unnamed
  package the package name is "", so the first character of the type's
  name is lost, and `AFoo` and `BFoo` both get `Foo$$BundleInit`
  (`Naming.DefaultPackageNamesCollide`).

The model follows the code and proves both collisions. It also proves that
in a named package, names without `_` do not collide
(`Naming.CompanionNameInjective`).

## Model

| member | source | states |
|---|---|---|
| FieldInfo.BundleFieldInfo.constructor | bundleProcessor/src/main/java/com/zyc/bundle/processor/BundleFieldInfo.java:15-19 | the new object holds exactly the type, field name and key it was given |
| FieldInfo.BundleFieldInfo.GetTypeMirror | bundleProcessor/src/main/java/com/zyc/bundle/processor/BundleFieldInfo.java:21-23 | returns the stored type |
| FieldInfo.BundleFieldInfo.SetTypeMirror | bundleProcessor/src/main/java/com/zyc/bundle/processor/BundleFieldInfo.java:25-27 | replaces the type and leaves the other two fields unchanged |
| FieldInfo.BundleFieldInfo.GetFieldName | bundleProcessor/src/main/java/com/zyc/bundle/processor/BundleFieldInfo.java:29-31 | returns the stored field name |
| FieldInfo.BundleFieldInfo.SetFieldName | bundleProcessor/src/main/java/com/zyc/bundle/processor/BundleFieldInfo.java:33-35 | replaces the field name and leaves the other two fields unchanged |
| FieldInfo.BundleFieldInfo.GetBundleName | bundleProcessor/src/main/java/com/zyc/bundle/processor/BundleFieldInfo.java:37-39 | returns the stored key |
| FieldInfo.BundleFieldInfo.SetBundleName | bundleProcessor/src/main/java/com/zyc/bundle/processor/BundleFieldInfo.java:41-43 | replaces the key and leaves the other two fields unchanged |
| FieldInfo.Values | bundleProcessor/src/main/java/com/zyc/bundle/processor/BundleFieldInfo.java:10-13 | a list of records, read as values: same length, and position k holds what object k holds |
| Collector.BundleKey | bundleProcessor/src/main/java/com/zyc/bundle/processor/BundleProcessor.java:80-83 | the key is the tag's name when that is non-empty and the field name otherwise; it is empty only when both are |
| Collector.Describe | bundleProcessor/src/main/java/com/zyc/bundle/processor/BundleProcessor.java:76-84 | the record made for a tagged field carries its type, its simple name and its resolved key |
| Collector.Collect | bundleProcessor/src/main/java/com/zyc/bundle/processor/BundleProcessor.java:74-86 | the grouping built one element at a time: every list in it is non-empty and no longer than the number of tagged fields |
| Collector.CollectGroupsByOwner | bundleProcessor/src/main/java/com/zyc/bundle/processor/BundleProcessor.java:74-86 | the grouping has an entry for exactly the types enclosing some tagged field; each entry is non-empty and lists that type's fields in encounter order |
| Collector.OwnersOfCollect | bundleProcessor/src/main/java/com/zyc/bundle/processor/BundleProcessor.java:74-77 | the grouping's keys are the enclosing types, each counted once |
| Collector.CollectKeepsEveryElement | bundleProcessor/src/main/java/com/zyc/bundle/processor/BundleProcessor.java:74-86 | the entries' lengths add up to the number of tagged fields, so no field is lost or duplicated |
| Collector.OwnedByMembers | bundleProcessor/src/main/java/com/zyc/bundle/processor/BundleProcessor.java:75-85 | a record is in a type's list iff it describes one of that type's tagged fields |
| Collector.OwnedByDistinctNames | bundleProcessor/src/main/java/com/zyc/bundle/processor/BundleProcessor.java:75-85 | when a type does not declare two fields with the same name, the names in its list are distinct |
| Strategy.Classify | bundleProcessor/src/main/java/com/zyc/bundle/processor/BundleProcessor.java:150-185 | a field gets a primitive category exactly when its kind is one of the five primitive kinds, and no category exactly when it is none of them, is not `java.lang.String`, and is neither Serializable nor Parcelable |
| Strategy.ReferenceTail | bundleProcessor/src/main/java/com/zyc/bundle/processor/BundleProcessor.java:165-185 | after the primitive tests, the String test wins over Serializable, which wins over Parcelable; a type passing none is unsupported |
| Strategy.ClassifyIsFirstMatch | bundleProcessor/src/main/java/com/zyc/bundle/processor/BundleProcessor.java:150-185 | the if-chain equals a first-match search over the precedence list int, long, float, double, boolean, String, Serializable, Parcelable |
| Strategy.FirstMatchIsFirst | bundleProcessor/src/main/java/com/zyc/bundle/processor/BundleProcessor.java:150-185 | a first-match search returns a category whose test passes and whose predecessors' tests all fail, and returns unsupported iff no test passes |
| Strategy.ClassifyByPrecedence | bundleProcessor/src/main/java/com/zyc/bundle/processor/BundleProcessor.java:150-185 | a field gets the first category in precedence order whose test it passes, and no category iff it passes none |
| Strategy.SerializableBeforeParcelable | bundleProcessor/src/main/java/com/zyc/bundle/processor/BundleProcessor.java:171-184 | a non-primitive, non-String type that is both Serializable and Parcelable is read as Serializable |
| Emitter.Block | bundleProcessor/src/main/java/com/zyc/bundle/processor/BundleProcessor.java:150-185 | a field's statements: none for an unsupported type, one for a primitive, two for a reference type; the first reads the field's key with its category's accessor, no guard is among them, and only the field itself is assigned |
| Emitter.Blocks | bundleProcessor/src/main/java/com/zyc/bundle/processor/BundleProcessor.java:147-187 | the statements of all fields together: at most two per field, and no null guard among them |
| Emitter.EmitBody | bundleProcessor/src/main/java/com/zyc/bundle/processor/BundleProcessor.java:143-187 | the body of injectBundle: it starts with the null guard, has no other guard, and has at most two statements per field after it |
| Emitter.FieldStatements | bundleProcessor/src/main/java/com/zyc/bundle/processor/BundleProcessor.java:150-185 | the statements added for one record are the block its category selects: one defaulted assignment for a primitive, a local and a guarded assignment for a reference type, nothing for an unsupported type |
| Emitter.CreateBundleFun | bundleProcessor/src/main/java/com/zyc/bundle/processor/BundleProcessor.java:131-189 | the generated method targets the given type; its body is the null guard followed by one block per record of the list, in list order |
| Emitter.BlockLocals | bundleProcessor/src/main/java/com/zyc/bundle/processor/BundleProcessor.java:165-184 | one field's block declares a local named after the field exactly when the field is String, Serializable or Parcelable |
| Emitter.DeclaredLocalsAreReferenceFields | bundleProcessor/src/main/java/com/zyc/bundle/processor/BundleProcessor.java:143-185 | the generated body declares a local named x iff some String, Serializable or Parcelable field is named x; so a field named `bundle` or `target` redeclares a parameter |
| Injection.EffectOfField | bundleProcessor/src/main/java/com/zyc/bundle/processor/BundleProcessor.java:150-185 | a field keeps its value when its key is missing, the stored value has the wrong type, or its type is unsupported; otherwise it takes the stored value |
| Injection.ExecBlock | bundleProcessor/src/main/java/com/zyc/bundle/processor/BundleProcessor.java:150-185 | one field's block, run with a bundle, completes and changes the target only as that field's effect says |
| Injection.ExecBlocks | bundleProcessor/src/main/java/com/zyc/bundle/processor/BundleProcessor.java:147-187 | all blocks, run with a bundle on a target that has the written fields, complete and apply the fields' effects in order |
| Injection.InjectWithNullBundle | bundleProcessor/src/main/java/com/zyc/bundle/processor/BundleProcessor.java:143-145 | with a null bundle the generated method returns normally and changes no field |
| Injection.BlocksWithNullBundle | bundleProcessor/src/main/java/com/zyc/bundle/processor/BundleProcessor.java:143-185 | without the guard, a null bundle makes the body throw as soon as one field is supported, so the guard is needed |
| Injection.InjectWithBundle | bundleProcessor/src/main/java/com/zyc/bundle/processor/BundleProcessor.java:143-187 | with a bundle the generated method returns normally with the target that the fields' effects give, applied in order |
| Injection.ApplyAllUntouched | bundleProcessor/src/main/java/com/zyc/bundle/processor/BundleProcessor.java:147-187 | a target field that no record names keeps its value |
| Injection.ApplyAllNamed | bundleProcessor/src/main/java/com/zyc/bundle/processor/BundleProcessor.java:147-187 | with distinct field names, each named field ends up with its own record's effect |
| Injection.InjectorBehaviour | bundleProcessor/src/main/java/com/zyc/bundle/processor/BundleProcessor.java:143-187 | with a bundle the generated method completes, keeps the target's fields, gives each tagged field its effect, and leaves every other field unchanged |
| Injection.ScreenExample | bundleProcessor/src/main/java/com/zyc/bundle/processor/BundleProcessor.java:150-170 | an int `count` tagged without a name keeps 5 when its key is missing, and a String `title` tagged "t" takes "Hello" |
| Naming.ReplaceDots | bundleProcessor/src/main/java/com/zyc/bundle/processor/BundleProcessor.java:124 | `replace(".", "_")`: same length, every '.' becomes '_' and every other character is kept |
| Naming.GetClassName | bundleProcessor/src/main/java/com/zyc/bundle/processor/BundleProcessor.java:121-125 | the qualified name minus its first package-length + 1 characters, with '.' turned into '_'; the result contains no '.' |
| Naming.CompanionName | bundleProcessor/src/main/java/com/zyc/bundle/processor/BundleProcessor.java:100 | the companion's simple name is the class name followed by `$$BundleInit`, and it contains no '.' |
| Naming.CompanionNameOfType | bundleProcessor/src/main/java/com/zyc/bundle/processor/BundleProcessor.java:121-125 | for a type in a named package, the class name is built from the part after the package and its dot |
| Naming.DefaultPackageDropsFirstCharacter | bundleProcessor/src/main/java/com/zyc/bundle/processor/BundleProcessor.java:121-125 | a type in the unnamed package still loses one character: `MainActivity` gives `ainActivity` |
| Naming.NestedAndUnderscoreNamesCollide | bundleProcessor/src/main/java/com/zyc/bundle/processor/BundleProcessor.java:121-125 | `a.B_C` and the nested `a.B.C` get the same companion name |
| Naming.DefaultPackageNamesCollide | bundleProcessor/src/main/java/com/zyc/bundle/processor/BundleProcessor.java:121-125 | in the unnamed package, `AFoo` and `BFoo` get the same companion name |
| Naming.CompanionNameInjective | bundleProcessor/src/main/java/com/zyc/bundle/processor/BundleProcessor.java:121-125 | within one named package, names without '_' give distinct companion names |
| Processor.CompanionShape | bundleProcessor/src/main/java/com/zyc/bundle/processor/BundleProcessor.java:93-104 | the companion of a type sits in the type's package; its simple name has no '.' and ends with `$$BundleInit`; its method takes the type as its target, and its body starts with the null guard and has no other |
| Processor.GroupedStep | bundleProcessor/src/main/java/com/zyc/bundle/processor/BundleProcessor.java:76-85 | filing a new record under its field's enclosing type keeps the map grouped: one entry per owner seen so far, each holding that owner's records in order |
| Processor.PickedDescriptors | bundleProcessor/src/main/java/com/zyc/bundle/processor/BundleProcessor.java:75-85 | when each created object holds its field's record, the objects filed under a type hold exactly that type's records, in order |
| Processor.CollectFields | bundleProcessor/src/main/java/com/zyc/bundle/processor/BundleProcessor.java:74-86 | the map has an entry for exactly the enclosing types; each entry is non-empty, and its objects hold that type's records in encounter order, with keys resolved |
| Processor.BuildCompanion | bundleProcessor/src/main/java/com/zyc/bundle/processor/BundleProcessor.java:93-104 | the file for one type is its companion: in the type's package, named after the type with `$$BundleInit`, with the injectBundle method over the list's records |
| Processor.GenerateFiles | bundleProcessor/src/main/java/com/zyc/bundle/processor/BundleProcessor.java:88-110 | one file per type with a non-empty list, no type twice, each file being that type's companion; types with empty lists are skipped |
| Processor.EmitSkip | bundleProcessor/src/main/java/com/zyc/bundle/processor/BundleProcessor.java:89-92 | an owner whose list is empty is skipped, and what was written stays correct |
| Processor.EmitOne | bundleProcessor/src/main/java/com/zyc/bundle/processor/BundleProcessor.java:93-104 | writing an owner's companion keeps the files one per owner, no owner twice, each file that owner's companion |
| Processor.FilesPerOwner | bundleProcessor/src/main/java/com/zyc/bundle/processor/BundleProcessor.java:71-112 | if the files are one per owner of a tagged field and no owner is repeated, then there are as many files as distinct owners, and each owner's companion is among them |
| Processor.Process | bundleProcessor/src/main/java/com/zyc/bundle/processor/BundleProcessor.java:71-112 | one round writes exactly one file per type enclosing a tagged field, never two for the same type, each built from that type's records in encounter order; so there are as many files as distinct enclosing types, and each such type's companion is among them |
| Processor.CompanionInjects | bundleProcessor/src/main/java/com/zyc/bundle/processor/BundleProcessor.java:71-189 | the body of a type's companion changes nothing with a null bundle; with a bundle it completes, gives each of the type's tagged fields its effect, and leaves every other field alone |

## Left out

- Writing the files through the `Filer` and the caught `IOException`
  (lines 105-109) are not modelled. `Process` returns the files it would
  write, in writing order.
- JavaPoet's rendering to text is not modelled. The model keeps the
  statements as a datatype, and it drops the local's declared Java type and
  the `(T)` cast in the Serializable and Parcelable blocks.
- The `(T)` down-cast is assumed to succeed, since the stored object is
  taken to have the field's type.
- The generated method is assumed to be called with a non-null `target`.
- The Android `Bundle` accessors are outside this repository. Their
  contract is assumed in `Injection.Read`: the stored value if the key
  holds a value of the accessor's type, and the fallback (or null)
  otherwise.
- Float and double values are opaque payloads; no floating-point
  arithmetic takes place.
- The compiler's element and type queries (`asType`, `getKind`,
  `toString`, `isAssignable`, `getEnclosingElement`, `getPackageOf`) are
  abstracted into the fields of `FieldType`, `TaggedField` and `Owner`.
  `getPackageName` (lines 115-118) becomes `Owner.packageName`.
- `init`, `getSupportedAnnotationTypes` and `getSupportedSourceVersion` are
  not modelled. They are framework plumbing with nothing to prove.
- `createGetListFun` and `getTypeName` are not modelled: nothing calls
  them.
- The iteration order of the `HashMap` is not modelled; any order is
  allowed. The order in which the compiler reports tagged elements is
  taken as the input sequence.
- `process` always returns `true`; the model has no such result.
- The lists in the map are `ArrayList`s that the first loop mutates
  through the reference `computeIfAbsent` returns. The model stores them as
  sequence values that the loop replaces, so aliasing between lists is not
  modelled. The `BundleFieldInfo` objects themselves are heap objects.
- `bindingList == null` (line 90) cannot happen, because the first loop
  never stores null. Only the empty-list test is modelled.
- CompanionInjects: the semantics runs the generated body as if the
  companion class compiles. javac rejects it in several cases that the
  model runs anyway:
  - a String, Serializable or Parcelable field named `bundle` or `target`,
    whose local redeclares a parameter (`Emitter.DeclaredLocalsAreReferenceFields`
    identifies these);
  - a private or final tagged field;
  - a `char`, `short` or `byte` field, which reaches the Serializable block
    through boxing and then meets `!= null` on a primitive.

  Field visibility and modifiers are not part of the model, so its
  "completes" promise covers only fields for which the generated class
  compiles.
- InjectorBehaviour and InjectWithBundle: the same assumption that the
  generated class compiles applies.
- `Process` requires only what the compiler guarantees: every owner's
  qualified name is longer than its package name (`ValidOwner`). A type in
  the unnamed package, whose package name is "", still meets this.
- `CompanionInjects` requires two things the Java compiler guarantees: a
  type never declares two fields with the same name, and every supported
  tagged field exists on the target.
