/** One processing round: collect the tagged fields into BundleFieldInfo
    lists grouped by owning type, then generate one companion file per owner. */
module Processor {
  import opened FieldInfo
  import opened Emitter
  import opened Collector
  import opened Naming
  import opened Strategy
  import opened Injection

  /** The package name is a proper prefix of the qualified name, leaving room
      for the separating dot, as the compiler's element model guarantees. */
  predicate ValidOwner(o: Owner)
  {
    |o.packageName| + 1 <= |o.qualifiedName|
  }

  /** The file generated for an owner with descriptor list ds: a class named
      after the owner with the $$BundleInit marker, in the owner's package,
      whose injectBundle method takes the owner as its target. */
  function Companion(o: Owner, ds: seq<FieldDescriptor>): JavaFile
    requires ValidOwner(o)
  {
    JavaFile(o.packageName, TypeSpec(CompanionName(o.packageName, o.qualifiedName), InjectMethod(o.qualifiedName, EmitBody(ds))))
  }

  /** The companion sits in the owner's package, its simple name has no '.'
      and ends with the marker, its method takes the owner as its target, and
      the method's body starts with the null guard, which occurs nowhere else. */
  lemma CompanionShape(o: Owner, ds: seq<FieldDescriptor>)
    requires ValidOwner(o)
    ensures var f := Companion(o, ds);
      f.packageName == o.packageName && f.typeSpec.injectBundle.targetType == o.qualifiedName
      && '.' !in f.typeSpec.name && |Suffix| <= |f.typeSpec.name|
      && f.typeSpec.name[|f.typeSpec.name| - |Suffix|..] == Suffix
      && |f.typeSpec.injectBundle.body| >= 1 && f.typeSpec.injectBundle.body[0] == ReturnIfNull
      && ReturnIfNull !in f.typeSpec.injectBundle.body[1..]
  {
  }

  /** The objects of infos whose element in es (the element at the same
      position) is enclosed by o, in order. */
  function Pick(infos: seq<BundleFieldInfo>, es: seq<TaggedField>, o: Owner): seq<BundleFieldInfo>
    requires |infos| == |es|
  {
    if es == [] then []
    else Pick(infos[..|infos| - 1], es[..|es| - 1], o) + (if es[|es| - 1].owner == o then [infos[|infos| - 1]] else [])
  }

  /** Taking one more element: its owner joins the owners, and its object
      joins the objects picked for that owner. */
  lemma PrefixStep(infos: seq<BundleFieldInfo>, es: seq<TaggedField>, i: nat, x: BundleFieldInfo)
    requires |infos| == i < |es|
    ensures forall o :: o in Owners(es[..i + 1]) <==> o in Owners(es[..i]) || o == es[i].owner
    ensures forall o :: Pick(infos + [x], es[..i + 1], o) == Pick(infos, es[..i], o) + (if es[i].owner == o then [x] else [])
  {
    var p, q := es[..i + 1], infos + [x];
    assert p[..|p| - 1] == es[..i] && p[|p| - 1] == es[i];
    assert q[..|q| - 1] == infos && q[|q| - 1] == x;
    assert Owners(p) == var os := Owners(es[..i]); if es[i].owner in os then os else os + [es[i].owner];
    forall o ensures Pick(q, p, o) == Pick(infos, es[..i], o) + (if es[i].owner == o then [x] else []) {
    }
  }

  lemma {:induction false} PickAbsent(infos: seq<BundleFieldInfo>, es: seq<TaggedField>, o: Owner)
    requires |infos| == |es|
    requires o !in Owners(es)
    ensures Pick(infos, es, o) == []
  {
    if es != [] {
      var n := |es| - 1;
      PickAbsent(infos[..n], es[..n], o);
    }
  }

  lemma ValuesSnoc(infos: seq<BundleFieldInfo>, x: BundleFieldInfo)
    ensures Values(infos + [x]) == Values(infos) + [x.View()]
  {
  }

  /** The object holds the descriptor of the element. */
  predicate Holds(info: BundleFieldInfo, e: TaggedField)
    reads info
  {
    info.typeMirror == e.fieldType && info.fieldName == e.simpleName && info.bundleName == BundleKey(e.tagName, e.simpleName)
  }

  /** When each object holds the descriptor of its element, the objects picked
      for o hold the descriptors of o's elements. */
  lemma {:induction false} PickedDescriptors(infos: seq<BundleFieldInfo>, es: seq<TaggedField>, o: Owner)
    requires |infos| == |es|
    requires forall j :: 0 <= j < |es| ==> Holds(infos[j], es[j])
    ensures Values(Pick(infos, es, o)) == OwnedBy(es, o)
  {
    if es != [] {
      var n := |es| - 1;
      PickedDescriptors(infos[..n], es[..n], o);
      if es[n].owner == o {
        ValuesSnoc(Pick(infos[..n], es[..n], o), infos[n]);
      } else {
        assert Pick(infos, es, o) == Pick(infos[..n], es[..n], o);
      }
    }
  }

  /** The map built so far groups the objects made for es by owner: it has an
      entry for exactly the owners of es, holding their objects in order. */
  ghost predicate Grouped(cacheMap: map<Owner, seq<BundleFieldInfo>>, made: seq<BundleFieldInfo>, es: seq<TaggedField>)
  {
    |made| == |es|
    && (forall o :: o in cacheMap <==> o in Owners(es))
    && (forall o :: o in cacheMap ==> cacheMap[o] == Pick(made, es, o))
  }

  /** Filing the object made for element i under its owner keeps the grouping. */
  lemma GroupedStep(cacheMap: map<Owner, seq<BundleFieldInfo>>, made: seq<BundleFieldInfo>, es: seq<TaggedField>, i: nat, x: BundleFieldInfo)
    requires i < |es| && Grouped(cacheMap, made, es[..i])
    ensures var o := es[i].owner;
      Grouped(cacheMap[o := (if o in cacheMap then cacheMap[o] else []) + [x]], made + [x], es[..i + 1])
  {
    var o := es[i].owner;
    var list := if o in cacheMap then cacheMap[o] else [];
    if o !in cacheMap {
      PickAbsent(made, es[..i], o);
    }
    PrefixStep(made, es, i, x);
    var m := cacheMap[o := list + [x]];
    forall p | p in m ensures m[p] == Pick(made + [x], es[..i + 1], p) {
      if p != o { assert p in cacheMap; }
    }
  }

  /** The first loop of a round: one BundleFieldInfo per tagged element,
      appended to the list of its enclosing type, the list being created on
      the type's first element. Each list holds the descriptors of its
      owner's elements, in encounter order. */
  method CollectFields(elements: seq<TaggedField>) returns (cacheMap: map<Owner, seq<BundleFieldInfo>>)
    ensures forall o :: o in cacheMap <==> exists i :: 0 <= i < |elements| && elements[i].owner == o
    ensures forall o :: o in cacheMap ==> Values(cacheMap[o]) == OwnedBy(elements, o) && |cacheMap[o]| > 0
  {
    cacheMap := map[];
    ghost var made: seq<BundleFieldInfo> := [];
    var i := 0;
    while i < |elements|
      invariant 0 <= i <= |elements| && |made| == i
      invariant forall j :: 0 <= j < i ==> Holds(made[j], elements[j])
      invariant Grouped(cacheMap, made, elements[..i])
    {
      var element := elements[i];
      var enclosingElement := element.owner;
      var fieldList := if enclosingElement in cacheMap then cacheMap[enclosingElement] else [];
      var typeMirror := element.fieldType;
      var fieldName := element.simpleName;
      var bundleName := element.tagName;
      if bundleName == "" {
        bundleName := fieldName;
      }
      var bundleFieldInfo := new BundleFieldInfo(typeMirror, fieldName, bundleName);
      GroupedStep(cacheMap, made, elements, i, bundleFieldInfo);
      cacheMap := cacheMap[enclosingElement := fieldList + [bundleFieldInfo]];
      ghost var prev := made;
      made := made + [bundleFieldInfo];
      forall j | 0 <= j < i + 1 ensures Holds(made[j], elements[j]) {
        if j < i { assert made[j] == prev[j]; }
      }
      i := i + 1;
    }
    assert elements[..i] == elements;
    CollectGroupsByOwner(elements);
    OwnersOfCollect(elements);
    forall o | o in cacheMap ensures Values(cacheMap[o]) == OwnedBy(elements, o) {
      PickedDescriptors(made, elements, o);
    }
  }

  /** The body of the second loop for an owner with a non-empty list: the
      companion's name, its injectBundle method, and the file holding them. */
  method BuildCompanion(entry: Owner, bindingList: seq<BundleFieldInfo>, ghost ds: seq<FieldDescriptor>) returns (javaFile: JavaFile)
    requires ValidOwner(entry) && Values(bindingList) == ds
    ensures javaFile == Companion(entry, ds)
  {
    var packageName := entry.packageName;
    var classNameStr := GetClassName(packageName, entry.qualifiedName);
    var targetType := entry.qualifiedName;
    var injectBundle := CreateBundleFun(targetType, bindingList);
    var typeSpec := TypeSpec(classNameStr + Suffix, injectBundle);
    javaFile := JavaFile(packageName, typeSpec);
  }

  /** The files written so far: one companion for each owner with a
      non-empty list that is no longer pending, no owner twice. */
  ghost predicate Emitted(cacheMap: map<Owner, seq<BundleFieldInfo>>, views: map<Owner, seq<FieldDescriptor>>,
                          pending: set<Owner>, written: seq<JavaFile>, emittedFor: seq<Owner>)
  {
    |written| == |emittedFor|
    && NoDuplicates(emittedFor)
    && (forall o :: o in emittedFor <==> o in cacheMap && o !in pending && |cacheMap[o]| > 0)
    && (forall j :: 0 <= j < |written| ==>
          emittedFor[j] in cacheMap && emittedFor[j] in views && ValidOwner(emittedFor[j])
          && written[j] == Companion(emittedFor[j], views[emittedFor[j]]))
  }

  /** Visiting an owner with an empty list writes nothing. */
  lemma EmitSkip(cacheMap: map<Owner, seq<BundleFieldInfo>>, views: map<Owner, seq<FieldDescriptor>>,
                 pending: set<Owner>, written: seq<JavaFile>, emittedFor: seq<Owner>, entry: Owner)
    requires Emitted(cacheMap, views, pending, written, emittedFor)
    requires entry in pending && entry in cacheMap && |cacheMap[entry]| == 0
    ensures Emitted(cacheMap, views, pending - {entry}, written, emittedFor)
  {
  }

  /** Visiting an owner with a non-empty list writes its companion. */
  lemma EmitOne(cacheMap: map<Owner, seq<BundleFieldInfo>>, views: map<Owner, seq<FieldDescriptor>>,
                pending: set<Owner>, written: seq<JavaFile>, emittedFor: seq<Owner>, entry: Owner, f: JavaFile)
    requires Emitted(cacheMap, views, pending, written, emittedFor)
    requires entry in pending && entry in cacheMap && |cacheMap[entry]| > 0
    requires entry in views && ValidOwner(entry) && f == Companion(entry, views[entry])
    ensures Emitted(cacheMap, views, pending - {entry}, written + [f], emittedFor + [entry])
  {
    var w, e := written + [f], emittedFor + [entry];
    assert entry !in emittedFor;
    forall j, k | 0 <= j < k < |e| ensures e[j] != e[k] {
      assert e[j] == emittedFor[j];
      if k < |emittedFor| { assert e[k] == emittedFor[k]; }
    }
    forall j | 0 <= j < |w|
      ensures e[j] in cacheMap && e[j] in views && ValidOwner(e[j]) && w[j] == Companion(e[j], views[e[j]])
    {
      if j < |written| {
        assert w[j] == written[j] && e[j] == emittedFor[j];
      }
    }
  }

  /** The second loop of a round: owners are visited in an unspecified order;
      an owner with an empty list is skipped, every other owner yields one
      file built from the descriptors its objects hold (views gives them). */
  method GenerateFiles(cacheMap: map<Owner, seq<BundleFieldInfo>>, ghost views: map<Owner, seq<FieldDescriptor>>)
    returns (written: seq<JavaFile>, ghost emittedFor: seq<Owner>)
    requires forall o :: o in cacheMap ==> ValidOwner(o) && o in views && Values(cacheMap[o]) == views[o]
    ensures |written| == |emittedFor|
    ensures NoDuplicates(emittedFor)
    ensures forall o :: o in emittedFor <==> o in cacheMap && |cacheMap[o]| > 0
    ensures forall j :: 0 <= j < |written| ==>
      emittedFor[j] in cacheMap && written[j] == Companion(emittedFor[j], views[emittedFor[j]])
  {
    written, emittedFor := [], [];
    var pending := cacheMap.Keys;
    while pending != {}
      invariant pending <= cacheMap.Keys
      invariant Emitted(cacheMap, views, pending, written, emittedFor)
      decreases pending
    {
      var entry :| entry in pending;
      ghost var before := pending;
      pending := pending - {entry};
      var bindingList := cacheMap[entry];
      if |bindingList| == 0 {
        EmitSkip(cacheMap, views, before, written, emittedFor, entry);
        continue;
      }
      var javaFile := BuildCompanion(entry, bindingList, views[entry]);
      EmitOne(cacheMap, views, before, written, emittedFor, entry, javaFile);
      written := written + [javaFile];
      emittedFor := emittedFor + [entry];
    }
  }

  /** One round over the tagged elements, in the order the compiler hands
      them over: every owner of a tagged element gets exactly one file, built
      from the descriptors of its own fields in encounter order. */
  method Process(elements: seq<TaggedField>) returns (written: seq<JavaFile>, ghost emittedFor: seq<Owner>)
    requires forall i :: 0 <= i < |elements| ==> ValidOwner(elements[i].owner)
    ensures |written| == |emittedFor|
    ensures NoDuplicates(emittedFor)
    ensures forall o :: o in emittedFor <==> exists i :: 0 <= i < |elements| && elements[i].owner == o
    ensures forall j :: 0 <= j < |written| ==>
      ValidOwner(emittedFor[j]) && written[j] == Companion(emittedFor[j], OwnedBy(elements, emittedFor[j]))
    ensures |written| == |Owners(elements)|
    ensures forall i :: 0 <= i < |elements| ==>
      Companion(elements[i].owner, OwnedBy(elements, elements[i].owner)) in written
  {
    var cacheMap := CollectFields(elements);
    assert forall o :: o in cacheMap ==> ValidOwner(o) by {
      forall o | o in cacheMap ensures ValidOwner(o) {
        var k :| 0 <= k < |elements| && elements[k].owner == o;
      }
    }
    ghost var views := map o | o in cacheMap :: OwnedBy(elements, o);
    written, emittedFor := GenerateFiles(cacheMap, views);
    forall o ensures o in emittedFor <==> exists i :: 0 <= i < |elements| && elements[i].owner == o {
      if o in cacheMap {
        assert |cacheMap[o]| > 0;
      }
    }
    forall j | 0 <= j < |written|
      ensures ValidOwner(emittedFor[j]) && written[j] == Companion(emittedFor[j], OwnedBy(elements, emittedFor[j]))
    {
      assert views[emittedFor[j]] == OwnedBy(elements, emittedFor[j]);
    }
    FilesPerOwner(elements, written, emittedFor);
  }

  /** Files written one per owner, no owner twice, for exactly the owners of
      the elements: there are as many files as distinct owners, and each
      owner's companion is among them. */
  lemma FilesPerOwner(elements: seq<TaggedField>, written: seq<JavaFile>, emittedFor: seq<Owner>)
    requires |written| == |emittedFor| && NoDuplicates(emittedFor)
    requires forall o :: o in emittedFor <==> exists i :: 0 <= i < |elements| && elements[i].owner == o
    requires forall j :: 0 <= j < |written| ==>
      ValidOwner(emittedFor[j]) && written[j] == Companion(emittedFor[j], OwnedBy(elements, emittedFor[j]))
    ensures |written| == |Owners(elements)|
    ensures forall i :: 0 <= i < |elements| ==>
      ValidOwner(elements[i].owner) && Companion(elements[i].owner, OwnedBy(elements, elements[i].owner)) in written
  {
    CollectGroupsByOwner(elements);
    OwnersOfCollect(elements);
    SameMembersSameLength(emittedFor, Owners(elements));
    forall i | 0 <= i < |elements|
      ensures ValidOwner(elements[i].owner) && Companion(elements[i].owner, OwnedBy(elements, elements[i].owner)) in written
    {
      var o := elements[i].owner;
      assert o in emittedFor;
      var j :| 0 <= j < |emittedFor| && emittedFor[j] == o;
      assert written[j] == Companion(o, OwnedBy(elements, o));
    }
  }

  /** What the generated companion of o does when it runs on a target object
      of o: with a null bundle nothing changes; with a bundle, each of o's
      tagged fields ends up with the Effect of its descriptor and every other
      field keeps its value. */
  lemma CompanionInjects(elements: seq<TaggedField>, o: Owner, entries: map<string, Value>, target: map<string, Value>)
    requires FieldNamesUniquePerOwner(elements)
    requires forall i :: 0 <= i < |elements| && elements[i].owner == o && Classify(elements[i].fieldType) != Unsupported ==>
      elements[i].simpleName in target
    ensures Inject(EmitBody(OwnedBy(elements, o)), NullBundle, target) == Finished(target)
    ensures
      var r := Inject(EmitBody(OwnedBy(elements, o)), Bundle(entries), target);
      r.Finished? && r.target.Keys == target.Keys
      && (forall i :: 0 <= i < |elements| && elements[i].owner == o && elements[i].simpleName in target ==>
            r.target[elements[i].simpleName] == Effect(Describe(elements[i]), entries, target[elements[i].simpleName]))
      && (forall x :: x in target && (forall i :: 0 <= i < |elements| && elements[i].owner == o ==> elements[i].simpleName != x) ==>
            r.target[x] == target[x])
  {
    var ds := OwnedBy(elements, o);
    OwnedByMembers(elements, o);
    OwnedByDistinctNames(elements, o);
    assert Fits(ds, target) by {
      forall k | 0 <= k < |ds| && Classify(ds[k].fieldType) != Unsupported ensures ds[k].fieldName in target {
        assert ds[k] in ds;
      }
    }
    InjectWithNullBundle(ds, target);
    InjectorBehaviour(ds, entries, target);
    var r := Inject(EmitBody(ds), Bundle(entries), target);
    forall i | 0 <= i < |elements| && elements[i].owner == o && elements[i].simpleName in target
      ensures r.target[elements[i].simpleName] == Effect(Describe(elements[i]), entries, target[elements[i].simpleName])
    {
      assert Describe(elements[i]) in ds;
      var k :| 0 <= k < |ds| && ds[k] == Describe(elements[i]);
    }
    forall x | x in target && (forall i :: 0 <= i < |elements| && elements[i].owner == o ==> elements[i].simpleName != x)
      ensures r.target[x] == target[x]
    {
      forall k | 0 <= k < |ds| ensures ds[k].fieldName != x {
        assert ds[k] in ds;
      }
    }
  }
}
