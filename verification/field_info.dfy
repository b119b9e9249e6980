/** The record the processor builds for every tagged field (BundleFieldInfo),
    and the abstract view of a field's static type that the generator queries. */
module FieldInfo {

  /** The kind of a field's declared type as the compiler's type model reports
      it. Only the five primitive kinds the generator tests for are told apart;
      every other kind (declared classes, arrays, char, short, byte, ...) is Other. */
  datatype TypeKind = Int | Long | Float | Double | Boolean | Other

  /** What the generator asks of a field's static type: its kind, its printed
      name, and whether it is assignable to java.io.Serializable and to
      android.os.Parcelable. */
  datatype FieldType = FieldType(kind: TypeKind, name: string, serializable: bool, parcelable: bool)

  /** The value a BundleFieldInfo holds: the field's type, its simple name and
      the key under which its value is looked up in the Bundle. */
  datatype FieldDescriptor = FieldDescriptor(fieldType: FieldType, fieldName: string, bundleName: string)

  class BundleFieldInfo {
    var typeMirror: FieldType
    var fieldName: string
    var bundleName: string

    /** The descriptor this object currently holds. */
    function View(): FieldDescriptor
      reads this
    {
      FieldDescriptor(typeMirror, fieldName, bundleName)
    }

    constructor (typeMirror: FieldType, fieldName: string, bundleName: string)
      ensures this.typeMirror == typeMirror
      ensures this.fieldName == fieldName
      ensures this.bundleName == bundleName
    {
      this.typeMirror := typeMirror;
      this.fieldName := fieldName;
      this.bundleName := bundleName;
    }

    method GetTypeMirror() returns (t: FieldType)
      ensures t == typeMirror
    {
      t := typeMirror;
    }

    method SetTypeMirror(t: FieldType)
      modifies this
      ensures typeMirror == t
      ensures fieldName == old(fieldName) && bundleName == old(bundleName)
    {
      typeMirror := t;
    }

    method GetFieldName() returns (name: string)
      ensures name == fieldName
    {
      name := fieldName;
    }

    method SetFieldName(name: string)
      modifies this
      ensures fieldName == name
      ensures typeMirror == old(typeMirror) && bundleName == old(bundleName)
    {
      fieldName := name;
    }

    method GetBundleName() returns (name: string)
      ensures name == bundleName
    {
      name := bundleName;
    }

    method SetBundleName(name: string)
      modifies this
      ensures bundleName == name
      ensures typeMirror == old(typeMirror) && fieldName == old(fieldName)
    {
      bundleName := name;
    }
  }

  /** The descriptors held by a list of BundleFieldInfo objects, in list order. */
  function Values(infos: seq<BundleFieldInfo>): (ds: seq<FieldDescriptor>)
    reads infos
    ensures |ds| == |infos|
    ensures forall k :: 0 <= k < |infos| ==> ds[k] == infos[k].View()
  {
    if infos == [] then [] else Values(infos[..|infos| - 1]) + [infos[|infos| - 1].View()]
  }
}
