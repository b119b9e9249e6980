/** The name of the companion class generated for an owning type. */
module Naming {

  /** The marker appended to the companion's name. */
  const Suffix := "$$BundleInit"

  /** s with every '.' turned into '_'. */
  function ReplaceDots(s: string): (r: string)
    ensures |r| == |s|
    ensures forall i :: 0 <= i < |s| ==> r[i] == (if s[i] == '.' then '_' else s[i])
  {
    if s == [] then []
    else
      var c := s[|s| - 1];
      ReplaceDots(s[..|s| - 1]) + [if c == '.' then '_' else c]
  }

  /** The qualified name with its first |packageName| + 1 characters dropped
      (the package and the dot after it) and every remaining '.' (the
      separators of nested classes) turned into '_'. */
  function GetClassName(packageName: string, qualifiedName: string): (r: string)
    requires |packageName| + 1 <= |qualifiedName|
    ensures |r| == |qualifiedName| - |packageName| - 1
    ensures '.' !in r
    ensures forall i :: 0 <= i < |r| ==>
      r[i] == (if qualifiedName[|packageName| + 1 + i] == '.' then '_' else qualifiedName[|packageName| + 1 + i])
  {
    ReplaceDots(qualifiedName[|packageName| + 1..])
  }

  /** The simple name of the companion class of an owning type. */
  function CompanionName(packageName: string, qualifiedName: string): (r: string)
    requires |packageName| + 1 <= |qualifiedName|
    ensures '.' !in r
    ensures |r| == |qualifiedName| - |packageName| - 1 + |Suffix|
    ensures r[|r| - |Suffix|..] == Suffix
  {
    GetClassName(packageName, qualifiedName) + Suffix
  }

  /** For a type in a named package, the companion's name is built from the
      part of the qualified name after the package and its dot. */
  lemma CompanionNameOfType(packageName: string, rest: string)
    requires packageName != ""
    ensures GetClassName(packageName, packageName + "." + rest) == ReplaceDots(rest)
  {
    assert (packageName + "." + rest)[|packageName| + 1..] == rest;
  }

  /** A top-level type in the unnamed package has the package name "", and
      its name still loses one character. */
  lemma DefaultPackageDropsFirstCharacter()
    ensures GetClassName("", "MainActivity") == "ainActivity"
  {
    assert "MainActivity"[1..] == "ainActivity";
    assert ReplaceDots("ainActivity") == "ainActivity";
  }

  /** Two top-level types of the unnamed package that differ only in their
      first character get the same companion name. */
  lemma DefaultPackageNamesCollide()
    ensures "AFoo" != "BFoo"
    ensures CompanionName("", "AFoo") == CompanionName("", "BFoo")
  {
    var n1, n2 := GetClassName("", "AFoo"), GetClassName("", "BFoo");
    assert |n1| == |n2| == 3;
    assert n1[0] == n2[0] == 'F';
    assert n1[1] == n2[1] == 'o';
    assert n1[2] == n2[2] == 'o';
    assert n1 == n2;
  }

  /** A top-level class B_C and a class C nested in B, in the same package,
      get the same companion name. */
  lemma NestedAndUnderscoreNamesCollide()
    ensures "a.B_C" != "a.B.C"
    ensures CompanionName("a", "a.B_C") == CompanionName("a", "a.B.C")
  {
    var n1, n2 := GetClassName("a", "a.B_C"), GetClassName("a", "a.B.C");
    assert |n1| == |n2| == 3;
    assert n1[0] == n2[0] == 'B';
    assert n1[1] == n2[1] == '_';
    assert n1[2] == n2[2] == 'C';
    assert n1 == n2;
  }

  /** Without '_' in the names, two types of the same named package never
      share a companion name. */
  lemma CompanionNameInjective(packageName: string, rest1: string, rest2: string)
    requires packageName != ""
    requires '_' !in rest1 && '_' !in rest2
    requires CompanionName(packageName, packageName + "." + rest1) == CompanionName(packageName, packageName + "." + rest2)
    ensures rest1 == rest2
  {
    var q1, q2 := packageName + "." + rest1, packageName + "." + rest2;
    var n1, n2 := GetClassName(packageName, q1), GetClassName(packageName, q2);
    assert q1[|packageName| + 1..] == rest1;
    assert q2[|packageName| + 1..] == rest2;
    assert n1 == CompanionName(packageName, q1)[..|n1|];
    assert n2 == CompanionName(packageName, q2)[..|n2|];
    forall i | 0 <= i < |rest1| ensures rest1[i] == rest2[i] {
      assert rest1[i] == q1[|packageName| + 1 + i];
      assert rest2[i] == q2[|packageName| + 1 + i];
      assert rest1[i] != '_' && rest2[i] != '_';
    }
  }
}
