/** The explicit code-unit comparator behind every identity ordering
    (packages/engine/src/playerRegistry.ts). */
module Utf16Order {
  import opened Js

  /** `compareUtf16`: first differing code unit decides, otherwise the shorter string is first. */
  function Compare(a: JsString, b: JsString): int {
    if a == [] || b == [] then |a| - |b|
    else if a[0] != b[0] then a[0] - b[0]
    else Compare(a[1..], b[1..])
  }

  /** The comparator as the source runs it: a scan over the shared length. */
  method CompareUtf16(a: JsString, b: JsString) returns (r: int)
    ensures r == Compare(a, b)
  {
    var shared := if |a| < |b| then |a| else |b|;
    for i := 0 to shared
      invariant Compare(a[i..], b[i..]) == Compare(a, b)
    {
      var diff := (a[i] as int) - (b[i] as int);
      if diff != 0 {
        return diff;
      }
      assert a[i..][1..] == a[i + 1..] && b[i..][1..] == b[i + 1..];
    }
    return |a| - |b|;
  }

  /** Zero only on equal strings, so a sort by this key never merges two identities. */
  lemma {:induction false} ZeroOnlyOnEqual(a: JsString, b: JsString)
    ensures Compare(a, b) == 0 <==> a == b
  {
    if a != [] && b != [] && a[0] == b[0] {
      ZeroOnlyOnEqual(a[1..], b[1..]);
      assert a == [a[0]] + a[1..] && b == [b[0]] + b[1..];
    }
  }

  lemma {:induction false} Antisymmetric(a: JsString, b: JsString)
    ensures Compare(a, b) == -Compare(b, a)
  {
    if a != [] && b != [] && a[0] == b[0] {
      Antisymmetric(a[1..], b[1..]);
    }
  }

  lemma {:induction false} Transitive(a: JsString, b: JsString, c: JsString)
    requires Compare(a, b) <= 0 && Compare(b, c) <= 0
    ensures Compare(a, c) <= 0
    ensures Compare(a, c) == 0 ==> Compare(a, b) == 0 && Compare(b, c) == 0
  {
    if a != [] && b != [] && c != [] && a[0] == b[0] == c[0] {
      Transitive(a[1..], b[1..], c[1..]);
    }
  }

  /** Strict ascending order, the canonical order of an identity table. */
  predicate StrictlyAscending(ids: seq<JsString>) {
    forall i :: 0 < i < |ids| ==> Compare(ids[i - 1], ids[i]) < 0
  }

  lemma {:induction false} AscendingFar(ids: seq<JsString>, i: nat, j: nat)
    requires StrictlyAscending(ids) && i < j < |ids|
    ensures Compare(ids[i], ids[j]) < 0
    decreases j - i
  {
    assert Compare(ids[j - 1], ids[j]) < 0;
    if i < j - 1 {
      AscendingFar(ids, i, j - 1);
      Transitive(ids[i], ids[j - 1], ids[j]);
    }
  }

  /** A canonical table never lists one identity twice. */
  lemma AscendingHasNoDuplicates(ids: seq<JsString>)
    requires StrictlyAscending(ids)
    ensures NoDuplicates(ids)
  {
    forall i, j | 0 <= i < j < |ids|
      ensures ids[i] != ids[j]
    {
      AscendingFar(ids, i, j);
      ZeroOnlyOnEqual(ids[i], ids[j]);
    }
  }
}
