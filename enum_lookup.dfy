/**
 * The lookup shared by the `fromValue` methods of the enums: scan the constants in declaration order
 * and return the first that matches, or raise `BWCGenericRuntimeException`.
 */
module EnumLookup {
  import opened Wrappers

  /** `BWCGenericRuntimeException`, carrying its message. */
  datatype GenericRuntimeException = GenericRuntimeException(message: string)

  /** The index of the first candidate that matches, or `|candidates|` when none does. */
  function FirstMatchIndex<T>(candidates: seq<T>, matches: T -> bool): (k: nat)
    ensures k <= |candidates|
    ensures forall j :: 0 <= j < k ==> !matches(candidates[j])
    ensures k < |candidates| ==> matches(candidates[k])
  {
    if candidates == [] then 0
    else if matches(candidates[0]) then 0
    else 1 + FirstMatchIndex(candidates[1..], matches)
  }

  /** The early-return loop `for (c : values) if (matches(c)) return c;`, with `None` for falling off the end. */
  function FirstMatch<T>(candidates: seq<T>, matches: T -> bool): (r: Option<T>)
    ensures r.None? <==> forall j :: 0 <= j < |candidates| ==> !matches(candidates[j])
    ensures r.Some? ==> r.value in candidates && matches(r.value)
  {
    var k := FirstMatchIndex(candidates, matches);
    if k < |candidates| then Some(candidates[k]) else None
  }

  /** When exactly one candidate matches, the scan finds that one, whatever the order of the others. */
  lemma FirstMatchUnique<T>(candidates: seq<T>, matches: T -> bool, k: nat)
    requires k < |candidates| && matches(candidates[k])
    requires forall j :: 0 <= j < |candidates| && j != k ==> !matches(candidates[j])
    ensures FirstMatch(candidates, matches) == Some(candidates[k])
  {
    var i := FirstMatchIndex(candidates, matches);
    assert i == k;
  }
}
