/** `TaskAction`: the actions a task workflow accepts, and their case-insensitive lookup by value. */
module TaskActions {
  import opened Wrappers
  import opened JavaText
  import opened EnumLookup

  datatype TaskAction = START | COMPLETE | APPROVE | CANCEL {

    /** The `value` field, the key `fromValue` matches against. */
    function Value(): string {
      match this
      case START => "START"
      case COMPLETE => "COMPLETE"
      case APPROVE => "APPROVE"
      case CANCEL => "CANCEL"
    }

    /** The `name` field. */
    function Name(): string {
      match this
      case START => "start"
      case COMPLETE => "complete"
      case APPROVE => "approve"
      case CANCEL => "cancel"
    }

    /** The `displayName` field. */
    function DisplayName(): string {
      match this
      case START => "Bắt đầu"
      case COMPLETE => "Hoàn thành"
      case APPROVE => "Duyệt"
      case CANCEL => "Hủy"
    }
  }

  /** `TaskAction.values()`, in declaration order. */
  const Values: seq<TaskAction> := [START, COMPLETE, APPROVE, CANCEL]

  lemma ValuesComplete()
    ensures forall a: TaskAction :: a in Values
  {
    forall a: TaskAction ensures a in Values {
      match a
      case START => assert Values[0] == a;
      case COMPLETE => assert Values[1] == a;
      case APPROVE => assert Values[2] == a;
      case CANCEL => assert Values[3] == a;
    }
  }

  predicate Matches(value: Option<string>, a: TaskAction) {
    EqualsIgnoreCase(a.Value(), value)
  }

  /** `TaskAction.fromValue`: the first constant whose value equals the argument ignoring case. */
  function FromValue(value: Option<string>): (r: Result<TaskAction, GenericRuntimeException>)
    ensures r.Ok? ==> Matches(value, r.value)
    ensures r.Err? <==> forall a: TaskAction :: !Matches(value, a)
    ensures r.Err? ==> r.error == GenericRuntimeException("Unknown TaskAction value: " + TextOf(value))
  {
    ValuesComplete();
    match FirstMatch(Values, (a: TaskAction) => Matches(value, a))
    case Some(a) => Ok(a)
    case None => Err(GenericRuntimeException("Unknown TaskAction value: " + TextOf(value)))
  }

  /** No string matches two different values, so the result does not depend on the scan order. */
  lemma ValuesDistinctIgnoringCase(value: Option<string>, a: TaskAction, b: TaskAction)
    requires Matches(value, a) && Matches(value, b)
    ensures a == b
  {
  }

  /** `fromValue` returns `a` exactly when the argument equals `a`'s value ignoring case. */
  lemma FromValueExact(value: Option<string>, a: TaskAction)
    ensures FromValue(value) == Ok(a) <==> Matches(value, a)
  {
    if Matches(value, a) {
      ValuesDistinctIgnoringCase(value, FromValue(value).value, a);
    }
  }

  /** Round trip: looking up a constant's own value gives that constant back. */
  lemma FromValueOfValue(a: TaskAction)
    ensures FromValue(Some(a.Value())) == Ok(a)
  {
    EqualsIgnoreCaseReflexive(a.Value());
    FromValueExact(Some(a.Value()), a);
  }

  /** Each constant's name is the lower-case form of its value, so the lower-case spelling is accepted too. */
  lemma FromValueOfName(a: TaskAction)
    ensures a.Name() == LowerCase(a.Value())
    ensures FromValue(Some(a.Name())) == Ok(a)
  {
    var v, n := a.Value(), a.Name();
    assert |n| == |v| && forall i :: 0 <= i < |v| ==> n[i] == ToLowerCase(v[i]) by {
      match a
      case START =>
      case COMPLETE =>
      case APPROVE =>
      case CANCEL =>
    }
    assert n == LowerCase(v);
    EqualsIgnoreCaseLowerCase(a.Value());
    FromValueExact(Some(a.Name()), a);
  }

  /** A null argument is rejected with the message that ends in "null". */
  lemma FromValueNull()
    ensures FromValue(None) == Err(GenericRuntimeException("Unknown TaskAction value: null"))
  {
    assert "Unknown TaskAction value: " + TextOf(None) == "Unknown TaskAction value: null";
  }
}
