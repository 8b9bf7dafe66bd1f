/** `ProjectType`: the kinds of project, and their case-insensitive lookup by value. */
module ProjectTypes {
  import opened Wrappers
  import opened JavaText
  import opened EnumLookup

  datatype ProjectType = PERSONAL | NORMAL {

    /** The `value` field, the key `fromValue` matches against. */
    function Value(): string {
      match this
      case PERSONAL => "PERSONAL"
      case NORMAL => "NORMAL"
    }

    /** The `name` field. */
    function Name(): string {
      match this
      case PERSONAL => "personal"
      case NORMAL => "normal"
    }

    /** The `displayName` field. */
    function DisplayName(): string {
      match this
      case PERSONAL => "Cá nhân"
      case NORMAL => "Bình thường"
    }
  }

  /** `ProjectType.values()`, in declaration order. */
  const Values: seq<ProjectType> := [PERSONAL, NORMAL]

  lemma ValuesComplete()
    ensures forall t: ProjectType :: t in Values
  {
    forall t: ProjectType ensures t in Values {
      match t
      case PERSONAL => assert Values[0] == t;
      case NORMAL => assert Values[1] == t;
    }
  }

  predicate Matches(value: Option<string>, t: ProjectType) {
    EqualsIgnoreCase(t.Value(), value)
  }

  /** `ProjectType.fromValue`: the first constant whose value equals the argument ignoring case. */
  function FromValue(value: Option<string>): (r: Result<ProjectType, GenericRuntimeException>)
    ensures r.Ok? ==> Matches(value, r.value)
    ensures r.Err? <==> forall t: ProjectType :: !Matches(value, t)
    ensures r.Err? ==> r.error == GenericRuntimeException("Unknown ProjectType value: " + TextOf(value))
  {
    ValuesComplete();
    match FirstMatch(Values, (t: ProjectType) => Matches(value, t))
    case Some(t) => Ok(t)
    case None => Err(GenericRuntimeException("Unknown ProjectType value: " + TextOf(value)))
  }

  /** No string matches both values, so the result does not depend on the scan order. */
  lemma ValuesDistinctIgnoringCase(value: Option<string>, a: ProjectType, b: ProjectType)
    requires Matches(value, a) && Matches(value, b)
    ensures a == b
  {
  }

  /** `fromValue` returns `t` exactly when the argument equals `t`'s value ignoring case. */
  lemma FromValueExact(value: Option<string>, t: ProjectType)
    ensures FromValue(value) == Ok(t) <==> Matches(value, t)
  {
    if Matches(value, t) {
      ValuesDistinctIgnoringCase(value, FromValue(value).value, t);
    }
  }

  /** Round trip: looking up a constant's own value gives that constant back. */
  lemma FromValueOfValue(t: ProjectType)
    ensures FromValue(Some(t.Value())) == Ok(t)
  {
    EqualsIgnoreCaseReflexive(t.Value());
    FromValueExact(Some(t.Value()), t);
  }

  /** Each constant's name is the lower-case form of its value, so the lower-case spelling is accepted too. */
  lemma FromValueOfName(t: ProjectType)
    ensures t.Name() == LowerCase(t.Value())
    ensures FromValue(Some(t.Name())) == Ok(t)
  {
    var v, n := t.Value(), t.Name();
    assert |n| == |v| && forall i :: 0 <= i < |v| ==> n[i] == ToLowerCase(v[i]) by {
      match t
      case PERSONAL =>
      case NORMAL =>
    }
    assert n == LowerCase(v);
    EqualsIgnoreCaseLowerCase(v);
    FromValueExact(Some(n), t);
  }

  /** A null argument is rejected with the message that ends in "null". */
  lemma FromValueNull()
    ensures FromValue(None) == Err(GenericRuntimeException("Unknown ProjectType value: null"))
  {
    assert "Unknown ProjectType value: " + TextOf(None) == "Unknown ProjectType value: null";
  }
}
