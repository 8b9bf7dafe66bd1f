/** `OrganizationLevel`: the administrative levels of an organization, looked up by their integer value. */
module OrganizationLevels {
  import opened Wrappers
  import opened JavaText
  import opened EnumLookup

  datatype OrganizationLevel = PROVINCE | COMMUNE | DEPARTMENT | COMPANY {

    /** The `value` field, the key `fromValue` matches against. */
    function Value(): int {
      match this
      case PROVINCE => 1
      case COMMUNE => 2
      case DEPARTMENT => 3
      case COMPANY => 4
    }

    /** The `name` field. */
    function Name(): string {
      match this
      case PROVINCE => "province"
      case COMMUNE => "commune"
      case DEPARTMENT => "department"
      case COMPANY => "company"
    }

    /** The `displayName` field. */
    function DisplayName(): string {
      match this
      case PROVINCE => "Tỉnh/Thành phố"
      case COMMUNE => "Xã/Phường"
      case DEPARTMENT => "Sở/Ban/Ngành"
      case COMPANY => "Doanh nghiệp"
    }
  }

  /** `OrganizationLevel.values()`, in declaration order. */
  const Values: seq<OrganizationLevel> := [PROVINCE, COMMUNE, DEPARTMENT, COMPANY]

  lemma ValuesComplete()
    ensures forall l: OrganizationLevel :: l in Values
  {
    forall l: OrganizationLevel ensures l in Values {
      match l
      case PROVINCE => assert Values[0] == l;
      case COMMUNE => assert Values[1] == l;
      case DEPARTMENT => assert Values[2] == l;
      case COMPANY => assert Values[3] == l;
    }
  }

  /** `level.getValue().equals(value)`: `Integer.equals` is false for null. */
  predicate Matches(value: Option<int>, l: OrganizationLevel) {
    value == Some(l.Value())
  }

  /** An `Integer` in a string concatenation: its decimal form, or "null". */
  function IntegerTextOf(value: Option<int>): string {
    if value.None? then "null" else IntegerText(value.value)
  }

  /** `OrganizationLevel.fromValue`: the first constant whose value equals the argument. */
  function FromValue(value: Option<int>): (r: Result<OrganizationLevel, GenericRuntimeException>)
    ensures r.Ok? ==> value == Some(r.value.Value())
    ensures r.Err? <==> value.None? || !(1 <= value.value <= 4)
    ensures r.Err? ==> r.error == GenericRuntimeException("Unknown OrganizationLevel value: " + IntegerTextOf(value))
  {
    ValuesComplete();
    match FirstMatch(Values, (l: OrganizationLevel) => Matches(value, l))
    case Some(l) => Ok(l)
    case None => Err(GenericRuntimeException("Unknown OrganizationLevel value: " + IntegerTextOf(value)))
  }

  /** 1, 2, 3 and 4 map to PROVINCE, COMMUNE, DEPARTMENT and COMPANY. */
  lemma FromValueTable()
    ensures FromValue(Some(1)) == Ok(PROVINCE)
    ensures FromValue(Some(2)) == Ok(COMMUNE)
    ensures FromValue(Some(3)) == Ok(DEPARTMENT)
    ensures FromValue(Some(4)) == Ok(COMPANY)
  {
  }

  /** The values strictly increase in declaration order, so in particular they are distinct. */
  lemma ValuesIncreasing(i: nat, j: nat)
    requires i < j < |Values|
    ensures Values[i].Value() < Values[j].Value()
  {
  }

  /** Round trip: looking up a level's own value gives that level back. */
  lemma FromValueOfValue(l: OrganizationLevel)
    ensures FromValue(Some(l.Value())) == Ok(l)
  {
    FromValueTable();
  }

  /** A null argument is rejected with the message that ends in "null". */
  lemma FromValueNull()
    ensures FromValue(None) == Err(GenericRuntimeException("Unknown OrganizationLevel value: null"))
  {
    assert "Unknown OrganizationLevel value: " + IntegerTextOf(None) == "Unknown OrganizationLevel value: null";
  }
}
