/**
 * The reverse-geocoding fallback of the obstacle form: what the department
 * and department code become once the lookup has either answered or failed.
 * The HTTP request and the JSON decoding are outside the model; the outcome
 * of the lookup is given as a value.
 */
module DepartmentLookup {
  import opened Wrappers

  /** The placeholder shown and stored while the department is unresolved. */
  const Unknown: string := "Inconnu"

  /** The `address` object of an answer; `None` stands for a missing or null member. */
  datatype Address = Address(county: Option<string>, postcode: Option<string>)

  /**
   * How the lookup ended: it threw (network error, a body that is not JSON,
   * a null body), or it produced a decoded body whose `address` may be missing.
   */
  datatype LookupOutcome = LookupFailed | LookupAnswered(address: Option<Address>)

  /** The `{ department, departmentCode }` pair; `None` is JavaScript's `undefined`. */
  datatype DepartmentInfo = DepartmentInfo(department: Option<string>, departmentCode: Option<string>)

  /** The pair the form starts with and falls back to. */
  const UnknownDepartment: DepartmentInfo := DepartmentInfo(Some(Unknown), Some(Unknown))

  /**
   * `getDepartmentInfo`: an answered lookup passes the county and postcode
   * through, absent if the answer lacks them; only a failed lookup yields the
   * placeholder on its own account.
   */
  function DepartmentFromLookup(outcome: LookupOutcome): (r: DepartmentInfo)
    ensures outcome.LookupAnswered? && outcome.address.Some? ==>
              r.department == outcome.address.value.county && r.departmentCode == outcome.address.value.postcode
    ensures r.department.None? || r.departmentCode.None? ==> outcome.LookupAnswered?
    ensures r.department.None? <==> outcome.LookupAnswered? && (outcome.address.None? || outcome.address.value.county.None?)
    ensures r.departmentCode.None? <==> outcome.LookupAnswered? && (outcome.address.None? || outcome.address.value.postcode.None?)
    ensures outcome == LookupAnswered(None) ==> r == DepartmentInfo(None, None)
    ensures r == UnknownDepartment <==>
              outcome.LookupFailed? || outcome == LookupAnswered(Some(Address(Some(Unknown), Some(Unknown))))
  {
    match outcome
    case LookupFailed => UnknownDepartment
    case LookupAnswered(address) =>
      match address
      case None => DepartmentInfo(None, None)
      case Some(a) => DepartmentInfo(a.county, a.postcode)
  }
}
