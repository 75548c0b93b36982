/** The record shapes shared by the routes and the client: `Radio`, `User`
    and `CheckoutLogEntry`. */
module Types {
  import opened Json

  /** The operations a log entry records: `'check-out' | 'check-in'`. */
  datatype Operation = CheckOut | CheckIn {
    function Name(): string {
      match this
      case CheckOut => "check-out"
      case CheckIn => "check-in"
    }
  }

  /** The operation a stored string names, if any. */
  function OperationNamed(s: string): (r: Option<Operation>)
    ensures r.Some? ==> r.value.Name() == s
  {
    if s == "check-out" then Some(CheckOut)
    else if s == "check-in" then Some(CheckIn)
    else None
  }

  /** Naming an operation and reading it back gives the operation. */
  lemma OperationNameRoundTrip(op: Operation)
    ensures OperationNamed(op.Name()) == Some(op)
  {
  }

  /** A radio: `ID` and `Name` are required, every other property may be
      missing; the checkout user and date may also be `null`. */
  datatype Radio = Radio(
    id: string,
    name: string,
    comments: Option<string>,
    partiallyDamaged: Option<bool>,
    nonfunctional: Option<bool>,
    checkedOutUser: Field<string>,
    checkoutDate: Field<string>)

  /** A user: every property is a required string. */
  datatype User = User(id: string, name: string, profilePhoto: string, lastUpdated: string)

  /** A stored log entry. The operation is kept as the string the log route
      received: the type declares one of two values, the route does not check. */
  datatype LogEntry = LogEntry(radioID: string, userID: string, operation: string, date: string)

  /** The entry holds one of the two declared operations. */
  predicate WellTyped(e: LogEntry) {
    OperationNamed(e.operation).Some?
  }

  /** The damage flags are not both set. */
  predicate ExclusiveFlags(r: Radio) {
    !(IsTrue(r.partiallyDamaged) && IsTrue(r.nonfunctional))
  }

  /** The checkout date is null exactly when the checkout user is. */
  predicate CheckoutPaired(r: Radio) {
    r.checkedOutUser.Null? <==> r.checkoutDate.Null?
  }
}
