/** The records exchanged with the users API and shown by the views. */
module UserTypes {
  import opened Wrappers

  /** The two account states the API accepts for a user. */
  datatype UserStatus = Active | Locked {
    /** The wire value of the enum member. */
    function Wire(): string {
      match this
      case Active => "active"
      case Locked => "locked"
    }
  }

  /** A user as the API returns it; `status` is whatever string the server sent. */
  datatype UserResponse = UserResponse(
    id: string,
    firstName: string,
    lastName: Option<string>,
    email: string,
    status: string,
    dateOfBirth: string)

  /** The body of a create or update request; also the form values the schema yields. */
  datatype UserInput = UserInput(
    firstName: string,
    lastName: Option<string>,
    email: string,
    status: UserStatus,
    dateOfBirth: string)

  /** A user as the list view shows it on a card. */
  datatype User = User(
    id: string,
    firstName: string,
    lastName: string,
    initials: string,
    email: string,
    status: UserStatus,
    dob: string)

  /** The `error` a query reports: an `Error` object with its message, or some other thrown value. */
  datatype QueryError = ErrorObject(message: string) | OtherThrown
}
