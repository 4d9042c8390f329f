/** The edit page: the form's initial values derived from the fetched
    record, the guard on the route id before an update is issued, and the
    choice between spinner, error panel and form. */
module EditUserPage {
  import opened Wrappers
  import opened Text
  import opened UserTypes
  import UserSchema
  import UserList
  import UserApi

  /** `initialValues`: the record as form values; a missing or empty last name becomes "". */
  function InitialValues(u: UserResponse): (v: UserInput)
    ensures v.firstName == u.firstName && v.email == u.email && v.dateOfBirth == u.dateOfBirth
    ensures v.lastName == Some(if Truthy(u.lastName) then u.lastName.value else "")
    ensures v.status == Active <==> AsciiLowerString(u.status) == "active"
  {
    UserInput(u.firstName, Some(if Truthy(u.lastName) then u.lastName.value else ""), u.email,
              if AsciiLowerString(u.status) == "active" then Active else Locked, u.dateOfBirth)
  }

  /** The raw input the form hands to the schema for these values. */
  function AsFormInput(v: UserInput): UserSchema.FormInput {
    UserSchema.FormInput(v.firstName, v.lastName, v.email, v.dateOfBirth, v.status.Wire())
  }

  /** The update `handleSubmit` issues: none for a missing or empty route id. */
  datatype UpdateCall = UpdateCall(id: string, input: UserInput)

  function HandleSubmit(id: Option<string>, data: UserInput): (call: Option<UpdateCall>)
    ensures call.Some? <==> Truthy(id)
    ensures call.Some? ==> call.value == UpdateCall(id.value, data)
  {
    if !Truthy(id) then None else Some(UpdateCall(id.value, data))
  }

  datatype EditView = Spinner | ErrorPanel(message: string) | Form(initialValues: UserInput)

  /** The page body: the spinner while loading; otherwise an error or a missing record shows the error panel. */
  function Render(isLoading: bool, error: Option<QueryError>, user: Option<UserResponse>): (v: EditView)
    ensures v.Spinner? <==> isLoading
    ensures v.ErrorPanel? <==> !isLoading && (error.Some? || user.None?)
    ensures v.ErrorPanel? && error.Some? && error.value.ErrorObject? ==> v.message == error.value.message
    ensures v.ErrorPanel? && !(error.Some? && error.value.ErrorObject?) ==> v.message == "User not found"
    ensures v.Form? ==> user.Some? && v.initialValues == InitialValues(user.value)
  {
    if isLoading then Spinner
    else if error.Some? || user.None? then
      ErrorPanel(if error.Some? && error.value.ErrorObject? then error.value.message else "User not found")
    else Form(InitialValues(user.value))
  }

  // ---------------------------------------------------------------------------
  // Properties.

  /** The form and the list card agree on a record's status and last name. */
  lemma AgreesWithListCard(u: UserResponse)
    ensures InitialValues(u).status == UserList.TransformUser(u).status
    ensures InitialValues(u).lastName == Some(UserList.TransformUser(u).lastName)
  {
  }

  /** The initial values always satisfy the status and last-name presence rules of the schema;
      the other fields pass or fail exactly as the server's record does. */
  lemma InitialValuesAgainstSchema(u: UserResponse, isEmail: string -> bool)
    ensures var f := AsFormInput(InitialValues(u));
      && UserSchema.StatusOk(f.status)
      && (UserSchema.Valid(f, isEmail) <==>
            && UserSchema.FirstNameOk(u.firstName)
            && UserSchema.LastNameOk(f.lastName)
            && UserSchema.EmailOk(u.email, isEmail)
            && UserSchema.DateOfBirthOk(u.dateOfBirth))
  {
  }

  /** Submitting the untouched form for a record with a canonical status and a last name sends the record back as it was. */
  lemma UnchangedFormResubmitsRecord(id: string, u: UserResponse)
    requires id != "" && Truthy(u.lastName)
    requires u.status == "active" || u.status == "locked"
    ensures var call := HandleSubmit(Some(id), InitialValues(u)).value;
      && call.id == id
      && AsFormInput(call.input) == UserSchema.FormInput(u.firstName, u.lastName, u.email, u.dateOfBirth, u.status)
  {
  }

  /** The update goes out as a PUT to the record's URL carrying the submitted values. */
  lemma SubmitBecomesPut(id: string, data: UserInput, token: string)
    requires id != "" && token != ""
    ensures var rq := UserApi.BuildRequest(UserApi.UpdateUser(HandleSubmit(Some(id), data).value.id, data), Some(token)).value;
      rq.verb == UserApi.PUT && rq.url == UserApi.ItemUrl(id) && rq.body == Some(data)
  {
  }

  /** A record that has not arrived yet shows "User not found" rather than a form, also without an error. */
  lemma MissingRecordIsNotFound()
    ensures Render(false, None, None) == ErrorPanel("User not found")
    ensures Render(false, Some(OtherThrown), None) == ErrorPanel("User not found")
  {
  }
}
