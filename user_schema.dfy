/** The user form schema: five per-field rules, checked independently, with
    no rule relating two fields. Lengths are JavaScript string lengths (UTF-16
    code units). The e-mail syntax check belongs to the validation library and
    is the parameter `isEmail`. */
module UserSchema {
  import opened Wrappers
  import opened Text
  import opened UserTypes

  /** The raw form input the schema parses: every field a string, `lastName` possibly absent. */
  datatype FormInput = FormInput(
    firstName: string,
    lastName: Option<string>,
    email: string,
    dateOfBirth: string,
    status: string)

  datatype Field = FirstName | LastName | Email | DateOfBirth | Status

  datatype Issue = Issue(field: Field, message: string)

  predicate FirstNameOk(s: string) {
    1 <= Utf16Length(s) <= 50
  }

  predicate LastNameOk(s: Option<string>) {
    s.None? || Utf16Length(s.value) <= 50
  }

  predicate EmailOk(s: string, isEmail: string -> bool) {
    Utf16Length(s) >= 1 && isEmail(s)
  }

  /** The pattern `^\d{4}-\d{2}-\d{2}$`: four ASCII digits, '-', two digits, '-', two digits, nothing else. */
  predicate DateShape(s: string) {
    && |s| == 10
    && IsAsciiDigit(s[0]) && IsAsciiDigit(s[1]) && IsAsciiDigit(s[2]) && IsAsciiDigit(s[3])
    && s[4] == '-'
    && IsAsciiDigit(s[5]) && IsAsciiDigit(s[6])
    && s[7] == '-'
    && IsAsciiDigit(s[8]) && IsAsciiDigit(s[9])
  }

  predicate DateOfBirthOk(s: string) {
    Utf16Length(s) >= 1 && DateShape(s)
  }

  function StatusValue(s: string): Option<UserStatus> {
    if s == "active" then Some(Active)
    else if s == "locked" then Some(Locked)
    else None
  }

  predicate StatusOk(s: string) {
    StatusValue(s).Some?
  }

  /** The record is accepted: each of the five field rules holds. */
  predicate Valid(f: FormInput, isEmail: string -> bool) {
    && FirstNameOk(f.firstName)
    && LastNameOk(f.lastName)
    && EmailOk(f.email, isEmail)
    && DateOfBirthOk(f.dateOfBirth)
    && StatusOk(f.status)
  }

  function IssueIf(failed: bool, field: Field, message: string): seq<Issue> {
    if failed then [Issue(field, message)] else []
  }

  /** Every failing check, in the order the schema declares them; a string field runs all of its checks. */
  function Issues(f: FormInput, isEmail: string -> bool): seq<Issue> {
    IssueIf(Utf16Length(f.firstName) < 1, FirstName, "First name is required")
    + IssueIf(Utf16Length(f.firstName) > 50, FirstName, "First name must be less than 50 characters")
    + IssueIf(f.lastName.Some? && Utf16Length(f.lastName.value) > 50, LastName, "Last name must be less than 50 characters")
    + IssueIf(Utf16Length(f.email) < 1, Email, "Email is required")
    + IssueIf(!isEmail(f.email), Email, "Invalid email format")
    + IssueIf(Utf16Length(f.dateOfBirth) < 1, DateOfBirth, "Date of birth is required")
    + IssueIf(!DateShape(f.dateOfBirth), DateOfBirth, "Date must be in format YYYY-MM-DD")
    + IssueIf(!StatusOk(f.status), Status, "Status must be 'active' or 'locked'")
  }

  /** Parsing yields the typed form values exactly when every field rule holds, and otherwise every issue found. */
  function Parse(f: FormInput, isEmail: string -> bool): (r: Result<UserInput, seq<Issue>>)
    ensures r.Success? <==> Valid(f, isEmail)
    ensures r.Success? ==> r.value == UserInput(f.firstName, f.lastName, f.email, StatusValue(f.status).value, f.dateOfBirth)
    ensures r.Failure? ==> r.error == Issues(f, isEmail) && |r.error| >= 1
  {
    var issues := Issues(f, isEmail);
    if issues == [] then Success(UserInput(f.firstName, f.lastName, f.email, StatusValue(f.status).value, f.dateOfBirth))
    else Failure(issues)
  }

  // ---------------------------------------------------------------------------
  // Properties of the field rules.

  /** For a name of Basic Multilingual Plane characters, 50 characters are accepted, although the message speaks of "less than 50". */
  lemma FirstNameBounds(s: string)
    requires InBmp(s)
    ensures FirstNameOk(s) <==> 1 <= |s| <= 50
  {
    Utf16LengthBmp(s);
  }

  /** A character outside the Basic Multilingual Plane counts twice: 26 such characters are too long a first name. */
  lemma {:induction false} FirstNameCountsCodeUnits(s: string)
    requires |s| == 26 && forall i :: 0 <= i < |s| ==> s[i] as int >= 0x10000
    ensures !FirstNameOk(s)
  {
    AllAstralLength(s);
  }

  lemma {:induction false} AllAstralLength(s: string)
    requires forall i :: 0 <= i < |s| ==> s[i] as int >= 0x10000
    ensures Utf16Length(s) == 2 * |s|
  {
    if s != [] {
      assert forall i :: 0 <= i < |s[1..]| ==> s[1..][i] == s[i + 1];
      AllAstralLength(s[1..]);
    }
  }

  /** The last name may be absent, or present with 0 to 50 characters; the empty string passes. */
  lemma LastNameBounds(s: string)
    requires InBmp(s)
    ensures LastNameOk(None) && LastNameOk(Some(""))
    ensures LastNameOk(Some(s)) <==> |s| <= 50
  {
    Utf16LengthBmp(s);
  }

  /** The e-mail must be non-empty and pass the syntax check; an empty one is reported as missing. */
  lemma EmailNeedsBoth(f: FormInput, isEmail: string -> bool)
    ensures Valid(f, isEmail) ==> f.email != "" && isEmail(f.email)
    ensures f.email == "" ==> Issue(Email, "Email is required") in Issues(f, isEmail)
  {
  }

  /** An accepted date of birth is ten characters long. */
  lemma DateLength(s: string)
    requires DateOfBirthOk(s)
    ensures |s| == 10 && Utf16Length(s) == 10
  {
    assert InBmp(s);
    Utf16LengthBmp(s);
  }

  /** The date rule is purely lexical: month 99 and day 99 pass, and so does 0000-00-00. */
  lemma DateIsLexicalOnly()
    ensures DateOfBirthOk("2024-99-99")
    ensures DateOfBirthOk("0000-00-00")
    ensures !DateOfBirthOk("2024-1-01")
  {
    var a, b := "2024-99-99", "0000-00-00";
    assert DateShape(a) && a != [];
    assert DateShape(b) && b != [];
  }

  /** Exactly "active" and "locked" are accepted; the rule is case-sensitive. */
  lemma StatusValues(s: string)
    ensures StatusOk(s) <==> s == "active" || s == "locked"
    ensures !StatusOk("Active") && !StatusOk("LOCKED")
  {
  }

  /** No issue is reported exactly when the record is valid. */
  lemma NoIssuesIffValid(f: FormInput, isEmail: string -> bool)
    ensures Issues(f, isEmail) == [] <==> Valid(f, isEmail)
  {
  }

  /** No rule ties the first name to another field: in a valid record, any acceptable first name keeps it valid. */
  lemma FieldsIndependent(f: FormInput, first: string, isEmail: string -> bool)
    requires Valid(f, isEmail) && FirstNameOk(first)
    ensures Valid(f.(firstName := first), isEmail)
  {
  }

  /** The typed values of an accepted record give back the raw input. */
  lemma ParseKeepsFields(f: FormInput, isEmail: string -> bool)
    requires Valid(f, isEmail)
    ensures var v := Parse(f, isEmail).value;
      FormInput(v.firstName, v.lastName, v.email, v.dateOfBirth, v.status.Wire()) == f
  {
  }
}
