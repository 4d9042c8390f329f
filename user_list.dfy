/** The user list view: the mapping of an API record to a card, the
    delete-confirmation dialog state (`deleteUserId`, `userToDelete`,
    `showDeleteModal`, `lastDeleteAttempt`) and the choice of what the list
    area shows. The delete request itself is reported to the caller as the id
    it is issued for; its completion is the input `succeeded`. */
module UserList {
  import opened Wrappers
  import opened Text
  import opened UserTypes

  /** `s.charAt(0)`: the first character, or the empty string. */
  function FirstChar(s: string): (r: string)
    ensures |r| == if s == [] then 0 else 1
    ensures s != [] ==> r[0] == s[0]
  {
    if s == [] then [] else [s[0]]
  }

  /** `getInitials`: the first letter of the first name, then that of the last name when there is one, upper-cased. */
  function Initials(firstName: string, lastName: Option<string>): (r: string)
    ensures |r| <= 2
    ensures |r| == (if firstName == [] then 0 else 1) + (if Truthy(lastName) then 1 else 0)
    ensures firstName != [] ==> r[0] == AsciiUpper(firstName[0])
    ensures Truthy(lastName) ==> r[|r| - 1] == AsciiUpper(lastName.value[0])
  {
    AsciiUpperString(FirstChar(firstName) + (if Truthy(lastName) then FirstChar(lastName.value) else ""))
  }

  /** The card status: active exactly when the server's status is "active" in any letter case. */
  function NormaliseStatus(s: string): (st: UserStatus)
    ensures st == Active <==> |s| == 6 && forall i :: 0 <= i < 6 ==> AsciiLower(s[i]) == "active"[i]
  {
    var lower := AsciiLowerString(s);
    assert lower == "active" <==> |s| == 6 && forall i :: 0 <= i < 6 ==> lower[i] == "active"[i];
    if lower == "active" then Active else Locked
  }

  /** `transformUser`: a record as its card shows it. */
  function TransformUser(u: UserResponse): (v: User)
    ensures v.id == u.id && v.firstName == u.firstName && v.email == u.email && v.dob == u.dateOfBirth
    ensures v.lastName == if Truthy(u.lastName) then u.lastName.value else ""
    ensures v.initials == Initials(v.firstName, Some(v.lastName))
    ensures v.status == Active <==> AsciiLowerString(u.status) == "active"
  {
    User(u.id, u.firstName, if Truthy(u.lastName) then u.lastName.value else "",
         Initials(u.firstName, u.lastName), u.email, NormaliseStatus(u.status), u.dateOfBirth)
  }

  /** `users.find(u => u.id === id)`: the position of the first record with that id. */
  function FindIndex(users: seq<UserResponse>, id: string): (k: Option<nat>)
    ensures k.Some? ==> k.value < |users| && users[k.value].id == id
    ensures k.Some? ==> forall j :: 0 <= j < k.value ==> users[j].id != id
    ensures k.None? <==> forall j :: 0 <= j < |users| ==> users[j].id != id
  {
    if users == [] then None
    else if users[0].id == id then Some(0)
    else
      match FindIndex(users[1..], id)
      case Some(k) => Some(k + 1)
      case None => None
  }

  // ---------------------------------------------------------------------------
  // The delete-confirmation dialog.

  datatype Dialog = Dialog(
    deleteUserId: Option<string>,
    userToDelete: Option<User>,
    showDeleteModal: bool,
    lastDeleteAttempt: Option<string>)

  /** The dialog when the view mounts. */
  const Initial := Dialog(None, None, false, None)

  /** `handleDeleteUser(id)` with the list the view currently holds. */
  function Selected(d: Dialog, id: string, users: Option<seq<UserResponse>>): (e: Dialog)
    ensures e.deleteUserId == Some(id) && e.showDeleteModal && e.lastDeleteAttempt == d.lastDeleteAttempt
    ensures users.Some? && FindIndex(users.value, id).Some? ==>
      e.userToDelete == Some(TransformUser(users.value[FindIndex(users.value, id).value]))
    ensures (users.None? || FindIndex(users.value, id).None?) ==> e.userToDelete == d.userToDelete
  {
    var found := if users.Some? then FindIndex(users.value, id) else None;
    var shown := if found.Some? then Some(TransformUser(users.value[found.value])) else d.userToDelete;
    Dialog(Some(id), shown, true, d.lastDeleteAttempt)
  }

  /** What `confirmDelete` does: the id a delete is issued for, if any, and the dialog afterwards. */
  datatype Confirmation = Confirmation(issued: Option<string>, after: Dialog)

  function Confirmed(d: Dialog): (c: Confirmation)
    ensures !Truthy(d.deleteUserId) ==> c == Confirmation(None, d)
    ensures Truthy(d.deleteUserId) ==>
      c.issued == d.deleteUserId && c.after == d.(lastDeleteAttempt := d.deleteUserId)
  {
    if Truthy(d.deleteUserId) then Confirmation(d.deleteUserId, d.(lastDeleteAttempt := d.deleteUserId))
    else Confirmation(None, d)
  }

  /** The dialog after the delete issued by `confirmDelete` settles. */
  function Settled(d: Dialog, succeeded: bool): (e: Dialog)
    ensures succeeded ==> !e.showDeleteModal && e.deleteUserId.None? && e.userToDelete.None?
    ensures e.lastDeleteAttempt == d.lastDeleteAttempt
    ensures !succeeded ==> e == d
  {
    if succeeded then Dialog(None, None, false, d.lastDeleteAttempt) else d
  }

  /** `cancelDelete`. */
  function Cancelled(d: Dialog): (e: Dialog)
    ensures !e.showDeleteModal && e.deleteUserId.None? && e.userToDelete.None?
    ensures e.lastDeleteAttempt == d.lastDeleteAttempt
  {
    d.(showDeleteModal := false, deleteUserId := None, userToDelete := None)
  }

  /** `retryDelete`: the id the delete is issued again for, if any. */
  function Retried(d: Dialog): (issued: Option<string>)
    ensures issued.Some? <==> Truthy(d.lastDeleteAttempt)
    ensures issued.Some? ==> issued == d.lastDeleteAttempt
  {
    if Truthy(d.lastDeleteAttempt) then d.lastDeleteAttempt else None
  }

  /** The view's four dialog state cells. */
  class DeleteDialog {
    var deleteUserId: Option<string>
    var userToDelete: Option<User>
    var showDeleteModal: bool
    var lastDeleteAttempt: Option<string>

    function State(): Dialog
      reads this
    {
      Dialog(deleteUserId, userToDelete, showDeleteModal, lastDeleteAttempt)
    }

    constructor ()
      ensures State() == Initial
    {
      deleteUserId, userToDelete, showDeleteModal, lastDeleteAttempt := None, None, false, None;
    }

    method HandleDeleteUser(id: string, users: Option<seq<UserResponse>>)
      modifies this
      ensures State() == Selected(old(State()), id, users)
    {
      deleteUserId := Some(id);
      if users.Some? {
        var k := FindIndex(users.value, id);
        if k.Some? {
          userToDelete := Some(TransformUser(users.value[k.value]));
        }
      }
      showDeleteModal := true;
    }

    method ConfirmDelete() returns (issued: Option<string>)
      modifies this
      ensures Confirmation(issued, State()) == Confirmed(old(State()))
    {
      issued := None;
      if Truthy(deleteUserId) {
        lastDeleteAttempt := deleteUserId;
        issued := deleteUserId;
      }
    }

    /** The `onSuccess` / `onError` callbacks of the delete issued by ConfirmDelete. */
    method DeleteSettled(succeeded: bool)
      modifies this
      ensures State() == Settled(old(State()), succeeded)
    {
      if succeeded {
        showDeleteModal := false;
        deleteUserId := None;
        userToDelete := None;
      }
    }

    method CancelDelete()
      modifies this
      ensures State() == Cancelled(old(State()))
    {
      showDeleteModal := false;
      deleteUserId := None;
      userToDelete := None;
    }

    /** Changes no dialog state: the retried delete has no callbacks of its own. */
    method RetryDelete() returns (issued: Option<string>)
      ensures issued == Retried(State())
    {
      issued := if Truthy(lastDeleteAttempt) then lastDeleteAttempt else None;
    }
  }

  // ---------------------------------------------------------------------------
  // What the list area shows.

  datatype ListView =
    | Spinner
    | FetchError(message: string)
    | NoMatches(search: string)
    | NoUsers
    | Cards(users: seq<User>)

  /** `renderContent`: loading first, then a fetch error, then an absent or empty list, then the cards. */
  function RenderContent(isLoading: bool, error: Option<QueryError>, users: Option<seq<UserResponse>>, searchInput: string): (v: ListView)
    ensures v.Spinner? <==> isLoading
    ensures v.FetchError? <==> !isLoading && error.Some?
    ensures v.FetchError? && error.value.ErrorObject? ==> v.message == error.value.message
    ensures v.FetchError? && error.value.OtherThrown? ==> v.message == "An error occurred while fetching users"
    ensures (v.NoMatches? || v.NoUsers?) <==> !isLoading && error.None? && (users.None? || users.value == [])
    ensures v.NoMatches? <==> (v.NoMatches? || v.NoUsers?) && searchInput != ""
    ensures v.NoMatches? ==> v.search == searchInput
    ensures v.Cards? ==> users.Some? && |v.users| == |users.value| > 0
    ensures v.Cards? ==> forall i :: 0 <= i < |v.users| ==> v.users[i] == TransformUser(users.value[i])
  {
    if isLoading then Spinner
    else if error.Some? then
      FetchError(if error.value.ErrorObject? then error.value.message else "An error occurred while fetching users")
    else if users.None? || users.value == [] then
      if searchInput != "" then NoMatches(searchInput) else NoUsers
    else Cards(seq(|users.value|, i requires 0 <= i < |users.value| => TransformUser(users.value[i])))
  }

  // ---------------------------------------------------------------------------
  // Properties of the mapping and the dialog.

  /** A card's status is one of the two enum values, and normalising its wire text gives it back. */
  lemma CardStatusIsOneOfTwo(u: UserResponse)
    ensures TransformUser(u).status.Wire() == "active" || TransformUser(u).status.Wire() == "locked"
    ensures NormaliseStatus(TransformUser(u).status.Wire()) == TransformUser(u).status
  {
  }

  /** The comparison ignores letter case only: "ACTIVE" is active; "locked", "" and " active" are not. */
  lemma StatusExamples()
    ensures NormaliseStatus("ACTIVE") == Active && NormaliseStatus("Active") == Active
    ensures NormaliseStatus("locked") == Locked && NormaliseStatus("") == Locked
    ensures NormaliseStatus(" active") == Locked
  {
    assert AsciiLower("ACTIVE"[0]) == 'a';
  }

  /** An empty last name contributes no initial, exactly like an absent one. */
  lemma EmptyLastNameNoInitial(firstName: string)
    ensures Initials(firstName, Some("")) == Initials(firstName, None)
  {
  }

  /** Selecting a non-empty id and confirming issues one delete for exactly that id and remembers it for retry. */
  lemma SelectThenConfirm(d: Dialog, id: string, users: Option<seq<UserResponse>>)
    requires id != ""
    ensures var c := Confirmed(Selected(d, id, users));
      c.issued == Some(id) && c.after.lastDeleteAttempt == Some(id) && c.after.showDeleteModal
  {
  }

  /** An empty id still opens the dialog, but confirming it issues nothing. */
  lemma EmptyIdNeverDeletes(d: Dialog, users: Option<seq<UserResponse>>)
    ensures Selected(d, "", users).showDeleteModal
    ensures Confirmed(Selected(d, "", users)).issued == None
  {
  }

  /** A failed delete keeps the dialog open on the same user, and a retry re-issues the delete for the same id. */
  lemma FailureThenRetry(d: Dialog)
    requires Truthy(d.deleteUserId)
    ensures var after := Settled(Confirmed(d).after, false);
      && after.deleteUserId == d.deleteUserId && after.userToDelete == d.userToDelete
      && after.showDeleteModal == d.showDeleteModal
      && Retried(after) == d.deleteUserId
  {
  }

  /** A successful delete leaves the dialog exactly as a cancel does. */
  lemma SuccessMatchesCancel(d: Dialog)
    ensures Settled(d, true) == Cancelled(d)
  {
  }

  /** Cancelling twice is cancelling once. */
  lemma CancelIdempotent(d: Dialog)
    ensures Cancelled(Cancelled(d)) == Cancelled(d)
  {
  }

  /** When the id is not in the list, the dialog keeps showing whichever user it showed before. */
  lemma UnknownIdKeepsPreviousUser(d: Dialog, id: string, users: seq<UserResponse>)
    requires forall j :: 0 <= j < |users| ==> users[j].id != id
    ensures Selected(d, id, Some(users)).userToDelete == d.userToDelete
  {
  }

  /** With duplicate ids the dialog shows the first matching record. */
  lemma FirstMatchShown(d: Dialog, a: UserResponse, b: UserResponse)
    requires a.id == b.id
    ensures Selected(d, a.id, Some([a, b])).userToDelete == Some(TransformUser(a))
  {
  }
}
