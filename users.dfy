/**
 * The admin user-table script: the create/edit form's checks and request,
 * how the response is judged, and the page state kept by `loadUsers`.
 */
module Users {
  import opened Wrappers
  import opened Http
  import JsText
  import Paging

  /** The fields of `#createUserForm`; an empty `userId` means create mode. */
  datatype UserForm = UserForm(
    userId: string,
    firstName: string,
    lastName: string,
    email: string,
    password: string,
    confirmPassword: string,
    role: string)

  datatype Payload = Payload(firstName: string, lastName: string, email: string, password: string, role: string)

  datatype Request = Request(url: string, verb: string, payload: Payload)

  datatype Submission = Invalid(message: string) | Send(request: Request)

  predicate IsCreate(form: UserForm) {
    form.userId == ""
  }

  /**
   * The submit handler up to the request: in create mode the passwords must
   * match (checked first) and be non-empty; edit mode checks neither. A user
   * id selects `PUT /api/users/{id}`, none `POST /api/register`; the names
   * and email are trimmed, password and role go as typed.
   */
  function SubmitUserForm(form: UserForm): (s: Submission)
    ensures s.Invalid? <==> IsCreate(form) && (form.password != form.confirmPassword || form.password == "")
    ensures IsCreate(form) && form.password != form.confirmPassword ==> s == Invalid("Passwords do not match.")
    ensures IsCreate(form) && form.password == form.confirmPassword && form.password == "" ==>
      s == Invalid("Password is required.")
    ensures s.Send? ==> (s.request.url == (if IsCreate(form) then "/api/register" else "/api/users/" + form.userId)
      && s.request.verb == (if IsCreate(form) then "POST" else "PUT"))
    ensures s.Send? ==> (s.request.payload ==
      Payload(JsText.Trim(form.firstName), JsText.Trim(form.lastName), JsText.Trim(form.email), form.password, form.role))
  {
    if IsCreate(form) && form.password != form.confirmPassword then Invalid("Passwords do not match.")
    else if IsCreate(form) && form.password == "" then Invalid("Password is required.")
    else
      var url := if form.userId != "" then "/api/users/" + form.userId else "/api/register";
      var verb := if form.userId != "" then "PUT" else "POST";
      Send(Request(url, verb, Payload(JsText.Trim(form.firstName), JsText.Trim(form.lastName),
                                        JsText.Trim(form.email), form.password, form.role)))
  }

  /** Edit mode sends whatever passwords were typed, including none. */
  lemma EditModeSkipsPasswordChecks(form: UserForm)
    requires !IsCreate(form)
    ensures SubmitUserForm(form).Send?
    ensures SubmitUserForm(form).request.payload.password == form.password
  {
  }

  /** An empty password with a non-empty confirmation is reported as a mismatch. */
  lemma MismatchReportedFirst(form: UserForm)
    requires IsCreate(form) && form.password == "" && form.confirmPassword != ""
    ensures SubmitUserForm(form) == Invalid("Passwords do not match.")
  {
  }

  /** The fields of the JSON answer the handler looks at. */
  datatype SaveBody = SaveBody(success: bool, id: Option<int>, error: Option<string>)

  datatype SaveOutcome = Saved(reloadPage: int) | Failed(message: string)

  function Fallback(userId: string): string {
    if userId != "" then "Could not update user." else "Could not create user."
  }

  /**
   * The rest of the handler: success needs an OK status and a body with
   * `success` or a non-zero `id`, and reloads `window.currentPage || 1`;
   * otherwise the server's error or the mode's fallback is shown.
   */
  function SaveResult(userId: string, resp: Response<SaveBody>, windowPage: Option<int>): (o: SaveOutcome)
    ensures o.Saved? <==> (resp.Response? && IsOk(resp.status) && resp.body.Some?
      && (resp.body.value.success || (resp.body.value.id.Some? && resp.body.value.id.value != 0)))
    ensures o.Saved? ==> o.reloadPage == (if windowPage.Some? && windowPage.value != 0 then windowPage.value else 1)
    ensures o.Failed? && resp.Response? && resp.body.Some? ==> o.message == OrElse(resp.body.value.error, Fallback(userId))
    ensures o.Failed? && (resp.NetworkError? || resp.body.None?) ==> o.message == Fallback(userId)
  {
    match resp
    case NetworkError => Failed(Fallback(userId))
    case Response(status, body) =>
      if body.None? then Failed(Fallback(userId))
      else
        var json := body.value;
        if IsOk(status) && (json.success || (json.id.Some? && json.id.value != 0)) then
          Saved(if windowPage.Some? && windowPage.value != 0 then windowPage.value else 1)
        else Failed(OrElse(json.error, Fallback(userId)))
  }

  // ---------------------------------------------------------------- table

  datatype UserRecord = UserRecord(id: int, firstName: string, lastName: string, email: string,
                                   twoFactorEnabled: bool, role: string)

  datatype Row =
    | NoUsersFound
    | UserRow(id: int, firstName: string, lastName: string, email: string, twoFactor: string, role: string)

  function RowOf(u: UserRecord): Row {
    UserRow(u.id, u.firstName, u.lastName, u.email, if u.twoFactorEnabled then "Yes" else "", u.role)
  }

  /** The table body for a page of users: one row each, in order, or the "No users found." row. */
  function RowsOf(users: seq<UserRecord>): (rows: seq<Row>)
    ensures users == [] ==> rows == [NoUsersFound]
    ensures users != [] ==> (|rows| == |users| && forall i :: 0 <= i < |users| ==> rows[i] == RowOf(users[i]))
  {
    if users == [] then [NoUsersFound] else seq(|users|, i requires 0 <= i < |users| => RowOf(users[i]))
  }

  datatype UsersData = UsersData(users: seq<UserRecord>, page: int, totalPages: int)

  class UsersPage {
    var currentPage: Option<int>   // window.currentPage
    var totalPages: Option<int>    // window.totalPages
    var rows: seq<Row>
    var errorShown: bool
    var loadingShown: bool
    var pager: Paging.Pager

    constructor ()
      ensures currentPage.None? && totalPages.None? && rows == [] && !errorShown && !loadingShown
      ensures pager == Paging.Pager(false, false)
    {
      currentPage, totalPages, rows := None, None, [];
      errorShown, loadingShown, pager := false, false, Paging.Pager(false, false);
    }

    /**
     * `loadUsers`: fetches one page and appends a row per user; the page
     * number and count then come from the answer. Any failure clears the
     * table and shows the error, keeping the requested page number.
     */
    method LoadUsers(page: int, pageSize: int, resp: Response<UsersData>) returns (url: string)
      modifies this
      ensures url == "/api/users?page=" + JsText.Decimal(page) + "&pageSize=" + JsText.Decimal(pageSize)
      ensures !loadingShown
      ensures (resp.Response? && IsOk(resp.status) && resp.body.Some?) ==> (
        && rows == RowsOf(resp.body.value.users)
        && currentPage == Some(resp.body.value.page) && totalPages == Some(resp.body.value.totalPages)
        && pager == Paging.PagerFor(resp.body.value.page, resp.body.value.totalPages)
        && !errorShown)
      ensures !(resp.Response? && IsOk(resp.status) && resp.body.Some?) ==> (
        && rows == [] && errorShown && currentPage == Some(page)
        && totalPages == old(totalPages) && pager == old(pager))
    {
      currentPage := Some(page);
      loadingShown, errorShown := true, false;
      url := "/api/users?page=" + JsText.Decimal(page) + "&pageSize=" + JsText.Decimal(pageSize);
      if !(resp.Response? && IsOk(resp.status) && resp.body.Some?) {
        loadingShown, errorShown, rows := false, true, [];
        return;
      }
      var data := resp.body.value;
      var body: seq<Row> := [];
      if |data.users| == 0 {
        body := [NoUsersFound];
      } else {
        for i := 0 to |data.users|
          invariant body == seq(i, k requires 0 <= k < i => RowOf(data.users[k]))
        {
          body := body + [RowOf(data.users[i])];
        }
      }
      rows := body;
      currentPage, totalPages := Some(data.page), Some(data.totalPages);
      pager := Paging.PagerFor(data.page, data.totalPages);
      loadingShown := false;
    }
  }
}
