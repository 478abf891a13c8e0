/**
 * The home page: the session gate and logout, the add-expense form, inline
 * editing of one expense, and the delete confirmation dialog.
 */
module Home {
  import opened Wrappers
  import opened Text
  import opened Session
  import opened Expenses
  import opened Login

  /** `!(!description.trim() || value === 0)`: the guard of both add and save-edit. */
  predicate Submittable(description: string, value: real) {
    !IsBlank(description) && value != 0.0
  }

  /** The add form after a submit, with the expense the submit sends, if any. */
  datatype FormOutcome = FormOutcome(description: string, value: real, request: Option<NewExpense>)

  /** `handleSubmit` of the add form: send and reset to `''` and `0`, or do nothing. */
  function SubmitForm(description: string, value: real): (r: FormOutcome)
    ensures r.request.Some? <==> Submittable(description, value)
    ensures r.request.Some? ==> r == FormOutcome("", 0.0, Some(NewExpense(description, value)))
    ensures r.request.None? ==> r.description == description && r.value == value
  {
    if Submittable(description, value) then FormOutcome("", 0.0, Some(NewExpense(description, value)))
    else FormOutcome(description, value, None)
  }

  /** A form that has just been sent is reset, so submitting it again sends nothing; a refused form stays refused. */
  lemma SubmitSendsOnce(description: string, value: real)
    ensures var first := SubmitForm(description, value);
            SubmitForm(first.description, first.value).request == None
  {
  }

  class HomePage {
    const store: LocalStorage
    var description: string
    var value: real
    var editingExpenseId: Option<int>
    var editDescription: string
    var editValue: real
    var confirmDeleteId: Option<int>

    constructor (store: LocalStorage)
      ensures this.store == store
      ensures description == "" && value == 0.0
      ensures editingExpenseId == None && editDescription == "" && editValue == 0.0
      ensures confirmDeleteId == None
    {
      this.store := store;
      description, value := "", 0.0;
      editingExpenseId, editDescription, editValue := None, "", 0.0;
      confirmDeleteId := None;
    }

    /**
     * The mount effect: with a valid session nothing happens; otherwise both
     * session keys are removed and the browser is sent to `/login`.
     */
    method CheckSession(now: int) returns (nav: Navigation)
      modifies store
      ensures Admits(old(store.items), now) ==> store.items == old(store.items) && nav == Stay
      ensures !Admits(old(store.items), now) ==>
        store.items == SignedOut(old(store.items)) && nav == Replace("/login")
    {
      if !Admits(store.items, now) {
        store.RemoveItem(LoggedInKey);
        store.RemoveItem(ExpiryKey);
        nav := Replace("/login");
      } else {
        nav := Stay;
      }
    }

    /** `handleLogout`: whatever was stored, both keys go and the browser is sent to `/login`. */
    method Logout() returns (nav: Navigation)
      modifies store
      ensures store.items == SignedOut(old(store.items))
      ensures nav == Replace("/login")
    {
      store.RemoveItem(LoggedInKey);
      store.RemoveItem(ExpiryKey);
      nav := Replace("/login");
    }

    /** `handleSubmit` of the add form. */
    method Submit() returns (request: Option<NewExpense>)
      modifies this`description, this`value
      ensures FormOutcome(description, value, request) == SubmitForm(old(description), old(value))
    {
      var outcome := SubmitForm(description, value);
      description, value, request := outcome.description, outcome.value, outcome.request;
    }

    /** `handleEdit`: the row's id, description and value go into the edit state. */
    method Edit(expense: Expense)
      modifies this`editingExpenseId, this`editDescription, this`editValue
      ensures editingExpenseId == Some(expense.id)
      ensures editDescription == expense.description && editValue == expense.value
    {
      editingExpenseId := Some(expense.id);
      editDescription := expense.description;
      editValue := expense.value;
    }

    /** `handleCancelEdit`. */
    method CancelEdit()
      modifies this`editingExpenseId
      ensures editingExpenseId == None
    {
      editingExpenseId := None;
    }

    /** `handleSaveEdit`: the update it sends, if the edited fields pass the guard; it changes no state. */
    method SaveEdit(id: int) returns (request: Option<Expense>)
      ensures request.Some? <==> Submittable(editDescription, editValue)
      ensures request.Some? ==> request.value == Expense(id, editDescription, editValue)
    {
      request := if Submittable(editDescription, editValue) then Some(Expense(id, editDescription, editValue)) else None;
    }

    /** The update's `onSuccess`: editing ends. */
    method UpdateSucceeded()
      modifies this`editingExpenseId
      ensures editingExpenseId == None
    {
      editingExpenseId := None;
    }

    /** `open={confirmDeleteId !== null}`: whether the delete confirmation dialog is shown. */
    predicate DeleteDialogOpen()
      reads this
    {
      confirmDeleteId.Some?
    }

    /** `handleDelete` through `openConfirmDelete`: the id waits for confirmation. */
    method Delete(id: int)
      modifies this`confirmDeleteId
      ensures confirmDeleteId == Some(id)
      ensures DeleteDialogOpen()
    {
      confirmDeleteId := Some(id);
    }

    /** `handleConfirmDelete`: sends a delete for the pending id, if there is one, and clears it. */
    method ConfirmDelete() returns (request: Option<int>)
      modifies this`confirmDeleteId
      ensures request == old(confirmDeleteId)
      ensures confirmDeleteId == None && !DeleteDialogOpen()
    {
      if confirmDeleteId.Some? {
        request := confirmDeleteId;
        confirmDeleteId := None;
      } else {
        request := None;
      }
    }

    /** `handleCancelDelete`: the pending id is dropped and nothing is sent. */
    method CancelDelete()
      modifies this`confirmDeleteId
      ensures confirmDeleteId == None && !DeleteDialogOpen()
    {
      confirmDeleteId := None;
    }
  }

  /**
   * One session across the two pages, on one store: a login at `t` keeps the
   * home page open at every `now` up to ten days later and sends the browser
   * to `/login` afterwards.
   */
  method LoginThenVisitHome(store: LocalStorage, t: nat, now: int) returns (nav: Navigation)
    modifies store
    ensures now <= t + SessionLength ==> nav == Stay
    ensures now > t + SessionLength ==> nav == Replace("/login")
  {
    var login := new LoginPage(store);
    var _, _ := login.Submit(LoginReply(true, None), t);
    LoginLastsTenDays(old(store.items), t, now);
    var home := new HomePage(store);
    nav := home.CheckSession(now);
  }
}
