/** The login page: one form, one submit handler with a success and a failure branch. */
module Login {
  import opened Wrappers
  import opened Session

  /** The request body, `{ username, password }`. */
  datatype Credentials = Credentials(username: string, password: string)

  /** The parts of the server's JSON answer the page reads. */
  datatype LoginReply = LoginReply(success: bool, message: Option<string>)

  const FallbackError := "Falha no login"

  /** `data.message || 'Falha no login'`: the server's message unless it is missing or empty. */
  function ErrorMessage(reply: LoginReply): (r: string)
    ensures r != ""
    ensures reply.message.Some? && reply.message.value != "" ==> r == reply.message.value
    ensures reply.message.None? || reply.message.value == "" ==> r == FallbackError
  {
    if reply.message.Some? && reply.message.value != "" then reply.message.value else FallbackError
  }

  class LoginPage {
    var username: string
    var password: string
    var error: string
    const store: LocalStorage

    constructor (store: LocalStorage)
      ensures this.store == store
      ensures username == "" && password == "" && error == ""
    {
      this.store := store;
      username, password, error := "", "", "";
    }

    /**
     * `handleSubmit`: sends the entered credentials; `reply` is the server's
     * answer and `now` the value of `Date.now()`. On success the session keys
     * are written and the browser goes to `/`; on failure only the error
     * message changes.
     */
    method Submit(reply: LoginReply, now: nat) returns (request: Credentials, nav: Navigation)
      modifies this`error, store
      ensures request == Credentials(username, password)
      ensures reply.success ==>
        store.items == SignedIn(old(store.items), now) && nav == Push("/") && error == old(error)
      ensures !reply.success ==>
        store.items == old(store.items) && nav == Stay && error == ErrorMessage(reply)
    {
      request := Credentials(username, password);
      if reply.success {
        store.SetItem(LoggedInKey, "true");
        store.SetItem(ExpiryKey, DecimalString(now + SessionLength));
        nav := Push("/");
      } else {
        error := ErrorMessage(reply);
        nav := Stay;
      }
    }
  }
}
