/**
 * The client-side session: two `localStorage` keys written by the login
 * page and checked by the home page. The expiry is stored as the decimal
 * text of a millisecond timestamp and read back with `Number(...)`.
 */
module Session {
  import opened Wrappers

  const LoggedInKey := "loggedIn"
  const ExpiryKey := "loginExpiry"

  /** Ten days in milliseconds: 10 * 24 * 60 * 60 * 1000. */
  const SessionLength: nat := 864000000

  /** Where a handler sends the browser. */
  datatype Navigation = Stay | Push(path: string) | Replace(path: string)

  /** The browser's `localStorage`: a string-to-string store shared by the pages. */
  class LocalStorage {
    var items: map<string, string>

    constructor (initial: map<string, string>)
      ensures items == initial
    {
      items := initial;
    }

    method SetItem(key: string, value: string)
      modifies this
      ensures items == old(items)[key := value]
    {
      items := items[key := value];
    }

    method RemoveItem(key: string)
      modifies this
      ensures items == old(items) - {key}
    {
      items := items - {key};
    }
  }

  // Decimal text of a timestamp

  function DigitChar(d: nat): (c: char)
    requires d < 10
    ensures '0' <= c <= '9'
  {
    "0123456789"[d]
  }

  predicate IsDigit(c: char) {
    '0' <= c <= '9'
  }

  /** `n.toString()` for a non-negative integer (as long as JavaScript prints it without an exponent). */
  function DecimalString(n: nat): (s: string)
    ensures s != []
    ensures forall i :: 0 <= i < |s| ==> IsDigit(s[i])
  {
    if n < 10 then [DigitChar(n)] else DecimalString(n / 10) + [DigitChar(n % 10)]
  }

  function DigitValue(c: char): (d: nat)
    requires IsDigit(c)
    ensures d < 10
  {
    c as int - '0' as int
  }

  /** The value of a string of decimal digits; leading zeros and the empty string are allowed. */
  function DigitsValue(s: string): (r: nat)
    requires forall i :: 0 <= i < |s| ==> IsDigit(s[i])
  {
    if s == [] then 0 else DigitsValue(s[..|s| - 1]) * 10 + DigitValue(s[|s| - 1])
  }

  /**
   * `Number(s)` for the strings this model distinguishes: a string of
   * decimal digits (the empty string included, which JavaScript reads as 0)
   * is its value; anything else is NaN, written `None`.
   */
  function NumberOf(s: string): (r: Option<int>)
  {
    if forall i :: 0 <= i < |s| ==> IsDigit(s[i]) then Some(DigitsValue(s)) else None
  }

  /** Reading back a stored timestamp gives the timestamp. */
  lemma {:induction false} NumberOfDecimalString(n: nat)
    ensures NumberOf(DecimalString(n)) == Some(n)
    ensures DigitsValue(DecimalString(n)) == n
  {
    var s := DecimalString(n);
    if n >= 10 {
      NumberOfDecimalString(n / 10);
      assert s[..|s| - 1] == DecimalString(n / 10);
      assert s[|s| - 1] == DigitChar(n % 10);
    }
    assert DigitValue("0123456789"[n % 10]) == n % 10;
    if n < 10 {
      assert s[..|s| - 1] == [];
    }
    assert DigitsValue(s) == n;
  }

  // The home page gate

  /** `localStorage.getItem(key)` is truthy: present and not the empty string. */
  predicate Truthy(items: map<string, string>, key: string) {
    key in items && items[key] != ""
  }

  /**
   * The gate of the home page exactly as written: it redirects when
   * `!loggedIn || !expiry || Number(expiry) < Date.now()`, so a
   * non-numeric expiry (NaN) is admitted.
   */
  predicate AdmitsAsWritten(items: map<string, string>, now: int) {
    && Truthy(items, LoggedInKey)
    && Truthy(items, ExpiryKey)
    && !(NumberOf(items[ExpiryKey]).Some? && NumberOf(items[ExpiryKey]).value < now)
  }

  /** The gate as intended: both keys are set and the expiry is a number not in the past. */
  predicate Admits(items: map<string, string>, now: int) {
    && Truthy(items, LoggedInKey)
    && Truthy(items, ExpiryKey)
    && NumberOf(items[ExpiryKey]).Some?
    && NumberOf(items[ExpiryKey]).value >= now
  }

  /** The two gates agree on every store whose expiry is numeric, and the intended one never admits more. */
  lemma AdmitsNarrowsAsWritten(items: map<string, string>, now: int)
    ensures Admits(items, now) ==> AdmitsAsWritten(items, now)
    ensures ExpiryKey in items && NumberOf(items[ExpiryKey]).Some? ==>
      (Admits(items, now) <==> AdmitsAsWritten(items, now))
  {
  }

  /** A store whose expiry is not a number passes the gate as written at every time, and fails the intended one. */
  lemma NonNumericExpiryIsAdmitted(now: int)
    ensures var items := map[LoggedInKey := "true", ExpiryKey := "abc"];
            AdmitsAsWritten(items, now) && !Admits(items, now)
  {
  }

  /** The store after a successful login at time `now`. */
  function SignedIn(items: map<string, string>, now: nat): (r: map<string, string>)
  {
    items[LoggedInKey := "true"][ExpiryKey := DecimalString(now + SessionLength)]
  }

  /** The store with both session keys removed, as the gate and the logout leave it. */
  function SignedOut(items: map<string, string>): (r: map<string, string>)
  {
    items - {LoggedInKey, ExpiryKey}
  }

  /** A login at time `t` passes the gate exactly until `t` plus ten days, under either gate. */
  lemma LoginLastsTenDays(items: map<string, string>, t: nat, now: int)
    ensures Admits(SignedIn(items, t), now) <==> now <= t + SessionLength
    ensures AdmitsAsWritten(SignedIn(items, t), now) <==> now <= t + SessionLength
  {
    var s := SignedIn(items, t);
    NumberOfDecimalString(t + SessionLength);
    assert s[ExpiryKey] == DecimalString(t + SessionLength);
    assert s[LoggedInKey] == "true";
  }

  /** After the keys are removed, the gate refuses at every time; removing them again changes nothing. */
  lemma SignedOutIsRefused(items: map<string, string>, now: int)
    ensures !Admits(SignedOut(items), now) && !AdmitsAsWritten(SignedOut(items), now)
    ensures SignedOut(SignedOut(items)) == SignedOut(items)
  {
  }

  /** An admitting store still admits at every earlier time; a refusing one still refuses at every later time. */
  lemma GateIsMonotoneInTime(items: map<string, string>, earlier: int, later: int)
    requires earlier <= later
    ensures Admits(items, later) ==> Admits(items, earlier)
    ensures !Admits(items, earlier) ==> !Admits(items, later)
  {
  }
}
