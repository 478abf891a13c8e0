/**
 * The RSVP page: a main guest, a bounded list of companion guests with two
 * input references per companion, a submit validator and the confirmation
 * modal.
 */
module Invite {
  import opened Text

  /** One person on the invite; `age` is kept as the text typed. */
  datatype Guest = Guest(fullName: string, age: string)

  /** The two inputs of a guest row, by their `name` attribute. */
  datatype GuestField = FullName | Age

  /** What the confirm action posts: `{ mainGuest, otherGuests }`. */
  datatype InvitePayload = InvitePayload(mainGuest: Guest, otherGuests: seq<Guest>)

  const EmptyGuest := Guest("", "")

  /** Capacity of the companion list: 4 when the `sg` query parameter is present, otherwise 1. */
  function MaxGuests(query: map<string, string>): (r: nat)
    ensures r == 4 <==> "sg" in query
    ensures r == 1 <==> "sg" !in query
  {
    if "sg" in query then 4 else 1
  }

  /** A change event on one input: the name is upper-cased, the age is stored as typed. */
  function EditGuest(g: Guest, field: GuestField, value: string): (r: Guest)
    ensures field == FullName ==> r.fullName == Upper(value) && r.age == g.age
    ensures field == Age ==> r.age == value && r.fullName == g.fullName
  {
    match field
    case FullName => g.(fullName := Upper(value))
    case Age => g.(age := value)
  }

  /** A change event on the companion at `index`; every other companion is kept. */
  function EditGuestAt(guests: seq<Guest>, index: nat, field: GuestField, value: string): (r: seq<Guest>)
    requires index < |guests|
    ensures |r| == |guests|
    ensures r[index] == EditGuest(guests[index], field, value)
    ensures forall j :: 0 <= j < |guests| && j != index ==> r[j] == guests[j]
  {
    guests[index := EditGuest(guests[index], field, value)]
  }

  /**
   * Typing one more character into a name field that an earlier change
   * event filled: the field shows what was there followed by the new
   * character upper-cased, so nothing already shown changes.
   */
  lemma TypingIntoName(g: Guest, typed: string, c: char)
    ensures var shown := EditGuest(g, FullName, typed);
            EditGuest(shown, FullName, shown.fullName + [c]).fullName == Upper(typed) + UpperChar(c)
  {
    var shown := Upper(typed);
    UpperConcat(shown, [c]);
    UpperIdempotent(typed);
    assert Upper([c]) == UpperChar(c) + Upper([]);
  }

  /** `list.filter((_, i) => i !== index)`: drop the element at `index`, if there is one. */
  function RemoveAt<T>(s: seq<T>, index: int): (r: seq<T>)
    ensures |r| == if 0 <= index < |s| then |s| - 1 else |s|
  {
    if s == [] then []
    else (if index == 0 then [] else [s[0]]) + RemoveAt(s[1..], index - 1)
  }

  /** Removing an index in range leaves the elements before it and after it, in order. */
  lemma {:induction false} RemoveAtInRange<T>(s: seq<T>, index: int)
    requires 0 <= index < |s|
    ensures RemoveAt(s, index) == s[..index] + s[index + 1..]
  {
    if index == 0 {
      RemoveAtOutOfRange(s[1..], -1);
      assert RemoveAt(s, index) == [] + RemoveAt(s[1..], -1);
    } else {
      var tail := s[1..];
      RemoveAtInRange(tail, index - 1);
      assert RemoveAt(s, index) == [s[0]] + RemoveAt(tail, index - 1);
      assert tail[..index - 1] == s[1..index];
      assert tail[index..] == s[index + 1..];
      assert [s[0]] + s[1..index] == s[..index];
    }
  }

  /** Removing an index in range shifts every later element down by one place and keeps every earlier one. */
  lemma RemoveAtKeepsOrder<T>(s: seq<T>, index: int)
    requires 0 <= index < |s|
    ensures forall j :: 0 <= j < index ==> RemoveAt(s, index)[j] == s[j]
    ensures forall j :: index <= j < |s| - 1 ==> RemoveAt(s, index)[j] == s[j + 1]
  {
    RemoveAtInRange(s, index);
  }

  /** Removing an index out of range changes nothing. */
  lemma {:induction false} RemoveAtOutOfRange<T>(s: seq<T>, index: int)
    requires !(0 <= index < |s|)
    ensures RemoveAt(s, index) == s
  {
    if s != [] {
      RemoveAtOutOfRange(s[1..], index - 1);
      assert [s[0]] + s[1..] == s;
    }
  }

  /** Removing the element just appended gives back the list before the append. */
  lemma RemoveUndoesAppend<T>(s: seq<T>, x: T)
    ensures RemoveAt(s + [x], |s|) == s
  {
    RemoveAtInRange(s + [x], |s|);
    assert (s + [x])[..|s|] == s;
  }

  /** `guest.fullName && !guest.age`: a name was typed but no age. */
  predicate IsIncomplete(g: Guest) {
    g.fullName != "" && g.age == ""
  }

  /** `findIndex` of the first incomplete companion, or -1 when there is none. */
  function FirstIncomplete(guests: seq<Guest>): (r: int)
    ensures -1 <= r < |guests|
    ensures r == -1 <==> forall j :: 0 <= j < |guests| ==> !IsIncomplete(guests[j])
    ensures r != -1 ==> IsIncomplete(guests[r]) && forall j :: 0 <= j < r ==> !IsIncomplete(guests[j])
  {
    if guests == [] then -1
    else if IsIncomplete(guests[0]) then 0
    else
      var k := FirstIncomplete(guests[1..]);
      if k == -1 then -1 else k + 1
  }

  /** A companion row added and left empty never blocks the submit, and never moves the reported index. */
  lemma EmptyRowDoesNotBlock(guests: seq<Guest>)
    ensures !IsIncomplete(EmptyGuest)
    ensures FirstIncomplete(guests + [EmptyGuest]) == FirstIncomplete(guests)
  {
    var longer := guests + [EmptyGuest];
    var k := FirstIncomplete(guests);
    if k != -1 {
      assert longer[k] == guests[k];
    } else {
      assert forall j :: 0 <= j < |guests| ==> longer[j] == guests[j];
    }
  }

  /** A reference handed to an input element; only its identity is modelled. */
  class InputRef {
    constructor ()
    {
    }
  }

  /** The state of the RSVP page that its handlers replace. */
  class InvitePage {
    const maxGuests: nat
    var mainGuest: Guest
    var otherGuests: seq<Guest>
    var otherGuestRefs: seq<InputRef>
    var otherGuestAgeRefs: seq<InputRef>
    var confirmModalOpen: bool
    var confirmed: bool

    /** The capacity is one of the two the page knows, and the three lists move in lockstep within it. */
    ghost predicate Valid()
      reads this
    {
      && (maxGuests == 1 || maxGuests == 4)
      && |otherGuests| <= maxGuests
      && |otherGuestRefs| == |otherGuests|
      && |otherGuestAgeRefs| == |otherGuests|
    }

    constructor (query: map<string, string>)
      ensures Valid()
      ensures maxGuests == MaxGuests(query)
      ensures mainGuest == EmptyGuest && otherGuests == []
      ensures otherGuestRefs == [] && otherGuestAgeRefs == []
      ensures !confirmModalOpen && !confirmed
    {
      maxGuests := MaxGuests(query);
      mainGuest := EmptyGuest;
      otherGuests, otherGuestRefs, otherGuestAgeRefs := [], [], [];
      confirmModalOpen, confirmed := false, false;
    }

    /** `handleMainGuestChange`. */
    method EditMainGuest(field: GuestField, value: string)
      modifies this`mainGuest
      ensures mainGuest == EditGuest(old(mainGuest), field, value)
    {
      mainGuest := EditGuest(mainGuest, field, value);
    }

    /** `handleOtherGuestChange`; the index comes from the row being rendered. */
    method EditOtherGuest(index: nat, field: GuestField, value: string)
      requires Valid() && index < |otherGuests|
      modifies this`otherGuests
      ensures Valid()
      ensures otherGuests == EditGuestAt(old(otherGuests), index, field, value)
    {
      otherGuests := EditGuestAt(otherGuests, index, field, value);
    }

    /** `addGuest`: below capacity an empty companion and two fresh refs are appended; at capacity nothing changes. */
    method AddGuest()
      requires Valid()
      modifies this`otherGuests, this`otherGuestRefs, this`otherGuestAgeRefs
      ensures Valid()
      ensures old(|otherGuests|) >= maxGuests ==>
        otherGuests == old(otherGuests) && otherGuestRefs == old(otherGuestRefs)
        && otherGuestAgeRefs == old(otherGuestAgeRefs)
      ensures old(|otherGuests|) < maxGuests ==>
        && otherGuests == old(otherGuests) + [EmptyGuest]
        && |otherGuestRefs| == |otherGuestAgeRefs| == old(|otherGuestRefs|) + 1
        && otherGuestRefs[..old(|otherGuestRefs|)] == old(otherGuestRefs)
        && otherGuestAgeRefs[..old(|otherGuestAgeRefs|)] == old(otherGuestAgeRefs)
        && fresh(otherGuestRefs[old(|otherGuestRefs|)])
        && fresh(otherGuestAgeRefs[old(|otherGuestAgeRefs|)])
    {
      if |otherGuests| < maxGuests {
        var nameRef := new InputRef();
        var ageRef := new InputRef();
        otherGuests := otherGuests + [EmptyGuest];
        otherGuestRefs := otherGuestRefs + [nameRef];
        otherGuestAgeRefs := otherGuestAgeRefs + [ageRef];
      }
    }

    /** `handleRemoveGuest`: the same index leaves all three lists. */
    method RemoveGuest(index: int)
      requires Valid()
      modifies this`otherGuests, this`otherGuestRefs, this`otherGuestAgeRefs
      ensures Valid()
      ensures otherGuests == RemoveAt(old(otherGuests), index)
      ensures otherGuestRefs == RemoveAt(old(otherGuestRefs), index)
      ensures otherGuestAgeRefs == RemoveAt(old(otherGuestAgeRefs), index)
    {
      otherGuests := RemoveAt(otherGuests, index);
      otherGuestRefs := RemoveAt(otherGuestRefs, index);
      otherGuestAgeRefs := RemoveAt(otherGuestAgeRefs, index);
    }

    /**
     * `handleSubmit`: returns the index of the first companion with a name
     * and no age, whose age ref exists, and then leaves the modal as it was;
     * with no such companion (-1) the confirmation modal opens. The main
     * guest's two inputs are `required`, so the browser only lets the form
     * submit once both are filled in.
     */
    method Submit() returns (invalidIndex: int)
      requires Valid()
      requires mainGuest.fullName != "" && mainGuest.age != ""
      modifies this`confirmModalOpen
      ensures invalidIndex == FirstIncomplete(otherGuests)
      ensures invalidIndex != -1 ==> 0 <= invalidIndex < |otherGuestAgeRefs|
      ensures confirmModalOpen == (invalidIndex == -1 || old(confirmModalOpen))
    {
      invalidIndex := FirstIncomplete(otherGuests);
      if invalidIndex == -1 {
        confirmModalOpen := true;
      }
    }

    /** The modal's close and cancel actions. */
    method CancelConfirm()
      modifies this`confirmModalOpen
      ensures !confirmModalOpen
    {
      confirmModalOpen := false;
    }

    /**
     * `handleConfirm`: posts the invite, always closes the modal, and marks
     * the invite confirmed only when the request succeeded.
     */
    method Confirm(succeeded: bool) returns (payload: InvitePayload)
      modifies this`confirmModalOpen, this`confirmed
      ensures payload == InvitePayload(mainGuest, otherGuests)
      ensures !confirmModalOpen
      ensures confirmed == (succeeded || old(confirmed))
    {
      confirmModalOpen := false;
      payload := InvitePayload(mainGuest, otherGuests);
      if succeeded {
        confirmed := true;
      }
    }
  }

  /** Without `sg` the second "add companion" does nothing; with it four fit and a fifth does nothing. */
  method FillCompanions(query: map<string, string>) returns (afterTwo: nat, afterFive: nat)
    ensures "sg" !in query ==> afterTwo == 1 && afterFive == 1
    ensures "sg" in query ==> afterTwo == 2 && afterFive == 4
  {
    var page := new InvitePage(query);
    page.AddGuest();
    page.AddGuest();
    afterTwo := |page.otherGuests|;
    page.AddGuest();
    page.AddGuest();
    page.AddGuest();
    afterFive := |page.otherGuests|;
  }
}
