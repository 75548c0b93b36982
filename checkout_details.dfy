/** The selected user's checkout panel
    (`components/user-radio-checkout-details.tsx`): the radios checked out
    to the user, the radios available, and a local list of the check-ins and
    check-outs made from the panel. A handler that sends a PUT returns the
    body it sends. */
module CheckoutDetails {
  import opened Json
  import opened Types
  import opened Seqs
  import opened RadiosRoute
  import opened Api

  /** A locally recorded event: the user's name, not id. */
  datatype LocalEntry = LocalEntry(operation: Operation, radioID: string, userName: Option<string>, date: string)

  /** `radio.checked_out_user === user.id`. */
  function CheckedOutTo(userId: string): Radio -> bool {
    (r: Radio) => r.checkedOutUser == Present(userId)
  }

  /** `!radio.checked_out_user`. */
  function IsAvailable(): Radio -> bool {
    (r: Radio) => !TruthyField(r.checkedOutUser)
  }

  function IdIsNot(id: string): Radio -> bool {
    (r: Radio) => r.id != id
  }

  /** The two lists the effect derives from the selected user and the radios. */
  function CheckedOutList(user: Option<User>, radios: seq<Radio>): seq<Radio> {
    if user.Some? then Filter(radios, CheckedOutTo(user.value.id)) else []
  }

  function AvailableList(user: Option<User>, radios: seq<Radio>): seq<Radio> {
    if user.Some? then Filter(radios, IsAvailable()) else []
  }

  /** With a user, a radio is listed as checked out exactly when it is one of
      the radios and its user is that user's id, and as available exactly
      when its user is falsy; with no user both lists are empty. */
  lemma DerivedListsExactly(user: Option<User>, radios: seq<Radio>, r: Radio)
    ensures user.None? ==> CheckedOutList(user, radios) == [] && AvailableList(user, radios) == []
    ensures user.Some? ==> (r in CheckedOutList(user, radios) <==> r in radios && r.checkedOutUser == Present(user.value.id))
    ensures user.Some? ==> (r in AvailableList(user, radios) <==> r in radios && !TruthyField(r.checkedOutUser))
  {
    if user.Some? {
      FilterMember(radios, CheckedOutTo(user.value.id), r);
      FilterMember(radios, IsAvailable(), r);
    }
  }

  /** No radio is in both lists, unless the user's id is empty. */
  lemma DerivedListsDisjoint(user: User, radios: seq<Radio>, r: Radio)
    requires user.id != ""
    ensures !(r in CheckedOutList(Some(user), radios) && r in AvailableList(Some(user), radios))
  {
    DerivedListsExactly(Some(user), radios, r);
  }

  /** The body of a check-out from the panel makes the route log a check-out
      for the user when the stored radio is available. */
  lemma PanelCheckOutLogsCheckOut(stored: Radio, user: User, now: string)
    requires !TruthyField(stored.checkedOutUser) && user.id != ""
    ensures Transition(stored.checkedOutUser, CheckOutBody(stored.id, user.id, now).checkedOutUser)
         == Some(LogRequest(Some(user.id), CheckOut))
  {
  }

  /** The body of a check-in from the panel makes the route log a check-in
      for the stored user. */
  lemma PanelCheckInLogsCheckIn(stored: Radio, userId: string)
    requires stored.checkedOutUser == Present(userId)
    ensures Transition(stored.checkedOutUser, CheckInBody(stored.id).checkedOutUser)
         == Some(LogRequest(Some(userId), CheckIn))
  {
  }

  /** The radio as the panel re-lists it after a check-in. */
  function Cleared(r: Radio): Radio {
    r.(checkedOutUser := Null, checkoutDate := Null)
  }

  function UserName(user: Option<User>): Option<string> {
    if user.Some? then Some(user.value.name) else None
  }

  function CheckInEntry(user: Option<User>, now: string): Radio -> LocalEntry {
    (r: Radio) => LocalEntry(CheckIn, r.id, UserName(user), now)
  }

  class Details {
    var selectedUser: Option<User>
    var checkedOut: seq<Radio>
    var available: seq<Radio>
    var log: seq<LocalEntry>

    constructor ()
      ensures selectedUser.None? && checkedOut == [] && available == [] && log == []
    {
      selectedUser := None;
      checkedOut := [];
      available := [];
      log := [];
    }

    /** The effect run when the selected user or the radios change. */
    method Derive(user: Option<User>, radios: seq<Radio>)
      modifies this
      ensures selectedUser == user && log == old(log)
      ensures checkedOut == CheckedOutList(user, radios)
      ensures available == AvailableList(user, radios)
    {
      selectedUser := user;
      if user.Some? {
        checkedOut := Filter(radios, CheckedOutTo(user.value.id));
        available := Filter(radios, IsAvailable());
      } else {
        checkedOut := [];
        available := [];
      }
    }

    /** `isAlreadyCheckedOut`: some radio in the checked-out list has the ID. */
    function IsAlreadyCheckedOut(radioID: string): (b: bool)
      reads this
      ensures b <==> exists i :: 0 <= i < |checkedOut| && checkedOut[i].id == radioID
    {
      Any(checkedOut, IdIs(radioID))
    }

    /** `handleCheckIn`: the radio leaves the checked-out list (every radio
        with its ID), one check-in is recorded, a PUT clearing the user and
        the date is sent, and the cleared radio is added to the available list. */
    method HandleCheckIn(radio: Radio, now: string) returns (sent: RadioBody)
      modifies this`checkedOut, this`available, this`log
      ensures checkedOut == Filter(old(checkedOut), IdIsNot(radio.id))
      ensures !IsAlreadyCheckedOut(radio.id)
      ensures log == old(log) + [LocalEntry(CheckIn, radio.id, UserName(selectedUser), now)]
      ensures sent == CheckInBody(radio.id)
      ensures available == old(available) + [Cleared(radio)]
    {
      checkedOut := Filter(checkedOut, IdIsNot(radio.id));
      forall i | 0 <= i < |checkedOut| ensures checkedOut[i].id != radio.id {
        FilterMember(old(checkedOut), IdIsNot(radio.id), checkedOut[i]);
      }
      log := log + [LocalEntry(CheckIn, radio.id, UserName(selectedUser), now)];
      sent := CheckInBody(radio.id);
      available := available + [Cleared(radio)];
    }

    /** `handleCheckInAll`: one check-in per listed radio, in order, and an
        empty checked-out list. No request is sent and the available list is
        left as it was. */
    method HandleCheckInAll(now: string)
      modifies this`checkedOut, this`log
      ensures checkedOut == []
      ensures log == old(log) + Map(old(checkedOut), CheckInEntry(selectedUser, now))
      ensures |log| == |old(log)| + |old(checkedOut)|
    {
      log := log + Map(checkedOut, CheckInEntry(selectedUser, now));
      checkedOut := [];
    }

    /** `handleCheckout`: nothing unless a user is selected and the radio is
        available; then the first available radio with the ID moves to the
        checked-out list, one check-out is recorded and a PUT is sent. */
    method HandleCheckout(radioID: string, now: string) returns (sent: Option<RadioBody>)
      modifies this`checkedOut, this`available, this`log
      ensures var found := Find(old(available), IdIs(radioID));
        if found.Some? && selectedUser.Some? then
          && checkedOut == old(checkedOut) + [found.value]
          && IsAlreadyCheckedOut(radioID)
          && log == old(log) + [LocalEntry(CheckOut, found.value.id, Some(selectedUser.value.name), now)]
          && sent == Some(CheckOutBody(radioID, selectedUser.value.id, now))
          && available == Filter(old(available), IdIsNot(radioID))
        else
          sent.None? && checkedOut == old(checkedOut) && available == old(available) && log == old(log)
    {
      var newRadio := Find(available, IdIs(radioID));
      if newRadio.Some? && selectedUser.Some? {
        checkedOut := checkedOut + [newRadio.value];
        assert checkedOut[|checkedOut| - 1].id == radioID;
        log := log + [LocalEntry(CheckOut, newRadio.value.id, Some(selectedUser.value.name), now)];
        sent := Some(CheckOutBody(radioID, selectedUser.value.id, now));
        available := Filter(available, IdIsNot(radioID));
      } else {
        sent := None;
      }
    }

    /** `handleCheckInThenCheckout`: for a listed radio, a check-in followed by
        a check-out of the same ID, which the check-in has just made available. */
    method HandleCheckInThenCheckout(radioID: string, now: string) returns (sent: seq<RadioBody>)
      modifies this`checkedOut, this`available, this`log
      ensures var radio := Find(old(checkedOut), IdIs(radioID));
        radio.None? ==> sent == [] && checkedOut == old(checkedOut) && available == old(available) && log == old(log)
      ensures var radio := Find(old(checkedOut), IdIs(radioID));
        radio.Some? && selectedUser.Some? ==>
          var back := Find(old(available) + [Cleared(radio.value)], IdIs(radioID));
          && back.Some?
          && sent == [CheckInBody(radioID), CheckOutBody(radioID, selectedUser.value.id, now)]
          && checkedOut == Filter(old(checkedOut), IdIsNot(radioID)) + [back.value]
          && log == old(log) + [LocalEntry(CheckIn, radioID, UserName(selectedUser), now),
                                LocalEntry(CheckOut, radioID, Some(selectedUser.value.name), now)]
          && available == Filter(old(available) + [Cleared(radio.value)], IdIsNot(radioID))
      ensures var radio := Find(old(checkedOut), IdIs(radioID));
        radio.Some? && selectedUser.None? ==>
          && sent == [CheckInBody(radioID)]
          && checkedOut == Filter(old(checkedOut), IdIsNot(radioID))
          && available == old(available) + [Cleared(radio.value)]
          && log == old(log) + [LocalEntry(CheckIn, radioID, None, now)]
    {
      var radio := Find(checkedOut, IdIs(radioID));
      if radio.None? {
        return [];
      }
      ghost var avail := available + [Cleared(radio.value)];
      assert IdIs(radioID)(avail[|avail| - 1]);
      var first := HandleCheckIn(radio.value, now);
      assert available == avail;
      var second := HandleCheckout(radioID, now);
      sent := if second.Some? then [first, second.value] else [first];
    }
  }
}
