/** The radio inventory route (`/api/admin/radios`): the list of radios,
    created by POST, updated by PUT (which reports check-outs and check-ins
    to the checkout log), removed by DELETE and read by GET. */
module RadiosRoute {
  import opened Json
  import opened Types
  import opened Seqs
  import opened Http
  import opened CheckoutLogRoute

  /** A request body. Every property may be missing; the checkout user and
      date may also be `null`. */
  datatype RadioBody = RadioBody(
    id: Option<string>,
    name: Option<string>,
    comments: Option<string>,
    partiallyDamaged: Option<bool>,
    nonfunctional: Option<bool>,
    checkedOutUser: Field<string>,
    checkoutDate: Field<string>)

  /** What PUT reports to the checkout log: the user id it sends (None when
      the value it sends is `undefined` or `null`) and the operation. */
  datatype LogRequest = LogRequest(userID: Option<string>, operation: Operation)

  function IdIs(id: string): Radio -> bool {
    (r: Radio) => r.id == id
  }

  /** `JSON.stringify(radio)`: every property of the radio
      as a request body; `undefined` properties stay absent. */
  function FullBody(r: Radio): RadioBody {
    RadioBody(Some(r.id), Some(r.name), r.comments, r.partiallyDamaged, r.nonfunctional, r.checkedOutUser, r.checkoutDate)
  }

  /** The radio POST creates: empty comments, no damage, not checked out. */
  function NewRadio(id: string, name: string): Radio {
    Radio(id, name, Some(""), Some(false), Some(false), Null, Null)
  }

  /** The string a nullable property holds, None for `undefined` and `null`. */
  function FieldValue(f: Field<string>): Option<string> {
    if f.Present? then Some(f.value) else None
  }

  /** The event PUT logs, given the stored checkout user and the requested
      one: a check-out for the requested user when it is truthy and differs
      from the stored value; otherwise a check-in for the stored user when
      the request clears the user and the stored value is not `null` (an
      absent stored value counts as checked out). */
  function Transition(stored: Field<string>, requested: Field<string>): Option<LogRequest> {
    if TruthyField(requested) && requested != stored then Some(LogRequest(Some(requested.value), CheckOut))
    else if requested.Null? && !stored.Null? then Some(LogRequest(FieldValue(stored), CheckIn))
    else None
  }

  /** The radio after PUT's field updates, in the order the route applies
      them: comments; then the nonfunctional flag, which when set clears the
      partial-damage flag; then the partial-damage flag, only while the radio
      is not nonfunctional; then the user and the date, each on its own. */
  function UpdatedRadio(r: Radio, b: RadioBody): Radio {
    var r1 := if b.comments.Some? then r.(comments := b.comments) else r;
    var r2 := if b.nonfunctional.Some? then r1.(nonfunctional := b.nonfunctional) else r1;
    var r3 := if IsTrue(b.nonfunctional) then r2.(partiallyDamaged := Some(false)) else r2;
    var r4 := if !IsTrue(r3.nonfunctional) && b.partiallyDamaged.Some? then r3.(partiallyDamaged := b.partiallyDamaged) else r3;
    var r5 := if !b.checkedOutUser.Absent? then r4.(checkedOutUser := b.checkedOutUser) else r4;
    if !b.checkoutDate.Absent? then r5.(checkoutDate := b.checkoutDate) else r5
  }

  /** The log after PUT has reported `t` for radio `radioID`: the log route
      appends an entry only when the reported user id is truthy. */
  function LedgerAfter(before: Option<seq<LogEntry>>, radioID: string, t: Option<LogRequest>, date: string): Option<seq<LogEntry>> {
    match t
    case None => before
    case Some(req) =>
      if Truthy(req.userID) then Some(before.GetOr([]) + [LogEntry(radioID, req.userID.value, req.operation.Name(), date)])
      else before
  }

  // ---------------------------------------------------------------------
  // Properties of a single PUT

  /** Handing a radio from one user straight to another logs one check-out
      for the new user and no check-in for the old one. */
  lemma ReassignLogsOnlyCheckOut(a: string, b: string)
    requires b != "" && a != b
    ensures Transition(Present(a), Present(b)) == Some(LogRequest(Some(b), CheckOut))
  {
  }

  /** A check-out is logged exactly when the requested user is truthy and
      differs from the stored one; a check-in exactly when, failing that,
      the request clears the user of a radio whose stored user is not null. */
  lemma TransitionCases(stored: Field<string>, requested: Field<string>)
    ensures (Transition(stored, requested).Some? && Transition(stored, requested).value.operation == CheckOut)
        <==> TruthyField(requested) && requested != stored
    ensures (Transition(stored, requested).Some? && Transition(stored, requested).value.operation == CheckIn)
        <==> requested.Null? && !stored.Null?
    ensures Transition(stored, requested).Some? && Transition(stored, requested).value.operation == CheckOut
        ==> Transition(stored, requested).value.userID == Some(requested.value)
    ensures Transition(stored, requested).Some? && Transition(stored, requested).value.operation == CheckIn
        ==> Transition(stored, requested).value.userID == FieldValue(stored)
  {
  }

  /** Clearing the user of a radio whose stored user is absent reports a
      check-in without a user id, which the log route refuses: nothing is logged. */
  lemma CheckInFromAbsentLogsNothing(before: Option<seq<LogEntry>>, radioID: string, date: string)
    ensures Transition(Absent, Null) == Some(LogRequest(None, CheckIn))
    ensures LedgerAfter(before, radioID, Transition(Absent, Null), date) == before
  {
  }

  /** The state a PUT leaves agrees with the event it logged. */
  lemma LoggedEventMatchesState(r: Radio, b: RadioBody)
    ensures var t := Transition(r.checkedOutUser, b.checkedOutUser);
      t.Some? ==> (t.value.operation == CheckOut <==> TruthyField(UpdatedRadio(r, b).checkedOutUser))
    ensures var t := Transition(r.checkedOutUser, b.checkedOutUser);
      t.Some? && t.value.operation == CheckIn ==> UpdatedRadio(r, b).checkedOutUser.Null?
  {
  }

  /** Sending the same PUT twice logs nothing the second time. */
  lemma RepeatedPutLogsNothing(r: Radio, b: RadioBody)
    ensures Transition(UpdatedRadio(r, b).checkedOutUser, b.checkedOutUser) == None
    ensures UpdatedRadio(UpdatedRadio(r, b), b) == UpdatedRadio(r, b)
  {
  }

  /** Setting Nonfunctional clears PartiallyDamaged, and no PUT makes both
      flags true on a radio that did not have both. */
  lemma UpdatedFlagsExclusive(r: Radio, b: RadioBody)
    ensures IsTrue(b.nonfunctional) ==> UpdatedRadio(r, b).partiallyDamaged == Some(false)
    ensures IsTrue(b.nonfunctional) ==> ExclusiveFlags(UpdatedRadio(r, b))
    ensures ExclusiveFlags(r) ==> ExclusiveFlags(UpdatedRadio(r, b))
  {
  }

  /** PUT keeps the ID and the name, and every property the body leaves out. */
  lemma UpdatedKeepsUnsentFields(r: Radio, b: RadioBody)
    ensures UpdatedRadio(r, b).id == r.id && UpdatedRadio(r, b).name == r.name
    ensures b.comments.None? ==> UpdatedRadio(r, b).comments == r.comments
    ensures b.nonfunctional.None? ==> UpdatedRadio(r, b).nonfunctional == r.nonfunctional
    ensures b.nonfunctional.None? && b.partiallyDamaged.None? ==> UpdatedRadio(r, b).partiallyDamaged == r.partiallyDamaged
    ensures b.checkedOutUser.Absent? ==> UpdatedRadio(r, b).checkedOutUser == r.checkedOutUser
    ensures b.checkoutDate.Absent? ==> UpdatedRadio(r, b).checkoutDate == r.checkoutDate
    ensures !b.checkedOutUser.Absent? ==> UpdatedRadio(r, b).checkedOutUser == b.checkedOutUser
    ensures !b.checkoutDate.Absent? ==> UpdatedRadio(r, b).checkoutDate == b.checkoutDate
  {
  }

  /** PUT sets the user and the date independently: clearing only the user
      of a checked-out radio leaves its date in place. */
  lemma UpdateDoesNotPairCheckout()
    ensures var r := Radio("7", "ICOM", Some(""), Some(false), Some(false), Present("u1"), Present("2024-01-01"));
      var b := RadioBody(Some("7"), None, None, None, None, Null, Absent);
      CheckoutPaired(r) && !CheckoutPaired(UpdatedRadio(r, b))
  {
  }

  // ---------------------------------------------------------------------
  // The inventory invariant

  predicate UniqueIds(s: seq<Radio>) {
    forall i, j :: 0 <= i < j < |s| ==> s[i].id != s[j].id
  }

  /** No two radios share an ID and no radio has both damage flags set. */
  predicate Valid(s: seq<Radio>) {
    UniqueIds(s) && forall i :: 0 <= i < |s| ==> ExclusiveFlags(s[i])
  }

  lemma {:induction false} AddKeepsValid(s: seq<Radio>, id: string, name: string)
    requires Valid(s) && FindIndex(s, IdIs(id)).None?
    ensures Valid(s + [NewRadio(id, name)])
  {
    var t := s + [NewRadio(id, name)];
    forall i, j | 0 <= i < j < |t| ensures t[i].id != t[j].id {
      if j == |s| {
        assert !IdIs(id)(s[i]);
      }
    }
  }

  lemma {:induction false} UpdateKeepsValid(s: seq<Radio>, i: nat, b: RadioBody)
    requires Valid(s) && i < |s|
    ensures Valid(s[i := UpdatedRadio(s[i], b)])
  {
    var t := s[i := UpdatedRadio(s[i], b)];
    UpdatedKeepsUnsentFields(s[i], b);
    UpdatedFlagsExclusive(s[i], b);
    forall k | 0 <= k < |t| ensures t[k].id == s[k].id && ExclusiveFlags(t[k]) {
    }
  }

  /** Removing the first radio with an ID keeps the invariant and, since IDs
      are unique, leaves no radio with that ID. */
  lemma {:induction false} RemoveKeepsValid(s: seq<Radio>, i: nat)
    requires Valid(s) && i < |s|
    ensures Valid(RemoveAt(s, i))
    ensures forall k :: 0 <= k < |RemoveAt(s, i)| ==> RemoveAt(s, i)[k].id != s[i].id
  {
    var t := RemoveAt(s, i);
    forall p, q | 0 <= p < q < |t| ensures t[p].id != t[q].id {
      var p' := if p < i then p else p + 1;
      var q' := if q < i then q else q + 1;
      assert t[p] == s[p'] && t[q] == s[q'];
    }
    forall k | 0 <= k < |t| ensures ExclusiveFlags(t[k]) && t[k].id != s[i].id {
      var k' := if k < i then k else k + 1;
      assert t[k] == s[k'];
    }
  }

  /** With unique IDs, removing a radio leaves none with its ID. */
  lemma {:induction false} RemoveUniqueLeavesNone(s: seq<Radio>, i: nat)
    requires UniqueIds(s) && i < |s|
    ensures FindIndex(RemoveAt(s, i), IdIs(s[i].id)).None?
  {
    var t := RemoveAt(s, i);
    forall k | 0 <= k < |t| ensures !IdIs(s[i].id)(t[k]) {
      var k' := if k < i then k else k + 1;
      assert t[k] == s[k'];
    }
  }

  /** A new radio is available and undamaged. */
  lemma NewRadioAvailable(id: string, name: string)
    ensures ExclusiveFlags(NewRadio(id, name)) && CheckoutPaired(NewRadio(id, name))
    ensures !TruthyField(NewRadio(id, name).checkedOutUser)
  {
  }

  // ---------------------------------------------------------------------
  // The route

  /** The lowdb-backed store of the radio file, and the checkout log the
      route reports to. `data` is None until the file has been read. */
  class RadioInventory {
    var data: Option<seq<Radio>>
    const ledger: CheckoutLogStore

    constructor (stored: Option<seq<Radio>>, ledger: CheckoutLogStore)
      ensures data == stored && this.ledger == ledger
    {
      data := stored;
      this.ledger := ledger;
    }

    /** `radiosDB.data || []`. */
    function Radios(): seq<Radio>
      reads this
    {
      data.GetOr([])
    }

    /** `initRadiosDB`. */
    method Init()
      modifies this
      ensures data == Some(old(Radios()))
    {
      data := Some(Radios());
    }

    /** GET: the whole list; any query parameters are not read. */
    method Get() returns (r: seq<Radio>)
      modifies this
      ensures data == Some(old(Radios())) && r == old(Radios())
    {
      Init();
      r := data.value;
    }

    /** POST: create a radio. A falsy ID or name is refused before the store
        is read, an ID already present is refused, and otherwise the new
        radio goes at the end. */
    method Post(b: RadioBody) returns (reply: Reply)
      modifies this
      ensures !(Truthy(b.id) && Truthy(b.name)) ==>
        reply == Reply(400, "ID and Name are required.") && data == old(data)
      ensures Truthy(b.id) && Truthy(b.name) && FindIndex(old(Radios()), IdIs(b.id.value)).Some? ==>
        reply == Reply(400, "A radio with this ID already exists.") && data == Some(old(Radios()))
      ensures Truthy(b.id) && Truthy(b.name) && FindIndex(old(Radios()), IdIs(b.id.value)).None? ==>
        reply == Reply(200, "Radio added successfully")
        && data == Some(old(Radios()) + [NewRadio(b.id.value, b.name.value)])
      ensures Valid(old(Radios())) ==> Valid(Radios())
    {
      if !Truthy(b.id) || !Truthy(b.name) {
        return Reply(400, "ID and Name are required.");
      }
      var id, name := b.id.value, b.name.value;
      Init();
      if FindIndex(data.value, IdIs(id)).Some? {
        return Reply(400, "A radio with this ID already exists.");
      }
      if Valid(data.value) { AddKeepsValid(data.value, id, name); }
      data := Some(data.value + [NewRadio(id, name)]);
      reply := Reply(200, "Radio added successfully");
    }

    /** PUT's logging step: a check-out when a truthy user different from
        the stored one is sent, a check-in when null is sent for a radio
        whose stored user is not null. */
    method LogTransition(id: string, stored: Field<string>, requested: Field<string>, date: string)
      requires id != ""
      modifies ledger
      ensures ledger.data == LedgerAfter(old(ledger.data), id, Transition(stored, requested), date)
    {
      var isCheckIn := requested.Null? && !stored.Null?;
      if TruthyField(requested) && requested != stored {
        LogCheckoutOperation(id, Some(requested.value), CheckOut, date);
      } else if isCheckIn {
        LogCheckoutOperation(id, FieldValue(stored), CheckIn, date);
      }
    }

    /** PUT's field updates, one property at a time, in the source's order. */
    method ApplyBody(radio: Radio, b: RadioBody) returns (r: Radio)
      ensures r == UpdatedRadio(radio, b)
    {
      r := radio;
      if b.comments.Some? {
        r := r.(comments := b.comments);
      }
      if b.nonfunctional.Some? {
        r := r.(nonfunctional := b.nonfunctional);
        if b.nonfunctional.value {
          r := r.(partiallyDamaged := Some(false));
        }
      }
      if !IsTrue(r.nonfunctional) && b.partiallyDamaged.Some? {
        r := r.(partiallyDamaged := b.partiallyDamaged);
      }
      if !b.checkedOutUser.Absent? {
        r := r.(checkedOutUser := b.checkedOutUser);
      }
      if !b.checkoutDate.Absent? {
        r := r.(checkoutDate := b.checkoutDate);
      }
    }

    /** `logCheckoutOperation`: a POST to the checkout log whose reply is not read. */
    method LogCheckoutOperation(radioID: string, userID: Option<string>, operation: Operation, date: string)
      requires radioID != ""
      modifies ledger
      ensures ledger.data == LedgerAfter(old(ledger.data), radioID, Some(LogRequest(userID, operation)), date)
    {
      var _ := ledger.Post(LogBody(Some(radioID), userID, Some(operation.Name())), date);
    }

    /** PUT: update the radio with the body's ID. A falsy ID gives 400 and an
        unknown one 404, both without logging. Otherwise the transition is
        reported to the log first, then the fields are updated. */
    method Put(b: RadioBody, date: string) returns (reply: Reply)
      modifies this, ledger
      ensures !Truthy(b.id) ==>
        reply == Reply(400, "ID is required.") && data == old(data) && ledger.data == old(ledger.data)
      ensures Truthy(b.id) && FindIndex(old(Radios()), IdIs(b.id.value)).None? ==>
        reply == Reply(404, "Radio not found.") && data == Some(old(Radios())) && ledger.data == old(ledger.data)
      ensures Truthy(b.id) && FindIndex(old(Radios()), IdIs(b.id.value)).Some? ==>
        var i := FindIndex(old(Radios()), IdIs(b.id.value)).value;
        var r := old(Radios())[i];
        && reply == Reply(200, "Radio updated successfully")
        && data == Some(old(Radios())[i := UpdatedRadio(r, b)])
        && ledger.data == LedgerAfter(old(ledger.data), b.id.value, Transition(r.checkedOutUser, b.checkedOutUser), date)
      ensures Valid(old(Radios())) ==> Valid(Radios())
    {
      if !Truthy(b.id) {
        return Reply(400, "ID is required.");
      }
      var id := b.id.value;
      Init();
      var found := FindIndex(data.value, IdIs(id));
      if found.None? {
        return Reply(404, "Radio not found.");
      }
      var i := found.value;
      var radio := data.value[i];
      LogTransition(id, radio.checkedOutUser, b.checkedOutUser, date);
      radio := ApplyBody(radio, b);
      if Valid(data.value) { UpdateKeepsValid(data.value, i, b); }
      data := Some(data.value[i := radio]);
      reply := Reply(200, "Radio updated successfully");
    }

    /** DELETE: remove the first radio with the ID; 400 for a falsy ID,
        404 for an unknown one. */
    method Delete(id: Option<string>) returns (reply: Reply)
      modifies this
      ensures !Truthy(id) ==> reply == Reply(400, "ID is required.") && data == old(data)
      ensures Truthy(id) && FindIndex(old(Radios()), IdIs(id.value)).None? ==>
        reply == Reply(404, "Radio not found.") && data == Some(old(Radios()))
      ensures Truthy(id) && FindIndex(old(Radios()), IdIs(id.value)).Some? ==>
        reply == Reply(200, "Radio deleted successfully")
        && data == Some(RemoveAt(old(Radios()), FindIndex(old(Radios()), IdIs(id.value)).value))
      ensures Valid(old(Radios())) ==> Valid(Radios())
      ensures Valid(old(Radios())) && Truthy(id) ==> FindIndex(Radios(), IdIs(id.value)).None?
    {
      if !Truthy(id) {
        return Reply(400, "ID is required.");
      }
      Init();
      var found := FindIndex(data.value, IdIs(id.value));
      if found.None? {
        return Reply(404, "Radio not found.");
      }
      if Valid(data.value) { RemoveKeepsValid(data.value, found.value); }
      data := Some(RemoveAt(data.value, found.value));
      reply := Reply(200, "Radio deleted successfully");
    }
  }
}
