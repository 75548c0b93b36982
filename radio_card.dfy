/** One radio's card (`components/radio-card.tsx`): the checkbox and select
    handlers, which edit the page's list through `handleFieldChange`, in
    order; the user list fetched once; and the name shown for the checkout
    user. */
module RadioCard {
  import opened Json
  import opened Types
  import opened Seqs
  import opened RadiosPage
  import opened UsersRoute

  // ---------------------------------------------------------------------
  // Checkbox and select edits

  /** `handlePartiallyDamagedChange(checked)`: when checking, Nonfunctional is
      cleared first; then PartiallyDamaged is set to `checked`. */
  function PartiallyDamagedEdits(radios: seq<Radio>, id: string, checked: bool): seq<Radio> {
    var first := if checked then ApplyEdit(radios, id, EditNonfunctional(false)) else radios;
    ApplyEdit(first, id, EditPartiallyDamaged(checked))
  }

  /** `handleNonfunctionalChange(checked)`: when checking, PartiallyDamaged is
      cleared first; then Nonfunctional is set to `checked`. */
  function NonfunctionalEdits(radios: seq<Radio>, id: string, checked: bool): seq<Radio> {
    var first := if checked then ApplyEdit(radios, id, EditPartiallyDamaged(false)) else radios;
    ApplyEdit(first, id, EditNonfunctional(checked))
  }

  /** `handleCheckOutChange(userId)`: the user, then a date of now when the
      user is truthy and null otherwise. */
  function CheckOutEdits(radios: seq<Radio>, id: string, userId: Option<string>, now: string): seq<Radio> {
    var user := if userId.Some? then Present(userId.value) else Null;
    var date := if Truthy(userId) then Present(now) else Null;
    ApplyEdit(ApplyEdit(radios, id, EditCheckedOutUser(user)), id, EditCheckoutDate(date))
  }

  /** The select's `e.target.value || null`. */
  function SelectValue(value: string): (r: Option<string>)
    ensures r.None? <==> value == ""
    ensures r.Some? ==> r.value == value && Truthy(r)
  {
    if value == "" then None else Some(value)
  }

  /** The edited radio ends with the flag it was given and never with both
      flags; the other radios are as they were. So a list whose radios had
      exclusive flags keeps them. */
  lemma {:induction false} PartiallyDamagedKeepsExclusive(radios: seq<Radio>, id: string, checked: bool)
    ensures |PartiallyDamagedEdits(radios, id, checked)| == |radios|
    ensures forall i :: 0 <= i < |radios| && radios[i].id == id ==>
      var r := PartiallyDamagedEdits(radios, id, checked)[i];
      r.partiallyDamaged == Some(checked) && ExclusiveFlags(r)
    ensures forall i :: 0 <= i < |radios| && radios[i].id != id ==> PartiallyDamagedEdits(radios, id, checked)[i] == radios[i]
  {
    var first := if checked then ApplyEdit(radios, id, EditNonfunctional(false)) else radios;
    if checked { ApplyEditOnlyMatching(radios, id, EditNonfunctional(false)); }
    ApplyEditOnlyMatching(first, id, EditPartiallyDamaged(checked));
    forall i | 0 <= i < |radios| && radios[i].id == id
      ensures ExclusiveFlags(PartiallyDamagedEdits(radios, id, checked)[i])
    {
      if checked {
        assert first[i] == Edited(radios[i], EditNonfunctional(false));
      }
    }
  }

  lemma {:induction false} NonfunctionalKeepsExclusive(radios: seq<Radio>, id: string, checked: bool)
    ensures |NonfunctionalEdits(radios, id, checked)| == |radios|
    ensures forall i :: 0 <= i < |radios| && radios[i].id == id ==>
      var r := NonfunctionalEdits(radios, id, checked)[i];
      r.nonfunctional == Some(checked) && ExclusiveFlags(r)
    ensures forall i :: 0 <= i < |radios| && radios[i].id != id ==> NonfunctionalEdits(radios, id, checked)[i] == radios[i]
  {
    var first := if checked then ApplyEdit(radios, id, EditPartiallyDamaged(false)) else radios;
    if checked { ApplyEditOnlyMatching(radios, id, EditPartiallyDamaged(false)); }
    ApplyEditOnlyMatching(first, id, EditNonfunctional(checked));
  }

  /** A pick from the select leaves every radio with the ID with the chosen
      user (null for the empty option) and a date that is null exactly when
      the user is. */
  lemma {:induction false} SelectPairsCheckout(radios: seq<Radio>, id: string, value: string, now: string)
    ensures |CheckOutEdits(radios, id, SelectValue(value), now)| == |radios|
    ensures forall i :: 0 <= i < |radios| && radios[i].id == id ==>
      var r := CheckOutEdits(radios, id, SelectValue(value), now)[i];
      && CheckoutPaired(r)
      && r.checkedOutUser == (if value == "" then Null else Present(value))
      && r.checkoutDate == (if value == "" then Null else Present(now))
    ensures forall i :: 0 <= i < |radios| && radios[i].id != id ==> CheckOutEdits(radios, id, SelectValue(value), now)[i] == radios[i]
  {
    var userId := SelectValue(value);
    var user := if userId.Some? then Present(userId.value) else Null;
    var date := if Truthy(userId) then Present(now) else Null;
    assert user == (if value == "" then Null else Present(value));
    assert date == (if value == "" then Null else Present(now));
    var first := ApplyEdit(radios, id, EditCheckedOutUser(user));
    var last := ApplyEdit(first, id, EditCheckoutDate(date));
    assert last == CheckOutEdits(radios, id, userId, now);
    ApplyEditOnlyMatching(radios, id, EditCheckedOutUser(user));
    ApplyEditOnlyMatching(first, id, EditCheckoutDate(date));
    forall i | 0 <= i < |radios| && radios[i].id == id
      ensures last[i].checkedOutUser == user && last[i].checkoutDate == date
    {
      assert first[i] == Edited(radios[i], EditCheckedOutUser(user));
      assert last[i] == Edited(first[i], EditCheckoutDate(date));
    }
  }

  /** Called with an empty user id rather than null, the handler stores `''`
      and a null date: the pairing then fails. */
  lemma EmptyUserIdUnpaired()
    ensures var radios := [LocalNewRadio("1", "ICOM")];
      !CheckoutPaired(CheckOutEdits(radios, "1", Some(""), "2024-01-01T00:00:00.000Z")[0])
  {
    var radios := [LocalNewRadio("1", "ICOM")];
    var first := ApplyEdit(radios, "1", EditCheckedOutUser(Present("")));
    assert first[0] == LocalNewRadio("1", "ICOM").(checkedOutUser := Present(""));
  }

  // ---------------------------------------------------------------------
  // The user list

  /** The JSON value a GET of the users route answers with. */
  datatype UsersJson = UsersArray(items: seq<User>) | UsersObject(users: seq<User>) | UserObject(user: User) | ErrorObject

  /** `NextResponse.json({ users })`, `({ user })` or the error body. */
  function ResponseOf(l: UserLookup): (r: UsersJson)
    ensures !r.UsersArray?
  {
    match l
    case All(users) => UsersObject(users)
    case One(user) => UserObject(user)
    case NotFound => ErrorObject
  }

  /** The name shown for the checkout user: the name of the first user with
      that id, when the property is truthy. */
  function CheckedOutName(radio: Radio, users: seq<User>): (r: Option<string>)
    ensures r.Some? ==> (TruthyField(radio.checkedOutUser) &&
      exists i :: 0 <= i < |users| && users[i].id == radio.checkedOutUser.value && users[i].name == r.value)
    ensures r.None? ==> (!TruthyField(radio.checkedOutUser) ||
      forall i :: 0 <= i < |users| ==> users[i].id != radio.checkedOutUser.value)
  {
    if TruthyField(radio.checkedOutUser) then
      match Find(users, UserIdIs(radio.checkedOutUser.value))
      case Some(u) => Some(u.name)
      case None => None
    else None
  }

  /** With no users loaded, no name is ever shown. */
  lemma NoUsersNoName(radio: Radio)
    ensures CheckedOutName(radio, []).None?
  {
  }

  class Card {
    const radioID: string
    const page: Page
    var users: seq<User>
    var loadingUsers: bool

    constructor (radioID: string, page: Page)
      ensures this.radioID == radioID && this.page == page
      ensures users == [] && loadingUsers
    {
      this.radioID := radioID;
      this.page := page;
      users := [];
      loadingUsers := true;
    }

    /** The mount effect on the answer it receives, as written: the list is
        taken only from an array. */
    method LoadUsers(json: UsersJson)
      modifies this`users, this`loadingUsers
      ensures users == (if json.UsersArray? then json.items else old(users))
      ensures !loadingUsers
    {
      if json.UsersArray? {
        users := json.items;
      }
      loadingUsers := false;
    }

    /** The mount effect against the users route: its answer is an object,
        never an array, so the list stays as it was (empty after construction). */
    method FetchUsers(registry: UserRegistry)
      modifies this`users, this`loadingUsers, registry`data
      ensures users == old(users) && !loadingUsers
      ensures registry.data == Some(old(registry.Users()))
    {
      var lookup := registry.Get(None);
      LoadUsers(ResponseOf(lookup));
    }

    /** The mount effect reading the `users` property of the answer. */
    method LoadUsersFixed(json: UsersJson)
      modifies this`users, this`loadingUsers
      ensures users == (if json.UsersObject? then json.users else old(users))
      ensures !loadingUsers
    {
      if json.UsersObject? {
        users := json.users;
      }
      loadingUsers := false;
    }

    /** The corrected effect against the users route: every stored user. */
    method FetchUsersFixed(registry: UserRegistry)
      modifies this`users, this`loadingUsers, registry`data
      ensures users == old(registry.Users()) && !loadingUsers
      ensures registry.data == Some(old(registry.Users()))
    {
      var lookup := registry.Get(None);
      LoadUsersFixed(ResponseOf(lookup));
    }

    method HandlePartiallyDamagedChange(checked: bool)
      modifies page
      ensures page.radios == PartiallyDamagedEdits(old(page.radios), radioID, checked)
      ensures page.changed == old(page.changed) + {radioID}
    {
      if checked {
        page.HandleFieldChange(radioID, EditNonfunctional(false));
      }
      page.HandleFieldChange(radioID, EditPartiallyDamaged(checked));
    }

    method HandleNonfunctionalChange(checked: bool)
      modifies page
      ensures page.radios == NonfunctionalEdits(old(page.radios), radioID, checked)
      ensures page.changed == old(page.changed) + {radioID}
    {
      if checked {
        page.HandleFieldChange(radioID, EditPartiallyDamaged(false));
      }
      page.HandleFieldChange(radioID, EditNonfunctional(checked));
    }

    method HandleCheckOutChange(userId: Option<string>, now: string)
      modifies page
      ensures page.radios == CheckOutEdits(old(page.radios), radioID, userId, now)
      ensures page.changed == old(page.changed) + {radioID}
    {
      var user := if userId.Some? then Present(userId.value) else Null;
      page.HandleFieldChange(radioID, EditCheckedOutUser(user));
      var date := if Truthy(userId) then Present(now) else Null;
      page.HandleFieldChange(radioID, EditCheckoutDate(date));
    }

    /** The select's `onChange`: the empty option means null. */
    method HandleSelect(value: string, now: string)
      modifies page
      ensures page.radios == CheckOutEdits(old(page.radios), radioID, SelectValue(value), now)
      ensures page.changed == old(page.changed) + {radioID}
    {
      HandleCheckOutChange(SelectValue(value), now);
    }

    /** The comments box's `onChange`. */
    method HandleCommentsChange(text: string)
      modifies page
      ensures page.radios == ApplyEdit(old(page.radios), radioID, EditComments(text))
      ensures page.changed == old(page.changed) + {radioID}
    {
      page.HandleFieldChange(radioID, EditComments(text));
    }
  }
}
