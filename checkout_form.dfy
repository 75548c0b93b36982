/** The check-out form of the panel (`components/radio-checkout.tsx`): the
    typed radio ID, what was looked up about it, the name of the user who
    holds it, and an error line. The lookups' outcomes are parameters; one
    method runs the lookup against the client helpers. */
module CheckoutForm {
  import opened Json
  import opened Types
  import opened Seqs
  import opened UsersRoute
  import opened Api

  /** `radioInfo`: the radio's name and its truthy checkout user. */
  datatype RadioInfo = RadioInfo(name: string, checkedOutTo: Option<string>)

  /** The outcome of `getRadios({ radioID })`: an answer (maybe no radio), or
      an exception. */
  datatype RadioFetch = Fetched(radio: Option<Radio>) | RadioFetchFailed

  /** The outcome of `getUserById`: a user's name, no user, or an exception. */
  datatype UserFetch = UserFound(name: string) | NoUser | UserFetchFailed

  const NotFoundError := "Radio not found."
  const FetchError := "Error fetching radio information."
  const InvalidIdError := "Please enter a valid radio ID."

  function InfoOf(r: Radio): (info: RadioInfo)
    ensures info.name == r.name
    ensures info.checkedOutTo.Some? <==> TruthyField(r.checkedOutUser)
    ensures info.checkedOutTo.Some? ==> info.checkedOutTo.value == r.checkedOutUser.value
  {
    RadioInfo(r.name, if TruthyField(r.checkedOutUser) then Some(r.checkedOutUser.value) else None)
  }

  class Form {
    var radioID: string
    var radioInfo: Option<RadioInfo>
    var checkedOutUser: Option<string>
    var error: string

    constructor ()
      ensures radioID == "" && radioInfo.None? && checkedOutUser.None? && error == ""
    {
      radioID := "";
      radioInfo := None;
      checkedOutUser := None;
      error := "";
    }

    /** `isAlreadyCheckedOut`: the looked-up radio has a checkout user. */
    predicate IsAlreadyCheckedOut()
      reads this
    {
      radioInfo.Some? && radioInfo.value.checkedOutTo.Some?
    }

    /** `clearForm`, also run when the selected user changes. */
    method ClearForm()
      modifies this
      ensures radioID == "" && radioInfo.None? && checkedOutUser.None? && error == ""
    {
      radioID := "";
      radioInfo := None;
      checkedOutUser := None;
      error := "";
    }

    /** `fetchRadioInfo` given the outcomes of its two lookups. */
    method FetchRadioInfo(fetch: RadioFetch, user: UserFetch)
      modifies this`radioInfo, this`checkedOutUser, this`error
      ensures fetch.RadioFetchFailed? ==>
        error == FetchError && radioInfo == old(radioInfo) && checkedOutUser == old(checkedOutUser)
      ensures fetch.Fetched? && fetch.radio.None? ==>
        radioInfo.None? && checkedOutUser.None? && error == NotFoundError
      ensures fetch.Fetched? && fetch.radio.Some? ==>
        && radioInfo == Some(InfoOf(fetch.radio.value))
        && error == ""
        && checkedOutUser == (if !TruthyField(fetch.radio.value.checkedOutUser) then None
                              else match user
                                   case UserFound(name) => Some(name)
                                   case NoUser => None
                                   case UserFetchFailed => old(checkedOutUser))
    {
      match fetch
      case RadioFetchFailed =>
        error := FetchError;
      case Fetched(radio) =>
        if radio.Some? {
          radioInfo := Some(InfoOf(radio.value));
          if TruthyField(radio.value.checkedOutUser) {
            match user
            case UserFound(name) => checkedOutUser := Some(name);
            case NoUser => checkedOutUser := None;
            case UserFetchFailed =>
          } else {
            checkedOutUser := None;
          }
          error := "";
        } else {
          radioInfo := None;
          checkedOutUser := None;
          error := NotFoundError;
        }
    }

    /** Typing into the ID box, with the effect that follows: a non-empty ID
        is looked up, an empty one clears what was shown. */
    method SetRadioID(id: string, fetch: RadioFetch, user: UserFetch)
      modifies this
      ensures radioID == id
      ensures id == "" ==> radioInfo.None? && checkedOutUser.None? && error == ""
      ensures id != "" && fetch.Fetched? && fetch.radio.None? ==>
        radioInfo.None? && checkedOutUser.None? && error == NotFoundError
      ensures id != "" && fetch.Fetched? && fetch.radio.Some? ==>
        radioInfo == Some(InfoOf(fetch.radio.value)) && error == ""
      ensures id != "" && fetch.RadioFetchFailed? ==>
        error == FetchError && radioInfo == old(radioInfo) && checkedOutUser == old(checkedOutUser)
    {
      radioID := id;
      if id != "" {
        FetchRadioInfo(fetch, user);
      } else {
        radioInfo := None;
        checkedOutUser := None;
        error := "";
      }
    }

    /** `handleCheckout`: the ID handed to `onCheckout`, if any. An empty ID
        or a missing lookup sets the error and hands nothing on; a radio that
        has a user is never handed on (the form is left as it was); any
        other is handed on and the form cleared. */
    method HandleCheckout() returns (checkedOut: Option<string>)
      modifies this
      ensures (old(radioID) == "" || old(radioInfo).None?) ==>
        && checkedOut.None? && error == InvalidIdError
        && radioID == old(radioID) && radioInfo == old(radioInfo) && checkedOutUser == old(checkedOutUser)
      ensures old(radioID) != "" && old(radioInfo).Some? && old(radioInfo).value.checkedOutTo.Some? ==>
        checkedOut.None? && radioID == old(radioID) && radioInfo == old(radioInfo)
        && checkedOutUser == old(checkedOutUser) && error == old(error)
      ensures old(radioID) != "" && old(radioInfo).Some? && old(radioInfo).value.checkedOutTo.None? ==>
        checkedOut == Some(old(radioID)) && radioID == "" && radioInfo.None? && checkedOutUser.None? && error == ""
      ensures checkedOut.Some? ==> old(radioInfo).Some? && old(radioInfo).value.checkedOutTo.None?
    {
      if radioID == "" || radioInfo.None? {
        error := InvalidIdError;
        return None;
      }
      if !IsAlreadyCheckedOut() {
        checkedOut := Some(radioID);
        ClearForm();
      } else {
        checkedOut := None;
      }
    }

    /** The lookup against the client helpers: `getRadios({ radioID })`
        answers with the inventory's first radio whatever the ID, so the form
        shows that radio's name and the name `getUserById` finds for its
        holder (no radio only when the inventory is empty). */
    method FetchRadioInfoFrom(client: Client)
      requires PlainBase(client.baseUrl)
      modifies this`radioInfo, this`checkedOutUser, this`error, client.radios, client.users`data
      ensures client.radios.data == Some(old(client.radios.Radios()))
      ensures old(client.radios.Radios()) == [] ==> radioInfo.None? && error == NotFoundError
      ensures old(client.radios.Radios()) != [] ==>
        radioInfo == Some(InfoOf(old(client.radios.Radios())[0])) && error == ""
      ensures var s := old(client.radios.Radios());
        s == [] || !TruthyField(s[0].checkedOutUser) ==>
          checkedOutUser.None? && client.users.data == old(client.users.data)
      ensures var s := old(client.radios.Radios());
        s != [] && TruthyField(s[0].checkedOutUser) ==>
          var id := ReadBack(s[0].checkedOutUser.value);
          var holder := if id != "" then Find(old(client.users.Users()), UserIdIs(id)) else None;
          && checkedOutUser == (if holder.Some? then Some(holder.value.name) else None)
          && client.users.data == Some(old(client.users.Users()))
    {
      var answer := client.GetRadios(Some(ByRadio(radioID)));
      var radio := answer.radio;
      var user := NoUser;
      if radio.Some? && TruthyField(radio.value.checkedOutUser) {
        var found := client.GetUserById(radio.value.checkedOutUser.value);
        user := if found.Some? then UserFound(found.value.name) else NoUser;
      }
      FetchRadioInfo(Fetched(radio), user);
    }
  }
}
