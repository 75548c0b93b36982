/** The user sheet (`components/user-profile-editor.tsx`): the edited name
    and photo, the duplicate-name warning shown while adding a user, whether
    anything changed, and the POST body of a save. The user list the
    duplicate check fetches is a parameter of the effect. */
module ProfileEditor {
  import opened Json
  import opened Types
  import opened Strings
  import opened Seqs
  import opened UsersRoute

  /** The duplicate test of `checkIfUserExists`: same name but for case, and
      not the user being edited (every user, when no id was given). */
  function DuplicateOf(name: string, id: Option<string>): User -> bool {
    (u: User) => Lower(u.name) == Lower(name) && (id.None? || u.id != id.value)
  }

  /** `data.users.some(...)`. */
  function UserExists(users: seq<User>, name: string, id: Option<string>): (b: bool)
    ensures b <==> exists i :: 0 <= i < |users| && Lower(users[i].name) == Lower(name) && (id.None? || users[i].id != id.value)
  {
    Any(users, DuplicateOf(name, id))
  }

  /** For a new user the sheet warns exactly when the route's add path would
      refuse the name. */
  lemma NewUserWarningMatchesRoute(users: seq<User>, name: string)
    ensures UserExists(users, name, None) <==> FindIndex(users, NameMatches(name)).Some?
  {
    if FindIndex(users, NameMatches(name)).Some? {
      var i := FindIndex(users, NameMatches(name)).value;
      assert DuplicateOf(name, None)(users[i]);
    }
  }

  /** Editing a user, its own name is not a duplicate. */
  lemma OwnNameIsNoDuplicate(u: User)
    ensures !UserExists([u], u.name, Some(u.id))
  {
  }

  /** The POST body of `handleSaveChanges`: the name always, the photo only
      when non-empty, the id only when given and non-empty. */
  function SavePayload(username: string, profilePhoto: string, id: Option<string>): (b: UserBody)
    ensures b.name == Some(username)
    ensures b.profilePhoto.Some? <==> profilePhoto != ""
    ensures b.profilePhoto.Some? ==> b.profilePhoto.value == profilePhoto
    ensures b.id.Some? <==> Truthy(id)
    ensures b.id.Some? ==> b.id == id
  {
    UserBody(if Truthy(id) then id else None, Some(username), if profilePhoto != "" then Some(profilePhoto) else None)
  }

  class Editor {
    const id: Option<string>
    const initialUsername: string
    const initialProfilePhoto: string
    var username: string
    var profilePhoto: string
    var existingUserWarning: bool
    var hasChanges: bool

    constructor (id: Option<string>, initialUsername: string, initialProfilePhoto: string)
      ensures this.id == id && this.initialUsername == initialUsername && this.initialProfilePhoto == initialProfilePhoto
      ensures username == initialUsername && profilePhoto == initialProfilePhoto
      ensures !existingUserWarning && !hasChanges
    {
      this.id := id;
      this.initialUsername := initialUsername;
      this.initialProfilePhoto := initialProfilePhoto;
      username := initialUsername;
      profilePhoto := initialProfilePhoto;
      existingUserWarning := false;
      hasChanges := false;
    }

    /** The effect after a change, given the users the check fetches: the
        warning is computed only for a new user with a non-empty name, and
        `hasChanges` compares with the initial values. */
    method Refresh(users: seq<User>)
      modifies this`existingUserWarning, this`hasChanges
      ensures existingUserWarning <==> initialUsername == "" && username != "" && UserExists(users, username, id)
      ensures hasChanges <==> username != initialUsername || profilePhoto != initialProfilePhoto
    {
      if initialUsername == "" && username != "" {
        existingUserWarning := UserExists(users, username, id);
      } else {
        existingUserWarning := false;
      }
      hasChanges := username != initialUsername || profilePhoto != initialProfilePhoto;
    }

    /** Typing a name, then the effect. */
    method SetUsername(name: string, users: seq<User>)
      modifies this`username, this`existingUserWarning, this`hasChanges
      ensures username == name
      ensures existingUserWarning <==> initialUsername == "" && name != "" && UserExists(users, name, id)
      ensures hasChanges <==> name != initialUsername || profilePhoto != initialProfilePhoto
    {
      username := name;
      Refresh(users);
    }

    /** `handleImageCapture`: a null image becomes `''`; then the effect. */
    method HandleImageCapture(imageData: Option<string>, users: seq<User>)
      modifies this`profilePhoto, this`existingUserWarning, this`hasChanges
      ensures profilePhoto == imageData.GetOr("")
      ensures imageData.None? ==> profilePhoto == ""
      ensures hasChanges <==> username != initialUsername || profilePhoto != initialProfilePhoto
    {
      profilePhoto := imageData.GetOr("");
      Refresh(users);
    }

    /** `handleSave`: nothing while the warning is shown; otherwise the body sent. */
    method HandleSave() returns (sent: Option<UserBody>)
      ensures existingUserWarning ==> sent.None?
      ensures !existingUserWarning ==> sent == Some(SavePayload(username, profilePhoto, id))
    {
      if existingUserWarning {
        return None;
      }
      sent := Some(SavePayload(username, profilePhoto, id));
    }
  }
}
