/** The search-as-you-type user field (`components/user-select.tsx`): the
    search term, the selected user, and the dropdown that lists the matching
    users or, when none match, offers to add one. */
module UserSelect {
  import opened Json
  import opened Types
  import opened UserSelector

  /** What the dropdown area shows. */
  datatype Dropdown = Hidden | UserList(users: seq<User>) | NoUsersFound

  datatype Shown = Shown(selectedName: Option<string>, dropdown: Dropdown)

  class Select {
    var searchTerm: string
    var selectedUser: Option<User>
    var isDropdownVisible: bool

    constructor ()
      ensures searchTerm == "" && selectedUser.None? && !isDropdownVisible
      ensures Valid()
    {
      searchTerm := "";
      selectedUser := None;
      isDropdownVisible := false;
    }

    /** The dropdown is only ever open while something is typed. */
    predicate Valid()
      reads this
    {
      isDropdownVisible ==> searchTerm != ""
    }

    /** `handleSearchChange`: the dropdown shows exactly while the term is
        non-empty. */
    method HandleSearchChange(term: string)
      modifies this`searchTerm, this`isDropdownVisible
      ensures searchTerm == term
      ensures isDropdownVisible <==> |term| > 0
      ensures Valid()
    {
      searchTerm := term;
      isDropdownVisible := |term| > 0;
    }

    /** `handleUserSelect`: the user is kept and the dropdown hidden. */
    method HandleUserSelect(user: User)
      modifies this`selectedUser, this`isDropdownVisible
      ensures selectedUser == Some(user) && !isDropdownVisible
      ensures Valid()
    {
      selectedUser := Some(user);
      isDropdownVisible := false;
    }

    /** The render: the selected user's name when there is one; while the
        dropdown is visible, the matching users when there are any and the
        no-results offer when there are none. */
    function Render(users: seq<User>): (s: Shown)
      reads this
      ensures s.selectedName.Some? <==> selectedUser.Some?
      ensures s.selectedName.Some? ==> s.selectedName.value == selectedUser.value.name
      ensures s.dropdown.Hidden? <==> !isDropdownVisible
      ensures s.dropdown.UserList? ==> s.dropdown.users == MatchingUsers(users, searchTerm) && s.dropdown.users != []
      ensures s.dropdown.NoUsersFound? <==> isDropdownVisible && MatchingUsers(users, searchTerm) == []
      ensures Valid() && !s.dropdown.Hidden? ==> searchTerm != ""
    {
      var name := if selectedUser.Some? then Some(selectedUser.value.name) else None;
      var matching := MatchingUsers(users, searchTerm);
      Shown(name, if !isDropdownVisible then Hidden else if matching != [] then UserList(matching) else NoUsersFound)
    }
  }
}
