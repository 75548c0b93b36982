/** The user picker dialog (`components/user-selector.tsx`): a search box
    that narrows the users by name, the selected user, and whether the
    dialog is open. The user list is a parameter; the user handed to
    `onSelect` is the result of the selecting handler. */
module UserSelector {
  import opened Json
  import opened Types
  import opened Strings
  import opened Seqs

  /** `user.name.toLowerCase().includes(query.toLowerCase())`. */
  function NameIncludes(query: string): User -> bool {
    (u: User) => Contains(Lower(u.name), Lower(query))
  }

  /** The users the search box leaves, in the order given. */
  function MatchingUsers(users: seq<User>, query: string): (r: seq<User>)
    ensures |r| <= |users|
  {
    Filter(users, NameIncludes(query))
  }

  /** A user is listed exactly when it is one of the users and its name,
      ignoring case, contains the query. */
  lemma MatchingUsersExactly(users: seq<User>, query: string, u: User)
    ensures u in MatchingUsers(users, query) <==> u in users && Contains(Lower(u.name), Lower(query))
  {
    FilterMember(users, NameIncludes(query), u);
  }

  /** An empty query lists every user. */
  lemma EmptyQueryListsAll(users: seq<User>)
    ensures MatchingUsers(users, "") == users
  {
    forall i | 0 <= i < |users| ensures NameIncludes("")(users[i]) {
      assert StartsWith(Lower(users[i].name), Lower(""));
    }
    FilterKeepsAll(users, NameIncludes(""));
  }

  /** Typing more never lists a user that was not listed before. */
  lemma LongerQueryNarrows(users: seq<User>, query: string, more: string, u: User)
    ensures u in MatchingUsers(users, query + more) ==> u in MatchingUsers(users, query)
  {
    MatchingUsersExactly(users, query + more, u);
    MatchingUsersExactly(users, query, u);
    if u in MatchingUsers(users, query + more) {
      LowerAppend(query, more);
      ContainsExtended(Lower(u.name), Lower(query), Lower(more));
    }
  }

  class Selector {
    var query: string
    var selectedUser: Option<User>
    var isModalOpen: bool

    constructor ()
      ensures query == "" && selectedUser.None? && !isModalOpen
    {
      query := "";
      selectedUser := None;
      isModalOpen := false;
    }

    /** `filteredUsers`, as the effect on the query and the users sets it. */
    function FilteredUsers(users: seq<User>): (r: seq<User>)
      reads this
      ensures query == "" ==> r == users
      ensures forall u :: u in r <==> u in users && Contains(Lower(u.name), Lower(query))
    {
      EmptyQueryListsAll(users);
      forall u ensures u in MatchingUsers(users, query) <==> u in users && Contains(Lower(u.name), Lower(query)) {
        MatchingUsersExactly(users, query, u);
      }
      MatchingUsers(users, query)
    }

    /** Typing into the search box. */
    method SetQuery(q: string)
      modifies this`query
      ensures query == q
    {
      query := q;
    }

    /** `handleUserSelect`: the user is kept, handed to `onSelect`, and the
        dialog closes. */
    method HandleUserSelect(user: User) returns (raised: User)
      modifies this`selectedUser, this`isModalOpen
      ensures raised == user && selectedUser == Some(user) && !isModalOpen
    {
      selectedUser := Some(user);
      raised := user;
      isModalOpen := false;
    }

    /** `handleClearSearch`. */
    method HandleClearSearch()
      modifies this`query
      ensures query == ""
    {
      query := "";
    }

    /** `openModalForUserSelection`: every user listed again, the dialog
        open, and the selection kept. */
    method OpenModal()
      modifies this`query, this`isModalOpen
      ensures query == "" && isModalOpen
    {
      query := "";
      isModalOpen := true;
    }

    /** The dialog's `onOpenChange`: closing keeps the selection; a request
        to open changes nothing. */
    method OnOpenChange(open: bool)
      modifies this`isModalOpen
      ensures !open ==> !isModalOpen
      ensures open ==> isModalOpen == old(isModalOpen)
    {
      if !open {
        isModalOpen := false;
      }
    }
  }
}
