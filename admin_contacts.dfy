/** The admin contacts page (app/admin/contacts/page.js): lists the users returned
    by the contact list endpoint, filtered by a name search and ordered by the date
    of their conversation, most recent first; selecting a user opens the
    conversation, full screen on a narrow viewport. */
module AdminContacts {
  import opened Common
  import opened Sorting
  import opened ContactUsers

  const MsgLoadFailed := "Erreur lors du chargement des utilisateurs"
  const MobileBreakpoint := 768

  /** `user.name?.toLowerCase().includes(search.toLowerCase())`: false for a user
      without a name. */
  predicate NameMatches(row: ContactRow, search: string) {
    row.user.name.Some? && Contains(ToLower(row.user.name.value), ToLower(search))
  }

  /** The `filter` step, in list order. */
  function FilterByName(users: seq<ContactRow>, search: string): (r: seq<ContactRow>)
    ensures |r| <= |users|
  {
    if users == [] then []
    else
      var init, last := users[..|users| - 1], users[|users| - 1];
      FilterByName(init, search) + (if NameMatches(last, search) then [last] else [])
  }

  /** `filteredUsers`: the filter, then the sort by `lastUpdated` descending. */
  function FilteredUsers(users: seq<ContactRow>, search: string): seq<ContactRow> {
    SortDesc(FilterByName(users, search), LastUpdatedKey)
  }

  lemma {:induction false} FilterMembers(users: seq<ContactRow>, search: string, row: ContactRow)
    ensures row in FilterByName(users, search) <==> row in users && NameMatches(row, search)
  {
    if users != [] {
      var init, last := users[..|users| - 1], users[|users| - 1];
      FilterMembers(init, search, row);
      assert users == init + [last];
    }
  }

  /** The list shows exactly the users whose lowercased name contains the
      lowercased search, each as often as it was fetched. */
  lemma FilteredMembers(users: seq<ContactRow>, search: string, row: ContactRow)
    ensures row in FilteredUsers(users, search) <==> row in users && NameMatches(row, search)
    ensures multiset(FilteredUsers(users, search)) == multiset(FilterByName(users, search))
  {
    FilterMembers(users, search, row);
    var f := FilterByName(users, search);
    assert row in FilteredUsers(users, search) <==> row in multiset(f);
  }

  /** With an empty search every user with a name is listed, and no other. */
  lemma EmptySearchKeepsNamed(row: ContactRow)
    ensures NameMatches(row, "") <==> row.user.name.Some?
  {
    if row.user.name.Some? {
      assert ToLower("") == "";
      assert "" <= ToLower(row.user.name.value);
    }
  }

  /** When every fetched user has a date, the list is ordered by date, most recent
      first, and users with the same date keep their fetched order. */
  lemma FilteredOrder(users: seq<ContactRow>, search: string, t: int)
    requires forall k :: 0 <= k < |users| ==> users[k].lastUpdated.Some?
    ensures SortedDesc(FilteredUsers(users, search), LastUpdatedKey)
    ensures forall k :: 0 <= k < |FilteredUsers(users, search)| ==> FilteredUsers(users, search)[k].lastUpdated.Some?
    ensures WithKey(FilteredUsers(users, search), LastUpdatedKey, t) == WithKey(FilterByName(users, search), LastUpdatedKey, t)
  {
    var f := FilterByName(users, search);
    SortDescStable(f, LastUpdatedKey, t);
    forall k | 0 <= k < |FilteredUsers(users, search)| ensures FilteredUsers(users, search)[k].lastUpdated.Some? {
      var row := FilteredUsers(users, search)[k];
      FilteredMembers(users, search, row);
    }
  }

  class AdminContactsPage {
    var users: seq<ContactRow>
    var selectedUser: Option<ContactRow>
    var search: string
    var loadingUsers: bool
    var isMobileView: bool
    ghost var toasts: seq<string>

    constructor()
      ensures users == [] && selectedUser.None? && search == "" && loadingUsers && !isMobileView && toasts == []
    {
      users := [];
      selectedUser := None;
      search := "";
      loadingUsers := true;
      isMobileView := false;
      toasts := [];
    }

    /** The load: the list replaces `users` and its first user is selected when it
        has one; a failed request shows a toast. Loading ends either way. */
    method LoadUsers(reply: Option<seq<ContactRow>>)
      modifies this
      ensures reply.Some? ==> users == reply.value && toasts == old(toasts)
      ensures reply.Some? && |reply.value| > 0 ==> selectedUser == Some(reply.value[0])
      ensures (reply.None? || |reply.value| == 0) ==> selectedUser == old(selectedUser)
      ensures reply.None? ==> users == old(users) && toasts == old(toasts) + [MsgLoadFailed]
      ensures !loadingUsers
      ensures search == old(search) && isMobileView == old(isMobileView)
    {
      match reply {
        case Some(data) =>
          users := data;
          if |data| > 0 {
            selectedUser := Some(data[0]);
          }
        case None =>
          toasts := toasts + [MsgLoadFailed];
      }
      loadingUsers := false;
    }

    method SetSearch(value: string)
      modifies this
      ensures search == value
      ensures users == old(users) && selectedUser == old(selectedUser) && isMobileView == old(isMobileView)
      ensures loadingUsers == old(loadingUsers) && toasts == old(toasts)
    {
      search := value;
    }

    /** Selecting a user: the conversation opens full screen only below the
        breakpoint; on a wide viewport the mobile flag is left as it was. */
    method SelectUser(user: ContactRow, innerWidth: int)
      modifies this
      ensures selectedUser == Some(user)
      ensures isMobileView == (innerWidth < MobileBreakpoint || old(isMobileView))
      ensures users == old(users) && search == old(search) && loadingUsers == old(loadingUsers) && toasts == old(toasts)
    {
      selectedUser := Some(user);
      if innerWidth < MobileBreakpoint {
        isMobileView := true;
      }
    }

    /** Back to the list: no selection and no full-screen conversation. */
    method BackToUsers()
      modifies this
      ensures selectedUser.None? && !isMobileView
      ensures users == old(users) && search == old(search) && loadingUsers == old(loadingUsers) && toasts == old(toasts)
    {
      isMobileView := false;
      selectedUser := None;
    }
  }

  /** On the list the contact list endpoint returns, an empty search shows exactly
      the users that have a name. */
  lemma EmptySearchShowsNamedContacts(fetched: seq<UserRow>, convs: seq<Conversation>, row: ContactRow)
    ensures var users := SortedContacts(fetched, convs);
      row in FilteredUsers(users, "") <==> row in users && row.user.name.Some?
  {
    FilteredMembers(SortedContacts(fetched, convs), "", row);
    EmptySearchKeepsNamed(row);
  }
}
