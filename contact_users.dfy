/** `GET /api/contact/users` (app/api/contact/users/route.js): the non-admin users,
    those with a conversation first (most recently updated first), then those
    without one, each block otherwise in the fetched (newest account first) order. */
module ContactUsers {
  import opened Common
  import opened Sorting

  /** A fetched user; the database query has already removed admins and ordered
      the users by `createdAt` descending. */
  datatype UserRow = UserRow(id: string, name: Option<string>)

  /** `userId lastUpdated` of a conversation; dates are in milliseconds. */
  datatype Conversation = Conversation(userId: string, lastUpdated: int)

  /** An output entry: the user, with `lastUpdated` added when it has a conversation. */
  datatype ContactRow = ContactRow(user: UserRow, lastUpdated: Option<int>)

  function UserIds(convs: seq<Conversation>): set<string> {
    set c | c in convs :: c.userId
  }

  /** `conversations.forEach(conv => conversationMap.set(conv.userId, conv.lastUpdated))`:
      one key per user with a conversation; a later conversation overwrites. */
  function ConversationMap(convs: seq<Conversation>): (m: map<string, int>)
    ensures m.Keys == UserIds(convs)
  {
    if convs == [] then map[]
    else
      var last := convs[|convs| - 1];
      assert convs == convs[..|convs| - 1] + [last];
      assert UserIds(convs) == UserIds(convs[..|convs| - 1]) + {last.userId};
      ConversationMap(convs[..|convs| - 1])[last.userId := last.lastUpdated]
  }

  predicate UniqueUserIds(convs: seq<Conversation>) {
    forall i, j :: 0 <= i < j < |convs| ==> convs[i].userId != convs[j].userId
  }

  /** With one conversation per user (a unique index on `userId`), every user's
      entry is that conversation's `lastUpdated`. */
  lemma {:induction false} ConversationMapValues(convs: seq<Conversation>)
    requires UniqueUserIds(convs)
    ensures forall c :: c in convs ==> ConversationMap(convs)[c.userId] == c.lastUpdated
  {
    if convs != [] {
      var init, last := convs[..|convs| - 1], convs[|convs| - 1];
      assert convs == init + [last];
      assert UniqueUserIds(init) by {
        forall i, j | 0 <= i < j < |init| ensures init[i].userId != init[j].userId {
          assert init[i] == convs[i] && init[j] == convs[j];
        }
      }
      ConversationMapValues(init);
      ConversationMapSnoc(init, last);
      forall c | c in convs ensures ConversationMap(convs)[c.userId] == c.lastUpdated {
        if c != last {
          var i :| 0 <= i < |convs| && convs[i] == c;
          assert i < |convs| - 1;
          assert init[i] == c;
          assert c.userId != last.userId;
        }
      }
    }
  }

  /** The users with a conversation, each carrying its `lastUpdated`, in input order. */
  function WithConversation(users: seq<UserRow>, m: map<string, int>): (r: seq<ContactRow>)
    ensures forall row :: row in r ==> row.user in users && row.user.id in m && row.lastUpdated == Some(m[row.user.id])
  {
    if users == [] then []
    else
      var init, last := users[..|users| - 1], users[|users| - 1];
      WithConversation(init, m) + (if last.id in m then [ContactRow(last, Some(m[last.id]))] else [])
  }

  /** The users without a conversation, unchanged and in input order. */
  function WithoutConversation(users: seq<UserRow>, m: map<string, int>): (r: seq<ContactRow>)
    ensures forall row :: row in r ==> row.user in users && row.user.id !in m && row.lastUpdated.None?
  {
    if users == [] then []
    else
      var init, last := users[..|users| - 1], users[|users| - 1];
      WithoutConversation(init, m) + (if last.id !in m then [ContactRow(last, None)] else [])
  }

  function LastUpdatedKey(row: ContactRow): int {
    match row.lastUpdated
    case Some(t) => t
    case None => 0
  }

  function UserOf(row: ContactRow): UserRow { row.user }

  /** The response body: the sorted with-conversation block, then the rest. */
  function SortedContacts(users: seq<UserRow>, convs: seq<Conversation>): seq<ContactRow> {
    var m := ConversationMap(convs);
    SortDesc(WithConversation(users, m), LastUpdatedKey) + WithoutConversation(users, m)
  }

  lemma ConversationMapSnoc(convs: seq<Conversation>, c: Conversation)
    ensures ConversationMap(convs + [c]) == ConversationMap(convs)[c.userId := c.lastUpdated]
  {
    assert (convs + [c])[..|convs|] == convs;
  }

  lemma SplitSnoc(users: seq<UserRow>, u: UserRow, m: map<string, int>)
    ensures WithConversation(users + [u], m)
         == WithConversation(users, m) + (if u.id in m then [ContactRow(u, Some(m[u.id]))] else [])
    ensures WithoutConversation(users + [u], m)
         == WithoutConversation(users, m) + (if u.id !in m then [ContactRow(u, None)] else [])
  {
    assert (users + [u])[..|users|] == users;
  }

  /** The imperative handler: fill the map, split the users in one pass, sort the
      first block, concatenate. */
  method ListContacts(users: seq<UserRow>, convs: seq<Conversation>) returns (sorted: seq<ContactRow>)
    ensures sorted == SortedContacts(users, convs)
  {
    var conversationMap: map<string, int> := map[];
    var i := 0;
    while i < |convs|
      invariant 0 <= i <= |convs|
      invariant conversationMap == ConversationMap(convs[..i])
    {
      assert convs[..i + 1] == convs[..i] + [convs[i]];
      ConversationMapSnoc(convs[..i], convs[i]);
      conversationMap := conversationMap[convs[i].userId := convs[i].lastUpdated];
      i := i + 1;
    }
    assert convs[..|convs|] == convs;
    var usersWithConv: seq<ContactRow> := [];
    var usersWithoutConv: seq<ContactRow> := [];
    var k := 0;
    while k < |users|
      invariant 0 <= k <= |users|
      invariant usersWithConv == WithConversation(users[..k], conversationMap)
      invariant usersWithoutConv == WithoutConversation(users[..k], conversationMap)
    {
      var user := users[k];
      assert users[..k + 1] == users[..k] + [user];
      SplitSnoc(users[..k], user, conversationMap);
      if user.id in conversationMap {
        usersWithConv := usersWithConv + [ContactRow(user, Some(conversationMap[user.id]))];
      } else {
        usersWithoutConv := usersWithoutConv + [ContactRow(user, None)];
      }
      k := k + 1;
    }
    assert users[..|users|] == users;
    usersWithConv := SortDesc(usersWithConv, LastUpdatedKey);
    sorted := usersWithConv + usersWithoutConv;
  }

  lemma MapSeqSnoc<T, U>(s: seq<T>, x: T, f: T -> U)
    ensures multiset(MapSeq(s + [x], f)) == multiset(MapSeq(s, f)) + multiset{f(x)}
  {
    MapSeqAppend(s, [x], f);
  }

  lemma WithUsersSnoc(init: seq<UserRow>, last: UserRow, m: map<string, int>)
    ensures multiset(MapSeq(WithConversation(init + [last], m), UserOf))
         == multiset(MapSeq(WithConversation(init, m), UserOf)) + (if last.id in m then multiset{last} else multiset{})
  {
    SplitSnoc(init, last, m);
    var w := WithConversation(init, m);
    if last.id in m {
      var row := ContactRow(last, Some(m[last.id]));
      assert WithConversation(init + [last], m) == w + [row];
      MapSeqSnoc(w, row, UserOf);
      assert UserOf(row) == last;
    } else {
      assert WithConversation(init + [last], m) == w;
    }
  }

  lemma WithoutUsersSnoc(init: seq<UserRow>, last: UserRow, m: map<string, int>)
    ensures multiset(MapSeq(WithoutConversation(init + [last], m), UserOf))
         == multiset(MapSeq(WithoutConversation(init, m), UserOf)) + (if last.id !in m then multiset{last} else multiset{})
  {
    SplitSnoc(init, last, m);
    var w := WithoutConversation(init, m);
    if last.id !in m {
      var row := ContactRow(last, None);
      assert WithoutConversation(init + [last], m) == w + [row];
      MapSeqSnoc(w, row, UserOf);
      assert UserOf(row) == last;
    } else {
      assert WithoutConversation(init + [last], m) == w;
    }
  }

  lemma {:induction false} SplitIsPermutation(users: seq<UserRow>, m: map<string, int>)
    ensures multiset(MapSeq(WithConversation(users, m), UserOf))
          + multiset(MapSeq(WithoutConversation(users, m), UserOf)) == multiset(users)
  {
    if users != [] {
      var init, last := users[..|users| - 1], users[|users| - 1];
      assert users == init + [last];
      SplitIsPermutation(init, m);
      WithUsersSnoc(init, last, m);
      WithoutUsersSnoc(init, last, m);
    }
  }

  lemma {:induction false} WithConversationKeys(users: seq<UserRow>, m: map<string, int>)
    ensures forall u :: u in users && u.id in m ==> ContactRow(u, Some(m[u.id])) in WithConversation(users, m)
    ensures forall u :: u in users && u.id !in m ==> ContactRow(u, None) in WithoutConversation(users, m)
  {
    if users != [] {
      WithConversationKeys(users[..|users| - 1], m);
      assert users == users[..|users| - 1] + [users[|users| - 1]];
    }
  }

  /** The response holds exactly the fetched users, each once per fetch: a permutation. */
  lemma ResultIsPermutation(users: seq<UserRow>, convs: seq<Conversation>)
    ensures |SortedContacts(users, convs)| == |users|
    ensures multiset(MapSeq(SortedContacts(users, convs), UserOf)) == multiset(users)
  {
    var m := ConversationMap(convs);
    var w, wo := WithConversation(users, m), WithoutConversation(users, m);
    SortDescMap(w, LastUpdatedKey, UserOf);
    MapSeqAppend(SortDesc(w, LastUpdatedKey), wo, UserOf);
    SplitIsPermutation(users, m);
    assert |MapSeq(SortedContacts(users, convs), UserOf)| == |users| by {
      assert |multiset(MapSeq(SortedContacts(users, convs), UserOf))| == |multiset(users)|;
    }
  }

  /** Users with a conversation come first, sorted by `lastUpdated` descending and
      carrying that conversation's date; the users without one follow, exactly as
      fetched. Ties keep the fetched order. */
  lemma ResultBlocks(users: seq<UserRow>, convs: seq<Conversation>, t: int)
    ensures var m := ConversationMap(convs);
      var r := SortedContacts(users, convs);
      var n := |WithConversation(users, m)|;
      && n <= |r|
      && (forall i :: 0 <= i < n ==> r[i].lastUpdated.Some? && r[i].user.id in m && r[i].lastUpdated.value == m[r[i].user.id])
      && (forall i :: n <= i < |r| ==> r[i].lastUpdated.None? && r[i].user.id !in m)
      && SortedDesc(r[..n], LastUpdatedKey)
      && r[n..] == WithoutConversation(users, m)
      && WithKey(r[..n], LastUpdatedKey, t) == WithKey(WithConversation(users, m), LastUpdatedKey, t)
  {
    var m := ConversationMap(convs);
    var w := WithConversation(users, m);
    var s := SortDesc(w, LastUpdatedKey);
    var r := SortedContacts(users, convs);
    assert r[..|w|] == s;
    assert r[|w|..] == WithoutConversation(users, m);
    SortedRowsCarryDates(users, m);
    forall i | 0 <= i < |w| ensures r[i].lastUpdated.Some? && r[i].user.id in m && r[i].lastUpdated.value == m[r[i].user.id] {
      assert r[i] == s[i] && s[i] in s;
    }
    forall i | |w| <= i < |r| ensures r[i].lastUpdated.None? && r[i].user.id !in m {
      assert r[i] == r[|w|..][i - |w|];
    }
    SortDescStable(w, LastUpdatedKey, t);
  }

  /** Sorting keeps every row of the first block carrying its user's date. */
  lemma SortedRowsCarryDates(users: seq<UserRow>, m: map<string, int>)
    ensures forall row :: row in SortDesc(WithConversation(users, m), LastUpdatedKey) ==>
      row.lastUpdated.Some? && row.user.id in m && row.lastUpdated.value == m[row.user.id]
  {
    var w := WithConversation(users, m);
    forall row | row in SortDesc(w, LastUpdatedKey) ensures row.lastUpdated.Some? && row.user.id in m && row.lastUpdated.value == m[row.user.id] {
      assert row in multiset(SortDesc(w, LastUpdatedKey));
    }
  }

  /** Every fetched user with a conversation appears with its date, and every other
      user appears without one. */
  lemma ResultCoversUsers(users: seq<UserRow>, convs: seq<Conversation>)
    ensures var m := ConversationMap(convs);
      forall u :: u in users ==>
        (if u.id in m then ContactRow(u, Some(m[u.id])) else ContactRow(u, None)) in SortedContacts(users, convs)
  {
    var m := ConversationMap(convs);
    WithConversationKeys(users, m);
    var w := WithConversation(users, m);
    forall u | u in users && u.id in m ensures ContactRow(u, Some(m[u.id])) in SortDesc(w, LastUpdatedKey) {
      assert ContactRow(u, Some(m[u.id])) in multiset(w);
    }
  }
}
