/** The messaging endpoints (backend/controllers/messagesController.js):
    sending a message about a listing, the caller's conversation list, one
    conversation's messages page by page, and marking a message read. */
module MessagesController {

  import opened Common
  import opened Query
  import L = ListingModel
  import U = UserModel
  import opened MessageModel
  import opened Database

  /** The message was sent or received by `me`. */
  predicate Involves(me: Id, m: Message) {
    m.sender == me || m.receiver == me
  }

  function InvolvesMe(me: Id): Message -> bool {
    (m: Message) => Involves(me, m)
  }

  /** The other party of a message, seen from `me`. */
  function Counterpart(me: Id, m: Message): Id {
    if m.sender == me then m.receiver else m.sender
  }

  /** The `_id` of a conversation group: the listing and the other party. */
  datatype Key = Key(listing: Id, otherUser: Id)

  function KeyOf(me: Id, m: Message): Key {
    Key(m.listing, Counterpart(me, m))
  }

  function OtherKey(me: Id, k: Key): Message -> bool {
    (m: Message) => KeyOf(me, m) != k
  }

  /** The messages the `unreadCount` sum counts for group `k`: received by `me`, not read. */
  predicate UnreadFor(me: Id, k: Key, m: Message) {
    KeyOf(me, m) == k && m.receiver == me && !m.isRead
  }

  function UnreadIn(me: Id, k: Key): Message -> bool {
    (m: Message) => UnreadFor(me, k, m)
  }

  /** One output document of the `$group` stage. */
  datatype Group = Group(key: Key, lastMessage: Message, unreadCount: nat)

  function GroupLastAt(g: Group): int {
    g.lastMessage.createdAt
  }

  /** The caller's messages that are not in the conversation of the first one. */
  function RestOf(me: Id, s: seq<Message>): seq<Message>
    requires |s| > 0
  {
    Filter(s[1..], OtherKey(me, KeyOf(me, s[0])))
  }

  lemma RestOfFacts(me: Id, s: seq<Message>)
    requires |s| > 0 && SortedDesc(s, SentAt)
    ensures SortedDesc(RestOf(me, s), SentAt)
    ensures |RestOf(me, s)| < |s|
  {
    FilterSorted(s[1..], OtherKey(me, KeyOf(me, s[0])), SentAt);
  }

  lemma RestOfMember(me: Id, s: seq<Message>, x: Message)
    requires |s| > 0
    ensures x in RestOf(me, s) <==> x in s[1..] && KeyOf(me, x) != KeyOf(me, s[0])
  {
    FilterMembers(s[1..], OtherKey(me, KeyOf(me, s[0])));
  }

  /** The `$group` stage over the caller's messages sorted newest first: the
      first message opens a group (it is the group's `$first`, and its
      `unreadCount` is the `$sum` over the group), the group's other messages
      are set aside, and the remaining messages are grouped the same way. */
  function GroupsFrom(me: Id, s: seq<Message>): (r: seq<Group>)
    requires SortedDesc(s, SentAt)
    ensures |r| <= |s|
    decreases |s|
  {
    if s == [] then []
    else
      RestOfFacts(me, s);
      var k := KeyOf(me, s[0]);
      [Group(k, s[0], CountWhere(s, UnreadIn(me, k)))] + GroupsFrom(me, RestOf(me, s))
  }

  /** A group's last message is one of the caller's messages, of that group. */
  lemma {:induction false} GroupMember(me: Id, s: seq<Message>, i: nat)
    requires SortedDesc(s, SentAt) && i < |GroupsFrom(me, s)|
    ensures GroupsFrom(me, s)[i].lastMessage in s
    ensures KeyOf(me, GroupsFrom(me, s)[i].lastMessage) == GroupsFrom(me, s)[i].key
    decreases |s|
  {
    RestOfFacts(me, s);
    if i > 0 {
      GroupMember(me, RestOf(me, s), i - 1);
      RestOfMember(me, s, GroupsFrom(me, s)[i].lastMessage);
    }
  }

  /** A group's last message is the newest message of the group (`$first` after the sort). */
  lemma {:induction false} GroupNewest(me: Id, s: seq<Message>, i: nat, m: Message)
    requires SortedDesc(s, SentAt) && i < |GroupsFrom(me, s)|
    requires m in s && KeyOf(me, m) == GroupsFrom(me, s)[i].key
    ensures m.createdAt <= GroupsFrom(me, s)[i].lastMessage.createdAt
    decreases |s|
  {
    RestOfFacts(me, s);
    var j :| 0 <= j < |s| && s[j] == m;
    if i > 0 {
      GroupMember(me, RestOf(me, s), i - 1);
      RestOfMember(me, s, GroupsFrom(me, s)[i].lastMessage);
      assert j != 0;
      assert m in s[1..];
      RestOfMember(me, s, m);
      GroupNewest(me, RestOf(me, s), i - 1, m);
    }
  }

  /** A group's unread count is the number of the group's messages addressed to the caller and unread. */
  lemma {:induction false} GroupUnread(me: Id, s: seq<Message>, i: nat)
    requires SortedDesc(s, SentAt) && i < |GroupsFrom(me, s)|
    ensures GroupsFrom(me, s)[i].unreadCount == CountWhere(s, UnreadIn(me, GroupsFrom(me, s)[i].key))
    decreases |s|
  {
    RestOfFacts(me, s);
    if i > 0 {
      var k := KeyOf(me, s[0]);
      var g := GroupsFrom(me, RestOf(me, s))[i - 1];
      assert GroupsFrom(me, s)[i] == g;
      GroupUnread(me, RestOf(me, s), i - 1);
      GroupMember(me, RestOf(me, s), i - 1);
      RestOfMember(me, s, g.lastMessage);
      assert g.key != k;
      UnreadOutsideFirst(me, s, g.key);
    }
  }

  /** Setting the first conversation aside keeps the unread count of any other. */
  lemma UnreadOutsideFirst(me: Id, s: seq<Message>, key: Key)
    requires |s| > 0 && key != KeyOf(me, s[0])
    ensures CountWhere(RestOf(me, s), UnreadIn(me, key)) == CountWhere(s, UnreadIn(me, key))
  {
    var p := UnreadIn(me, key);
    var q := OtherKey(me, KeyOf(me, s[0]));
    forall x | p(x) ensures q(x) {
      assert UnreadFor(me, key, x);
    }
    CountWhereWithin(s[1..], q, p);
    assert !UnreadFor(me, key, s[0]);
    assert CountWhere(s, p) == CountWhere(s[1..], p);
  }

  /** No two groups share a key. */
  lemma {:induction false} GroupsDistinct(me: Id, s: seq<Message>, i: nat, j: nat)
    requires SortedDesc(s, SentAt) && i < j < |GroupsFrom(me, s)|
    ensures GroupsFrom(me, s)[i].key != GroupsFrom(me, s)[j].key
    decreases |s|
  {
    RestOfFacts(me, s);
    var tail := GroupsFrom(me, RestOf(me, s));
    assert GroupsFrom(me, s)[j] == tail[j - 1];
    if i == 0 {
      GroupMember(me, RestOf(me, s), j - 1);
      RestOfMember(me, s, tail[j - 1].lastMessage);
    } else {
      assert GroupsFrom(me, s)[i] == tail[i - 1];
      GroupsDistinct(me, RestOf(me, s), i - 1, j - 1);
    }
  }

  /** Every message of the caller falls in some group. */
  lemma {:induction false} GroupsComplete(me: Id, s: seq<Message>, m: Message) returns (i: nat)
    requires SortedDesc(s, SentAt) && m in s
    ensures i < |GroupsFrom(me, s)| && GroupsFrom(me, s)[i].key == KeyOf(me, m)
    decreases |s|
  {
    RestOfFacts(me, s);
    if KeyOf(me, m) == KeyOf(me, s[0]) {
      i := 0;
    } else {
      assert m in s[1..];
      RestOfMember(me, s, m);
      var i' := GroupsComplete(me, RestOf(me, s), m);
      i := i' + 1;
    }
  }

  /** The groups come newest conversation first. */
  lemma {:induction false} GroupsSorted(me: Id, s: seq<Message>)
    requires SortedDesc(s, SentAt)
    ensures SortedDesc(GroupsFrom(me, s), GroupLastAt)
    decreases |s|
  {
    if s != [] {
      RestOfFacts(me, s);
      GroupsSorted(me, RestOf(me, s));
      var tail := GroupsFrom(me, RestOf(me, s));
      if |tail| > 0 {
        GroupMember(me, RestOf(me, s), 0);
        RestOfMember(me, s, tail[0].lastMessage);
        SortedDescTail(s, SentAt, tail[0].lastMessage);
      }
      var k := KeyOf(me, s[0]);
      SortedDescCons(Group(k, s[0], CountWhere(s, UnreadIn(me, k))), tail, GroupLastAt);
    }
  }

  /** One row of the `getConversations` response: the group joined with its
      listing and the other user (`$lookup` then `$unwind`). */
  datatype Conversation = Conversation(listing: L.Listing, otherUser: U.User, lastMessage: Message, unreadCount: nat)

  function LastAt(c: Conversation): int {
    c.lastMessage.createdAt
  }

  function ConversationKey(c: Conversation): Key {
    Key(c.listing.id, c.otherUser.id)
  }

  /** `c` is group `g` joined with its listing and other user. */
  predicate JoinedFrom(c: Conversation, g: Group, listings: seq<L.Listing>, users: seq<U.User>) {
    && c.listing in listings && c.otherUser in users
    && ConversationKey(c) == g.key
    && c.lastMessage == g.lastMessage && c.unreadCount == g.unreadCount
  }

  /** Both references of the group resolve. */
  predicate Resolves(g: Group, listings: seq<L.Listing>, users: seq<U.User>) {
    ListingIndex(listings, g.key.listing).Some? && UserIndex(users, g.key.otherUser).Some?
  }

  /** One group through the two `$lookup` and `$unwind` stages: joined with
      its listing and other user, or dropped when either is missing. */
  function Join(g: Group, listings: seq<L.Listing>, users: seq<U.User>): (r: Option<Conversation>)
    ensures r.Some? <==> Resolves(g, listings, users)
    ensures r.Some? ==> JoinedFrom(r.value, g, listings, users)
  {
    match ListingIndex(listings, g.key.listing)
    case None => None
    case Some(a) =>
      match UserIndex(users, g.key.otherUser)
      case None => None
      case Some(b) => Some(Conversation(listings[a], users[b], g.lastMessage, g.unreadCount))
  }

  function JoinWith(listings: seq<L.Listing>, users: seq<U.User>): Group -> Option<Conversation> {
    (g: Group) => Join(g, listings, users)
  }

  /** The two `$lookup` stages and the two `$unwind` stages: a group whose
      listing or other user is missing is dropped, the rest keep their order. */
  function Lookup(groups: seq<Group>, listings: seq<L.Listing>, users: seq<U.User>): (r: seq<Conversation>)
    ensures |r| <= |groups|
  {
    FilterMap(groups, JoinWith(listings, users))
  }

  /** Every row comes from a group whose references resolved, and the rows
      keep the groups' order. */
  lemma LookupSource(groups: seq<Group>, listings: seq<L.Listing>, users: seq<U.User>, i: nat) returns (k: nat)
    requires i < |Lookup(groups, listings, users)|
    ensures k < |groups| && JoinedFrom(Lookup(groups, listings, users)[i], groups[k], listings, users)
    ensures i <= k
  {
    k := FilterMapSource(groups, JoinWith(listings, users), i);
  }

  /** Every group whose references resolve gives a row. */
  lemma LookupComplete(groups: seq<Group>, listings: seq<L.Listing>, users: seq<U.User>, k: nat) returns (i: nat)
    requires k < |groups| && Resolves(groups[k], listings, users)
    ensures i < |Lookup(groups, listings, users)| && JoinedFrom(Lookup(groups, listings, users)[i], groups[k], listings, users)
  {
    i := FilterMapComplete(groups, JoinWith(listings, users), k);
  }

  /** The rows keep the groups' order: two rows come from two groups in the same order. */
  lemma LookupPair(groups: seq<Group>, listings: seq<L.Listing>, users: seq<U.User>, i: nat, j: nat) returns (a: nat, b: nat)
    requires i < j < |Lookup(groups, listings, users)|
    ensures a < b < |groups|
    ensures JoinedFrom(Lookup(groups, listings, users)[i], groups[a], listings, users)
    ensures JoinedFrom(Lookup(groups, listings, users)[j], groups[b], listings, users)
  {
    a, b := FilterMapPair(groups, JoinWith(listings, users), i, j);
  }

  /** `getConversations`: `$match` the caller's messages, `$sort` them newest
      first, `$group`, `$lookup`/`$unwind`, and `$sort` the rows by their last
      message, newest first. */
  function GetConversations(messages: seq<Message>, listings: seq<L.Listing>, users: seq<U.User>, me: Id): (r: seq<Conversation>)
    ensures |r| <= |messages|
  {
    var mine := SortDesc(Filter(messages, InvolvesMe(me)), SentAt);
    SortDesc(Lookup(GroupsFrom(me, mine), listings, users), LastAt)
  }

  /** What one row of the conversation list promises: its listing and other
      user exist; its last message is the caller's, about that listing and
      with that user, and the newest such message; its unread count is the
      number of that conversation's unread messages addressed to the caller. */
  predicate RowOk(c: Conversation, messages: seq<Message>, listings: seq<L.Listing>, users: seq<U.User>, me: Id) {
    && c.listing in listings && c.otherUser in users
    && c.lastMessage in messages && Involves(me, c.lastMessage)
    && KeyOf(me, c.lastMessage) == ConversationKey(c)
    && (forall m :: m in messages && Involves(me, m) && KeyOf(me, m) == ConversationKey(c) ==>
         m.createdAt <= c.lastMessage.createdAt)
    && c.unreadCount == CountWhere(messages, UnreadIn(me, ConversationKey(c)))
  }

  /** The final `$sort` finds the rows already in order, and leaves them as they are. */
  lemma ConversationRows(messages: seq<Message>, listings: seq<L.Listing>, users: seq<U.User>, me: Id)
    ensures var mine := SortDesc(Filter(messages, InvolvesMe(me)), SentAt);
      GetConversations(messages, listings, users, me) == Lookup(GroupsFrom(me, mine), listings, users)
    ensures SortedDesc(GetConversations(messages, listings, users, me), LastAt)
  {
    var mine := SortDesc(Filter(messages, InvolvesMe(me)), SentAt);
    var groups := GroupsFrom(me, mine);
    var rows := Lookup(groups, listings, users);
    GroupsSorted(me, mine);
    forall i, j | 0 <= i < j < |rows| ensures LastAt(rows[i]) >= LastAt(rows[j]) {
      var a, b := LookupPair(groups, listings, users, i, j);
    }
    SortDescOfSorted(rows, LastAt);
  }

  /** No two rows are the same conversation. */
  lemma ConversationsDistinct(messages: seq<Message>, listings: seq<L.Listing>, users: seq<U.User>, me: Id)
    ensures var r := GetConversations(messages, listings, users, me);
      forall i, j :: 0 <= i < j < |r| ==> ConversationKey(r[i]) != ConversationKey(r[j])
  {
    ConversationRows(messages, listings, users, me);
    var mine := SortDesc(Filter(messages, InvolvesMe(me)), SentAt);
    var groups := GroupsFrom(me, mine);
    var rows := Lookup(groups, listings, users);
    forall i, j | 0 <= i < j < |rows| ensures ConversationKey(rows[i]) != ConversationKey(rows[j]) {
      var a, b := LookupPair(groups, listings, users, i, j);
      GroupsDistinct(me, mine, a, b);
    }
  }

  /** Every row of the conversation list is a genuine summary of one conversation. */
  lemma ConversationsSound(messages: seq<Message>, listings: seq<L.Listing>, users: seq<U.User>, me: Id, i: nat)
    requires i < |GetConversations(messages, listings, users, me)|
    ensures RowOk(GetConversations(messages, listings, users, me)[i], messages, listings, users, me)
  {
    ConversationRows(messages, listings, users, me);
    var mine := SortDesc(Filter(messages, InvolvesMe(me)), SentAt);
    var groups := GroupsFrom(me, mine);
    var c := Lookup(groups, listings, users)[i];
    var k := LookupSource(groups, listings, users, i);
    SortDescMembers(Filter(messages, InvolvesMe(me)), SentAt);
    FilterMembers(messages, InvolvesMe(me));
    GroupMember(me, mine, k);
    GroupUnread(me, mine, k);
    forall m | m in messages && Involves(me, m) && KeyOf(me, m) == ConversationKey(c)
      ensures m.createdAt <= c.lastMessage.createdAt
    {
      GroupNewest(me, mine, k, m);
    }
    var p := UnreadIn(me, groups[k].key);
    CountWhereSortDesc(Filter(messages, InvolvesMe(me)), SentAt, p);
    CountWhereWithin(messages, InvolvesMe(me), p);
  }

  /** Nothing is lost: every message of the caller whose listing and other
      party both exist is summarised by a row of its conversation. */
  lemma ConversationsComplete(messages: seq<Message>, listings: seq<L.Listing>, users: seq<U.User>, me: Id, m: Message) returns (i: nat)
    requires m in messages && Involves(me, m)
    requires ListingIndex(listings, m.listing).Some? && UserIndex(users, Counterpart(me, m)).Some?
    ensures i < |GetConversations(messages, listings, users, me)|
    ensures ConversationKey(GetConversations(messages, listings, users, me)[i]) == KeyOf(me, m)
  {
    ConversationRows(messages, listings, users, me);
    var mine := SortDesc(Filter(messages, InvolvesMe(me)), SentAt);
    var groups := GroupsFrom(me, mine);
    SortDescMembers(Filter(messages, InvolvesMe(me)), SentAt);
    FilterMembers(messages, InvolvesMe(me));
    var k := GroupsComplete(me, mine, m);
    i := LookupComplete(groups, listings, users, k);
  }

  /** The filter of `getMessages`: that listing, and the caller and the other
      user as sender and receiver in either direction. */
  predicate Between(me: Id, listing: Id, other: Id, m: Message) {
    m.listing == listing && ((m.sender == me && m.receiver == other) || (m.sender == other && m.receiver == me))
  }

  function BetweenFilter(me: Id, listing: Id, other: Id): Message -> bool {
    (m: Message) => Between(me, listing, other, m)
  }

  const MessagesLimit := 50

  function Reversed<T>(s: seq<T>): (r: seq<T>)
    ensures |r| == |s|
    ensures forall i :: 0 <= i < |s| ==> r[i] == s[|s| - 1 - i]
    decreases |s|
  {
    if s == [] then [] else Reversed(s[1..]) + [s[0]]
  }

  /** `getMessages`: one page (default page 1 of 50) of a conversation's
      messages taken newest first, then returned oldest first, with the
      total number of messages of the conversation. */
  function GetMessages(messages: seq<Message>, me: Id, listing: Id, other: Id, page: Option<int>, limit: Option<int>): (r: Result<Counted<Message>>)
    ensures r.Err? <==> Skip(Or(page, 1), Or(limit, MessagesLimit)) < 0
    ensures r.Err? ==> r.failure.ServerError?
    ensures r.Ok? ==> r.value.total == CountWhere(messages, BetweenFilter(me, listing, other))
    ensures r.Ok? ==> r.value.count == |r.value.data|
    ensures r.Ok? && Or(limit, MessagesLimit) != 0 ==> r.value.count <= Abs(Or(limit, MessagesLimit))
    ensures r.Ok? ==> forall i :: 0 <= i < |r.value.data| ==> r.value.data[i] in messages && Between(me, listing, other, r.value.data[i])
    ensures r.Ok? ==> forall i, j :: 0 <= i < j < |r.value.data| ==> r.value.data[i].createdAt <= r.value.data[j].createdAt
    ensures r.Ok? ==> var found := FindPage(messages, BetweenFilter(me, listing, other), SentAt, Or(page, 1), Or(limit, MessagesLimit));
      found.Ok? && r.value.data == Reversed(found.value.data)
  {
    match FindPage(messages, BetweenFilter(me, listing, other), SentAt, Or(page, 1), Or(limit, MessagesLimit))
    case Err(f) => Err(f)
    case Ok(found) =>
      var data := Reversed(found.data);
      ReversedPage(found.data, messages, BetweenFilter(me, listing, other));
      Ok(Counted(found.count, found.total, data))
  }

  /** Reversing a newest-first page of kept messages gives them oldest first. */
  lemma ReversedPage(page: seq<Message>, messages: seq<Message>, p: Message -> bool)
    requires SortedDesc(page, SentAt)
    requires forall i :: 0 <= i < |page| ==> page[i] in messages && p(page[i])
    ensures forall i :: 0 <= i < |page| ==> Reversed(page)[i] in messages && p(Reversed(page)[i])
    ensures forall i, j :: 0 <= i < j < |page| ==> Reversed(page)[i].createdAt <= Reversed(page)[j].createdAt
  {
    var r := Reversed(page);
    forall i | 0 <= i < |page| ensures r[i] in messages && p(r[i]) {
      assert r[i] == page[|page| - 1 - i];
    }
    forall i, j | 0 <= i < j < |page| ensures r[i].createdAt <= r[j].createdAt {
      assert r[i] == page[|page| - 1 - i] && r[j] == page[|page| - 1 - j];
      assert SentAt(page[|page| - 1 - j]) >= SentAt(page[|page| - 1 - i]);
    }
  }

  /** Both parties see the same page of their conversation. */
  lemma GetMessagesSymmetric(messages: seq<Message>, a: Id, b: Id, listing: Id, page: Option<int>, limit: Option<int>)
    ensures GetMessages(messages, a, listing, b, page, limit) == GetMessages(messages, b, listing, a, page, limit)
  {
    FindPageSame(messages, BetweenFilter(a, listing, b), BetweenFilter(b, listing, a), SentAt, Or(page, 1), Or(limit, MessagesLimit));
  }

  /** `sendMessage`: the three fields are required (a missing or empty one is
      a 400), the listing and then the receiver must exist (404 each), and the
      content must pass the schema; the message is then stored, unread, from
      the caller. */
  method SendMessage(db: Db, me: Id, listing: Option<Id>, receiver: Option<Id>, content: Option<string>, now: int) returns (r: Result<Message>)
    requires db.Valid()
    modifies db`messages, db`nextId
    ensures db.Valid()
    ensures listing.None? || receiver.None? || !Truthy(content) ==>
      r == Err(BadRequest("Please provide listing, receiver, and message content"))
    ensures listing.Some? && receiver.Some? && Truthy(content) && ListingIndex(old(db.listings), listing.value).None? ==>
      r == Err(NotFound("Listing not found"))
    ensures listing.Some? && receiver.Some? && Truthy(content) && ListingIndex(old(db.listings), listing.value).Some? && UserIndex(old(db.users), receiver.value).None? ==>
      r == Err(NotFound("Receiver not found"))
    ensures r.Ok? <==> && listing.Some? && receiver.Some? && Truthy(content)
                       && ListingIndex(old(db.listings), listing.value).Some?
                       && UserIndex(old(db.users), receiver.value).Some?
                       && ContentOk(content.value)
    ensures r.Err? ==> db.messages == old(db.messages)
    ensures r.Ok? ==> && db.messages == old(db.messages) + [r.value]
                      && MessageIndex(old(db.messages), r.value.id).None?
                      && r.value.sender == me
                      && r.value.listing == listing.value
                      && r.value.receiver == receiver.value
                      && r.value.content == content.value
                      && !r.value.isRead && r.value.readAt.None?
                      && r.value.createdAt == now
  {
    if listing.None? || receiver.None? || !Truthy(content) {
      return Err(BadRequest("Please provide listing, receiver, and message content"));
    }
    if ListingIndex(db.listings, listing.value).None? {
      return Err(NotFound("Listing not found"));
    }
    if UserIndex(db.users, receiver.value).None? {
      return Err(NotFound("Receiver not found"));
    }
    var id := db.FreshId();
    r := NewMessage(id, listing.value, me, receiver.value, content.value, now);
    if r.Ok? {
      db.AppendMessage(r.value);
    }
  }

  /** `markAsRead`: a missing message is a 404 and a message addressed to
      someone else a 403, both changing nothing; otherwise the message
      becomes read at `now` and nothing else changes. */
  method MarkAsRead(db: Db, me: Id, id: Id, now: int) returns (r: Result<Message>)
    requires db.Valid()
    modifies db`messages
    ensures db.Valid()
    ensures MessageIndex(old(db.messages), id).None? ==>
      r == Err(NotFound("Message not found")) && db.messages == old(db.messages)
    ensures MessageIndex(old(db.messages), id).Some? && old(db.messages)[MessageIndex(old(db.messages), id).value].receiver != me ==>
      r == Err(Forbidden("Not authorized")) && db.messages == old(db.messages)
    ensures MessageIndex(old(db.messages), id).Some? && old(db.messages)[MessageIndex(old(db.messages), id).value].receiver == me ==>
      var i := MessageIndex(old(db.messages), id).value;
      && r == Ok(old(db.messages)[i].(isRead := true, readAt := Some(now)))
      && db.messages == old(db.messages)[i := r.value]
  {
    match MessageIndex(db.messages, id)
    case None =>
      r := Err(NotFound("Message not found"));
    case Some(i) =>
      if db.messages[i].receiver != me {
        r := Err(Forbidden("Not authorized"));
      } else {
        var m := db.messages[i].(isRead := true, readAt := Some(now));
        MessagesReplace(db.messages, db.nextId, i, m);
        db.messages := db.messages[i := m];
        r := Ok(m);
      }
  }

  /** Marking an unread message of a conversation read lowers that
      conversation's unread count by one. */
  lemma MarkingReadLowersUnread(s: seq<Message>, me: Id, i: nat, now: int)
    requires i < |s| && s[i].receiver == me && !s[i].isRead
    ensures var k := KeyOf(me, s[i]);
      CountWhere(s[i := s[i].(isRead := true, readAt := Some(now))], UnreadIn(me, k)) == CountWhere(s, UnreadIn(me, k)) - 1
  {
    CountWhereUpdate(s, i, s[i].(isRead := true, readAt := Some(now)), UnreadIn(me, KeyOf(me, s[i])));
  }
}
