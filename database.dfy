/** The MongoDB database the controllers share: the listings, users and
    messages collections in insertion order, and the source of fresh ids. */
module Database {

  import opened Common
  import opened Query
  import L = ListingModel
  import U = UserModel
  import M = MessageModel

  /** `findById` on the listings: the position of the listing with that id. */
  function ListingIndex(s: seq<L.Listing>, id: Id): (r: Option<nat>)
    ensures r.Some? ==> r.value < |s| && s[r.value].id == id
    ensures r.None? <==> forall i :: 0 <= i < |s| ==> s[i].id != id
  {
    IndexWhere(s, (l: L.Listing) => l.id == id)
  }

  function UserIndex(s: seq<U.User>, id: Id): (r: Option<nat>)
    ensures r.Some? ==> r.value < |s| && s[r.value].id == id
    ensures r.None? <==> forall i :: 0 <= i < |s| ==> s[i].id != id
  {
    IndexWhere(s, (u: U.User) => u.id == id)
  }

  function MessageIndex(s: seq<M.Message>, id: Id): (r: Option<nat>)
    ensures r.Some? ==> r.value < |s| && s[r.value].id == id
    ensures r.None? <==> forall i :: 0 <= i < |s| ==> s[i].id != id
  {
    IndexWhere(s, (m: M.Message) => m.id == id)
  }

  /** `findOne({ email })`: the position of the user with that email. */
  function EmailIndex(s: seq<U.User>, email: string): (r: Option<nat>)
    ensures r.Some? ==> r.value < |s| && s[r.value].email == email
    ensures r.None? <==> forall i :: 0 <= i < |s| ==> s[i].email != email
  {
    IndexWhere(s, (u: U.User) => u.email == email)
  }

  /** A user other than `except` holding `phone` (the sparse unique index on phone). */
  function PhoneHolder(s: seq<U.User>, phone: string, except: Option<Id>): (r: Option<nat>)
    ensures r.Some? ==> r.value < |s| && s[r.value].phone == Some(phone) && Some(s[r.value].id) != except
    ensures r.None? ==> forall j :: 0 <= j < |s| && Some(s[j].id) != except ==> s[j].phone != Some(phone)
  {
    IndexWhere(s, (u: U.User) => u.phone == Some(phone) && Some(u.id) != except)
  }

  ghost predicate ListingsOk(s: seq<L.Listing>, bound: nat) {
    && (forall i :: 0 <= i < |s| ==> s[i].id < bound)
    && (forall i, j :: 0 <= i < j < |s| ==> s[i].id != s[j].id)
    && (forall i :: 0 <= i < |s| ==> L.Valid(s[i]))
  }

  /** The unique index on `email` and the sparse unique index on `phone`:
      users without a phone never clash. */
  ghost predicate UsersOk(s: seq<U.User>, bound: nat) {
    && (forall i :: 0 <= i < |s| ==> s[i].id < bound)
    && (forall i, j :: 0 <= i < j < |s| ==> s[i].id != s[j].id)
    && (forall i, j :: 0 <= i < j < |s| ==> s[i].email != s[j].email)
    && (forall i, j :: 0 <= i < j < |s| && s[i].phone.Some? ==> s[i].phone != s[j].phone)
    && (forall i :: 0 <= i < |s| ==> U.Valid(s[i]))
  }

  ghost predicate MessagesOk(s: seq<M.Message>, bound: nat) {
    && (forall i :: 0 <= i < |s| ==> s[i].id < bound)
    && (forall i, j :: 0 <= i < j < |s| ==> s[i].id != s[j].id)
    && (forall i :: 0 <= i < |s| ==> M.Valid(s[i]))
  }

  /** Raising the id bound keeps the collections well formed. */
  lemma RaiseBound(ls: seq<L.Listing>, us: seq<U.User>, ms: seq<M.Message>, bound: nat, bound': nat)
    requires ListingsOk(ls, bound) && UsersOk(us, bound) && MessagesOk(ms, bound)
    requires bound <= bound'
    ensures ListingsOk(ls, bound') && UsersOk(us, bound') && MessagesOk(ms, bound')
  {
  }

  /** Saving a valid listing over the stored one with the same id. */
  lemma ListingsReplace(s: seq<L.Listing>, bound: nat, i: nat, l: L.Listing)
    requires ListingsOk(s, bound) && i < |s| && l.id == s[i].id && L.Valid(l)
    ensures ListingsOk(s[i := l], bound)
  {
  }

  /** Inserting a valid listing under a fresh id. */
  lemma ListingsAppend(s: seq<L.Listing>, bound: nat, l: L.Listing)
    requires ListingsOk(s, bound) && l.id < bound && ListingIndex(s, l.id).None? && L.Valid(l)
    ensures ListingsOk(s + [l], bound)
  {
  }

  /** Deleting one listing. */
  lemma ListingsRemove(s: seq<L.Listing>, bound: nat, i: nat)
    requires ListingsOk(s, bound) && i < |s|
    ensures ListingsOk(s[..i] + s[i + 1..], bound)
  {
    var t := s[..i] + s[i + 1..];
    assert forall k :: 0 <= k < |t| ==> t[k] == if k < i then s[k] else s[k + 1];
  }

  /** Saving a valid user over the stored one with the same id, when the
      unique indexes still hold. */
  lemma UsersReplace(s: seq<U.User>, bound: nat, i: nat, u: U.User)
    requires UsersOk(s, bound) && i < |s| && u.id == s[i].id && U.Valid(u)
    requires forall j :: 0 <= j < |s| && j != i ==> s[j].email != u.email
    requires forall j :: 0 <= j < |s| && j != i && u.phone.Some? ==> s[j].phone != u.phone
    ensures UsersOk(s[i := u], bound)
  {
  }

  /** Storing a new valid user whose email and phone nobody holds. */
  lemma UsersAppend(s: seq<U.User>, bound: nat, u: U.User)
    requires UsersOk(s, bound) && u.id < bound && UserIndex(s, u.id).None? && U.Valid(u)
    requires EmailIndex(s, u.email).None?
    requires u.phone.Some? ==> PhoneHolder(s, u.phone.value, None).None?
    ensures UsersOk(s + [u], bound)
  {
    assert u.phone.Some? ==> forall k :: 0 <= k < |s| ==> s[k].phone != u.phone;
    UsersAppendFresh(s, bound, u);
  }

  lemma UsersAppendFresh(s: seq<U.User>, bound: nat, u: U.User)
    requires UsersOk(s, bound) && u.id < bound && U.Valid(u)
    requires forall k :: 0 <= k < |s| ==> s[k].id != u.id && s[k].email != u.email
    requires u.phone.Some? ==> forall k :: 0 <= k < |s| ==> s[k].phone != u.phone
    ensures UsersOk(s + [u], bound)
  {
    var r := s + [u];
    forall k | 0 <= k < |r| ensures r[k].id < bound && U.Valid(r[k]) {
      if k < |s| {
        assert r[k] == s[k];
      }
    }
    forall i, j | 0 <= i < j < |r|
      ensures r[i].id != r[j].id && r[i].email != r[j].email
      ensures r[i].phone.Some? ==> r[i].phone != r[j].phone
    {
      assert r[i] == s[i];
      if j < |s| {
        assert r[j] == s[j];
      } else {
        assert r[j] == u;
      }
    }
  }

  /** Saving a user that keeps the stored email, and either keeps the stored
      phone or takes one that no other user holds. */
  lemma UsersReplaceKeepingEmail(s: seq<U.User>, bound: nat, i: nat, u: U.User)
    requires UsersOk(s, bound) && i < |s| && u.id == s[i].id && U.Valid(u)
    requires u.email == s[i].email
    requires u.phone != s[i].phone && u.phone.Some? ==>
      forall j :: 0 <= j < |s| && s[j].id != u.id ==> s[j].phone != u.phone
    ensures UsersOk(s[i := u], bound)
  {
    forall j | 0 <= j < |s| && j != i
      ensures s[j].email != u.email
      ensures u.phone.Some? ==> s[j].phone != u.phone
    {
      if j < i {
        assert s[j].email != s[i].email;
        assert s[j].id != s[i].id;
      } else {
        assert s[i].email != s[j].email;
        assert s[i].id != s[j].id;
      }
    }
    UsersReplace(s, bound, i, u);
  }

  lemma MessagesReplace(s: seq<M.Message>, bound: nat, i: nat, m: M.Message)
    requires MessagesOk(s, bound) && i < |s| && m.id == s[i].id && M.Valid(m)
    ensures MessagesOk(s[i := m], bound)
  {
  }

  lemma MessagesAppend(s: seq<M.Message>, bound: nat, m: M.Message)
    requires MessagesOk(s, bound) && m.id < bound && MessageIndex(s, m.id).None? && M.Valid(m)
    ensures MessagesOk(s + [m], bound)
  {
  }

  class Db {
    var listings: seq<L.Listing>
    var users: seq<U.User>
    var messages: seq<M.Message>
    /** Every id handed out so far is below `nextId`. */
    var nextId: nat

    /** Every stored document passes its schema, ids are unique per collection
        and the unique indexes hold. */
    ghost predicate Valid()
      reads this
    {
      ListingsOk(listings, nextId) && UsersOk(users, nextId) && MessagesOk(messages, nextId)
    }

    constructor ()
      ensures Valid()
      ensures listings == [] && users == [] && messages == []
    {
      listings, users, messages, nextId := [], [], [], 0;
    }

    /** A new ObjectId, distinct from every id stored so far. */
    method FreshId() returns (id: Id)
      requires Valid()
      modifies this`nextId
      ensures Valid()
      ensures id == old(nextId) && nextId == id + 1
      ensures listings == old(listings) && users == old(users) && messages == old(messages)
      ensures ListingIndex(listings, id).None? && UserIndex(users, id).None? && MessageIndex(messages, id).None?
    {
      id := nextId;
      RaiseBound(listings, users, messages, nextId, id + 1);
      nextId := nextId + 1;
    }

    /** Stores a new, valid listing under an id nobody holds. */
    method AppendListing(l: L.Listing)
      requires Valid() && l.id < nextId && ListingIndex(listings, l.id).None? && L.Valid(l)
      modifies this`listings
      ensures Valid() && listings == old(listings) + [l]
    {
      ListingsAppend(listings, nextId, l);
      listings := listings + [l];
    }

    /** Stores a new, valid message under an id nobody holds. */
    method AppendMessage(m: M.Message)
      requires Valid() && m.id < nextId && MessageIndex(messages, m.id).None? && M.Valid(m)
      modifies this`messages
      ensures Valid() && messages == old(messages) + [m]
    {
      MessagesAppend(messages, nextId, m);
      messages := messages + [m];
    }

    /** Saves a valid user over the stored one at `i`, keeping its email and
        either its phone or a phone that no other user holds. */
    method ReplaceUser(i: nat, u: U.User)
      requires Valid() && i < |users| && u.id == users[i].id && U.Valid(u)
      requires u.email == users[i].email
      requires u.phone != users[i].phone && u.phone.Some? ==> PhoneHolder(users, u.phone.value, Some(u.id)).None?
      modifies this`users
      ensures Valid() && users == old(users)[i := u]
    {
      UsersReplaceKeepingEmail(users, nextId, i, u);
      users := users[i := u];
    }

    /** Stores a new user whose id, email and phone nobody holds. */
    method AppendUser(u: U.User)
      requires Valid() && u.id < nextId && UserIndex(users, u.id).None? && U.Valid(u)
      requires EmailIndex(users, u.email).None?
      requires u.phone.Some? ==> PhoneHolder(users, u.phone.value, None).None?
      modifies this`users
      ensures Valid() && users == old(users) + [u]
    {
      UsersAppend(users, nextId, u);
      users := users + [u];
    }
  }
}
