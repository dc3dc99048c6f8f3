/**
  The in-memory todo store: `userStorage` files each todo under its creator's
  id and its own id, `spaceStorage` appends it to the list of its space.

  The store's state is a function of the todos passed to `create` so far
  (`History`): `UserIndex` and `SpaceIndex` say what the two indices hold after
  those calls, and the lemmas below say what that means.
 */
module MemoryStore {
  import opened Wrappers
  import opened Dicts
  import opened Todos

  /** One user's bucket: todo id -> todo. */
  type Bucket = Dict<Todo>

  /** `userStorage`: user id -> bucket. */
  type UserStorage = Dict<Bucket>

  /** `spaceStorage`: space id -> the todos pushed for that space. */
  type SpaceStorage = map<string, seq<Todo>>

  predicate Owns(t: Todo, u: string, id: string) {
    t.createdBy.id == u && t.id == id
  }

  /** JavaScript truthiness of an optional string: present and not empty. */
  predicate Truthy(s: Option<string>) {
    s.Some? && s.value != ""
  }

  /** Every entry of `b` is a todo created by `u`, filed under its own id. */
  ghost predicate OwnedBucket(b: Bucket, u: string) {
    b.Valid() && forall k :: k in b.entries ==> Owns(b.entries[k], u, k)
  }

  ghost predicate WellFormed(users: UserStorage) {
    users.Valid() && forall u :: u in users.entries ==> OwnedBucket(users.entries[u], u)
  }

  /** `userStorage[u]`, with a missing bucket read as `{}`. */
  function BucketOf(users: UserStorage, u: string): Bucket {
    match users.Get(u)
    case Some(b) => b
    case None => EmptyDict()
  }

  /** `spaceStorage[s]`, with a missing list read as `[]`. */
  function SpaceOf(spaces: SpaceStorage, s: string): seq<Todo> {
    if s in spaces then spaces[s] else []
  }

  /** The user index after `create` has been called on each todo of `h`, in order. */
  function UserIndex(h: seq<Todo>): UserStorage
    decreases |h|
  {
    if h == [] then EmptyDict()
    else
      var t := h[|h| - 1];
      var rest := UserIndex(h[..|h| - 1]);
      rest.Set(t.createdBy.id, BucketOf(rest, t.createdBy.id).Set(t.id, t))
  }

  /** The space index after `create` has been called on each todo of `h`, in order. */
  function SpaceIndex(h: seq<Todo>): SpaceStorage
    decreases |h|
  {
    if h == [] then map[]
    else
      var t := h[|h| - 1];
      var rest := SpaceIndex(h[..|h| - 1]);
      rest[t.spaceId := SpaceOf(rest, t.spaceId) + [t]]
  }

  /** The todos of `h` created in space `s`, in creation order. */
  function CreatedIn(h: seq<Todo>, s: string): seq<Todo> {
    if h == [] then []
    else (if h[0].spaceId == s then [h[0]] else []) + CreatedIn(h[1..], s)
  }

  ghost predicate UniqueIds(h: seq<Todo>) {
    forall i, j :: 0 <= i < j < |h| ==> h[i].id != h[j].id
  }

  /** Creating a todo whose id is new keeps the ids unique. */
  lemma FreshKeepsUnique(h: seq<Todo>, t: Todo)
    requires UniqueIds(h)
    requires forall x :: x in h ==> x.id != t.id
    ensures UniqueIds(h + [t])
  {
    forall i, j | 0 <= i < j < |h| + 1 ensures (h + [t])[i].id != (h + [t])[j].id {
      assert (h + [t])[i] == h[i];
      if j < |h| {
        assert (h + [t])[j] == h[j];
      }
    }
  }

  /** `find` without a user: the first bucket, in `keys` order, that holds `id`. */
  function FirstWithId(users: UserStorage, keys: seq<string>, id: string): Option<Todo> {
    if keys == [] then None
    else match BucketOf(users, keys[0]).Get(id)
      case Some(t) => Some(t)
      case None => FirstWithId(users, keys[1..], id)
  }

  lemma {:induction false} CreatedInAppend(h: seq<Todo>, t: Todo, s: string)
    ensures CreatedIn(h + [t], s) == CreatedIn(h, s) + (if t.spaceId == s then [t] else [])
  {
    if h != [] {
      assert (h + [t])[1..] == h[1..] + [t];
      CreatedInAppend(h[1..], t, s);
    }
  }

  /** A todo is listed for space `s` exactly when it was created there. */
  lemma {:induction false} CreatedInMembers(h: seq<Todo>, s: string, t: Todo)
    ensures t in CreatedIn(h, s) <==> t in h && t.spaceId == s
  {
    if h != [] {
      assert h == [h[0]] + h[1..];
      CreatedInMembers(h[1..], s, t);
    }
  }

  /**
    Each space's list holds exactly the todos created in that space, in
    creation order, duplicates included; a space where nothing was created has
    no list.
   */
  lemma {:induction false} SpaceIndexIsCreatedIn(h: seq<Todo>, s: string)
    ensures SpaceOf(SpaceIndex(h), s) == CreatedIn(h, s)
    ensures s in SpaceIndex(h) <==> CreatedIn(h, s) != []
    decreases |h|
  {
    if h != [] {
      var h', t := h[..|h| - 1], h[|h| - 1];
      assert h == h' + [t];
      SpaceIndexIsCreatedIn(h', s);
      CreatedInAppend(h', t, s);
    }
  }

  /**
    The user index keeps each key once, and files every todo under its
    creator's bucket and its own id.
   */
  lemma {:induction false} UserIndexWellFormed(h: seq<Todo>)
    ensures WellFormed(UserIndex(h))
    decreases |h|
  {
    if h != [] {
      var h', t := h[..|h| - 1], h[|h| - 1];
      UserIndexWellFormed(h');
      var rest := UserIndex(h');
      var nb := BucketOf(rest, t.createdBy.id).Set(t.id, t);
      SetKeepsValid(BucketOf(rest, t.createdBy.id), t.id, t);
      SetKeepsValid(rest, t.createdBy.id, nb);
      assert OwnedBucket(nb, t.createdBy.id) by {
        forall k | k in nb.entries ensures Owns(nb.entries[k], t.createdBy.id, k) {
          if k != t.id {
            assert nb.Get(k) == BucketOf(rest, t.createdBy.id).Get(k);
          }
        }
      }
      var users := UserIndex(h);
      assert users == rest.Set(t.createdBy.id, nb);
      forall u | u in users.entries ensures OwnedBucket(users.entries[u], u) {
        if u != t.createdBy.id {
          assert users.Get(u) == rest.Get(u);
        }
      }
    }
  }

  /** A user has a bucket exactly when some todo was created by that user. */
  lemma {:induction false} UserIndexDomain(h: seq<Todo>, u: string)
    ensures u in UserIndex(h).entries <==> exists i :: 0 <= i < |h| && h[i].createdBy.id == u
    decreases |h|
  {
    if h != [] {
      var h', t := h[..|h| - 1], h[|h| - 1];
      UserIndexDomain(h', u);
      var rest := UserIndex(h');
      assert UserIndex(h) == rest.Set(t.createdBy.id, BucketOf(rest, t.createdBy.id).Set(t.id, t));
      assert u in UserIndex(h).entries <==> u in rest.entries || t.createdBy.id == u;
      if u in UserIndex(h').entries {
        var i :| 0 <= i < |h'| && h'[i].createdBy.id == u;
        assert h[i] == h'[i];
      }
      if exists i :: 0 <= i < |h| && h[i].createdBy.id == u {
        var i :| 0 <= i < |h| && h[i].createdBy.id == u;
        if i < |h'| {
          assert h'[i] == h[i];
        }
      }
    }
  }

  /** The todo `u` most recently created with id `id`, if any. */
  function Latest(h: seq<Todo>, u: string, id: string): Option<Todo>
    decreases |h|
  {
    if h == [] then None
    else if Owns(h[|h| - 1], u, id) then Some(h[|h| - 1])
    else Latest(h[..|h| - 1], u, id)
  }

  /** One more `create` changes only its creator's bucket, by filing the todo under its id. */
  lemma BucketStep(h: seq<Todo>, u: string)
    requires h != []
    ensures var t, rest := h[|h| - 1], UserIndex(h[..|h| - 1]);
            BucketOf(UserIndex(h), u)
            == if t.createdBy.id == u then BucketOf(rest, u).Set(t.id, t) else BucketOf(rest, u)
  {
  }

  /** A bucket entry is the latest todo its user created with that id. */
  lemma {:induction false} BucketIsLatest(h: seq<Todo>, u: string, id: string)
    ensures BucketOf(UserIndex(h), u).Get(id) == Latest(h, u, id)
    decreases |h|
  {
    if h != [] {
      BucketIsLatest(h[..|h| - 1], u, id);
      BucketStep(h, u);
    }
  }

  /** `Latest` finds a todo exactly when one was created, and no later one has the same owner and id. */
  lemma {:induction false} LatestMeaning(h: seq<Todo>, u: string, id: string)
    ensures Latest(h, u, id).Some? <==> exists i :: 0 <= i < |h| && Owns(h[i], u, id)
    ensures Latest(h, u, id).Some? ==>
              exists i :: 0 <= i < |h| && Owns(h[i], u, id) && Latest(h, u, id) == Some(h[i])
                          && forall j :: i < j < |h| ==> !Owns(h[j], u, id)
    decreases |h|
  {
    if h != [] {
      var h', t := h[..|h| - 1], h[|h| - 1];
      LatestMeaning(h', u, id);
      if Owns(t, u, id) {
        assert Owns(h[|h| - 1], u, id) && Latest(h, u, id) == Some(h[|h| - 1]);
      } else {
        if exists i :: 0 <= i < |h| && Owns(h[i], u, id) {
          var i :| 0 <= i < |h| && Owns(h[i], u, id);
          assert i < |h'| && h'[i] == h[i];
        }
        if Latest(h', u, id).Some? {
          var i :| 0 <= i < |h'| && Owns(h'[i], u, id) && Latest(h', u, id) == Some(h'[i])
                   && forall j :: i < j < |h'| ==> !Owns(h'[j], u, id);
          assert h[i] == h'[i];
          assert forall j :: i < j < |h| ==> !Owns(h[j], u, id) by {
            forall j | i < j < |h| ensures !Owns(h[j], u, id) {
              if j < |h'| {
                assert h[j] == h'[j];
              }
            }
          }
        }
      }
    }
  }

  /**
    User `u`'s bucket holds id `id` exactly when `u` created a todo with that
    id, and then it holds the latest such todo: a later `create` with the same
    id overwrites the entry.
   */
  lemma UserIndexLatest(h: seq<Todo>, u: string, id: string)
    ensures BucketOf(UserIndex(h), u).Get(id).Some? <==> exists i :: 0 <= i < |h| && Owns(h[i], u, id)
    ensures BucketOf(UserIndex(h), u).Get(id).Some? ==>
              exists i :: 0 <= i < |h| && Owns(h[i], u, id)
                          && BucketOf(UserIndex(h), u).Get(id) == Some(h[i])
                          && forall j :: i < j < |h| ==> !Owns(h[j], u, id)
  {
    BucketIsLatest(h, u, id);
    LatestMeaning(h, u, id);
  }

  /**
    With unique ids, the scan over all buckets finds exactly the todo filed
    under its creator: `find` without a user agrees with `find` by the owner.
   */
  lemma FiledIsFound(h: seq<Todo>, t: Todo)
    requires UniqueIds(h)
    requires BucketOf(UserIndex(h), t.createdBy.id).Get(t.id) == Some(t)
    ensures FirstWithId(UserIndex(h), UserIndex(h).keys, t.id) == Some(t)
  {
    OwnerLookupMeaning(h, t.createdBy.id, t.id);
    FindAnyMeaning(h, t.id);
    var r := FirstWithId(UserIndex(h), UserIndex(h).keys, t.id);
    var i :| 0 <= i < |h| && h[i] == r.value;
    var j :| 0 <= j < |h| && h[j] == t;
    assert i == j;
  }

  /** Every todo filed under a user is also in the list of the space it was created in. */
  lemma BucketEntryInSpace(h: seq<Todo>, u: string, id: string)
    requires BucketOf(UserIndex(h), u).Get(id).Some?
    ensures var t := BucketOf(UserIndex(h), u).Get(id).value;
            t in SpaceOf(SpaceIndex(h), t.spaceId)
  {
    UserIndexLatest(h, u, id);
    var t := BucketOf(UserIndex(h), u).Get(id).value;
    var i :| 0 <= i < |h| && BucketOf(UserIndex(h), u).Get(id) == Some(h[i]);
    SpaceIndexIsCreatedIn(h, t.spaceId);
    CreatedInMembers(h, t.spaceId, t);
  }

  /**
    When ids are unique, every todo in a space list is the very todo its
    creator's bucket holds under its id: both indices reach the same record.
   */
  lemma SpaceEntryInBucket(h: seq<Todo>, s: string, t: Todo)
    requires UniqueIds(h)
    requires t in SpaceOf(SpaceIndex(h), s)
    ensures t.spaceId == s
    ensures BucketOf(UserIndex(h), t.createdBy.id).Get(t.id) == Some(t)
  {
    SpaceIndexIsCreatedIn(h, s);
    CreatedInMembers(h, s, t);
    var i :| 0 <= i < |h| && h[i] == t;
    UserIndexLatest(h, t.createdBy.id, t.id);
    var k :| 0 <= k < |h| && Owns(h[k], t.createdBy.id, t.id)
             && BucketOf(UserIndex(h), t.createdBy.id).Get(t.id) == Some(h[k]);
    if k != i {
      assert false;
    }
  }

  /**
    Creating a todo under an id its creator already holds replaces that entry
    and keeps the bucket's keys, while the space list gains one more entry.
   */
  lemma RecreateOverwrites(h: seq<Todo>, t: Todo)
    requires exists i :: 0 <= i < |h| && Owns(h[i], t.createdBy.id, t.id)
    ensures BucketOf(UserIndex(h + [t]), t.createdBy.id).keys == BucketOf(UserIndex(h), t.createdBy.id).keys
    ensures BucketOf(UserIndex(h + [t]), t.createdBy.id).Get(t.id) == Some(t)
    ensures |CreatedIn(h + [t], t.spaceId)| == |CreatedIn(h, t.spaceId)| + 1
  {
    UserIndexLatest(h, t.createdBy.id, t.id);
    assert (h + [t])[..|h|] == h;
    CreatedInAppend(h, t, t.spaceId);
  }

  lemma {:induction false} FirstWithIdFinds(users: UserStorage, keys: seq<string>, id: string)
    ensures FirstWithId(users, keys, id).None? <==>
              forall k :: k in keys ==> BucketOf(users, k).Get(id).None?
    ensures FirstWithId(users, keys, id).Some? ==>
              exists k :: k in keys && BucketOf(users, k).Get(id) == FirstWithId(users, keys, id)
  {
    if keys != [] {
      assert keys == [keys[0]] + keys[1..];
      FirstWithIdFinds(users, keys[1..], id);
    }
  }

  /**
    `find` without a user finds a todo with the id exactly when one was
    created, whoever created it.
   */
  lemma FindAnyMeaning(h: seq<Todo>, id: string)
    ensures var r := FirstWithId(UserIndex(h), UserIndex(h).keys, id);
            (r.None? <==> forall t :: t in h ==> t.id != id)
            && (r.Some? ==> r.value.id == id && r.value in h)
  {
    var users := UserIndex(h);
    UserIndexWellFormed(h);
    var r := FirstWithId(users, users.keys, id);
    FirstWithIdFinds(users, users.keys, id);
    if r.Some? {
      var k :| k in users.keys && BucketOf(users, k).Get(id) == r;
      UserIndexLatest(h, k, id);
    }
    if exists t :: t in h && t.id == id {
      var t :| t in h && t.id == id;
      var i :| 0 <= i < |h| && h[i] == t;
      UserIndexLatest(h, t.createdBy.id, id);
      UserIndexDomain(h, t.createdBy.id);
      assert t.createdBy.id in users.keys;
    }
  }

  /** The values of an owned bucket, in `for...in` order, are all by its owner and have distinct ids. */
  lemma OwnedValues(b: Bucket, u: string)
    requires OwnedBucket(b, u)
    ensures forall i :: 0 <= i < |b.Values()| ==> b.Values()[i].createdBy.id == u
    ensures forall i, j :: 0 <= i < j < |b.Values()| ==> b.Values()[i].id != b.Values()[j].id
  {
    var vs := b.Values();
    forall i | 0 <= i < |vs| ensures Owns(vs[i], u, b.keys[i]) {
      assert b.keys[i] in b.entries && vs[i] == b.entries[b.keys[i]];
    }
  }

  /** A user's bucket is empty exactly when the user never created a todo. */
  lemma UserIndexEmpty(h: seq<Todo>, u: string)
    ensures BucketOf(UserIndex(h), u).keys == [] <==> forall t :: t in h ==> t.createdBy.id != u
  {
    UserIndexDomain(h, u);
    if exists t :: t in h && t.createdBy.id == u {
      var t :| t in h && t.createdBy.id == u;
      var i :| 0 <= i < |h| && h[i] == t;
      UserIndexLatest(h, u, t.id);
      UserIndexWellFormed(h);
      assert t.id in BucketOf(UserIndex(h), u).keys;
    }
  }

  /**
    The first todo with id `id` among an owned bucket's values is the entry
    filed under `id`.
   */
  lemma BucketFirstMatch(b: Bucket, u: string, id: string, i: nat)
    requires OwnedBucket(b, u)
    requires i <= |b.Values()|
    requires forall j :: 0 <= j < i ==> b.Values()[j].id != id
    requires i < |b.Values()| ==> b.Values()[i].id == id
    ensures (if i < |b.Values()| then Some(b.Values()[i]) else None) == b.Get(id)
  {
    var vs := b.Values();
    assert forall j :: 0 <= j < |vs| ==> b.keys[j] in b.entries && vs[j] == b.entries[b.keys[j]];
    if id in b.entries {
      var j :| 0 <= j < |b.keys| && b.keys[j] == id;
    }
  }

  /**
    `find` with a user id yields a todo with that id created by that user, and
    yields nothing exactly when the user created none.
   */
  lemma OwnerLookupMeaning(h: seq<Todo>, u: string, id: string)
    ensures var r := BucketOf(UserIndex(h), u).Get(id);
            && (r.Some? ==> r.value.id == id && r.value in h && r.value.createdBy.id == u)
            && (r.None? <==> forall t :: t in h ==> !Owns(t, u, id))
  {
    UserIndexLatest(h, u, id);
    var r := BucketOf(UserIndex(h), u).Get(id);
    if r.Some? {
      var k :| 0 <= k < |h| && Owns(h[k], u, id) && r == Some(h[k]);
    }
    if exists t :: t in h && Owns(t, u, id) {
      var t :| t in h && Owns(t, u, id);
      var k :| 0 <= k < |h| && h[k] == t;
    }
  }

  /** What the two steps of `create` (make a missing bucket, then file the todo) leave in the user index. */
  lemma CreateUserEffect(h: seq<Todo>, t: Todo, users: UserStorage, bucket: Bucket)
    requires users == UserIndex(h)
    requires bucket == (if t.createdBy.id in users.entries then users.entries[t.createdBy.id] else EmptyDict())
    ensures (if t.createdBy.id in users.entries then users else users.Set(t.createdBy.id, EmptyDict()))
              .Set(t.createdBy.id, bucket.Set(t.id, t)) == UserIndex(h + [t])
  {
    assert (h + [t])[..|h|] == h;
    var c := t.createdBy.id;
    var filed := bucket.Set(t.id, t);
    assert bucket == BucketOf(users, c);
    assert UserIndex(h + [t]) == users.Set(c, filed);
    if c !in users.entries {
      SetTwice(users, c, EmptyDict(), filed);
    }
  }

  /** What the two steps of `create` (make a missing list, then push the todo) leave in the space index. */
  lemma CreateSpaceEffect(h: seq<Todo>, t: Todo, spaces: SpaceStorage, list: seq<Todo>)
    requires spaces == SpaceIndex(h)
    requires list == (if t.spaceId in spaces then spaces[t.spaceId] else [])
    ensures (if t.spaceId in spaces then spaces else spaces[t.spaceId := []])[t.spaceId := list + [t]]
              == SpaceIndex(h + [t])
  {
    assert (h + [t])[..|h|] == h;
    assert list == SpaceOf(spaces, t.spaceId);
  }

  /** A todo filed in a bucket of the user index is among the values `list` returns. */
  lemma FiledIsListed(h: seq<Todo>, u: string, t: Todo)
    requires BucketOf(UserIndex(h), u).Get(t.id) == Some(t)
    ensures BucketOf(UserIndex(h), u).Valid() && t in BucketOf(UserIndex(h), u).Values()
  {
    UserIndexWellFormed(h);
  }

  /** What one more `create` changes in the indices, and what it leaves alone. */
  lemma CreateFrame(h: seq<Todo>, t: Todo)
    ensures BucketOf(UserIndex(h + [t]), t.createdBy.id).Get(t.id) == Some(t)
    ensures |BucketOf(UserIndex(h + [t]), t.createdBy.id).keys|
            == |BucketOf(UserIndex(h), t.createdBy.id).keys|
               + (if BucketOf(UserIndex(h), t.createdBy.id).Get(t.id).Some? then 0 else 1)
    ensures forall u :: u != t.createdBy.id ==> BucketOf(UserIndex(h + [t]), u) == BucketOf(UserIndex(h), u)
    ensures SpaceOf(SpaceIndex(h + [t]), t.spaceId) == SpaceOf(SpaceIndex(h), t.spaceId) + [t]
    ensures forall s :: s != t.spaceId ==> SpaceOf(SpaceIndex(h + [t]), s) == SpaceOf(SpaceIndex(h), s)
  {
    assert (h + [t])[..|h|] == h;
  }

  /**
    The scan `find` makes when it has no user: through the buckets in
    `for...in` order, and through each bucket in `for...in` order, until a
    todo with the id turns up.
   */
  method ScanBuckets(users: UserStorage, id: string) returns (r: Option<Todo>)
    requires WellFormed(users)
    ensures r == FirstWithId(users, users.keys, id)
  {
    r := None;
    var i := 0;
    while i < |users.keys| && r.None?
      invariant 0 <= i <= |users.keys|
      invariant r.None? ==> FirstWithId(users, users.keys, id) == FirstWithId(users, users.keys[i..], id)
      invariant r.Some? ==> r == FirstWithId(users, users.keys, id)
    {
      var u := users.keys[i];
      r := ScanBucket(users.entries[u], u, id);
      assert users.keys[i..][0] == u && users.keys[i..][1..] == users.keys[i + 1..];
      i := i + 1;
    }
  }

  /** The inner loop of that scan: through one bucket, in `for...in` order. */
  method ScanBucket(bucket: Bucket, u: string, id: string) returns (r: Option<Todo>)
    requires OwnedBucket(bucket, u)
    ensures r == bucket.Get(id)
  {
    r := None;
    var j := 0;
    while j < |bucket.keys| && r.None?
      invariant 0 <= j <= |bucket.keys|
      invariant r.None? ==> forall l :: 0 <= l < j ==> bucket.keys[l] != id
      invariant r.Some? ==> r == bucket.Get(id)
    {
      var t := bucket.entries[bucket.keys[j]];
      assert Owns(t, u, bucket.keys[j]);
      if t.id == id {
        r := Some(t);
      }
      j := j + 1;
    }
  }


  /** The store, which the source keeps in two module-level objects. */
  class TodoStore {
    var userStorage: UserStorage
    var spaceStorage: SpaceStorage
    /** Every todo passed to `Create`, in call order. */
    ghost var History: seq<Todo>

    ghost predicate Valid()
      reads this
    {
      && userStorage == UserIndex(History)
      && spaceStorage == SpaceIndex(History)
    }

    /** The todo objects the store refers to. */
    ghost function Todos(): set<Todo>
      reads this
    {
      set t | t in History
    }

    /** What `list(u)` returns. */
    ghost function UserTodos(u: string): seq<Todo>
      requires Valid()
      reads this
    {
      UserIndexWellFormed(History);
      BucketOf(userStorage, u).Values()
    }

    /** What `listSpace(s)` returns. */
    ghost function SpaceTodos(s: string): seq<Todo>
      reads this
    {
      SpaceOf(spaceStorage, s)
    }

    /** What `find(id, userId)` returns. */
    ghost function Lookup(id: string, userId: Option<string>): Option<Todo>
      reads this
    {
      if Truthy(userId) then BucketOf(userStorage, userId.value).Get(id)
      else FirstWithId(userStorage, userStorage.keys, id)
    }

    constructor ()
      ensures Valid() && History == []
    {
      userStorage := EmptyDict();
      spaceStorage := map[];
      History := [];
    }

    /**
      `create(todo)`: never fails; makes the creator's bucket and the space's
      list on demand, files the todo under its id (overwriting an entry with
      the same id) and appends it to the space list.
     */
    method Create(t: Todo)
      requires Valid()
      modifies this
      ensures Valid() && History == old(History) + [t]
      ensures BucketOf(userStorage, t.createdBy.id).Get(t.id) == Some(t)
      ensures t in UserTodos(t.createdBy.id)
      ensures SpaceTodos(t.spaceId) == old(SpaceTodos(t.spaceId)) + [t]
      ensures forall u :: u != t.createdBy.id ==> BucketOf(userStorage, u) == BucketOf(old(userStorage), u)
      ensures forall s :: s != t.spaceId ==> SpaceTodos(s) == old(SpaceTodos(s))
      ensures |BucketOf(userStorage, t.createdBy.id).keys|
              == |BucketOf(old(userStorage), t.createdBy.id).keys|
                 + (if BucketOf(old(userStorage), t.createdBy.id).Get(t.id).Some? then 0 else 1)
    {
      var userId := t.createdBy.id;
      var spaceId := t.spaceId;
      if userId !in userStorage.entries {
        userStorage := userStorage.Set(userId, EmptyDict());
      }
      if spaceId !in spaceStorage {
        spaceStorage := spaceStorage[spaceId := []];
      }
      ghost var bucket := userStorage.entries[userId];
      ghost var list := spaceStorage[spaceId];
      userStorage := userStorage.Set(userId, userStorage.entries[userId].Set(t.id, t));
      spaceStorage := spaceStorage[spaceId := spaceStorage[spaceId] + [t]];
      History := History + [t];
      CreateUserEffect(old(History), t, old(userStorage), bucket);
      CreateSpaceEffect(old(History), t, old(spaceStorage), list);
      CreateFrame(old(History), t);
      FiledIsListed(History, userId, t);
    }

    /**
      `list(u)`: u's todos, one per id, all created by u; empty when u never
      created one.
     */
    method List(u: string) returns (todos: seq<Todo>)
      requires Valid()
      ensures todos == UserTodos(u)
      ensures forall i :: 0 <= i < |todos| ==> todos[i].createdBy.id == u
      ensures forall i, j :: 0 <= i < j < |todos| ==> todos[i].id != todos[j].id
      ensures todos == [] <==> forall t :: t in History ==> t.createdBy.id != u
    {
      todos := [];
      if u in userStorage.entries {
        var bucket := userStorage.entries[u];
        assert bucket.Valid() by {
          UserIndexWellFormed(History);
        }
        for i := 0 to |bucket.keys|
          invariant todos == bucket.Values()[..i]
        {
          todos := todos + [bucket.entries[bucket.keys[i]]];
        }
      }
      var b := BucketOf(userStorage, u);
      assert todos == b.Values();
      assert OwnedBucket(b, u) by {
        UserIndexWellFormed(History);
      }
      OwnedValues(b, u);
      UserIndexEmpty(History, u);
    }

    /** `listSpace(s)`: the todos created in s, in creation order; empty when none were. */
    method ListSpace(s: string) returns (todos: seq<Todo>)
      requires Valid()
      ensures todos == SpaceTodos(s)
      ensures todos == CreatedIn(History, s)
      ensures forall t :: t in todos <==> t in History && t.spaceId == s
    {
      if s in spaceStorage {
        todos := spaceStorage[s];
      } else {
        todos := [];
      }
      SpaceIndexIsCreatedIn(History, s);
      forall t {
        CreatedInMembers(History, s, t);
      }
    }

    /**
      `find(id, userId)`: with a user, only that user's todo with the id; with
      no (or an empty) user id, a todo with the id from any bucket.
     */
    method Find(id: string, userId: Option<string>) returns (r: Option<Todo>)
      requires Valid()
      ensures r == Lookup(id, userId)
      ensures r.Some? ==> r.value.id == id && r.value in History
      ensures Truthy(userId) ==> (r.Some? ==> r.value.createdBy.id == userId.value)
      ensures Truthy(userId) ==> (r.None? <==> forall t :: t in History ==> !Owns(t, userId.value, id))
      ensures !Truthy(userId) ==> (r.None? <==> forall t :: t in History ==> t.id != id)
    {
      if Truthy(userId) {
        var u := userId.value;
        var todos := List(u);
        var i := 0;
        while i < |todos| && todos[i].id != id
          invariant 0 <= i <= |todos|
          invariant forall j :: 0 <= j < i ==> todos[j].id != id
        {
          i := i + 1;
        }
        r := if i < |todos| then Some(todos[i]) else None;
        ghost var b := BucketOf(userStorage, u);
        assert OwnedBucket(b, u) by {
          UserIndexWellFormed(History);
        }
        BucketFirstMatch(b, u, id, i);
        OwnerLookupMeaning(History, u, id);
      } else {
        assert WellFormed(userStorage) by {
          UserIndexWellFormed(History);
        }
        r := ScanBuckets(userStorage, id);
        FindAnyMeaning(History, id);
      }
    }
  }
}
