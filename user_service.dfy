/**
 * The user service's rules (existence and duplicate-email checks before
 * each write) over an in-memory repository that maps ids to users.
 */
module UserService {
  import opened Wrappers
  import Digits

  /** A user record; `id` is unset until the repository stores the user. */
  datatype User = User(id: Option<nat>, email: string, name: string, isActive: bool)

  /** The two errors the service raises, each with the text it carries. */
  datatype ServiceError = DuplicateEmailError(message: string) | UserNotFoundError(message: string)

  /** The decimal form of an id, as it appears in an error message. */
  function Decimal(n: nat): (s: string)
    ensures |s| >= 1 && forall i :: 0 <= i < |s| ==> Digits.IsDigit(s[i])
  {
    if n < 10 then [Digits.DigitChar(n)] else Decimal(n / 10) + [Digits.DigitChar(n % 10)]
  }

  /** The decimal form reads back as the id. */
  lemma {:induction false} DecimalRoundTrip(n: nat)
    ensures Digits.ParseDigits(Decimal(n)) == Some(n)
  {
    var s := Decimal(n);
    if n < 10 {
      assert s[..0] == [];
    } else {
      DecimalRoundTrip(n / 10);
      assert s[..|s| - 1] == Decimal(n / 10);
    }
  }

  /** `DuplicateEmailError("User with email <email> already exists")`: the email sits between fixed texts. */
  function DuplicateEmail(email: string): (e: ServiceError)
    ensures e.DuplicateEmailError? && |e.message| == |email| + 31
    ensures e.message[..16] == "User with email " && e.message[|e.message| - 15..] == " already exists"
    ensures e.message[16..|e.message| - 15] == email
  {
    DuplicateEmailError("User with email " + email + " already exists")
  }

  /** `UserNotFoundError("User with id <id> not found")`: the id reads back from the message. */
  function UserNotFound(userId: nat): (e: ServiceError)
    ensures e.UserNotFoundError? && |e.message| >= 24
    ensures e.message[..13] == "User with id " && e.message[|e.message| - 10..] == " not found"
    ensures Digits.ParseDigits(e.message[13..|e.message| - 10]) == Some(userId)
  {
    DecimalRoundTrip(userId);
    var m := "User with id " + Decimal(userId) + " not found";
    assert m[13..|m| - 10] == Decimal(userId);
    UserNotFoundError(m)
  }

  /** Distinct ids give distinct not-found errors. */
  lemma UserNotFoundInjective(a: nat, b: nat)
    requires UserNotFound(a) == UserNotFound(b)
    ensures a == b
  {
  }

  /** Distinct emails give distinct duplicate-email errors. */
  lemma DuplicateEmailInjective(a: string, b: string)
    requires DuplicateEmail(a) == DuplicateEmail(b)
    ensures a == b
  {
  }

  /** Some stored user has this email. */
  predicate EmailTaken(store: map<nat, User>, email: string) {
    exists k :: k in store && store[k].email == email
  }

  /** No two stored users share an email. */
  predicate EmailsUnique(store: map<nat, User>) {
    forall j, k :: j in store && k in store && j != k ==> store[j].email != store[k].email
  }

  /** An update of user `id` that changes its email to one some stored user holds. */
  predicate EmailClash(store: map<nat, User>, id: nat, userUpdate: User) {
    id in store && userUpdate.email != store[id].email && EmailTaken(store, userUpdate.email)
  }

  /** Storing a user whose email no other entry holds keeps the emails unique. */
  lemma StoreKeepsUnique(store: map<nat, User>, k: nat, u: User)
    requires EmailsUnique(store)
    requires forall j :: j in store && j != k ==> store[j].email != u.email
    ensures EmailsUnique(store[k := u])
  {
    var updated := store[k := u];
    forall i, j | i in updated && j in updated && i != j
      ensures updated[i].email != updated[j].email
    {
      if i != k && j != k {
        assert updated[i] == store[i] && updated[j] == store[j];
      }
    }
  }

  /** With unique emails, an email names at most one stored user. */
  lemma EmailOwnerUnique(store: map<nat, User>, j: nat, k: nat)
    requires EmailsUnique(store)
    requires j in store && k in store && store[j].email == store[k].email
    ensures j == k
  {
  }

  /** The repository: stored users by id, and the next id it will hand out. */
  class UserRepository {
    var store: map<nat, User>
    var nextId: nat

    /** Every entry is stored under its own id, and ids already handed out are below `nextId`. */
    ghost predicate Valid()
      reads this
    {
      forall k :: k in store ==> k < nextId && store[k].id == Some(k)
    }

    constructor ()
      ensures Valid() && store == map[] && nextId == 0
    {
      store := map[];
      nextId := 0;
    }

    /** A stored user with this email, if there is one. */
    method FindByEmail(email: string) returns (found: Option<User>)
      ensures found.Some? <==> EmailTaken(store, email)
      ensures found.Some? ==> found.value in store.Values && found.value.email == email
    {
      found := None;
      var pending := store.Keys;
      while pending != {} && found.None?
        invariant pending <= store.Keys
        invariant found.None? ==> forall k :: k in store && k !in pending ==> store[k].email != email
        invariant found.Some? ==> found.value in store.Values && found.value.email == email
        decreases pending
      {
        var k :| k in pending;
        if store[k].email == email {
          found := Some(store[k]);
        }
        pending := pending - {k};
      }
    }

    method FindById(id: nat) returns (found: Option<User>)
      ensures found.Some? <==> id in store
      ensures found.Some? ==> found.value == store[id]
    {
      if id in store {
        found := Some(store[id]);
      } else {
        found := None;
      }
    }

    /** Every stored user, once each. */
    method FindAll() returns (users: seq<User>)
      requires Valid()
      ensures |users| == |store|
      ensures forall u :: u in users <==> u in store.Values
      ensures forall i, j :: 0 <= i < j < |users| ==> users[i] != users[j]
    {
      users := [];
      var pending := store.Keys;
      while pending != {}
        invariant pending <= store.Keys
        invariant |users| + |pending| == |store.Keys|
        invariant forall i :: 0 <= i < |users| ==> Listed(users[i], pending)
        invariant forall k :: k in store && k !in pending ==> store[k] in users
        invariant forall i, j :: 0 <= i < j < |users| ==> users[i] != users[j]
        decreases pending
      {
        var k :| k in pending;
        users := users + [store[k]];
        pending := pending - {k};
      }
    }

    /** The stored users that are active, once each. */
    method FindActiveUsers() returns (users: seq<User>)
      requires Valid()
      ensures forall u :: u in users <==> u in store.Values && u.isActive
      ensures forall i, j :: 0 <= i < j < |users| ==> users[i] != users[j]
    {
      users := [];
      var pending := store.Keys;
      while pending != {}
        invariant pending <= store.Keys
        invariant forall i :: 0 <= i < |users| ==> Listed(users[i], pending) && users[i].isActive
        invariant forall k :: k in store && k !in pending && store[k].isActive ==> store[k] in users
        invariant forall i, j :: 0 <= i < j < |users| ==> users[i] != users[j]
        decreases pending
      {
        var k :| k in pending;
        if store[k].isActive {
          users := users + [store[k]];
        }
        pending := pending - {k};
      }
    }

    /** `u` is the stored user under its own id, and that id is no longer pending. */
    ghost predicate Listed(u: User, pending: set<nat>)
      reads this
    {
      u.id.Some? && u.id.value in store && store[u.id.value] == u && u.id.value !in pending
    }

    /** Stores the user under a fresh id and returns the stored record. */
    method Create(user: User) returns (created: User)
      requires Valid()
      modifies this
      ensures Valid()
      ensures created == user.(id := Some(old(nextId)))
      ensures old(nextId) !in old(store)
      ensures store == old(store)[old(nextId) := created] && nextId == old(nextId) + 1
    {
      created := user.(id := Some(nextId));
      store := store[nextId := created];
      nextId := nextId + 1;
    }

    /**
     * Overwrites the fields of the stored user. Like a document update that
     * reports no match when nothing was modified, it yields None both for an
     * unknown id and when the stored record already equals the new one.
     */
    method Update(id: nat, user: User) returns (updated: Option<User>)
      requires Valid()
      modifies this
      ensures Valid() && nextId == old(nextId)
      ensures var merged := user.(id := Some(id));
        if id in old(store) && old(store)[id] != merged then
          updated == Some(merged) && store == old(store)[id := merged]
        else
          updated == None && store == old(store)
    {
      var merged := user.(id := Some(id));
      if id in store && store[id] != merged {
        store := store[id := merged];
        updated := Some(merged);
      } else {
        updated := None;
      }
    }

    /** Removes the user; the result says whether one was removed. */
    method Delete(id: nat) returns (deleted: bool)
      requires Valid()
      modifies this
      ensures Valid() && nextId == old(nextId)
      ensures deleted == (id in old(store)) && store == old(store) - {id}
    {
      deleted := id in store;
      store := store - {id};
    }
  }

  /** The service: the rules checked before each repository call. */
  class UserService {
    const repository: UserRepository

    /** The repository is consistent and no two stored users share an email. */
    ghost predicate Valid()
      reads this, repository
    {
      repository.Valid() && EmailsUnique(repository.store)
    }

    constructor (userRepository: UserRepository)
      requires userRepository.Valid() && EmailsUnique(userRepository.store)
      ensures Valid() && repository == userRepository
    {
      repository := userRepository;
    }

    /** `create_user`: refuses an email some stored user already has, else stores the user. */
    method CreateUser(user: User) returns (r: Result<User, ServiceError>)
      requires Valid()
      modifies repository
      ensures Valid()
      ensures EmailTaken(old(repository.store), user.email) ==>
        r == Failure(DuplicateEmail(user.email)) && unchanged(repository)
      ensures !EmailTaken(old(repository.store), user.email) ==>
        r == Success(user.(id := Some(old(repository.nextId)))) &&
        repository.store == old(repository.store)[old(repository.nextId) := r.value] &&
        repository.nextId == old(repository.nextId) + 1
    {
      var existing := repository.FindByEmail(user.email);
      if existing.Some? {
        return Failure(DuplicateEmail(user.email));
      }
      ghost var before := repository.store;
      var created := repository.Create(user);
      StoreKeepsUnique(before, created.id.value, created);
      r := Success(created);
    }

    /** `get_user`: the stored user, or `UserNotFound`. */
    method GetUser(userId: nat) returns (r: Result<User, ServiceError>)
      ensures userId in repository.store ==> r == Success(repository.store[userId])
      ensures userId !in repository.store ==> r == Failure(UserNotFound(userId))
    {
      var user := repository.FindById(userId);
      if user.None? {
        return Failure(UserNotFound(userId));
      }
      r := Success(user.value);
    }

    /** `get_users`: every stored user. */
    method GetUsers() returns (users: seq<User>)
      requires Valid()
      ensures |users| == |repository.store|
      ensures forall u :: u in users <==> u in repository.store.Values
      ensures forall i, j :: 0 <= i < j < |users| ==> users[i] != users[j]
    {
      users := repository.FindAll();
    }

    /**
     * `update_user`: an unknown id fails before anything else; a changed
     * email that another user holds fails with nothing written; otherwise
     * the repository update decides, and its empty answer is reported as
     * `UserNotFound`.
     */
    method UpdateUser(userId: nat, userUpdate: User) returns (r: Result<User, ServiceError>)
      requires Valid()
      modifies repository
      ensures Valid() && repository.nextId == old(repository.nextId)
      ensures userId !in old(repository.store) ==>
        r == Failure(UserNotFound(userId)) && repository.store == old(repository.store)
      ensures EmailClash(old(repository.store), userId, userUpdate) ==>
        r == Failure(DuplicateEmail(userUpdate.email)) && repository.store == old(repository.store)
      ensures userId in old(repository.store) && !EmailClash(old(repository.store), userId, userUpdate) ==>
        var merged := userUpdate.(id := Some(userId));
        if old(repository.store)[userId] != merged then
          r == Success(merged) && repository.store == old(repository.store)[userId := merged]
        else
          r == Failure(UserNotFound(userId)) && repository.store == old(repository.store)
    {
      var existing := GetUser(userId);
      if existing.Failure? {
        return Failure(UserNotFound(userId));
      }
      if userUpdate.email != existing.value.email {
        var emailUser := repository.FindByEmail(userUpdate.email);
        if emailUser.Some? {
          return Failure(DuplicateEmail(userUpdate.email));
        }
      }
      ghost var before := repository.store;
      var updated := repository.Update(userId, userUpdate);
      if updated.None? {
        return Failure(UserNotFound(userId));
      }
      StoreKeepsUnique(before, userId, updated.value);
      r := Success(updated.value);
    }

    /** `delete_user`: an unknown id fails and nothing is removed; otherwise the user is removed. */
    method DeleteUser(userId: nat) returns (r: Result<bool, ServiceError>)
      requires Valid()
      modifies repository
      ensures Valid() && repository.nextId == old(repository.nextId)
      ensures userId !in old(repository.store) ==>
        r == Failure(UserNotFound(userId)) && repository.store == old(repository.store)
      ensures userId in old(repository.store) ==>
        r == Success(true) && repository.store == old(repository.store) - {userId}
    {
      var existing := GetUser(userId);
      if existing.Failure? {
        return Failure(UserNotFound(userId));
      }
      var deleted := repository.Delete(userId);
      r := Success(deleted);
    }

    /** `get_active_users`: the stored users that are active. */
    method GetActiveUsers() returns (users: seq<User>)
      requires Valid()
      ensures forall u :: u in users <==> u in repository.store.Values && u.isActive
      ensures forall i, j :: 0 <= i < j < |users| ==> users[i] != users[j]
    {
      users := repository.FindActiveUsers();
    }
  }
}
