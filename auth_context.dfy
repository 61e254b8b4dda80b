/** The mock session provider (frontend/src/contexts/AuthContext.tsx). */
module AuthContext {
  import opened Wrappers
  import Text

  datatype UserRole = Student | Citizen | Ngo | Government | Other

  datatype User = User(
    id: string,
    email: string,
    name: string,
    role: UserRole,
    reportsSubmitted: nat,
    cleanUpsJoined: nat,
    nftsAdopted: nat)

  /** The account id every mock session uses. */
  const FixedUserId: string := "2caf16d3-740d-47d9-b8ce-a96d07ec3387"
  const StorageKey: string := "aqua-guardian-user"

  /** `Math.floor(r * n)` for a draw `0 <= r < 1`. */
  function FloorScaled(r: real, n: nat): (k: nat)
    requires 0.0 <= r < 1.0 && n > 0
    ensures k < n
    ensures k as real <= r * n as real < k as real + 1.0
  {
    var x := r * n as real;
    ScaleBelow(r, n as real);
    FloorBelow(x, n);
    x.Floor
  }

  /** The floor of a value in [0, n) is a whole number in 0..n-1. */
  lemma FloorBelow(x: real, n: nat)
    requires 0.0 <= x < n as real
    ensures 0 <= x.Floor < n
    ensures x.Floor as real <= x < x.Floor as real + 1.0
  {
  }

  /** A draw in [0, 1) scaled by a positive factor lies in [0, factor). */
  lemma ScaleBelow(r: real, c: real)
    requires 0.0 <= r < 1.0 && c > 0.0
    ensures 0.0 <= r * c < c
  {
    assert c - r * c == (1.0 - r) * c;
    assert (1.0 - r) * c > 0.0;
  }

  /** The user a freshly mounted provider shows for the saved entries. */
  function Restored(saved: map<string, User>): (u: Option<User>)
    ensures u.Some? <==> StorageKey in saved
  {
    if StorageKey in saved then Some(saved[StorageKey]) else None
  }

  /** A page reload after a login or signup shows the same user again. */
  lemma ReloadKeepsSession(saved: map<string, User>, u: User)
    ensures Restored(saved[StorageKey := u]) == Some(u)
    ensures Restored(saved - {StorageKey}) == None
  {
  }

  /**
   * The provider's state. `storage` is the part of localStorage it uses, with
   * the serialised user kept as the user value itself.
   */
  class Provider {
    var user: Option<User>
    var storage: map<string, User>

    /** `isAuthenticated` */
    predicate IsAuthenticated()
      reads this
    {
      user.Some?
    }

    /** A saved session, if any, is the one on screen. */
    predicate Persisted()
      reads this
    {
      user.Some? ==> Restored(storage) == user
    }

    /** Mounting the provider restores a saved user. */
    constructor (saved: map<string, User>)
      ensures storage == saved && user == Restored(saved)
      ensures Persisted()
    {
      storage := saved;
      user := if StorageKey in saved then Some(saved[StorageKey]) else None;
    }

    /** `login(email, password, role)`; `r1`, `r2`, `r3` are the three `Math.random()` draws. */
    method Login(email: string, password: string, role: UserRole, r1: real, r2: real, r3: real)
      returns (ok: bool)
      requires 0.0 <= r1 < 1.0 && 0.0 <= r2 < 1.0 && 0.0 <= r3 < 1.0
      modifies this
      ensures ok <==> email != "" && password != ""
      ensures !ok ==> user == old(user) && storage == old(storage)
      ensures ok ==>
        var u := LoginUser(email, role, r1, r2, r3);
        user == Some(u) && storage == old(storage)[StorageKey := u]
      ensures old(Persisted()) ==> Persisted()
    {
      if email != "" && password != "" {
        var u := User(FixedUserId, email, Text.Split(email, '@')[0], role,
                      FloorScaled(r1, 10), FloorScaled(r2, 5), FloorScaled(r3, 3));
        user := Some(u);
        storage := storage[StorageKey := u];
        return true;
      }
      return false;
    }

    /** `signup(email, password, name, role)` */
    method Signup(email: string, password: string, name: string, role: UserRole) returns (ok: bool)
      modifies this
      ensures ok <==> email != "" && password != "" && name != ""
      ensures !ok ==> user == old(user) && storage == old(storage)
      ensures ok ==>
        var u := User(FixedUserId, email, name, role, 0, 0, 0);
        user == Some(u) && storage == old(storage)[StorageKey := u]
      ensures old(Persisted()) ==> Persisted()
    {
      if email != "" && password != "" && name != "" {
        var u := User(FixedUserId, email, name, role, 0, 0, 0);
        user := Some(u);
        storage := storage[StorageKey := u];
        return true;
      }
      return false;
    }

    /** `logout()` */
    method Logout()
      modifies this
      ensures user == None && storage == old(storage) - {StorageKey}
      ensures !IsAuthenticated() && Persisted()
    {
      user := None;
      storage := storage - {StorageKey};
    }
  }

  /** The user a successful login creates, as a value. */
  function LoginUser(email: string, role: UserRole, r1: real, r2: real, r3: real): (u: User)
    requires 0.0 <= r1 < 1.0 && 0.0 <= r2 < 1.0 && 0.0 <= r3 < 1.0
    ensures u.id == FixedUserId && u.email == email && u.role == role
    ensures u.reportsSubmitted <= 9 && u.cleanUpsJoined <= 4 && u.nftsAdopted <= 2
    ensures '@' !in u.name && Text.StartsWith(email, u.name)
    ensures '@' in email ==> email == u.name + "@" + Text.AfterFirst(email, '@')
  {
    User(FixedUserId, email, Text.Before(email, '@'), role,
         FloorScaled(r1, 10), FloorScaled(r2, 5), FloorScaled(r3, 3))
  }

  /** The session name is the local part of the address. */
  lemma LoginNameIsLocalPart(local: string, domain: string, role: UserRole, r1: real, r2: real, r3: real)
    requires 0.0 <= r1 < 1.0 && 0.0 <= r2 < 1.0 && 0.0 <= r3 < 1.0
    requires '@' !in local
    ensures LoginUser(local + "@" + domain, role, r1, r2, r3).name == local
  {
    Text.BeforeKeepsPrefix(local, "@" + domain, '@');
    var email := local + "@" + domain;
    assert email == local + ("@" + domain);
    Text.IndexOfAfterFree(local, "@" + domain, '@');
  }
}
