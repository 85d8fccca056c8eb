/** The session store: the signed-in token and user held in memory and mirrored in the
    device's key-value storage under the keys `token` and `user`. */
module Auth {
  import opened Wrappers

  datatype Token = Token(access: string, refresh: string)

  datatype Role = Admin | Repartidor

  datatype User = User(id: nat, name: string, email: string, role: Role)

  datatype Status = Idle | SignedIn | SignedOut

  datatype AuthState = AuthState(status: Status, token: Option<Token>, user: Option<User>)

  /** Before the storage is read the status is idle and nothing is held. */
  const Initial := AuthState(Idle, None, None)

  /** One storage key: nothing stored, a parsable value, or a value whose read throws. */
  datatype Slot<T> = Empty | Holds(value: T) | Corrupt

  datatype Storage = Storage(token: Slot<Token>, user: Slot<User>)

  /** `signIn(token, user)`: both values are written to storage and held in memory. */
  function SignIn(token: Token, user: User): (r: (AuthState, Storage))
    ensures r.0.status == SignedIn && r.0.token == Some(token) && r.0.user == Some(user)
    ensures r.1.token == Holds(token) && r.1.user == Holds(user)
  {
    (AuthState(SignedIn, Some(token), Some(user)), Storage(Holds(token), Holds(user)))
  }

  /** `signOut()`: both keys are removed and nothing is held. */
  function SignOut(): (r: (AuthState, Storage))
    ensures r.0.status == SignedOut && r.0.token.None? && r.0.user.None?
    ensures r.1.token.Empty? && r.1.user.Empty?
  {
    (AuthState(SignedOut, None, None), Storage(Empty, Empty))
  }

  /** `hydrate()`: with a token and a user both stored, sign in with them; with either
      missing, sign out; a read that throws is caught and leaves everything as it was. */
  function Hydrate(state: AuthState, storage: Storage): (r: (AuthState, Storage))
    ensures storage.token.Corrupt? || storage.user.Corrupt? ==> r == (state, storage)
    ensures !(storage.token.Corrupt? || storage.user.Corrupt?) ==> r.0.status != Idle
    ensures !(storage.token.Corrupt? || storage.user.Corrupt?) ==> Consistent(r.0) && Synced(r.0, r.1)
    ensures storage.token.Holds? && storage.user.Holds? ==>
      r.0.token == Some(storage.token.value) && r.0.user == Some(storage.user.value)
    ensures r.0.status == SignedIn <==>
      || (storage.token.Holds? && storage.user.Holds?)
      || ((storage.token.Corrupt? || storage.user.Corrupt?) && state.status == SignedIn)
  {
    if storage.token.Corrupt? || storage.user.Corrupt? then (state, storage)
    else if storage.token.Holds? && storage.user.Holds? then SignIn(storage.token.value, storage.user.value)
    else SignOut()
  }

  /** Memory holds a session exactly when the status says signed in, and holds nothing
      otherwise. */
  predicate Consistent(s: AuthState)
  {
    && (s.status == SignedIn ==> s.token.Some? && s.user.Some?)
    && (s.status != SignedIn ==> s.token.None? && s.user.None?)
  }

  /** Storage mirrors memory: a signed-in session is stored, a signed-out one is not. */
  predicate Synced(s: AuthState, storage: Storage)
  {
    && (s.status == SignedIn ==>
          && s.token.Some? && storage.token == Holds(s.token.value)
          && s.user.Some? && storage.user == Holds(s.user.value))
    && (s.status == SignedOut ==> storage.token.Empty? && storage.user.Empty?)
  }

  /** Every operation keeps memory consistent and mirrored in storage. */
  lemma OperationsKeepInvariant(s: AuthState, storage: Storage, token: Token, user: User)
    requires Consistent(s) && Synced(s, storage)
    ensures Consistent(SignIn(token, user).0) && Synced(SignIn(token, user).0, SignIn(token, user).1)
    ensures Consistent(SignOut().0) && Synced(SignOut().0, SignOut().1)
    ensures Consistent(Hydrate(s, storage).0) && Synced(Hydrate(s, storage).0, Hydrate(s, storage).1)
  {
  }

  lemma InitialConsistent(storage: Storage)
    ensures Consistent(Initial) && Synced(Initial, storage)
  {
  }

  /** A session signed in before a restart comes back on hydration: the same token, the
      same user, signed in. */
  lemma SignInSurvivesRestart(token: Token, user: User)
    ensures Hydrate(Initial, SignIn(token, user).1) == SignIn(token, user)
  {
  }

  /** A signed-out session stays signed out after a restart. */
  lemma SignOutSurvivesRestart()
    ensures Hydrate(Initial, SignOut().1) == SignOut()
  {
  }

  /** Hydrating leaves the status idle only when storage could not be read; otherwise it
      settles on signed in or signed out. */
  lemma HydrateLeavesIdle(storage: Storage)
    ensures Hydrate(Initial, storage).0.status == Idle <==> storage.token.Corrupt? || storage.user.Corrupt?
  {
  }

  /** Hydrating twice is hydrating once. */
  lemma HydrateIdempotent(s: AuthState, storage: Storage)
    ensures var h := Hydrate(s, storage); Hydrate(h.0, h.1) == h
  {
  }
}
