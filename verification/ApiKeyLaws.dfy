/** What the key operations change, told in who is let in by which key. */
module ApiKeyLaws {
  import opened Prelude
  import opened ApiKeys

  /** The key that an operation issues opens its user's account at once: as an administrator for a new account, in the
      role asked for ("admin" or else an ordinary user) for a new user, in the role the user had for a new key. */
  lemma IssuedKeyOpens(s: Store, op: Op, s': Store, hash: Hash)
    requires Step(s, op, s', hash)
    ensures op.CreateAccount? && op.a !in s.accounts ==>
              Lookup(s', op.key, hash) == Some(KeyEntry(op.a, op.u, Admin, hash(op.key)))
    ensures op.RegisterUser? && op.a in s.accounts && UserKey(op.a, op.u) !in s.users ==>
              Lookup(s', op.key, hash) == Some(KeyEntry(op.a, op.u, if op.role == "admin" then Admin else User, hash(op.key)))
    ensures op.RegenerateKey? && UserKey(op.a, op.u) in s.users ==>
              Lookup(s', op.key, hash) == Some(KeyEntry(op.a, op.u, s.users[UserKey(op.a, op.u)].role, hash(op.key)))
  {
    hide KeyPrefix;
  }

  /** A new role is the one named, and the user's key opens with it. */
  lemma RoleTakesEffect(s: Store, a: string, u: string, role: string, s': Store, hash: Hash, key: string)
    requires Valid(s, hash) && Step(s, SetUserRole(a, u, role), s', hash)
    requires UserKey(a, u) in s.users && KeyOf(s.users[UserKey(a, u)], key, hash)
    ensures var found := Lookup(s', key, hash);
            && found.Some? && found.value.accountId == a && found.value.userId == u && found.value.keyHash == hash(key)
            && (role == "root" ==> found.value.role == Root)
            && (role == "admin" ==> found.value.role == Admin)
            && (role == "user" ==> found.value.role == User)
            && (role != "root" && role != "admin" && role != "user" ==> found.value.role == Other(role))
  {
    var k := UserKey(a, u);
    RoleKeepsValid(s, k, RoleNamed(role), s', hash);
    UserNamed(s, k, hash);
    HolderIndexed(s', k, hash);
    hide Valid, KeyPrefix;
  }

  /** Nobody else is affected: another user's key opens what it did, unless the account is deleted or the operation
      issues a key with the same prefix. */
  lemma OthersUnaffected(s: Store, op: Op, s': Store, hash: Hash, j: UserKey, key: string)
    requires Valid(s, hash) && Step(s, op, s', hash) && FreshKey(s, op)
    requires j in s.users && KeyOf(s.users[j], key, hash)
    requires if op.DeleteAccount? then j.account != op.a else j != UserKey(op.a, op.u)
    ensures Lookup(s', key, hash) == Lookup(s, key, hash) == Some(EntryOf(j, s.users[j]))
  {
    HolderIndexed(s, j, hash);
    StepKeepsValid(s, op, s', hash);
    if Succeeds(s, op) {
      StaysUser(s, op, s', hash, j);
      HolderIndexed(s', j, hash);
    }
    hide Valid, KeyPrefix;
  }

  lemma StaysUser(s: Store, op: Op, s': Store, hash: Hash, j: UserKey)
    requires Step(s, op, s', hash) && j in s.users
    requires if op.DeleteAccount? then j.account != op.a else j != UserKey(op.a, op.u)
    ensures j in s'.users && s'.users[j] == s.users[j]
  {
  }

  /** Who is there afterwards. An operation that does not find what it needs changes nothing. */
  lemma WhoIsThere(s: Store, op: Op, s': Store, hash: Hash, k: UserKey)
    requires Step(s, op, s', hash)
    ensures op.CreateAccount? && op.a in s.accounts ==> s' == s
    ensures op.RegisterUser? && (op.a !in s.accounts || UserKey(op.a, op.u) in s.users) ==> s' == s
    ensures (op.SetUserRole? || op.DeleteUser? || op.RegenerateKey?) && UserKey(op.a, op.u) !in s.users ==> s' == s
    ensures op.DeleteAccount? && op.a !in s.accounts ==> s' == s
    ensures op.CreateAccount? ==> s'.accounts == s.accounts + {op.a}
    ensures op.DeleteAccount? ==> s'.accounts == s.accounts - {op.a}
    ensures op.SetUserRole? || op.DeleteUser? ==> s'.accounts == s.accounts
    ensures op.CreateAccount? && op.a !in s.accounts ==> (k in s'.users <==> k in s.users || k == UserKey(op.a, op.u))
    ensures op.RegisterUser? && op.a in s.accounts ==> (k in s'.users <==> k in s.users || k == UserKey(op.a, op.u))
    ensures op.SetUserRole? || op.RegenerateKey? ==> (k in s'.users <==> k in s.users)
    ensures op.DeleteUser? ==> (k in s'.users <==> k in s.users && k != UserKey(op.a, op.u))
    ensures op.DeleteAccount? && op.a in s.accounts ==> (k in s'.users <==> k in s.users && k.account != op.a)
  {
    hide KeyPrefix;
  }
}
