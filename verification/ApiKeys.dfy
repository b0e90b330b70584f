/** API keys: the prefix index against a scan of all users, over any sequence of key operations. */
module ApiKeys {
  import opened Prelude

  datatype Role = Root | Admin | User | Other(name: string)

  datatype UserRecord = UserRecord(userId: string, role: Role, keyHash: string, keyPrefix: string)

  datatype KeyEntry = KeyEntry(accountId: string, userId: string, role: Role, keyHash: string)

  datatype UserKey = UserKey(account: string, user: string)

  type Users = map<UserKey, UserRecord>
  type Index = map<string, KeyEntry>

  /** Accounts by name, all users of all accounts, and the lookup index by key prefix. */
  datatype Store = Store(accounts: set<string>, users: Users, index: Index)

  /** The keyed hash, an arbitrary function; where it matters it is taken to be injective. */
  type Hash = string -> string

  ghost predicate Injective(hash: Hash) {
    forall a, b :: hash(a) == hash(b) ==> a == b
  }

  function KeyPrefix(key: string): (p: string)
    ensures p <= key && |p| == if |key| < 12 then |key| else 12
  {
    if |key| >= 12 then key[..12] else key
  }

  function EntryOf(k: UserKey, r: UserRecord): KeyEntry {
    KeyEntry(k.account, r.userId, r.role, r.keyHash)
  }

  /** No two users share a key prefix. */
  ghost predicate UniquePrefixes(users: Users) {
    forall j, k :: j in users && k in users && users[j].keyPrefix == users[k].keyPrefix ==> j == k
  }

  predicate EntryRight(users: Users, p: string, e: KeyEntry) {
    var k := UserKey(e.accountId, e.userId);
    k in users && users[k].keyPrefix == p && e == EntryOf(k, users[k])
  }

  /** Every user is found under its prefix, and every index entry is that of a user with that prefix. */
  ghost predicate Indexes(users: Users, index: Index) {
    && (forall k :: k in users ==> users[k].keyPrefix in index)
    && (forall p :: p in index ==> EntryRight(users, p, index[p]))
  }

  ghost predicate Named(users: Users) {
    forall k :: k in users ==> users[k].userId == k.user
  }

  ghost predicate KeyOf(r: UserRecord, key: string, hash: Hash) {
    hash(key) == r.keyHash && KeyPrefix(key) == r.keyPrefix
  }

  /** Each record holds the hash and the prefix of one key. */
  ghost predicate Issued(users: Users, hash: Hash) {
    forall k :: k in users ==> exists key :: KeyOf(users[k], key, hash)
  }

  ghost predicate Valid(s: Store, hash: Hash) {
    && UniquePrefixes(s.users) && Indexes(s.users, s.index) && Named(s.users) && Issued(s.users, hash)
    && forall k :: k in s.users ==> k.account in s.accounts
  }

  /** There is only one index: whatever a rebuild computes is what is there. */
  lemma IndexUnique(users: Users, index: Index, rebuilt: Index)
    requires UniquePrefixes(users) && Indexes(users, index) && Indexes(users, rebuilt)
    ensures index == rebuilt
  {
  }

  // ----- Operations -----

  datatype Op =
    | CreateAccount(a: string, u: string, key: string)
    | RegisterUser(a: string, u: string, role: string, key: string)
    | SetUserRole(a: string, u: string, role: string)
    | DeleteUser(a: string, u: string)
    | DeleteAccount(a: string)
    | RegenerateKey(a: string, u: string, key: string)

  function RoleNamed(role: string): Role {
    if role == "root" then Root else if role == "admin" then Admin else if role == "user" then User else Other(role)
  }

  /** Whether the operation finds what it needs; otherwise it reports an error and changes nothing. */
  predicate Succeeds(s: Store, op: Op) {
    match op
    case CreateAccount(a, _, _) => a !in s.accounts
    case RegisterUser(a, u, _, _) => a in s.accounts && UserKey(a, u) !in s.users
    case SetUserRole(a, u, _) => UserKey(a, u) in s.users
    case DeleteUser(a, u) => UserKey(a, u) in s.users
    case DeleteAccount(a) => a in s.accounts
    case RegenerateKey(a, u, _) => UserKey(a, u) in s.users
  }

  /** No user other than `k` has the prefix. */
  ghost predicate UnusedByOthers(users: Users, k: UserKey, p: string) {
    forall j :: j in users && j != k ==> users[j].keyPrefix != p
  }

  predicate IssuesKey(op: Op) {
    op.CreateAccount? || op.RegisterUser? || op.RegenerateKey?
  }

  /** A new key, if there is one, has a prefix that no other user has. */
  ghost predicate FreshKey(s: Store, op: Op) {
    IssuesKey(op) ==> UnusedByOthers(s.users, UserKey(op.a, op.u), KeyPrefix(op.key))
  }

  function Members(users: Users, a: string): set<UserKey> {
    set k | k in users && k.account == a
  }

  function Prefixes(users: Users, keys: set<UserKey>): set<string> {
    set k | k in keys && k in users :: users[k].keyPrefix
  }

  /** The record replaces the user's old one, if any, in both structures. */
  function Put(s: Store, k: UserKey, r: UserRecord): Store {
    var left := if k in s.users then s.index - {s.users[k].keyPrefix} else s.index;
    Store(s.accounts + {k.account}, s.users[k := r], left[r.keyPrefix := KeyEntry(k.account, k.user, r.role, r.keyHash)])
  }

  function Drop(s: Store, keys: set<UserKey>): Store {
    s.(users := s.users - keys, index := s.index - Prefixes(s.users, keys))
  }

  ghost predicate Step(s: Store, op: Op, s': Store, hash: Hash) {
    if !Succeeds(s, op) then s' == s
    else match op
      case CreateAccount(a, u, key) => s' == Put(s, UserKey(a, u), UserRecord(u, Admin, hash(key), KeyPrefix(key)))
      case RegisterUser(a, u, role, key) =>
        s' == Put(s, UserKey(a, u), UserRecord(u, if role == "admin" then Admin else User, hash(key), KeyPrefix(key)))
      case SetUserRole(a, u, role) =>
        && s'.users == s.users[UserKey(a, u) := s.users[UserKey(a, u)].(role := RoleNamed(role))]
        && s'.accounts == s.accounts && (UniquePrefixes(s'.users) && Named(s'.users) ==> Indexes(s'.users, s'.index))
      case DeleteUser(a, u) => s' == Drop(s, {UserKey(a, u)})
      case DeleteAccount(a) => s' == Drop(s, Members(s.users, a)).(accounts := s.accounts - {a})
      case RegenerateKey(a, u, key) =>
        s' == Put(s, UserKey(a, u), s.users[UserKey(a, u)].(keyHash := hash(key), keyPrefix := KeyPrefix(key)))
  }

  lemma PutIndexes(s: Store, k: UserKey, r: UserRecord)
    requires UniquePrefixes(s.users) && Indexes(s.users, s.index)
    requires UnusedByOthers(s.users, k, r.keyPrefix) && r.userId == k.user
    ensures Indexes(Put(s, k, r).users, Put(s, k, r).index)
  {
    var s' := Put(s, k, r);
    forall p | p in s'.index ensures EntryRight(s'.users, p, s'.index[p]) {
      if p != r.keyPrefix {
        assert EntryRight(s.users, p, s.index[p]);
      }
    }
    forall j | j in s'.users ensures s'.users[j].keyPrefix in s'.index {
      if j != k {
        assert s.users[j].keyPrefix in s.index;
      }
    }
  }

  /** The user's own old prefix may come again; the prefix of anyone else may not. */
  lemma PutValidExactly(s: Store, k: UserKey, r: UserRecord, key: string, hash: Hash)
    requires Valid(s, hash) && r.userId == k.user && KeyOf(r, key, hash)
    ensures Valid(Put(s, k, r), hash) <==> UnusedByOthers(s.users, k, r.keyPrefix)
  {
    hide KeyOf, Indexes;
    if UnusedByOthers(s.users, k, r.keyPrefix) {
      PutIndexes(s, k, r);
    } else {
      var j :| j in s.users && j != k && s.users[j].keyPrefix == r.keyPrefix;
      var users := Put(s, k, r).users;
      assert users[j].keyPrefix == users[k].keyPrefix;
    }
  }

  lemma DropKeepsValid(s: Store, keys: set<UserKey>, hash: Hash)
    requires Valid(s, hash)
    ensures Valid(Drop(s, keys), hash)
  {
  }

  lemma RoleKeepsValid(s: Store, k: UserKey, role: Role, s': Store, hash: Hash)
    requires Valid(s, hash) && k in s.users
    requires s'.users == s.users[k := s.users[k].(role := role)] && s'.accounts == s.accounts
    requires UniquePrefixes(s'.users) && Named(s'.users) ==> Indexes(s'.users, s'.index)
    ensures Valid(s', hash)
  {
    forall j | j in s'.users ensures exists key :: KeyOf(s'.users[j], key, hash) {
      var key :| KeyOf(s.users[j], key, hash);
      assert KeyOf(s'.users[j], key, hash);
    }
  }

  /**
   * A successful operation keeps the index equal to what a rebuild would compute exactly when the key it issues, if it
   * issues one, has a prefix that no other user has.
   */
  lemma StepValidExactly(s: Store, op: Op, s': Store, hash: Hash)
    requires Valid(s, hash) && Step(s, op, s', hash) && Succeeds(s, op)
    ensures Valid(s', hash) <==> FreshKey(s, op)
  {
    hide Valid, Put, Drop, UnusedByOthers;
    match op
    case CreateAccount(a, u, key) =>
      PutValidExactly(s, UserKey(a, u), UserRecord(u, Admin, hash(key), KeyPrefix(key)), key, hash);
    case RegisterUser(a, u, role, key) =>
      PutValidExactly(s, UserKey(a, u), UserRecord(u, if role == "admin" then Admin else User, hash(key), KeyPrefix(key)), key, hash);
    case SetUserRole(a, u, role) => RoleKeepsValid(s, UserKey(a, u), RoleNamed(role), s', hash);
    case DeleteUser(a, u) => DropKeepsValid(s, {UserKey(a, u)}, hash);
    case DeleteAccount(a) => DropAccountValid(s, a, hash);
    case RegenerateKey(a, u, key) =>
      UserNamed(s, UserKey(a, u), hash);
      PutValidExactly(s, UserKey(a, u), s.users[UserKey(a, u)].(keyHash := hash(key), keyPrefix := KeyPrefix(key)), key, hash);
  }

  /** Every operation that issues no used prefix keeps the index right. */
  lemma StepKeepsValid(s: Store, op: Op, s': Store, hash: Hash)
    requires Valid(s, hash) && Step(s, op, s', hash) && FreshKey(s, op)
    ensures Valid(s', hash)
  {
    if Succeeds(s, op) {
      StepValidExactly(s, op, s', hash);
    }
  }

  lemma UserNamed(s: Store, k: UserKey, hash: Hash)
    requires Valid(s, hash) && k in s.users
    ensures s.users[k].userId == k.user
  {
  }

  lemma DropAccountValid(s: Store, a: string, hash: Hash)
    requires Valid(s, hash)
    ensures Valid(Drop(s, Members(s.users, a)).(accounts := s.accounts - {a}), hash)
  {
    DropKeepsValid(s, Members(s.users, a), hash);
  }

  ghost predicate IsRun(states: seq<Store>, ops: seq<Op>, hash: Hash) {
    && |states| == |ops| + 1
    && states[0] == Store({}, map[], map[])
    && forall i :: 0 <= i < |ops| ==> Step(states[i], ops[i], states[i + 1], hash) && FreshKey(states[i], ops[i])
  }

  lemma {:induction false} RunValid(states: seq<Store>, ops: seq<Op>, hash: Hash, i: nat)
    requires IsRun(states, ops, hash) && i < |states|
    ensures Valid(states[i], hash)
  {
    if i > 0 {
      RunValid(states, ops, hash, i - 1);
      StepKeepsValid(states[i - 1], ops[i - 1], states[i], hash);
    }
  }

  // ----- Authentication -----

  function Lookup(s: Store, rawKey: string, hash: Hash): Option<KeyEntry> {
    if KeyPrefix(rawKey) in s.index && hash(rawKey) == s.index[KeyPrefix(rawKey)].keyHash
    then Some(s.index[KeyPrefix(rawKey)]) else None
  }

  /** What a linear scan by hash over all users would accept. */
  ghost predicate Scanned(users: Users, h: string, e: KeyEntry) {
    exists k :: k in users && users[k].keyHash == h && e == EntryOf(k, users[k])
  }

  /** The index lookup answers exactly as the scan does, and the scan never has two answers. */
  lemma LookupIsScan(s: Store, rawKey: string, hash: Hash, e: KeyEntry)
    requires Valid(s, hash) && Injective(hash)
    ensures Lookup(s, rawKey, hash) == Some(e) <==> Scanned(s.users, hash(rawKey), e)
  {
  }

  /** After a user or the account is deleted, or the user is given another key, the old key opens nothing. */
  lemma OldKeyRejected(s: Store, op: Op, s': Store, hash: Hash, k: UserKey, oldKey: string)
    requires Valid(s, hash) && Injective(hash) && Step(s, op, s', hash) && Succeeds(s, op)
    requires k in s.users && KeyOf(s.users[k], oldKey, hash) && op.a == k.account
    requires op.DeleteAccount? || (op.DeleteUser? && op.u == k.user) || (op.RegenerateKey? && op.u == k.user && op.key != oldKey)
    ensures Lookup(s', oldKey, hash) == None
  {
    HolderIndexed(s, k, hash);
    if op.DeleteAccount? {
      assert k in Members(s.users, op.a);
    }
  }

  /**
   * Why prefixes must differ: when an operation issues a key, any other user still gets in with the old key exactly
   * when the new key has another prefix; with the same prefix that user is shut out, although a scan would find the key.
   */
  lemma CollisionLocksOut(s: Store, op: Op, oldKey: string, j: UserKey, s': Store, hash: Hash)
    requires Valid(s, hash) && Injective(hash) && Step(s, op, s', hash) && Succeeds(s, op)
    requires IssuesKey(op) && op.key != oldKey
    requires j in s.users && j != UserKey(op.a, op.u) && KeyOf(s.users[j], oldKey, hash)
    ensures Lookup(s', oldKey, hash) ==
            if KeyPrefix(op.key) == KeyPrefix(oldKey) then None else Some(EntryOf(j, s.users[j]))
    ensures Scanned(s'.users, hash(oldKey), EntryOf(j, s.users[j]))
  {
    hide Valid, Put, Injective;
    match op
    case CreateAccount(a, u, key) =>
      IssuedBeside(s, UserKey(a, u), UserRecord(u, Admin, hash(key), KeyPrefix(key)), key, oldKey, j, hash);
    case RegisterUser(a, u, role, key) =>
      IssuedBeside(s, UserKey(a, u), UserRecord(u, if role == "admin" then Admin else User, hash(key), KeyPrefix(key)), key,
                   oldKey, j, hash);
    case RegenerateKey(a, u, key) =>
      IssuedBeside(s, UserKey(a, u), s.users[UserKey(a, u)].(keyHash := hash(key), keyPrefix := KeyPrefix(key)), key,
                   oldKey, j, hash);
  }

  lemma IssuedBeside(s: Store, k: UserKey, r: UserRecord, key: string, oldKey: string, j: UserKey, hash: Hash)
    requires Valid(s, hash) && Injective(hash) && key != oldKey && KeyOf(r, key, hash)
    requires j in s.users && j != k && KeyOf(s.users[j], oldKey, hash)
    ensures Lookup(Put(s, k, r), oldKey, hash) ==
            if KeyPrefix(key) == KeyPrefix(oldKey) then None else Some(EntryOf(j, s.users[j]))
    ensures Scanned(Put(s, k, r).users, hash(oldKey), EntryOf(j, s.users[j]))
  {
    HolderIndexed(s, j, hash);
    OtherPrefix(s, k, j, hash);
    assert hash(key) != hash(oldKey);
    assert Put(s, k, r).users[j] == s.users[j];
    hide Valid, Injective, KeyPrefix;
  }

  lemma HolderIndexed(s: Store, j: UserKey, hash: Hash)
    requires Valid(s, hash) && j in s.users
    ensures s.users[j].keyPrefix in s.index && s.index[s.users[j].keyPrefix] == EntryOf(j, s.users[j])
  {
    assert EntryRight(s.users, s.users[j].keyPrefix, s.index[s.users[j].keyPrefix]);
  }

  lemma OtherPrefix(s: Store, k: UserKey, j: UserKey, hash: Hash)
    requires Valid(s, hash) && j in s.users && j != k
    ensures k in s.users ==> s.users[k].keyPrefix != s.users[j].keyPrefix
  {
  }

  // ----- The manager object -----

  type Accounts = map<string, map<string, UserRecord>>

  /** All users of all accounts. */
  ghost function Flat(accounts: Accounts): Users {
    map a, u | a in accounts && u in accounts[a] :: UserKey(a, u) := accounts[a][u]
  }

  lemma FlatAt(accounts: Accounts, k: UserKey)
    ensures k in Flat(accounts) <==> k.account in accounts && k.user in accounts[k.account]
    ensures k in Flat(accounts) ==> Flat(accounts)[k] == accounts[k.account][k.user]
  {
  }

  lemma FlatPut(accounts: Accounts, a: string, u: string, r: UserRecord)
    ensures var users := if a in accounts then accounts[a] else map[];
            Flat(accounts[a := users[u := r]]) == Flat(accounts)[UserKey(a, u) := r]
  {
    hide Flat;
    var users := if a in accounts then accounts[a] else map[];
    var x, y := Flat(accounts[a := users[u := r]]), Flat(accounts)[UserKey(a, u) := r];
    forall k ensures (k in x <==> k in y) && (k in x && k in y ==> x[k] == y[k]) {
      FlatAt(accounts, k);
      FlatAt(accounts[a := users[u := r]], k);
    }
    SameUsers(x, y);
  }

  lemma SameUsers(x: Users, y: Users)
    requires forall k :: (k in x <==> k in y) && (k in x && k in y ==> x[k] == y[k])
    ensures x == y
  {
  }

  lemma FlatDropUser(accounts: Accounts, a: string, u: string)
    requires a in accounts
    ensures Flat(accounts[a := accounts[a] - {u}]) == Flat(accounts) - {UserKey(a, u)}
    ensures UserKey(a, u) in Flat(accounts) <==> u in accounts[a]
    ensures u in accounts[a] ==> Prefixes(Flat(accounts), {UserKey(a, u)}) == {accounts[a][u].keyPrefix}
  {
    hide Flat;
    var x, y := Flat(accounts[a := accounts[a] - {u}]), Flat(accounts) - {UserKey(a, u)};
    forall k ensures (k in x <==> k in y) && (k in x && k in y ==> x[k] == y[k]) {
      FlatAt(accounts, k);
      FlatAt(accounts[a := accounts[a] - {u}], k);
    }
    SameUsers(x, y);
    FlatAt(accounts, UserKey(a, u));
  }

  lemma FlatWithout(accounts: Accounts, a: string)
    ensures Flat(accounts - {a}) == Flat(accounts) - Members(Flat(accounts), a)
  {
    hide Flat;
    var x, y := Flat(accounts - {a}), Flat(accounts) - Members(Flat(accounts), a);
    forall k ensures (k in x <==> k in y) && (k in x && k in y ==> x[k] == y[k]) {
      FlatAt(accounts, k);
      FlatAt(accounts - {a}, k);
    }
    SameUsers(x, y);
  }

  lemma FlatDropAccount(accounts: Accounts, a: string)
    requires a in accounts
    ensures Flat(accounts - {a}) == Flat(accounts) - Members(Flat(accounts), a)
    ensures Prefixes(Flat(accounts), Members(Flat(accounts), a)) == OwnPrefixes(accounts[a])
  {
    var users, own := Flat(accounts), accounts[a];
    FlatWithout(accounts, a);
    forall p | p in OwnPrefixes(own) ensures p in Prefixes(users, Members(users, a)) {
      var u :| u in own && own[u].keyPrefix == p;
      assert UserKey(a, u) in Members(users, a);
    }
  }

  lemma OwnPrefixAdded(own: map<string, UserRecord>, u: string, r: UserRecord)
    requires u !in own
    ensures OwnPrefixes(own[u := r]) == OwnPrefixes(own) + {r.keyPrefix}
  {
    var own' := own[u := r];
    forall p | p in OwnPrefixes(own) ensures p in OwnPrefixes(own') {
      var v :| v in own && own[v].keyPrefix == p;
      assert own'[v].keyPrefix == p;
    }
    assert own'[u].keyPrefix == r.keyPrefix;
  }

  /** Storing a record in the nested maps and the index is storing it in the flat view. */
  lemma FlatPutStep(s: Store, accounts: Accounts, a: string, u: string, r: UserRecord)
    requires s.accounts == accounts.Keys && s.users == Flat(accounts)
    ensures var k := UserKey(a, u);
            var users := if a in accounts then accounts[a] else map[];
            var accounts' := accounts[a := users[u := r]];
            && (k in s.users <==> a in accounts && u in accounts[a])
            && (k in s.users ==> s.users[k] == accounts[a][u])
            && Put(s, k, r) == Store(accounts'.Keys, Flat(accounts'),
                                     (if k in s.users then s.index - {s.users[k].keyPrefix} else s.index)[
                                       r.keyPrefix := KeyEntry(a, u, r.role, r.keyHash)])
  {
    hide Flat;
    FlatPut(accounts, a, u, r);
    FlatAt(accounts, UserKey(a, u));
    assert accounts[a := (if a in accounts then accounts[a] else map[])[u := r]].Keys == accounts.Keys + {a};
  }

  function OwnPrefixes(own: map<string, UserRecord>): set<string> {
    set u | u in own :: own[u].keyPrefix
  }

  datatype Result = NewKey(key: string) | Done | Refused

  class APIKeyManager {
    const rootKey: string
    const hash: Hash
    var accounts: map<string, map<string, UserRecord>>
    var keyIndex: Index

    ghost function View(): Store
      reads this
    {
      Store(accounts.Keys, Flat(accounts), keyIndex)
    }

    constructor (rootKey: string, hash: Hash)
      ensures this.rootKey == rootKey && this.hash == hash && View() == Store({}, map[], map[])
    {
      this.rootKey := rootKey;
      this.hash := hash;
      accounts := map[];
      keyIndex := map[];
    }

    /** The root key is checked first; any other key is looked up by its prefix. */
    method Authenticate(rawKey: string) returns (entry: Option<KeyEntry>)
      ensures entry == if rawKey == "" then None else if rawKey == rootKey then Some(KeyEntry("", "", Root, ""))
                       else Lookup(View(), rawKey, hash)
    {
      if rawKey == "" {
        return None;
      }
      if rawKey == rootKey {
        return Some(KeyEntry("", "", Root, ""));
      }
      var prefix := KeyPrefix(rawKey);
      if prefix !in keyIndex {
        return None;
      }
      var found := keyIndex[prefix];
      if hash(rawKey) == found.keyHash {
        return Some(found);
      }
      return None;
    }

    method CreateAccount(accountId: string, adminUserId: string, key: string) returns (r: Result)
      modifies this
      ensures Step(old(View()), Op.CreateAccount(accountId, adminUserId, key), View(), hash)
      ensures r == if accountId in old(accounts) then Refused else NewKey(key)
    {
      hide Flat, Put;
      FlatPutStep(View(), accounts, accountId, adminUserId, UserRecord(adminUserId, Admin, hash(key), KeyPrefix(key)));
      if accountId in accounts {
        return Refused;
      }
      var record := UserRecord(adminUserId, Admin, hash(key), KeyPrefix(key));
      accounts := accounts[accountId := map[adminUserId := record]];
      keyIndex := keyIndex[KeyPrefix(key) := KeyEntry(accountId, adminUserId, Admin, hash(key))];
      return NewKey(key);
    }

    method RegisterUser(accountId: string, userId: string, role: string, key: string) returns (r: Result)
      modifies this
      ensures Step(old(View()), Op.RegisterUser(accountId, userId, role, key), View(), hash)
      ensures r == if accountId !in old(accounts) || userId in old(accounts)[accountId] then Refused else NewKey(key)
    {
      hide Flat, Put;
      FlatAt(accounts, UserKey(accountId, userId));
      if accountId !in accounts || userId in accounts[accountId] {
        return Refused;
      }
      var r' := User;
      if role == "admin" {
        r' := Admin;
      }
      var record := UserRecord(userId, r', hash(key), KeyPrefix(key));
      FlatPutStep(View(), accounts, accountId, userId, record);
      accounts := accounts[accountId := accounts[accountId][userId := record]];
      keyIndex := keyIndex[KeyPrefix(key) := KeyEntry(accountId, userId, r', hash(key))];
      return NewKey(key);
    }

    method DeleteUser(accountId: string, userId: string) returns (r: Result)
      modifies this
      ensures Step(old(View()), Op.DeleteUser(accountId, userId), View(), hash)
      ensures r == if accountId !in old(accounts) || userId !in old(accounts)[accountId] then Refused else Done
    {
      if accountId !in accounts || userId !in accounts[accountId] {
        return Refused;
      }
      FlatDropUser(accounts, accountId, userId);
      keyIndex := keyIndex - {accounts[accountId][userId].keyPrefix};
      accounts := accounts[accountId := accounts[accountId] - {userId}];
      assert accounts.Keys == old(accounts.Keys);
      return Done;
    }

    method DeleteAccount(accountId: string) returns (r: Result)
      modifies this
      ensures Step(old(View()), Op.DeleteAccount(accountId), View(), hash)
      ensures r == if accountId !in old(accounts) then Refused else Done
    {
      if accountId !in accounts {
        return Refused;
      }
      hide Flat, Members, Prefixes, OwnPrefixes;
      FlatDropAccount(accounts, accountId);
      UnindexAll(accounts[accountId]);
      accounts := accounts - {accountId};
      assert accounts.Keys == old(accounts.Keys) - {accountId};
      return Done;
    }

    method UnindexAll(users: map<string, UserRecord>)
      modifies this`keyIndex
      ensures keyIndex == old(keyIndex) - OwnPrefixes(users)
    {
      var rest := users.Keys;
      while rest != {}
        invariant rest <= users.Keys
        invariant keyIndex == old(keyIndex) - OwnPrefixes(users - rest)
        decreases |rest|
      {
        var u :| u in rest;
        assert users - (rest - {u}) == (users - rest)[u := users[u]];
        OwnPrefixAdded(users - rest, u, users[u]);
        rest := rest - {u};
        keyIndex := keyIndex - {users[u].keyPrefix};
      }
      assert users - rest == users;
    }

    method RegenerateKey(accountId: string, userId: string, key: string) returns (r: Result)
      modifies this
      ensures Step(old(View()), Op.RegenerateKey(accountId, userId, key), View(), hash)
      ensures r == if accountId !in old(accounts) || userId !in old(accounts)[accountId] then Refused else NewKey(key)
    {
      if accountId !in accounts || userId !in accounts[accountId] {
        return Refused;
      }
      hide Flat, Put;
      var user := accounts[accountId][userId];
      FlatPutStep(View(), accounts, accountId, userId, user.(keyHash := hash(key), keyPrefix := KeyPrefix(key)));
      keyIndex := keyIndex - {user.keyPrefix};
      var record := user.(keyHash := hash(key), keyPrefix := KeyPrefix(key));
      accounts := accounts[accountId := accounts[accountId][userId := record]];
      keyIndex := keyIndex[KeyPrefix(key) := KeyEntry(accountId, userId, user.role, hash(key))];
      return NewKey(key);
    }

    method SetUserRole(accountId: string, userId: string, role: string) returns (r: Result)
      modifies this
      ensures Step(old(View()), Op.SetUserRole(accountId, userId, role), View(), hash)
      ensures r == if accountId !in old(accounts) || userId !in old(accounts)[accountId] then Refused else Done
    {
      if accountId !in accounts || userId !in accounts[accountId] {
        return Refused;
      }
      var record := accounts[accountId][userId].(role := RoleNamed(role));
      FlatPut(accounts, accountId, userId, record);
      accounts := accounts[accountId := accounts[accountId][userId := record]];
      assert accounts.Keys == old(accounts.Keys);
      RebuildIndex();
      return Done;
    }

    /** The index computed afresh, in whatever order accounts and users come. */
    method RebuildIndex()
      modifies this`keyIndex
      ensures UniquePrefixes(View().users) && Named(View().users) ==> Indexes(View().users, keyIndex)
    {
      hide Flat, UniquePrefixes, Named, EntryRight;
      ghost var users := Flat(accounts);
      keyIndex := map[];
      var keys := set a, u | a in accounts && u in accounts[a] :: UserKey(a, u);
      FlatKeys(accounts, keys);
      while keys != {}
        invariant keys <= users.Keys
        invariant IndexesPart(users, keyIndex, keys)
        decreases |keys|
      {
        var k :| k in keys;
        keys := keys - {k};
        FlatAt(accounts, k);
        var u := accounts[k.account][k.user];
        OneMoreIndexed(users, keyIndex, keys, k);
        keyIndex := keyIndex[u.keyPrefix := KeyEntry(k.account, u.userId, u.role, u.keyHash)];
      }
    }
  }

  lemma FlatKeys(accounts: Accounts, keys: set<UserKey>)
    requires keys == set a, u | a in accounts && u in accounts[a] :: UserKey(a, u)
    ensures keys == Flat(accounts).Keys
  {
  }

  /** All users but those in `left` have been entered. */
  ghost predicate IndexesPart(users: Users, index: Index, left: set<UserKey>) {
    && (forall k :: k in users && k !in left ==> users[k].keyPrefix in index)
    && (UniquePrefixes(users) && Named(users) ==> forall p :: p in index ==> EntryRight(users, p, index[p]))
  }

  lemma OneMoreIndexed(users: Users, index: Index, left: set<UserKey>, k: UserKey)
    requires k in users && IndexesPart(users, index, left + {k})
    ensures IndexesPart(users, index[users[k].keyPrefix := EntryOf(k, users[k])], left)
  {
  }
}
