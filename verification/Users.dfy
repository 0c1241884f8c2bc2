/** Accounts (api/_lib/users.js): the app_user and user_identity tables as
    maps, and the resolution of a signed-in provider identity to a user,
    run as one transaction. The uniqueness constraints of the schema
    (api/_lib/db.js) are the directory's invariant. */
module Users {
  import opened Wrappers
  import opened Strings
  import opened Json

  /** A user as the API hands it out. */
  datatype User = User(id: string, email: string, displayName: Option<string>, avatarUrl: Option<string>)

  /** A row of app_user; null columns are None. */
  datatype UserRow = UserRow(id: string, email: string, displayName: Option<string>, avatarUrl: Option<string>)

  /** A row of user_identity: which user a provider account belongs to. */
  datatype IdentityRow = IdentityRow(id: string, userId: string, email: string)

  /** The profile an OAuth provider reports for the signed-in account. */
  datatype Profile = Profile(
    provider: string,
    providerUserId: string,
    email: string,
    displayName: Option<string>,
    avatarUrl: Option<string>)

  const EmailRequired := "A verified email is required for sign-in."
  /** The database errors a violated unique constraint raises. */
  const DuplicateUserId := "duplicate key value violates unique constraint \"app_user_pkey\""
  const DuplicateEmail := "duplicate key value violates unique constraint \"app_user_email_lower_idx\""
  const DuplicateIdentityId := "duplicate key value violates unique constraint \"user_identity_pkey\""

  /** normalizeEmail: trimmed and lower-cased; a value that is not a string
      becomes the empty text. */
  function NormalizeEmail(email: Option<string>): (r: string)
    ensures email.None? ==> r == ""
    ensures IsTrimmed(r) && Lower(r) == r
    ensures email.Some? ==> |r| <= |email.value|
    ensures email.Some? ==> (r == "" <==> AllWhitespace(email.value))
  {
    match email
    case None => ""
    case Some(e) =>
      LowerKeepsTrimmed(Trim(e));
      LowerIdempotent(Trim(e));
      Lower(Trim(e))
  }

  /** Normalising an already normalised email changes nothing. */
  lemma NormalizeEmailIdempotent(email: Option<string>)
    ensures NormalizeEmail(Some(NormalizeEmail(email))) == NormalizeEmail(email)
  {
    var r := NormalizeEmail(email);
    TrimOfTrimmed(r);
  }

  /** mapUserRow: empty names and avatars become null. */
  function MapUserRow(row: UserRow): (u: User)
    ensures u.id == row.id && u.email == row.email
    ensures u.displayName != Some("") && u.avatarUrl != Some("")
    ensures row.displayName != Some("") ==> u.displayName == row.displayName
    ensures row.avatarUrl != Some("") ==> u.avatarUrl == row.avatarUrl
  {
    User(row.id, row.email, NullIfEmpty(row.displayName), NullIfEmpty(row.avatarUrl))
  }

  /** Another user than `userId` already owns `email` up to case. */
  predicate EmailTakenByOther(users: map<string, UserRow>, userId: string, email: string) {
    exists id :: id in users && id != userId && Lower(users[id].email) == email
  }

  /** Some user owns `email` up to case. */
  predicate EmailOwned(users: map<string, UserRow>, email: string) {
    exists id :: id in users && Lower(users[id].email) == email
  }

  predicate IdentityIdTaken(identities: map<(string, string), IdentityRow>, id: string) {
    exists k :: k in identities && identities[k].id == id
  }

  /** When the resolution's transaction fails on a constraint: the linked
      user's new email belongs to another user, or a freshly drawn id
      collides with an existing one. */
  predicate ResolveConflict(users: map<string, UserRow>, identities: map<(string, string), IdentityRow>,
                            profile: Profile, userUuid: string, identityUuid: string)
  {
    var email := NormalizeEmail(Some(profile.email));
    var key := (profile.provider, profile.providerUserId);
    if key in identities then EmailTakenByOther(users, identities[key].userId, email)
    else
      (!EmailOwned(users, email) && "user_" + userUuid in users)
      || IdentityIdTaken(identities, "identity_" + identityUuid)
  }

  /** What resolving `profile` promises, relating the tables before (u0,
      i0) to the tables after (u1, i1): it fails exactly on an empty email
      or a constraint conflict, and then changes nothing; on success the
      returned user, and only that user, carries the profile's normalised
      email, name and avatar, and the provider account is linked to it — the
      user it was linked to before, else the user owning the email, else a
      new user. */
  ghost predicate ResolvedAs(u0: map<string, UserRow>, i0: map<(string, string), IdentityRow>,
                             u1: map<string, UserRow>, i1: map<(string, string), IdentityRow>,
                             profile: Profile, userUuid: string, identityUuid: string, r: Result<User, string>)
  {
    var email := NormalizeEmail(Some(profile.email));
    var key := (profile.provider, profile.providerUserId);
    (r.Err? <==> email == "" || ResolveConflict(u0, i0, profile, userUuid, identityUuid))
    && (r.Err? ==> u1 == u0 && i1 == i0)
    && (r.Ok? ==>
          u1 == u0[r.value.id := UserRow(r.value.id, email, NullIfEmpty(profile.displayName), NullIfEmpty(profile.avatarUrl))]
          && r.value == MapUserRow(u1[r.value.id])
          && key in i1 && i1[key].userId == r.value.id
          && (key in i0 ==> r.value.id == i0[key].userId && r.value.id in u0 && i1 == i0)
          && (key !in i0 ==> i1 == i0[key := IdentityRow("identity_" + identityUuid, r.value.id, email)])
          && (key !in i0 && EmailOwned(u0, email) ==> r.value.id in u0 && Lower(u0[r.value.id].email) == email)
          && (key !in i0 && !EmailOwned(u0, email) ==> r.value.id == "user_" + userUuid && r.value.id !in u0))
  }

  /** app_user's primary key: each row sits under its own id. */
  ghost predicate KeyedById(users: map<string, UserRow>) {
    forall id :: id in users ==> users[id].id == id
  }

  /** The unique index on LOWER(email). */
  ghost predicate EmailsUnique(users: map<string, UserRow>) {
    forall a, b :: a in users && b in users && a != b ==> Lower(users[a].email) != Lower(users[b].email)
  }

  /** user_identity.user_id references app_user. */
  ghost predicate IdentitiesLinked(users: map<string, UserRow>, identities: map<(string, string), IdentityRow>) {
    forall k :: k in identities ==> identities[k].userId in users
  }

  /** user_identity's primary key. */
  ghost predicate IdentityIdsUnique(identities: map<(string, string), IdentityRow>) {
    forall k1, k2 :: k1 in identities && k2 in identities && k1 != k2 ==> identities[k1].id != identities[k2].id
  }

  class UserDirectory {
    /** app_user, by id. */
    var users: map<string, UserRow>
    /** user_identity, by (provider, provider_user_id). */
    var identities: map<(string, string), IdentityRow>

    /** The schema's constraints: primary keys, the unique index on the
        lower-cased email, and identities pointing at existing users. */
    ghost predicate Valid()
      reads this
    {
      KeyedById(users) && EmailsUnique(users) && IdentitiesLinked(users, identities) && IdentityIdsUnique(identities)
    }

    constructor ()
      ensures Valid() && users == map[] && identities == map[]
    {
      users := map[];
      identities := map[];
    }

    /** getUserById: the user with that id, or null. */
    function GetUserById(userId: string): (r: Option<User>)
      reads this
      ensures r.Some? <==> userId in users
      ensures r.Some? ==> r.value == MapUserRow(users[userId])
    {
      if userId in users then Some(MapUserRow(users[userId])) else None
    }

    /** resolveUserFromIdentity, with the random parts of the new ids as
        parameters. A known identity keeps its user; otherwise the user
        owning the email is linked, or a new user is created, and the
        identity is recorded. The user's email, name and avatar are then
        refreshed from the profile. Any failure rolls every change back. */
    method ResolveUserFromIdentity(profile: Profile, userUuid: string, identityUuid: string)
      returns (r: Result<User, string>)
      requires Valid()
      modifies this
      ensures Valid()
      ensures ResolvedAs(old(users), old(identities), users, identities, profile, userUuid, identityUuid, r)
    {
      var normalizedEmail := NormalizeEmail(Some(profile.email));
      if normalizedEmail == "" {
        return Err(EmailRequired);
      }
      var key := (profile.provider, profile.providerUserId);
      var displayName := NullIfEmpty(profile.displayName);
      var avatarUrl := NullIfEmpty(profile.avatarUrl);
      if key in identities {
        r := UpdateUser(identities[key].userId, normalizedEmail, displayName, avatarUrl);
      } else {
        r := LinkNewIdentity(key, normalizedEmail, displayName, avatarUrl, "user_" + userUuid, "identity_" + identityUuid);
      }
    }

    /** The transaction for a provider account not linked yet: link the user
        who owns the email, or create one, record the identity, and refresh
        the user. A failing step rolls back the steps before it. */
    method LinkNewIdentity(key: (string, string), email: string, displayName: Option<string>, avatarUrl: Option<string>,
                           newUserId: string, identityId: string)
      returns (r: Result<User, string>)
      requires Valid() && key !in identities && Lower(email) == email
      modifies this
      ensures Valid()
      ensures r.Err? ==> users == old(users) && identities == old(identities)
      ensures r.Err? <==> (!EmailOwned(old(users), email) && newUserId in old(users))
                          || IdentityIdTaken(old(identities), identityId)
      ensures r.Ok? ==> identities == old(identities)[key := IdentityRow(identityId, r.value.id, email)]
      ensures r.Ok? ==> users == old(users)[r.value.id := UserRow(r.value.id, email, displayName, avatarUrl)]
                        && r.value == MapUserRow(users[r.value.id])
      ensures r.Ok? && EmailOwned(old(users), email) ==>
        r.value.id in old(users) && Lower(old(users)[r.value.id].email) == email
      ensures r.Ok? && !EmailOwned(old(users), email) ==> r.value.id == newUserId && newUserId !in old(users)
    {
      if exists id :: id in users && Lower(users[id].email) == email {
        var userId :| userId in users && Lower(users[userId].email) == email;
        r := LinkAndUpdate(key, userId, email, displayName, avatarUrl, identityId);
      } else {
        r := CreateAndLink(key, newUserId, email, displayName, avatarUrl, identityId);
      }
    }

    /** No user owns the email: insert a new user, then link and refresh it;
        a failed link rolls the insert back. */
    method CreateAndLink(key: (string, string), newUserId: string, email: string,
                         displayName: Option<string>, avatarUrl: Option<string>, identityId: string)
      returns (r: Result<User, string>)
      requires Valid() && key !in identities && Lower(email) == email && !EmailOwned(users, email)
      modifies this
      ensures Valid()
      ensures r.Err? <==> newUserId in old(users) || IdentityIdTaken(old(identities), identityId)
      ensures r.Err? ==> users == old(users) && identities == old(identities)
      ensures r.Ok? ==> r.value.id == newUserId
                        && identities == old(identities)[key := IdentityRow(identityId, newUserId, email)]
                        && users == old(users)[newUserId := UserRow(newUserId, email, displayName, avatarUrl)]
                        && r.value == MapUserRow(users[newUserId])
    {
      var usersBefore := users;
      var inserted := InsertUser(newUserId, email, displayName, avatarUrl);
      if inserted.Err? {
        return Err(inserted.error);
      }
      assert users[newUserId].email == email;
      r := LinkAndUpdate(key, newUserId, email, displayName, avatarUrl, identityId);
      if r.Err? {
        RestoreUsers(usersBefore);
      }
    }

    /** The rollback of an insert: app_user goes back to its earlier rows. */
    method RestoreUsers(before: map<string, UserRow>)
      requires KeyedById(before) && EmailsUnique(before)
      requires IdentitiesLinked(before, identities) && IdentityIdsUnique(identities)
      modifies this
      ensures Valid() && users == before && identities == old(identities)
    {
      users := before;
    }

    /** Records the identity for the user owning `email`, then refreshes that
        user; only the identity insert can fail. */
    method LinkAndUpdate(key: (string, string), userId: string, email: string,
                         displayName: Option<string>, avatarUrl: Option<string>, identityId: string)
      returns (r: Result<User, string>)
      requires Valid() && key !in identities && userId in users
      requires Lower(email) == email && Lower(users[userId].email) == email
      modifies this
      ensures Valid()
      ensures r.Err? <==> IdentityIdTaken(old(identities), identityId)
      ensures r.Err? ==> users == old(users) && identities == old(identities)
      ensures r.Ok? ==> r.value.id == userId
                        && identities == old(identities)[key := IdentityRow(identityId, userId, email)]
                        && users == old(users)[userId := UserRow(userId, email, displayName, avatarUrl)]
                        && r.value == MapUserRow(users[userId])
    {
      var linked := InsertIdentity(key, identityId, userId, email);
      if linked.Err? {
        return Err(linked.error);
      }
      assert !EmailTakenByOther(users, userId, email);
      r := UpdateUser(userId, email, displayName, avatarUrl);
    }

    /** INSERT INTO app_user: fails on an id that is already taken. */
    method InsertUser(userId: string, email: string, displayName: Option<string>, avatarUrl: Option<string>)
      returns (r: Result<(), string>)
      requires Valid() && Lower(email) == email && !EmailOwned(users, email)
      modifies this
      ensures Valid() && identities == old(identities)
      ensures r.Err? <==> userId in old(users)
      ensures r.Err? ==> r.error == DuplicateUserId && users == old(users)
      ensures r.Ok? ==> users == old(users)[userId := UserRow(userId, email, displayName, avatarUrl)]
    {
      if userId in users {
        return Err(DuplicateUserId);
      }
      users := users[userId := UserRow(userId, email, displayName, avatarUrl)];
      return Ok(());
    }

    /** INSERT INTO user_identity for a provider account not yet linked:
        fails on an identity id that is already taken. */
    method InsertIdentity(key: (string, string), identityId: string, userId: string, email: string)
      returns (r: Result<(), string>)
      requires Valid() && userId in users && key !in identities
      modifies this
      ensures Valid() && users == old(users)
      ensures r.Err? <==> IdentityIdTaken(old(identities), identityId)
      ensures r.Err? ==> r.error == DuplicateIdentityId && identities == old(identities)
      ensures r.Ok? ==> identities == old(identities)[key := IdentityRow(identityId, userId, email)]
    {
      if exists k :: k in identities && identities[k].id == identityId {
        return Err(DuplicateIdentityId);
      }
      identities := identities[key := IdentityRow(identityId, userId, email)];
      return Ok(());
    }

    /** UPDATE app_user ... RETURNING: the user's email, name and avatar
        take the new values, unless another user owns the email. */
    method UpdateUser(userId: string, email: string, displayName: Option<string>, avatarUrl: Option<string>)
      returns (r: Result<User, string>)
      requires Valid() && userId in users && Lower(email) == email
      modifies this
      ensures Valid() && identities == old(identities)
      ensures r.Err? <==> EmailTakenByOther(old(users), userId, email)
      ensures r.Err? ==> r.error == DuplicateEmail && users == old(users)
      ensures r.Ok? ==> users == old(users)[userId := UserRow(userId, email, displayName, avatarUrl)]
                        && r.value == MapUserRow(users[userId])
    {
      if exists id :: id in users && id != userId && Lower(users[id].email) == email {
        return Err(DuplicateEmail);
      }
      users := users[userId := UserRow(userId, email, displayName, avatarUrl)];
      return Ok(MapUserRow(users[userId]));
    }
  }
}
