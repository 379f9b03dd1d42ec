/** The administrator's user listing: every account joined with the
    biography stored for it, with defaults where a value is missing. */
module AdminUsers {
  import opened Wrappers

  /** The signed-in user as the session reports it. */
  datatype SessionUser = SessionUser(id: Option<string>, role: Option<string>)

  /** An account as stored; `id` is its identifier in text form. Older
      accounts may lack a role. */
  datatype StoredUser = StoredUser(
    id: string,
    name: string,
    email: string,
    password: string,
    role: Option<string>,
    createdAt: string,
    updatedAt: string)

  /** The parts of a stored biography the listing reads. `title` is missing
      when the record has no customization or no title in it. */
  datatype StoredBiography = StoredBiography(
    userId: string,
    updatedAt: Option<string>,
    title: Option<string>,
    isPublic: Option<bool>)

  /** One row of the listing; `None` is sent as `null`. */
  datatype UserEntry = UserEntry(
    id: string,
    name: string,
    email: string,
    role: string,
    createdAt: string,
    updatedAt: string,
    lastActivity: Option<string>,
    autobiographyTitle: Option<string>,
    isPublic: bool)

  datatype AdminResponse = Forbidden | Listing(users: seq<UserEntry>)

  /** Only a session with a user id and the `admin` role may list users. */
  predicate IsAdmin(session: Option<SessionUser>) {
    session.Some? && Truthy(session.value.id) && session.value.role == Some("admin")
  }

  /** The biography stored last for `userId` among `bios`. */
  predicate LastFor(bios: seq<StoredBiography>, userId: string, i: int) {
    0 <= i < |bios| && bios[i].userId == userId
    && forall j :: i < j < |bios| ==> bios[j].userId != userId
  }

  /** The lookup table built by visiting the biographies in order and
      storing each under its owner's id, so a later one replaces an
      earlier one. */
  function BiographyMap(bios: seq<StoredBiography>): (m: map<string, StoredBiography>)
    ensures bios != [] ==> bios[|bios| - 1].userId in m
    decreases |bios|
  {
    if bios == [] then map[]
    else
      var last := bios[|bios| - 1];
      BiographyMap(bios[..|bios| - 1])[last.userId := last]
  }

  /** An owner has an entry in the table exactly when some biography names
      them. */
  lemma {:induction false} BiographyMapOwners(bios: seq<StoredBiography>, k: string)
    ensures k in BiographyMap(bios) <==> exists i :: 0 <= i < |bios| && bios[i].userId == k
    decreases |bios|
  {
    if bios != [] {
      var init := bios[..|bios| - 1];
      BiographyMapOwners(init, k);
      if exists i :: 0 <= i < |init| && init[i].userId == k {
        var i :| 0 <= i < |init| && init[i].userId == k;
        assert bios[i].userId == k;
      }
      if exists i :: 0 <= i < |bios| && bios[i].userId == k {
        var i :| 0 <= i < |bios| && bios[i].userId == k;
        if i < |init| {
          assert init[i].userId == k;
        }
      }
    }
  }

  /** The entry for an owner is the last biography that names them. */
  lemma {:induction false} BiographyMapLastWins(bios: seq<StoredBiography>, k: string)
    requires k in BiographyMap(bios)
    ensures exists i :: LastFor(bios, k, i) && BiographyMap(bios)[k] == bios[i]
    decreases |bios|
  {
    var init := bios[..|bios| - 1];
    var last := bios[|bios| - 1];
    if last.userId == k {
      assert LastFor(bios, k, |bios| - 1);
    } else {
      assert k in BiographyMap(init);
      BiographyMapLastWins(init, k);
      var i :| LastFor(init, k, i) && BiographyMap(init)[k] == init[i];
      assert init[i] == bios[i];
      assert LastFor(bios, k, i);
    }
  }

  /** The row for one account, reading its biography if there is one. */
  function Entry(user: StoredUser, bio: Option<StoredBiography>): (e: UserEntry)
    ensures e.id == user.id && e.name == user.name && e.email == user.email
    ensures e.createdAt == user.createdAt && e.updatedAt == user.updatedAt
    ensures e.role == user.role.GetOr("user")
    ensures bio.None? ==> e.lastActivity.None? && e.autobiographyTitle.None? && !e.isPublic
    ensures bio.Some? ==>
              && e.lastActivity == bio.value.updatedAt
              && e.autobiographyTitle == bio.value.title
              && e.isPublic == bio.value.isPublic.GetOr(false)
  {
    UserEntry(
      user.id, user.name, user.email, user.role.GetOr("user"),
      user.createdAt, user.updatedAt,
      if bio.Some? then bio.value.updatedAt else None,
      if bio.Some? then bio.value.title else None,
      if bio.Some? then bio.value.isPublic.GetOr(false) else false)
  }

  function Lookup(m: map<string, StoredBiography>, k: string): Option<StoredBiography> {
    if k in m then Some(m[k]) else None
  }

  /** `GET /api/admin/users`: refused unless the caller is an administrator;
      otherwise one row per account, in the accounts' order, each joined
      with the last biography stored for that account. */
  function ListUsers(session: Option<SessionUser>, users: seq<StoredUser>,
                     bios: seq<StoredBiography>): (r: AdminResponse)
    ensures r.Forbidden? <==> !IsAdmin(session)
    ensures r.Listing? ==> |r.users| == |users|
    ensures r.Listing? ==> forall i :: 0 <= i < |users| ==> r.users[i].id == users[i].id
  {
    if !IsAdmin(session) then Forbidden
    else
      var m := BiographyMap(bios);
      Listing(seq(|users|, i requires 0 <= i < |users| => Entry(users[i], Lookup(m, users[i].id))))
  }

  /** Each row is the account joined with the last biography stored for
      it, or with none when no biography names it. */
  lemma ListingJoin(session: Option<SessionUser>, users: seq<StoredUser>,
                    bios: seq<StoredBiography>, i: int)
    requires IsAdmin(session) && 0 <= i < |users|
    ensures var row := ListUsers(session, users, bios).users[i];
            && (forall j :: LastFor(bios, users[i].id, j) ==> row == Entry(users[i], Some(bios[j])))
            && ((forall j :: 0 <= j < |bios| ==> bios[j].userId != users[i].id) ==>
                  row == Entry(users[i], None))
  {
    BiographyMapOwners(bios, users[i].id);
    if users[i].id in BiographyMap(bios) {
      BiographyMapLastWins(bios, users[i].id);
    }
    forall j | LastFor(bios, users[i].id, j)
      ensures ListUsers(session, users, bios).users[i] == Entry(users[i], Some(bios[j]))
    {
      var k :| LastFor(bios, users[i].id, k) && BiographyMap(bios)[users[i].id] == bios[k];
      LastForUnique(bios, users[i].id, j, k);
    }
  }

  /** Only one biography can be the last for an owner. */
  lemma LastForUnique(bios: seq<StoredBiography>, userId: string, i: int, j: int)
    requires LastFor(bios, userId, i) && LastFor(bios, userId, j)
    ensures i == j
  {
  }

  /** Passwords never reach the listing: two user collections that differ
      only in their password hashes list identically. */
  lemma ListingIgnoresPasswords(session: Option<SessionUser>, users: seq<StoredUser>,
                                others: seq<StoredUser>, bios: seq<StoredBiography>)
    requires |others| == |users|
    requires forall i :: 0 <= i < |users| ==> others[i] == users[i].(password := others[i].password)
    ensures ListUsers(session, users, bios) == ListUsers(session, others, bios)
  {
    if IsAdmin(session) {
      var a := ListUsers(session, users, bios).users;
      var b := ListUsers(session, others, bios).users;
      forall i | 0 <= i < |users| ensures a[i] == b[i] {
        assert others[i].id == users[i].id;
      }
    }
  }
}
