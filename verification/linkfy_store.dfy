/** The profile table of routes/linkfy/posgres.go, held in memory as a
    sequence of rows in insertion order. The table's unique constraints
    (on `id` and on `username`) are the class invariant; a statement that
    would break one fails with 409 and changes nothing, as the unique
    violation does in the source. The row id and timestamps the database
    fills in are parameters of `CreateLinkfy`. */
module LinkfyStore {
  import opened Http
  import opened UuidText

  datatype Linkfy = Linkfy(
    id: Uuid,
    userId: string,
    username: string,
    avatarUrl: Option<string>,
    name: string,
    bio: Option<string>,
    createdAt: int,
    updatedAt: int)

  datatype LinkfyCreated = LinkfyCreated(
    userId: string, username: string, avatarUrl: Option<string>, name: string, bio: Option<string>)

  datatype LinkfyUpdated = LinkfyUpdated(
    id: Uuid, userId: string, username: string, avatarUrl: Option<string>, name: string, bio: Option<string>)

  const UsernameExists := CustomError(StatusConflict, "Username already exists")
  const ProfileNotFound := CustomError(StatusNotFound, "Linkfy profile not found")
  const ProfileNotFoundOrUnauthorized := CustomError(StatusNotFound, "Linkfy profile not found or unauthorized")

  /** The position of some row satisfying `p` (a `WHERE` clause), if any. */
  function Find(rows: seq<Linkfy>, p: Linkfy -> bool): (k: Option<nat>)
    ensures k.Some? ==> k.value < |rows| && p(rows[k.value])
    ensures k.None? ==> forall i :: 0 <= i < |rows| ==> !p(rows[i])
  {
    if |rows| == 0 then None
    else if p(rows[0]) then Some(0)
    else match Find(rows[1..], p)
      case None => None
      case Some(k) => Some(k + 1)
  }

  /** `SELECT COUNT(*) ... WHERE username = $1`. */
  function CountUsername(rows: seq<Linkfy>, username: string): (n: nat)
    ensures n > 0 <==> exists i :: 0 <= i < |rows| && rows[i].username == username
    ensures n <= |rows|
  {
    if |rows| == 0 then 0
    else (if rows[0].username == username then 1 else 0) + CountUsername(rows[1..], username)
  }

  /** The rows of one user, in table order. */
  function OwnedBy(rows: seq<Linkfy>, userId: string): seq<Linkfy> {
    if |rows| == 0 then []
    else OwnedBy(rows[..|rows| - 1], userId) + (if rows[|rows| - 1].userId == userId then [rows[|rows| - 1]] else [])
  }

  /** `ORDER BY created_at DESC`: newer rows first; rows with equal
      timestamps may come in any order. */
  ghost predicate NewestFirst(s: seq<Linkfy>) {
    forall i, j :: 0 <= i < j < |s| ==> s[i].createdAt >= s[j].createdAt
  }

  /** Puts `p` into a newest-first sequence, keeping it newest-first. */
  function InsertNewestFirst(p: Linkfy, s: seq<Linkfy>): (r: seq<Linkfy>)
    requires NewestFirst(s)
    ensures NewestFirst(r)
    ensures multiset(r) == multiset(s) + multiset{p}
    ensures forall x :: x in r ==> x == p || x in s
  {
    if s == [] then [p]
    else if s[0].createdAt <= p.createdAt then
      NewestFirstCons(p, s);
      [p] + s
    else
      var rest := InsertNewestFirst(p, s[1..]);
      InsertBehindHead(p, s, rest);
      [s[0]] + rest
  }

  /** The step where `p` goes behind the head of `s`: putting the head in
      front of the insertion into the tail gives the insertion into `s`. */
  lemma InsertBehindHead(p: Linkfy, s: seq<Linkfy>, rest: seq<Linkfy>)
    requires |s| > 0 && NewestFirst(s) && p.createdAt < s[0].createdAt
    requires NewestFirst(rest) && multiset(rest) == multiset(s[1..]) + multiset{p}
    requires forall x :: x in rest ==> x == p || x in s[1..]
    ensures NewestFirst([s[0]] + rest)
    ensures multiset([s[0]] + rest) == multiset(s) + multiset{p}
    ensures forall x :: x in [s[0]] + rest ==> x == p || x in s
  {
    assert s == [s[0]] + s[1..];
    forall y | y in rest ensures y.createdAt <= s[0].createdAt {
      if y != p {
        var j :| 0 <= j < |s[1..]| && s[1..][j] == y;
        assert s[j + 1] == y;
      }
    }
    NewestFirstCons(s[0], rest);
  }

  lemma NewestFirstCons(x: Linkfy, t: seq<Linkfy>)
    requires NewestFirst(t)
    requires forall y :: y in t ==> y.createdAt <= x.createdAt
    ensures NewestFirst([x] + t)
  {
  }

  /** No two rows share an `id` or a `username`. */
  ghost predicate UniqueKeys(rows: seq<Linkfy>) {
    forall i, j :: 0 <= i < j < |rows| ==> rows[i].id != rows[j].id && rows[i].username != rows[j].username
  }

  /** Removing the row at `k` keeps the keys unique and removes exactly the
      rows with that row's id. */
  lemma RemoveKeyed(rows: seq<Linkfy>, k: nat)
    requires UniqueKeys(rows) && k < |rows|
    ensures UniqueKeys(rows[..k] + rows[k + 1..])
    ensures forall r :: r in rows[..k] + rows[k + 1..] <==> r in rows && r.id != rows[k].id
  {
  }

  /** Every id is a UUID in its canonical spelling, as the `uuid` column
      returns it. */
  ghost predicate CanonicalIds(rows: seq<Linkfy>) {
    forall r :: r in rows ==> ParseUuid(r.id) == Some(r.id)
  }

  /** Some row other than the one with `id` already uses `username`. */
  ghost predicate UsernameTakenByOther(rows: seq<Linkfy>, id: Uuid, username: string) {
    exists j :: 0 <= j < |rows| && rows[j].username == username && rows[j].id != id
  }

  /** The columns an update sets; `id`, `user_id` and the timestamps stay. */
  function Edited(row: Linkfy, u: LinkfyUpdated): Linkfy {
    row.(username := u.username, avatarUrl := u.avatarUrl, name := u.name, bio := u.bio)
  }

  class LinkfyPostgres {
    var rows: seq<Linkfy>

    /** `id` is the primary key and a UUID; `username` is unique. */
    ghost predicate Valid()
      reads this
    {
      UniqueKeys(rows) && CanonicalIds(rows)
    }

    constructor ()
      ensures Valid() && rows == []
    {
      rows := [];
    }

    /** `newId` is the UUID the database generates for the row. */
    method CreateLinkfy(p: LinkfyCreated, newId: Uuid, now: int) returns (err: Option<CustomError>)
      requires Valid()
      requires ParseUuid(newId) == Some(newId)
      modifies this
      ensures Valid()
      ensures (exists i :: 0 <= i < |old(rows)| && (old(rows)[i].username == p.username || old(rows)[i].id == newId)) ==>
        err == Some(UsernameExists) && rows == old(rows)
      ensures (forall i :: 0 <= i < |old(rows)| ==> old(rows)[i].username != p.username && old(rows)[i].id != newId) ==>
        err == None && rows == old(rows) + [Linkfy(newId, p.userId, p.username, p.avatarUrl, p.name, p.bio, now, now)]
    {
      var clash := Find(rows, (r: Linkfy) => r.username == p.username || r.id == newId);
      if clash.Some? {
        return Some(UsernameExists);
      }
      rows := rows + [Linkfy(newId, p.userId, p.username, p.avatarUrl, p.name, p.bio, now, now)];
      err := None;
    }

    /** The row with that id, or 404 when there is none. */
    function GetLinkfyByID(id: Uuid): (r: Result<Linkfy>)
      reads this
      ensures r.Ok? ==> r.value in rows && r.value.id == id
      ensures r.Err? ==> r.error == ProfileNotFound && forall i :: 0 <= i < |rows| ==> rows[i].id != id
    {
      match Find(rows, (r: Linkfy) => r.id == id)
      case Some(k) => Ok(rows[k])
      case None => Err(ProfileNotFound)
    }

    /** The row with that username, or 404 when there is none. */
    function GetLinkfyByUsername(username: string): (r: Result<Linkfy>)
      reads this
      ensures r.Ok? ==> r.value in rows && r.value.username == username
      ensures r.Err? ==> r.error == ProfileNotFound && forall i :: 0 <= i < |rows| ==> rows[i].username != username
    {
      match Find(rows, (r: Linkfy) => r.username == username)
      case Some(k) => Ok(rows[k])
      case None => Err(ProfileNotFound)
    }

    /** Exactly the user's rows, newest first. */
    method GetAllLinkfyByUserID(userId: string) returns (profiles: seq<Linkfy>)
      ensures multiset(profiles) == multiset(OwnedBy(rows, userId))
      ensures forall p :: p in profiles <==> p in rows && p.userId == userId
      ensures NewestFirst(profiles)
    {
      profiles := [];
      var i := 0;
      while i < |rows|
        invariant 0 <= i <= |rows|
        invariant multiset(profiles) == multiset(OwnedBy(rows[..i], userId))
        invariant NewestFirst(profiles)
      {
        assert rows[..i + 1][..i] == rows[..i];
        if rows[i].userId == userId {
          profiles := InsertNewestFirst(rows[i], profiles);
        }
        i := i + 1;
      }
      assert rows[..|rows|] == rows;
      OwnedByMembers(rows, userId);
      forall p ensures p in profiles <==> p in OwnedBy(rows, userId) {
        assert p in profiles <==> p in multiset(profiles);
        assert p in OwnedBy(rows, userId) <==> p in multiset(OwnedBy(rows, userId));
      }
    }

    /** The update matches on `id` alone: the caller's user id plays no
        part. 404 when no row has the id, 409 when another row has the
        username; otherwise only the edited columns of that row change. */
    method UpdateLinkfy(u: LinkfyUpdated) returns (err: Option<CustomError>)
      requires Valid()
      modifies this
      ensures Valid()
      ensures (forall i :: 0 <= i < |old(rows)| ==> old(rows)[i].id != u.id) ==>
        err == Some(ProfileNotFound) && rows == old(rows)
      ensures (exists i :: 0 <= i < |old(rows)| && old(rows)[i].id == u.id) && UsernameTakenByOther(old(rows), u.id, u.username) ==>
        err == Some(UsernameExists) && rows == old(rows)
      ensures (exists i :: 0 <= i < |old(rows)| && old(rows)[i].id == u.id) && !UsernameTakenByOther(old(rows), u.id, u.username) ==>
        && err == None
        && |rows| == |old(rows)|
        && forall k :: 0 <= k < |rows| ==> rows[k] == if old(rows)[k].id == u.id then Edited(old(rows)[k], u) else old(rows)[k]
    {
      var target := Find(rows, (r: Linkfy) => r.id == u.id);
      if target.None? {
        return Some(ProfileNotFound);
      }
      var k := target.value;
      var clash := Find(rows, (r: Linkfy) => r.username == u.username && r.id != u.id);
      if clash.Some? {
        return Some(UsernameExists);
      }
      rows := rows[k := Edited(rows[k], u)];
      err := None;
    }

    /** Succeeds only when the row has both that id and that owner; removes
        exactly that row. Otherwise 404 and nothing is removed. */
    method DeleteLinkfy(id: Uuid, userId: string) returns (err: Option<CustomError>)
      requires Valid()
      modifies this
      ensures Valid()
      ensures (forall i :: 0 <= i < |old(rows)| ==> !(old(rows)[i].id == id && old(rows)[i].userId == userId)) ==>
        err == Some(ProfileNotFoundOrUnauthorized) && rows == old(rows)
      ensures (exists i :: 0 <= i < |old(rows)| && old(rows)[i].id == id && old(rows)[i].userId == userId) ==>
        && err == None
        && |rows| == |old(rows)| - 1
        && forall r :: r in rows <==> r in old(rows) && r.id != id
    {
      var target := Find(rows, (r: Linkfy) => r.id == id && r.userId == userId);
      if target.None? {
        return Some(ProfileNotFoundOrUnauthorized);
      }
      var k := target.value;
      RemoveKeyed(rows, k);
      rows := rows[..k] + rows[k + 1..];
      err := None;
    }

    /** Runs the existence query and discards its answer: only a query
        failure could make it return an error. */
    method CheckUsernameExists(username: string) returns (err: Option<CustomError>)
      ensures err == None
    {
      // The query runs, but its answer is never looked at.
      var found := CountUsername(rows, username) > 0;
      err := None;
    }

    /** 409 exactly when some row already has the username. */
    function CheckUsernameNotExists(username: string): (r: Option<CustomError>)
      reads this
      ensures r.Some? <==> exists i :: 0 <= i < |rows| && rows[i].username == username
      ensures r.Some? ==> r.value == UsernameExists
    {
      if CountUsername(rows, username) > 0 then Some(UsernameExists) else None
    }
  }

  /** The members of `OwnedBy(rows, userId)` are the user's rows. */
  lemma {:induction false} OwnedByMembers(rows: seq<Linkfy>, userId: string)
    ensures forall p :: p in OwnedBy(rows, userId) <==> p in rows && p.userId == userId
  {
    if |rows| > 0 {
      var init := rows[..|rows| - 1];
      OwnedByMembers(init, userId);
      assert rows == init + [rows[|rows| - 1]];
    }
  }
}
