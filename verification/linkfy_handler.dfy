/** The profile endpoints of routes/linkfy/handler.go: guards in a fixed
    order (claims, path id, request body, username rule), default avatar
    and bio, then one call on the profile table whose error is forwarded
    with its own status. */
module LinkfyHandlers {
  import opened Http
  import opened UuidText
  import opened LinkfyService
  import opened LinkfyStore

  const DefaultAvatar := "https://github.com/shadcn.png"
  const DefaultBio := "No bio provided"

  const NotAuthenticatedMsg := "User tidak terautentikasi"
  const InvalidIdMsg := "Invalid ID format"
  const InvalidRequestPrefix := "Invalid request: "
  const CreatedMsg := "Linkfy profile created successfully"
  const RetrievedMsg := "Linkfy profile retrieved successfully"
  const ListedMsg := "Linkfy profiles retrieved successfully"
  const UpdatedMsg := "Linkfy profile updated successfully"
  const AvailableMsg := "Username is available"
  const DeletedMsg := "Linkfy profile deleted successfully"

  /** `avatarUrl` and `bio` are optional in the JSON body. */
  datatype CreateLinkfyRequest = CreateLinkfyRequest(
    username: string, name: string, avatarUrl: Option<string>, bio: Option<string>)

  datatype UpdateLinkfyRequest = UpdateLinkfyRequest(
    username: string, name: string, avatarUrl: Option<string>, bio: Option<string>)

  datatype CheckUsernameRequest = CheckUsernameRequest(username: string)

  class LinkfyHandler {
    const repository: LinkfyPostgres

    constructor (repository: LinkfyPostgres)
      ensures this.repository == repository
    {
      this.repository := repository;
    }

    /** The owner comes from the token claims, never from the body; a
        missing avatar or bio gets its default, a supplied one is kept. */
    method CreateLinkfy(claims: Option<UserClaims>, body: Bound<CreateLinkfyRequest>, newId: Uuid, now: int)
      returns (resp: Response<()>)
      requires repository.Valid()
      requires ParseUuid(newId) == Some(newId)
      modifies repository
      ensures repository.Valid()
      ensures !Authenticated(claims) ==>
        resp == Message(StatusUnauthorized, NotAuthenticatedMsg) && repository.rows == old(repository.rows)
      ensures Authenticated(claims) && body.BindError? ==>
        resp == Message(StatusBadRequest, InvalidRequestPrefix + body.reason) && repository.rows == old(repository.rows)
      ensures Authenticated(claims) && body.Bound? && UsernameSanitize(body.value.username).Some? ==>
        resp == Forward(UsernameSanitize(body.value.username).value) && repository.rows == old(repository.rows)
      ensures Authenticated(claims) && body.Bound? && UsernameSanitize(body.value.username).None? ==>
        var req := body.value;
        if exists i :: 0 <= i < |old(repository.rows)| &&
             (old(repository.rows)[i].username == req.username || old(repository.rows)[i].id == newId) then
          resp == Forward(UsernameExists) && repository.rows == old(repository.rows)
        else
          && resp == Message(StatusCreated, CreatedMsg)
          && repository.rows == old(repository.rows) + [Linkfy(newId, claims.value.userId, req.username,
               Some(req.avatarUrl.GetOr(DefaultAvatar)), req.name, Some(req.bio.GetOr(DefaultBio)), now, now)]
    {
      if claims.None? || claims.value.userId == "" {
        return Message(StatusUnauthorized, NotAuthenticatedMsg);
      }
      if body.BindError? {
        return Message(StatusBadRequest, InvalidRequestPrefix + body.reason);
      }
      var req := body.value;
      var sanitizeErr := UsernameSanitize(req.username);
      if sanitizeErr.Some? {
        return Forward(sanitizeErr.value);
      }
      var avatar := req.avatarUrl;
      if avatar.None? {
        avatar := Some(DefaultAvatar);
      }
      var bio := req.bio;
      if bio.None? {
        bio := Some(DefaultBio);
      }
      var created := LinkfyCreated(claims.value.userId, req.username, avatar, req.name, bio);
      var createErr := repository.CreateLinkfy(created, newId, now);
      if createErr.Some? {
        return Forward(createErr.value);
      }
      resp := Message(StatusCreated, CreatedMsg);
    }

    /** No authentication; a malformed id is refused before the lookup. */
    method GetLinkfyByID(idParam: string) returns (resp: Response<Linkfy>)
      ensures ParseUuid(idParam).None? ==> resp == Message(StatusBadRequest, InvalidIdMsg)
      ensures ParseUuid(idParam).Some? && (forall i :: 0 <= i < |repository.rows| ==> repository.rows[i].id != ParseUuid(idParam).value) ==>
        resp == Forward(ProfileNotFound)
      ensures resp.Data? ==>
        && ParseUuid(idParam).Some?
        && resp == Data(StatusOK, RetrievedMsg, resp.data)
        && resp.data in repository.rows && resp.data.id == ParseUuid(idParam).value
      ensures ParseUuid(idParam).Some? && (exists i :: 0 <= i < |repository.rows| && repository.rows[i].id == ParseUuid(idParam).value) ==>
        resp.Data?
    {
      var id := ParseUuid(idParam);
      if id.None? {
        return Message(StatusBadRequest, InvalidIdMsg);
      }
      var found := repository.GetLinkfyByID(id.value);
      if found.Err? {
        return Forward(found.error);
      }
      resp := Data(StatusOK, RetrievedMsg, found.value);
    }

    /** Public lookup by username. */
    method GetLinkfyByUsername(username: string) returns (resp: Response<Linkfy>)
      ensures (forall i :: 0 <= i < |repository.rows| ==> repository.rows[i].username != username) ==>
        resp == Forward(ProfileNotFound)
      ensures (exists i :: 0 <= i < |repository.rows| && repository.rows[i].username == username) ==>
        && resp.Data?
        && resp == Data(StatusOK, RetrievedMsg, resp.data)
        && resp.data in repository.rows && resp.data.username == username
    {
      var found := repository.GetLinkfyByUsername(username);
      if found.Err? {
        return Forward(found.error);
      }
      resp := Data(StatusOK, RetrievedMsg, found.value);
    }

    /** The caller's own profiles, newest first. */
    method GetAllLinkfy(claims: Option<UserClaims>) returns (resp: Response<seq<Linkfy>>)
      ensures !Authenticated(claims) ==> resp == Message(StatusUnauthorized, NotAuthenticatedMsg)
      ensures Authenticated(claims) ==>
        && resp.Data? && resp.status == StatusOK && resp.message == ListedMsg
        && (forall p :: p in resp.data <==> p in repository.rows && p.userId == claims.value.userId)
        && multiset(resp.data) == multiset(OwnedBy(repository.rows, claims.value.userId))
        && NewestFirst(resp.data)
    {
      if claims.None? || claims.value.userId == "" {
        return Message(StatusUnauthorized, NotAuthenticatedMsg);
      }
      var profiles := repository.GetAllLinkfyByUserID(claims.value.userId);
      resp := Data(StatusOK, ListedMsg, profiles);
    }

    /** The claims' user id is passed on, but the table matches on the
        profile id alone. */
    method UpdateLinkfy(claims: Option<UserClaims>, idParam: string, body: Bound<UpdateLinkfyRequest>)
      returns (resp: Response<()>)
      requires repository.Valid()
      modifies repository
      ensures repository.Valid()
      ensures !Authenticated(claims) ==>
        resp == Message(StatusUnauthorized, NotAuthenticatedMsg) && repository.rows == old(repository.rows)
      ensures Authenticated(claims) && ParseUuid(idParam).None? ==>
        resp == Message(StatusBadRequest, InvalidIdMsg) && repository.rows == old(repository.rows)
      ensures Authenticated(claims) && ParseUuid(idParam).Some? && body.BindError? ==>
        resp == Message(StatusBadRequest, InvalidRequestPrefix + body.reason) && repository.rows == old(repository.rows)
      ensures Authenticated(claims) && ParseUuid(idParam).Some? && body.Bound? && UsernameSanitize(body.value.username).Some? ==>
        resp == Forward(UsernameSanitize(body.value.username).value) && repository.rows == old(repository.rows)
      ensures Authenticated(claims) && ParseUuid(idParam).Some? && body.Bound? && UsernameSanitize(body.value.username).None? ==>
        var id := ParseUuid(idParam).value;
        var req := body.value;
        var u := LinkfyUpdated(id, claims.value.userId, req.username,
                               Some(req.avatarUrl.GetOr(DefaultAvatar)), req.name, Some(req.bio.GetOr(DefaultBio)));
        if forall i :: 0 <= i < |old(repository.rows)| ==> old(repository.rows)[i].id != id then
          resp == Forward(ProfileNotFound) && repository.rows == old(repository.rows)
        else if UsernameTakenByOther(old(repository.rows), id, req.username) then
          resp == Forward(UsernameExists) && repository.rows == old(repository.rows)
        else
          && resp == Message(StatusOK, UpdatedMsg)
          && |repository.rows| == |old(repository.rows)|
          && forall k :: 0 <= k < |repository.rows| ==>
               repository.rows[k] == if old(repository.rows)[k].id == id then Edited(old(repository.rows)[k], u)
                                     else old(repository.rows)[k]
    {
      if claims.None? || claims.value.userId == "" {
        return Message(StatusUnauthorized, NotAuthenticatedMsg);
      }
      var id := ParseUuid(idParam);
      if id.None? {
        return Message(StatusBadRequest, InvalidIdMsg);
      }
      if body.BindError? {
        return Message(StatusBadRequest, InvalidRequestPrefix + body.reason);
      }
      var req := body.value;
      var sanitizeErr := UsernameSanitize(req.username);
      if sanitizeErr.Some? {
        return Forward(sanitizeErr.value);
      }
      var avatar := req.avatarUrl;
      if avatar.None? {
        avatar := Some(DefaultAvatar);
      }
      var bio := req.bio;
      if bio.None? {
        bio := Some(DefaultBio);
      }
      var updated := LinkfyUpdated(id.value, claims.value.userId, req.username, avatar, req.name, bio);
      var updateErr := repository.UpdateLinkfy(updated);
      if updateErr.Some? {
        return Forward(updateErr.value);
      }
      resp := Message(StatusOK, UpdatedMsg);
    }

    /** Reports availability only: no authentication and no username rule,
        so a name the rule would refuse can still be "available". */
    method CheckUsername(body: Bound<CheckUsernameRequest>) returns (resp: Response<()>)
      ensures body.BindError? ==> resp == Message(StatusBadRequest, InvalidRequestPrefix + body.reason)
      ensures body.Bound? ==>
        if exists i :: 0 <= i < |repository.rows| && repository.rows[i].username == body.value.username then
          resp == Forward(UsernameExists)
        else
          resp == Message(StatusOK, AvailableMsg)
    {
      if body.BindError? {
        return Message(StatusBadRequest, InvalidRequestPrefix + body.reason);
      }
      var notExistsErr := repository.CheckUsernameNotExists(body.value.username);
      if notExistsErr.Some? {
        return Forward(notExistsErr.value);
      }
      resp := Message(StatusOK, AvailableMsg);
    }

    /** Deletes the caller's profile with that id; someone else's profile
        is "not found". */
    method DeleteLinkfy(claims: Option<UserClaims>, idParam: string) returns (resp: Response<()>)
      requires repository.Valid()
      modifies repository
      ensures repository.Valid()
      ensures !Authenticated(claims) ==>
        resp == Message(StatusUnauthorized, NotAuthenticatedMsg) && repository.rows == old(repository.rows)
      ensures Authenticated(claims) && ParseUuid(idParam).None? ==>
        resp == Message(StatusBadRequest, InvalidIdMsg) && repository.rows == old(repository.rows)
      ensures Authenticated(claims) && ParseUuid(idParam).Some? ==>
        var id := ParseUuid(idParam).value;
        if exists i :: 0 <= i < |old(repository.rows)| &&
             old(repository.rows)[i].id == id && old(repository.rows)[i].userId == claims.value.userId then
          && resp == Message(StatusOK, DeletedMsg)
          && |repository.rows| == |old(repository.rows)| - 1
          && forall r :: r in repository.rows <==> r in old(repository.rows) && r.id != id
        else
          resp == Forward(ProfileNotFoundOrUnauthorized) && repository.rows == old(repository.rows)
    {
      if claims.None? || claims.value.userId == "" {
        return Message(StatusUnauthorized, NotAuthenticatedMsg);
      }
      var id := ParseUuid(idParam);
      if id.None? {
        return Message(StatusBadRequest, InvalidIdMsg);
      }
      var deleteErr := repository.DeleteLinkfy(id.value, claims.value.userId);
      if deleteErr.Some? {
        return Forward(deleteErr.value);
      }
      resp := Message(StatusOK, DeletedMsg);
    }

    /** A profile just created is found by its id under any spelling of
        that UUID, upper- or lower-case. */
    method CreateThenFetch(claims: Option<UserClaims>, req: CreateLinkfyRequest, newId: Uuid, now: int, spelled: string)
      returns (created: Response<()>, fetched: Response<Linkfy>)
      requires repository.Valid()
      requires ParseUuid(newId) == Some(newId)
      requires Authenticated(claims) && UsernameSanitize(req.username).None?
      requires forall i :: 0 <= i < |repository.rows| ==> repository.rows[i].username != req.username && repository.rows[i].id != newId
      requires ParseUuid(spelled) == Some(newId)
      modifies repository
      ensures repository.Valid()
      ensures repository.rows == old(repository.rows) + [Linkfy(newId, claims.value.userId, req.username,
        Some(req.avatarUrl.GetOr(DefaultAvatar)), req.name, Some(req.bio.GetOr(DefaultBio)), now, now)]
      ensures created == Message(StatusCreated, CreatedMsg)
      ensures fetched.Data? && fetched.status == StatusOK
      ensures fetched.data == Linkfy(newId, claims.value.userId, req.username,
        Some(req.avatarUrl.GetOr(DefaultAvatar)), req.name, Some(req.bio.GetOr(DefaultBio)), now, now)
    {
      created := CreateLinkfy(claims, Bound(req), newId, now);
      ghost var last := |repository.rows| - 1;
      assert repository.rows[last].id == newId;
      fetched := GetLinkfyByID(spelled);
      assert fetched.data == repository.rows[last] by {
        var j :| 0 <= j < |repository.rows| && repository.rows[j] == fetched.data;
        assert UniqueKeys(repository.rows);
      }
    }
  }
}
