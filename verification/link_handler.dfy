/** The link endpoints of routes/linkfy-link/handler.go: `CreateLinks`
    checks the claims, the path id and the body in that order, converts the
    requested links and replaces the profile's links; `GetLinksByLinkfyID`
    reads them back without any check. Store errors are forwarded with
    their own status. */
module LinkHandlers {
  import opened Http
  import opened LinkStore

  const NotAuthenticatedMsg := "User tidak terautentikasi"
  const LinkfyIdRequiredMsg := "Linkfy ID is required"
  const InvalidRequestPrefix := "Invalid request: "
  const LinksCreatedMsg := "Links created successfully"
  const LinksRetrievedMsg := "Links retrieved successfully"

  datatype LinkRequest = LinkRequest(name: string, nameUrl: string, iconsUrl: string)

  datatype CreateLinksRequest = CreateLinksRequest(links: seq<LinkRequest>)

  /** The links a request asks for, as the store receives them. */
  function Requested(reqs: seq<LinkRequest>): seq<LinkfyLinkCreated> {
    seq(|reqs|, k requires 0 <= k < |reqs| => LinkfyLinkCreated(reqs[k].name, reqs[k].nameUrl, reqs[k].iconsUrl))
  }

  /** The request-to-model conversion: one stored link per requested link,
      same position, same three fields. */
  method ToLinkModels(reqs: seq<LinkRequest>) returns (links: seq<LinkfyLinkCreated>)
    ensures |links| == |reqs|
    ensures forall k :: 0 <= k < |reqs| ==>
      links[k].name == reqs[k].name && links[k].nameUrl == reqs[k].nameUrl && links[k].iconsUrl == reqs[k].iconsUrl
  {
    links := [];
    for i := 0 to |reqs|
      invariant |links| == i
      invariant forall k :: 0 <= k < i ==>
        links[k].name == reqs[k].name && links[k].nameUrl == reqs[k].nameUrl && links[k].iconsUrl == reqs[k].iconsUrl
    {
      links := links + [LinkfyLinkCreated(reqs[i].name, reqs[i].nameUrl, reqs[i].iconsUrl)];
    }
  }

  class LinkfyLinkHandler {
    const repository: LinkfyLinkPostgres

    constructor (repository: LinkfyLinkPostgres)
      ensures this.repository == repository
    {
      this.repository := repository;
    }

    /** On success the profile's links are exactly the requested ones, in
        request order with display orders 0, 1, 2, ..., and no other
        profile's links change. Any failure changes nothing. The caller's
        ownership of `linkfyIdParam` is not checked. */
    method CreateLinks(claims: Option<UserClaims>, linkfyIdParam: string, body: Bound<CreateLinksRequest>, fault: TxFault)
      returns (resp: Response<()>)
      requires repository.Valid()
      modifies repository
      ensures repository.Valid()
      ensures !Authenticated(claims) ==>
        resp == Message(StatusUnauthorized, NotAuthenticatedMsg) && repository.rows == old(repository.rows)
      ensures Authenticated(claims) && linkfyIdParam == "" ==>
        resp == Message(StatusBadRequest, LinkfyIdRequiredMsg) && repository.rows == old(repository.rows)
      ensures Authenticated(claims) && linkfyIdParam != "" && body.BindError? ==>
        resp == Message(StatusBadRequest, InvalidRequestPrefix + body.reason) && repository.rows == old(repository.rows)
      ensures Authenticated(claims) && linkfyIdParam != "" && body.Bound? ==>
        var reqs := body.value.links;
        if TxError(fault, |reqs|).Some? then
          resp == Forward(TxError(fault, |reqs|).value) && repository.rows == old(repository.rows)
        else
          && resp == Message(StatusCreated, LinksCreatedMsg)
          && repository.rows == ReplaceLinks(old(repository.rows), linkfyIdParam, Requested(reqs))
          && |RowsOf(repository.rows, linkfyIdParam)| == |reqs|
          && (forall k :: 0 <= k < |reqs| ==>
                RowsOf(repository.rows, linkfyIdParam)[k]
                == LinkRow(linkfyIdParam, reqs[k].name, reqs[k].nameUrl, reqs[k].iconsUrl, k))
          && (forall x :: x != linkfyIdParam ==> RowsOf(repository.rows, x) == RowsOf(old(repository.rows), x))
    {
      if claims.None? || claims.value.userId == "" {
        return Message(StatusUnauthorized, NotAuthenticatedMsg);
      }
      if linkfyIdParam == "" {
        return Message(StatusBadRequest, LinkfyIdRequiredMsg);
      }
      if body.BindError? {
        return Message(StatusBadRequest, InvalidRequestPrefix + body.reason);
      }
      var links := ToLinkModels(body.value.links);
      assert links == Requested(body.value.links);
      ghost var before := repository.rows;
      var err := repository.CreateLinks(linkfyIdParam, links, fault);
      if err.Some? {
        return Forward(err.value);
      }
      assert repository.rows == ReplaceLinks(before, linkfyIdParam, links);
      ReplaceLinksRows(before, linkfyIdParam, links, linkfyIdParam);
      forall x | x != linkfyIdParam
        ensures RowsOf(repository.rows, x) == RowsOf(before, x)
      {
        ReplaceLinksRows(before, linkfyIdParam, links, x);
      }
      resp := Message(StatusCreated, LinksCreatedMsg);
    }

    /** No authentication and no check of the id: an unknown profile reads
        as an empty list. */
    method GetLinksByLinkfyID(linkfyIdParam: string, fault: ReadFault) returns (resp: Response<seq<LinkfyLink>>)
      requires repository.Valid()
      ensures fault == QueryFails ==> resp == Forward(QueryFailed)
      ensures fault.ScanFails? && fault.at < |RowsOf(repository.rows, linkfyIdParam)| ==> resp == Forward(ScanFailed)
      ensures fault == IterationFails ==> resp == Forward(IterationFailed)
      ensures fault == NoReadFault || (fault.ScanFails? && fault.at >= |RowsOf(repository.rows, linkfyIdParam)|) ==>
        resp == Data(StatusOK, LinksRetrievedMsg, Views(RowsOf(repository.rows, linkfyIdParam)))
    {
      var r := repository.GetLinkByLinkfyID(linkfyIdParam, fault);
      if r.Err? {
        return Forward(r.error);
      }
      assert r.value == Views(RowsOf(repository.rows, linkfyIdParam));
      resp := Data(StatusOK, LinksRetrievedMsg, r.value);
    }
  }

  /** Posting links and reading them back returns the posted links, in the
      posted order. */
  method PostThenGet(db: LinkfyLinkPostgres, claims: Option<UserClaims>, linkfyId: string, reqs: seq<LinkRequest>)
    returns (posted: Response<()>, read: Response<seq<LinkfyLink>>)
    requires db.Valid()
    requires Authenticated(claims) && linkfyId != ""
    modifies db
    ensures db.Valid()
    ensures db.rows == ReplaceLinks(old(db.rows), linkfyId, Requested(reqs))
    ensures posted == Message(StatusCreated, LinksCreatedMsg)
    ensures read.Data? && read.status == StatusOK && |read.data| == |reqs|
    ensures forall k :: 0 <= k < |reqs| ==> read.data[k] == LinkfyLink(reqs[k].name, reqs[k].nameUrl, reqs[k].iconsUrl)
  {
    var handler := new LinkfyLinkHandler(db);
    posted := handler.CreateLinks(claims, linkfyId, Bound(CreateLinksRequest(reqs)), NoTxFault);
    read := handler.GetLinksByLinkfyID(linkfyId, NoReadFault);
  }
}
