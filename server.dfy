/** The contribution service: the `/api/contribute` handler, which validates a
    request, derives parent and root linkage from the parent row and hands the
    row to the store, and the `/api/vault/:share_token` handler, which
    resolves a lineage and shapes it for the client (server.js). */
module Server {
  import opened Wrappers
  import opened Database

  // ---------------------------------------------------------------------
  // Request fields as the handler receives them

  /** A multipart contribute request. `uploadedFilename` is the name the
      upload layer stored the image under, `None` when no image came; every
      other field is `None` when absent from the form. */
  datatype ContributeRequest = ContributeRequest(
    uploadedFilename: Option<string>,
    description: Option<string>,
    parentShareToken: Option<string>,
    surveyQuestion1: Option<string>,
    surveyQuestion2: Option<string>,
    surveyQuestion3: Option<string>,
    surveyAnswer1: Option<string>,
    surveyAnswer2: Option<string>,
    surveyAnswer3: Option<string>,
    imagePrompt: Option<string>,
    userAgent: Option<string>)

  datatype ContributeResponse =
    | Created(newShareToken: string, newImageUrl: string)
    | BadRequest
    | NotFound
    | ServerError
  {
    function StatusCode(): int
    {
      match this
      case Created(_, _) => 201
      case BadRequest => 400
      case NotFound => 404
      case ServerError => 500
    }
  }

  /** JavaScript truthiness of a form field: present and not empty. */
  predicate Truthy(v: Option<string>)
  {
    v.Some? && v.value != ""
  }

  /** `v || null` */
  function OrNull(v: Option<string>): Option<string>
  {
    if Truthy(v) then v else None
  }

  /** `v || d` */
  function OrElse(v: Option<string>, d: string): string
  {
    if Truthy(v) then v.value else d
  }

  /** The object the handler passes to addContribution, given the linkage it
      derived: empty or absent prompt and questions become null, empty or
      absent answers and description become '', a missing user agent becomes
      'Unknown'. */
  function PrepareData(req: ContributeRequest, shareToken: string, filename: string,
                       parentId: Option<int>, lineageRootId: Option<int>): (d: ContributionData)
    ensures d.shareToken == shareToken && d.imageFilename == filename
    ensures d.parentId == parentId && d.lineageRootId == lineageRootId
    ensures d.imagePrompt.Some? <==> Truthy(req.imagePrompt)
    ensures d.imagePrompt.Some? ==> d.imagePrompt == req.imagePrompt
    ensures d.question1.Some? <==> Truthy(req.surveyQuestion1)
    ensures d.question1.Some? ==> d.question1 == req.surveyQuestion1
    ensures d.question2.Some? <==> Truthy(req.surveyQuestion2)
    ensures d.question2.Some? ==> d.question2 == req.surveyQuestion2
    ensures d.question3.Some? <==> Truthy(req.surveyQuestion3)
    ensures d.question3.Some? ==> d.question3 == req.surveyQuestion3
    ensures Truthy(req.surveyAnswer1) ==> d.answer1 == req.surveyAnswer1.value
    ensures Truthy(req.surveyAnswer2) ==> d.answer2 == req.surveyAnswer2.value
    ensures Truthy(req.surveyAnswer3) ==> d.answer3 == req.surveyAnswer3.value
    ensures Truthy(req.description) ==> d.imageDescription == req.description.value
    ensures !Truthy(req.surveyAnswer1) ==> d.answer1 == ""
    ensures !Truthy(req.surveyAnswer2) ==> d.answer2 == ""
    ensures !Truthy(req.surveyAnswer3) ==> d.answer3 == ""
    ensures !Truthy(req.description) ==> d.imageDescription == ""
    ensures d.userAgent == if Truthy(req.userAgent) then req.userAgent.value else "Unknown"
  {
    ContributionData(
      shareToken, parentId, lineageRootId,
      OrNull(req.imagePrompt),
      filename,
      OrElse(req.description, ""),
      OrNull(req.surveyQuestion1), OrNull(req.surveyQuestion2), OrNull(req.surveyQuestion3),
      OrElse(req.surveyAnswer1, ""), OrElse(req.surveyAnswer2, ""), OrElse(req.surveyAnswer3, ""),
      OrElse(req.userAgent, "Unknown"))
  }

  /** The linkage the handler derives from the parent row, or from its
      absence, always satisfies what root-id propagation needs. */
  lemma LinkageFromParentRow(rows: Table, req: ContributeRequest, shareToken: string, filename: string, parent: Option<Contribution>)
    requires WellFormed(rows)
    requires parent.Some? ==> parent.value.id in rows && rows[parent.value.id] == parent.value
    ensures LinkedToParent(rows, PrepareData(req, shareToken, filename,
                                             if parent.Some? then Some(parent.value.id) else None,
                                             if parent.Some? then parent.value.lineageRootId else None))
  {
  }

  /** The table, the counter and the response one contribute request leaves. */
  datatype HandlerOutcome = HandlerOutcome(rows: Table, nextId: int, resp: ContributeResponse)

  /** The parent row a request names: looked up only when its parent token
      is truthy. */
  function ParentRow(rows: Table, req: ContributeRequest): Option<Contribution>
    requires WellFormed(rows)
  {
    if Truthy(req.parentShareToken) then FindByToken(rows, req.parentShareToken.value) else None
  }

  /** The object the handler hands to addContribution once the parent token,
      if truthy, named a row: linkage from that row, or null for a root. */
  function RequestData(rows: Table, req: ContributeRequest, newShareToken: string): ContributionData
    requires WellFormed(rows) && req.uploadedFilename.Some?
  {
    var parent := ParentRow(rows, req);
    PrepareData(req, newShareToken, req.uploadedFilename.value,
                if parent.Some? then Some(parent.value.id) else None,
                if parent.Some? then parent.value.lineageRootId else None)
  }

  /** What POST /api/contribute does to the table and answers. */
  function ContributeSpec(rows: Table, nextId: int, req: ContributeRequest, newShareToken: string,
                          insertFails: bool, updateFails: bool): (h: HandlerOutcome)
    requires TableValid(rows, nextId)
    ensures TableValid(h.rows, h.nextId)
    ensures ParentsPresent(rows) ==> ParentsPresent(h.rows)
    // no image: 400, nothing stored
    ensures req.uploadedFilename.None? ==> h == HandlerOutcome(rows, nextId, BadRequest)
    // a parent token that names no row: 404, nothing stored
    ensures req.uploadedFilename.Some? && Truthy(req.parentShareToken)
            && (forall k | k in rows :: rows[k].shareToken != req.parentShareToken.value) ==>
              h == HandlerOutcome(rows, nextId, NotFound)
    // 400 exactly when no image came; 404 exactly when a truthy parent token names no row
    ensures h.resp.StatusCode() == 400 <==> req.uploadedFilename.None?
    ensures h.resp.StatusCode() == 404 <==>
              req.uploadedFilename.Some? && Truthy(req.parentShareToken) && ParentRow(rows, req).None?
    // no stored row is ever changed or removed
    ensures forall k | k in rows :: k in h.rows && h.rows[k] == rows[k]
    // success: one new row under a fresh id, holding the token the response hands out
    ensures h.resp.Created? ==>
              && req.uploadedFilename.Some?
              && h.resp == Created(newShareToken, "/uploads/" + req.uploadedFilename.value)
              && nextId !in rows && h.rows.Keys == rows.Keys + {nextId}
              && h.rows[nextId].shareToken == newShareToken
              && h.rows[nextId] == WithId(PrepareData(req, newShareToken, req.uploadedFilename.value,
                                                      h.rows[nextId].parentId, None),
                                          nextId, h.rows[nextId].lineageRootId)
    // a child is linked to the row its parent token names and inherits that row's root id
    ensures h.resp.Created? && Truthy(req.parentShareToken) ==>
              forall k | k in rows && rows[k].shareToken == req.parentShareToken.value ::
                h.rows[nextId].parentId == Some(k) && h.rows[nextId].lineageRootId == rows[k].lineageRootId
    // without a parent token the new row is its own root
    ensures h.resp.Created? && !Truthy(req.parentShareToken) ==>
              h.rows[nextId].parentId.None? && h.rows[nextId].lineageRootId == Some(nextId)
    // 500 exactly when the request got past validation and addContribution rejected
    ensures h.resp == ServerError <==>
              && req.uploadedFilename.Some?
              && !(Truthy(req.parentShareToken) && ParentRow(rows, req).None?)
              && Add(rows, nextId, RequestData(rows, req, newShareToken), insertFails, updateFails).result.Failure?
    // past validation, the table and the counter are exactly what addContribution left
    ensures req.uploadedFilename.Some? && !(Truthy(req.parentShareToken) && ParentRow(rows, req).None?) ==>
              var o := Add(rows, nextId, RequestData(rows, req, newShareToken), insertFails, updateFails);
              h.rows == o.rows && h.nextId == o.nextId
    // no rollback: an accepted INSERT whose UPDATE fails answers 500 and leaves
    // the new row stored with a null root id
    ensures req.uploadedFilename.Some? && !(Truthy(req.parentShareToken) && ParentRow(rows, req).None?)
            && !insertFails && InsertAccepted(rows, RequestData(rows, req, newShareToken)) && updateFails ==>
              && h.resp == ServerError
              && h.rows.Keys == rows.Keys + {nextId}
              && h.rows[nextId] == WithId(RequestData(rows, req, newShareToken), nextId, None)
    // a failing write never answers 201
    ensures insertFails || updateFails ==> !h.resp.Created?
    // a storage error either stored nothing or left the new row behind with a null root id
    ensures h.resp == ServerError ==>
              || h.rows == rows
              || (h.rows.Keys == rows.Keys + {nextId} && h.rows[nextId].lineageRootId.None?)
  {
    if req.uploadedFilename.None? then
      HandlerOutcome(rows, nextId, BadRequest)
    else
      var parent := ParentRow(rows, req);
      if Truthy(req.parentShareToken) && parent.None? then
        HandlerOutcome(rows, nextId, NotFound)
      else
        var o := Add(rows, nextId, RequestData(rows, req, newShareToken), insertFails, updateFails);
        HandlerOutcome(o.rows, o.nextId,
                       if o.result.Success? then Created(o.result.value.shareToken, "/uploads/" + o.result.value.imageFilename)
                       else ServerError)
  }

  /** Root-id propagation survives every contribute request that does not
      end in a storage error: from the empty table on, after any sequence of
      such requests every row names a lineage root and shares its parent's. */
  lemma ContributeKeepsLineageRoots(rows: Table, nextId: int, req: ContributeRequest, newShareToken: string,
                                    insertFails: bool, updateFails: bool)
    requires TableValid(rows, nextId) && RootsConsistent(rows)
    ensures var h := ContributeSpec(rows, nextId, req, newShareToken, insertFails, updateFails);
            h.resp != ServerError ==> RootsConsistent(h.rows)
  {
    if req.uploadedFilename.Some? {
      var parent := ParentRow(rows, req);
      if !(Truthy(req.parentShareToken) && parent.None?) {
        LinkageFromParentRow(rows, req, newShareToken, req.uploadedFilename.value, parent);
        AddKeepsLineageRoots(rows, nextId, RequestData(rows, req, newShareToken), insertFails, updateFails);
      }
    }
  }

  /** A request with an image and no parent token, a fresh token and
      filename, and no storage failure: 201, and the new row is its own root. */
  lemma CreateRoot(rows: Table, nextId: int, req: ContributeRequest, newShareToken: string)
    requires TableValid(rows, nextId)
    requires req.uploadedFilename.Some? && !Truthy(req.parentShareToken)
    requires forall k | k in rows :: rows[k].shareToken != newShareToken && rows[k].imageFilename != req.uploadedFilename.value
    ensures var d := PrepareData(req, newShareToken, req.uploadedFilename.value, None, None);
            ContributeSpec(rows, nextId, req, newShareToken, false, false)
            == HandlerOutcome(rows[nextId := WithId(d, nextId, Some(nextId))], nextId + 1,
                              Created(newShareToken, "/uploads/" + req.uploadedFilename.value))
  {
    var d := PrepareData(req, newShareToken, req.uploadedFilename.value, None, None);
    AddAccepted(rows, nextId, d);
  }

  /** The same under the parent row `p` named by the request's parent token:
      201, and the new row points at `p` and carries `p`'s root id, a null
      one included (the row a failed UPDATE leaves behind). */
  lemma CreateChild(rows: Table, nextId: int, req: ContributeRequest, newShareToken: string, p: int)
    requires TableValid(rows, nextId)
    requires req.uploadedFilename.Some? && Truthy(req.parentShareToken)
    requires p in rows && rows[p].shareToken == req.parentShareToken.value
    requires rows[p].lineageRootId.None? || rows[p].lineageRootId.value in rows
    requires forall k | k in rows :: rows[k].shareToken != newShareToken && rows[k].imageFilename != req.uploadedFilename.value
    ensures var d := PrepareData(req, newShareToken, req.uploadedFilename.value, Some(p), rows[p].lineageRootId);
            ContributeSpec(rows, nextId, req, newShareToken, false, false)
            == HandlerOutcome(rows[nextId := WithId(d, nextId, rows[p].lineageRootId)], nextId + 1,
                              Created(newShareToken, "/uploads/" + req.uploadedFilename.value))
  {
    assert ParentRow(rows, req) == Some(rows[p]);
    var d := PrepareData(req, newShareToken, req.uploadedFilename.value, Some(p), rows[p].lineageRootId);
    AddAccepted(rows, nextId, d);
  }

  /** POST /api/contribute. `newShareToken` stands for the random token the
      handler generates; `insertFails` and `updateFails` for storage failures
      on the store's two writes. */
  method Contribute(store: ContributionStore, req: ContributeRequest, newShareToken: string,
                    insertFails: bool, updateFails: bool)
    returns (resp: ContributeResponse)
    requires store.Valid()
    modifies store
    ensures store.Valid()
    ensures HandlerOutcome(store.rows, store.nextId, resp)
            == ContributeSpec(old(store.rows), old(store.nextId), req, newShareToken, insertFails, updateFails)
  {
    if req.uploadedFilename.None? {
      return BadRequest;
    }
    var filename := req.uploadedFilename.value;

    var parentContributionId: Option<int> := None;
    var lineageRootId: Option<int> := None;
    if Truthy(req.parentShareToken) {
      var parentContribution := FindByToken(store.rows, req.parentShareToken.value);
      if parentContribution.None? {
        return NotFound;
      }
      parentContributionId := Some(parentContribution.value.id);
      lineageRootId := parentContribution.value.lineageRootId;
    }

    var contributionData := PrepareData(req, newShareToken, filename, parentContributionId, lineageRootId);
    var newContribution := store.AddContribution(contributionData, insertFails, updateFails);
    if newContribution.Failure? {
      return ServerError;
    }
    resp := Created(newContribution.value.shareToken, "/uploads/" + newContribution.value.imageFilename);
  }

  // ---------------------------------------------------------------------
  // The vault lookup

  datatype Answers = Answers(a1: string, a2: string, a3: string)

  /** One element of the vault response's `contributions` array. */
  datatype VaultEntry = VaultEntry(
    id: int,
    shareToken: string,
    parentId: Option<int>,
    lineageRootId: Option<int>,
    imageFilename: string,
    imageDescription: string,
    userAgent: string,
    answers: Answers)

  datatype VaultResponse =
    | VaultOk(imagePrompt: Option<string>, rootQuestions: Questions, contributions: seq<VaultEntry>)
    | VaultBadRequest
    | VaultNotFound
  {
    function StatusCode(): int
    {
      match this
      case VaultOk(_, _, _) => 200
      case VaultBadRequest => 400
      case VaultNotFound => 404
    }
  }

  /** A stored row reshaped for the client: the three answers nested. */
  function FormatContribution(c: Contribution): VaultEntry
  {
    VaultEntry(c.id, c.shareToken, c.parentId, c.lineageRootId, c.imageFilename,
               c.imageDescription, c.userAgent, Answers(c.answer1, c.answer2, c.answer3))
  }

  /** `contributions.map(...)`: same length and order, element by element. */
  function FormatLineage(cs: seq<Contribution>): (es: seq<VaultEntry>)
    ensures |es| == |cs|
    ensures forall i | 0 <= i < |cs| ::
              && es[i].id == cs[i].id
              && es[i].shareToken == cs[i].shareToken
              && es[i].parentId == cs[i].parentId
              && es[i].lineageRootId == cs[i].lineageRootId
              && es[i].imageFilename == cs[i].imageFilename
              && es[i].imageDescription == cs[i].imageDescription
              && es[i].userAgent == cs[i].userAgent
              && es[i].answers == Answers(cs[i].answer1, cs[i].answer2, cs[i].answer3)
  {
    if cs == [] then [] else [FormatContribution(cs[0])] + FormatLineage(cs[1..])
  }

  /** What GET /api/vault/:share_token answers. */
  function VaultSpec(rows: Table, shareToken: string): (resp: VaultResponse)
    requires WellFormed(rows)
    ensures resp == VaultBadRequest <==> shareToken == ""
    // 200 exactly when the token is not empty and some row holds it
    ensures resp.StatusCode() == 200 <==>
              shareToken != "" && exists k | k in rows :: rows[k].shareToken == shareToken
    ensures shareToken != "" ==>
              (resp == VaultNotFound <==> forall k | k in rows :: rows[k].shareToken != shareToken)
    // the chain: every entry is a stored row reshaped, the requested row
    // last, each entry the parent of the next, and the first entry where the
    // walk stopped (no parent, or a parent that names no row)
    ensures resp.VaultOk? ==>
              var es := resp.contributions;
              && |es| >= 1
              && es[|es| - 1].shareToken == shareToken
              && (forall i | 0 <= i < |es| :: es[i].id in rows && es[i] == FormatContribution(rows[es[i].id]))
              && (forall i | 0 < i < |es| :: es[i].parentId == Some(es[i - 1].id))
              && (es[0].parentId.None? || es[0].parentId.value !in rows)
    // prompt and questions come from the row the first entry names as root, else null
    ensures resp.VaultOk? ==>
              var rootId := resp.contributions[0].lineageRootId;
              if rootId.Some? && rootId.value != 0 && rootId.value in rows then
                resp.imagePrompt == rows[rootId.value].imagePrompt
                && resp.rootQuestions == Questions(rows[rootId.value].question1, rows[rootId.value].question2,
                                                   rows[rootId.value].question3)
              else
                resp.imagePrompt.None? && resp.rootQuestions == NoQuestions
  {
    if shareToken == "" then
      VaultBadRequest
    else
      match Resolve(rows, shareToken)
      case None => VaultNotFound
      case Some(l) =>
        if |l.contributions| == 0 then VaultNotFound
        else VaultOk(l.imagePrompt, l.rootQuestions, FormatLineage(l.contributions))
  }

  /** In a table where root ids propagate and no parent is missing, the vault
      of any row starts at the row's lineage root, every entry shares that
      root, and the prompt and questions are the root's own. */
  lemma VaultStartsAtRoot(rows: Table, k: int)
    requires WellFormed(rows) && RootsConsistent(rows) && ParentsPresent(rows)
    requires k in rows && rows[k].shareToken != ""
    ensures var resp := VaultSpec(rows, rows[k].shareToken);
            && resp.VaultOk?
            && var es := resp.contributions;
            && es[|es| - 1] == FormatContribution(rows[k])
            && es[0].parentId.None?
            && Some(es[0].id) == rows[k].lineageRootId
            && (forall i | 0 <= i < |es| :: es[i].lineageRootId == rows[k].lineageRootId)
            && resp.imagePrompt == rows[es[0].id].imagePrompt
            && resp.rootQuestions == Questions(rows[es[0].id].question1, rows[es[0].id].question2,
                                               rows[es[0].id].question3)
  {
    ResolveReachesRoot(rows, k);
  }

  /** GET /api/vault/:share_token. */
  method VaultLookup(store: ContributionStore, shareToken: string) returns (resp: VaultResponse)
    requires store.Valid()
    ensures resp == VaultSpec(store.rows, shareToken)
  {
    if shareToken == "" {
      return VaultBadRequest;
    }
    var result := store.GetLineage(shareToken);
    if result.None? || |result.value.contributions| == 0 {
      return VaultNotFound;
    }
    var formattedContributions := FormatLineage(result.value.contributions);
    resp := VaultOk(result.value.imagePrompt, result.value.rootQuestions, formattedContributions);
  }
}
