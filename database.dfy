/** The lineage store: the Contributions table of the vault, its two-step
    insert, its point lookups and the walk that rebuilds a lineage from a
    share token (database.js), under the table's constraints (init_db.js). */
module Database {
  import opened Wrappers

  /** One row of the Contributions table. `lineageRootId` is `None` while the
      row sits between the two writes of AddContribution, and stays `None` when
      the second write fails. */
  datatype Contribution = Contribution(
    id: int,
    shareToken: string,
    parentId: Option<int>,
    lineageRootId: Option<int>,
    imagePrompt: Option<string>,
    imageFilename: string,
    imageDescription: string,
    question1: Option<string>,
    question2: Option<string>,
    question3: Option<string>,
    answer1: string,
    answer2: string,
    answer3: string,
    userAgent: string)

  /** What a caller hands to AddContribution: every column except `id`, with
      `lineageRootId` being the caller's value (null for a new root). */
  datatype ContributionData = ContributionData(
    shareToken: string,
    parentId: Option<int>,
    lineageRootId: Option<int>,
    imagePrompt: Option<string>,
    imageFilename: string,
    imageDescription: string,
    question1: Option<string>,
    question2: Option<string>,
    question3: Option<string>,
    answer1: string,
    answer2: string,
    answer3: string,
    userAgent: string)

  /** The row made of `data`, stored under `id` with root id `root`. */
  function WithId(data: ContributionData, id: int, root: Option<int>): Contribution
  {
    Contribution(id, data.shareToken, data.parentId, root, data.imagePrompt,
                 data.imageFilename, data.imageDescription,
                 data.question1, data.question2, data.question3,
                 data.answer1, data.answer2, data.answer3, data.userAgent)
  }

  /** The table, keyed by the auto-increment `id`. */
  type Table = map<int, Contribution>

  /** The constraints of the table: each row is stored under its own positive
      id, share tokens and image filenames are unique, and a parent id is
      smaller than its child's id (a parent must exist when the child is
      inserted, and ids only grow). */
  ghost predicate WellFormed(rows: Table)
  {
    && (forall k | k in rows :: rows[k].id == k && 1 <= k)
    && (forall k | k in rows && rows[k].parentId.Some? :: rows[k].parentId.value < k)
    && (forall k, k' | k in rows && k' in rows && k != k' ::
          rows[k].shareToken != rows[k'].shareToken && rows[k].imageFilename != rows[k'].imageFilename)
  }

  /** The table together with the next id AUTOINCREMENT hands out. */
  ghost predicate TableValid(rows: Table, nextId: int)
  {
    WellFormed(rows) && 1 <= nextId && forall k | k in rows :: k < nextId
  }

  /** Every parent id names a stored row. */
  ghost predicate ParentsPresent(rows: Table)
  {
    forall k | k in rows && rows[k].parentId.Some? :: rows[k].parentId.value in rows
  }

  /** Row `r` is the root of a lineage: no parent, and its own root id. */
  ghost predicate IsLineageRoot(rows: Table, r: int)
  {
    r in rows && rows[r].parentId.None? && rows[r].lineageRootId == Some(r)
  }

  /** Root-id propagation: every row's root id names a lineage root, a row
      without parent is its own root, and a child shares its parent's root. */
  ghost predicate RootsConsistent(rows: Table)
  {
    forall k | k in rows ::
      && rows[k].lineageRootId.Some?
      && IsLineageRoot(rows, rows[k].lineageRootId.value)
      && (rows[k].parentId.None? ==> rows[k].lineageRootId == Some(k))
      && (rows[k].parentId.Some? && rows[k].parentId.value in rows ==>
            rows[rows[k].parentId.value].lineageRootId == rows[k].lineageRootId)
  }

  // ---------------------------------------------------------------------
  // Point lookups

  /** `SELECT * FROM Contributions WHERE share_token = ?`: the row holding
      `token`, if any. */
  function FindByToken(rows: Table, token: string): (r: Option<Contribution>)
    requires WellFormed(rows)
    ensures r.Some? ==> r.value.id in rows && rows[r.value.id] == r.value && r.value.shareToken == token
    ensures r.None? <==> forall k | k in rows :: rows[k].shareToken != token
  {
    if exists k | k in rows :: rows[k].shareToken == token then
      var k :| k in rows && rows[k].shareToken == token;
      Some(rows[k])
    else
      None
  }

  /** `SELECT * FROM Contributions WHERE id = ?`: the row whose id is `id`, if any. */
  function FindById(rows: Table, id: int): (r: Option<Contribution>)
    requires WellFormed(rows)
    ensures r.Some? ==> r.value.id == id && id in rows && rows[id] == r.value
    ensures r.None? <==> forall k | k in rows :: rows[k].id != id
  {
    if id in rows then Some(rows[id]) else None
  }

  // ---------------------------------------------------------------------
  // The two-step insert

  datatype StoreError = InsertFailed | UpdateFailed

  /** The table, the next id and the settled promise after one AddContribution. */
  datatype AddOutcome = AddOutcome(rows: Table, nextId: int, result: Result<Contribution, StoreError>)

  /** SQLite accepts the step-1 INSERT: the share token and the image filename
      are not stored yet (UNIQUE), and the parent id is null or names a row
      (FOREIGN KEY, enforced by the connection). */
  predicate InsertAccepted(rows: Table, data: ContributionData)
  {
    && (forall k | k in rows :: rows[k].shareToken != data.shareToken && rows[k].imageFilename != data.imageFilename)
    && (data.parentId.None? || data.parentId.value in rows)
  }

  /** The root id that step 2 writes: the new id for a row without parent,
      the caller's value otherwise. */
  function RootToSet(data: ContributionData, newId: int): Option<int>
  {
    if data.parentId.None? then Some(newId) else data.lineageRootId
  }

  /** SQLite accepts the step-2 UPDATE: the root id is null or names a row
      (FOREIGN KEY). */
  predicate UpdateAccepted(rows: Table, root: Option<int>)
  {
    root.None? || root.value in rows
  }

  /** What addContribution does to the table. `insertFails` and `updateFails`
      stand for the storage failing on the first or the second write. */
  function Add(rows: Table, nextId: int, data: ContributionData, insertFails: bool, updateFails: bool): (o: AddOutcome)
    requires TableValid(rows, nextId)
    ensures TableValid(o.rows, o.nextId)
    ensures ParentsPresent(rows) ==> ParentsPresent(o.rows)
    // a rejected INSERT leaves everything as it was
    ensures insertFails || !InsertAccepted(rows, data) ==>
              o == AddOutcome(rows, nextId, Failure(InsertFailed))
    // an accepted INSERT adds exactly one row, under a fresh id, and touches no other row
    ensures !insertFails && InsertAccepted(rows, data) ==>
              && nextId !in rows
              && o.nextId == nextId + 1
              && o.rows.Keys == rows.Keys + {nextId}
              && (forall k | k in rows :: o.rows[k] == rows[k])
              && o.rows[nextId] == WithId(data, nextId, o.rows[nextId].lineageRootId)
    // the promise resolves exactly when both writes go through
    ensures o.result.Success? <==>
              && !insertFails && InsertAccepted(rows, data)
              && !updateFails && UpdateAccepted(rows[nextId := WithId(data, nextId, None)], RootToSet(data, nextId))
    // a row without parent becomes its own root; a child stores the root id it was given
    ensures o.result.Success? && data.parentId.None? ==> o.rows[nextId].lineageRootId == Some(nextId)
    ensures o.result.Success? && data.parentId.Some? ==> o.rows[nextId].lineageRootId == data.lineageRootId
    // an accepted INSERT followed by a rejected UPDATE reports the UPDATE's failure
    ensures !insertFails && InsertAccepted(rows, data) && !o.result.Success? ==> o.result == Failure(UpdateFailed)
    // a failed UPDATE is not rolled back: the new row stays, with a null root id
    ensures o.result == Failure(UpdateFailed) ==> nextId in o.rows && o.rows[nextId].lineageRootId.None?
    // the resolved object is `{id, lineage_root_id, ...data}`: data's root id wins
    ensures o.result.Success? ==> o.result.value == WithId(data, nextId, data.lineageRootId)
  {
    if insertFails || !InsertAccepted(rows, data) then
      AddOutcome(rows, nextId, Failure(InsertFailed))
    else
      var newId := nextId;
      var inserted := rows[newId := WithId(data, newId, None)];
      var root := RootToSet(data, newId);
      if updateFails || !UpdateAccepted(inserted, root) then
        AddOutcome(inserted, newId + 1, Failure(UpdateFailed))
      else
        AddOutcome(inserted[newId := WithId(data, newId, root)], newId + 1,
                   Success(WithId(data, newId, data.lineageRootId)))
  }

  /** When both writes go through, the new row is stored under `nextId` with
      the root id step 2 chose. */
  lemma AddAccepted(rows: Table, nextId: int, data: ContributionData)
    requires TableValid(rows, nextId) && InsertAccepted(rows, data)
    requires UpdateAccepted(rows[nextId := WithId(data, nextId, None)], RootToSet(data, nextId))
    ensures Add(rows, nextId, data, false, false)
            == AddOutcome(rows[nextId := WithId(data, nextId, RootToSet(data, nextId))], nextId + 1,
                          Success(WithId(data, nextId, data.lineageRootId)))
  {
  }

  /** The caller derived the linkage from the parent row: a child carries the
      id of a stored parent and that parent's root id. */
  ghost predicate LinkedToParent(rows: Table, data: ContributionData)
  {
    data.parentId.Some? ==>
      data.parentId.value in rows && data.lineageRootId == rows[data.parentId.value].lineageRootId
  }

  /** Root-id propagation survives every insert whose linkage comes from the
      parent row, unless the second write fails; a failed second write always
      leaves a row that breaks it. */
  lemma AddKeepsLineageRoots(rows: Table, nextId: int, data: ContributionData, insertFails: bool, updateFails: bool)
    requires TableValid(rows, nextId) && RootsConsistent(rows) && LinkedToParent(rows, data)
    ensures var o := Add(rows, nextId, data, insertFails, updateFails);
            (o.result != Failure(UpdateFailed) ==> RootsConsistent(o.rows))
            && (o.result == Failure(UpdateFailed) ==> !RootsConsistent(o.rows))
  {
    var o := Add(rows, nextId, data, insertFails, updateFails);
    if o.result.Success? {
      var n := nextId;
      forall k | k in o.rows
        ensures && o.rows[k].lineageRootId.Some?
                && IsLineageRoot(o.rows, o.rows[k].lineageRootId.value)
                && (o.rows[k].parentId.None? ==> o.rows[k].lineageRootId == Some(k))
                && (o.rows[k].parentId.Some? && o.rows[k].parentId.value in o.rows ==>
                      o.rows[o.rows[k].parentId.value].lineageRootId == o.rows[k].lineageRootId)
      {
        if k == n {
          if data.parentId.Some? {
            var p := data.parentId.value;
            assert p in rows && o.rows[p] == rows[p];
            assert IsLineageRoot(rows, rows[p].lineageRootId.value);
          }
        } else {
          assert k in rows && o.rows[k] == rows[k];
          var r := rows[k].lineageRootId.value;
          assert IsLineageRoot(rows, r);
          assert o.rows[r] == rows[r];
          if rows[k].parentId.Some? && rows[k].parentId.value in o.rows {
            assert rows[k].parentId.value < k < n;
          }
        }
      }
    } else if o.result == Failure(UpdateFailed) {
      assert nextId in o.rows && o.rows[nextId].lineageRootId.None?;
    }
  }

  // ---------------------------------------------------------------------
  // The lineage walk

  /** The questions of a lineage's root row; all null when unknown. */
  datatype Questions = Questions(q1: Option<string>, q2: Option<string>, q3: Option<string>)

  const NoQuestions := Questions(None, None, None)

  /** What getLineage resolves with: the chain, root first, and the root's
      questions and image prompt. */
  datatype Lineage = Lineage(contributions: seq<Contribution>, rootQuestions: Questions, imagePrompt: Option<string>)

  /** The chain getLineage builds from the row stored under `id`: its
      ancestors, oldest first, then the row itself. The walk stops at a row
      without parent, or early at a parent id that names no row. */
  function Ancestry(rows: Table, id: int): (chain: seq<Contribution>)
    requires WellFormed(rows) && id in rows
    ensures |chain| >= 1 && chain[|chain| - 1] == rows[id]
    ensures forall i | 0 <= i < |chain| :: chain[i].id in rows && rows[chain[i].id] == chain[i]
    ensures forall i | 0 < i < |chain| :: chain[i].parentId == Some(chain[i - 1].id)
    ensures chain[0].parentId.None? || chain[0].parentId.value !in rows
    decreases id
  {
    var c := rows[id];
    if c.parentId.Some? && c.parentId.value in rows then
      Ancestry(rows, c.parentId.value) + [c]
    else
      [c]
  }

  /** The prompt and questions of the row named by `rootId`; null when the id
      is null or 0 (falsy) or names no row. */
  function RootMetadata(rows: Table, rootId: Option<int>): (Option<string>, Questions)
    requires WellFormed(rows)
  {
    if rootId.Some? && rootId.value != 0 then
      match FindById(rows, rootId.value)
      case Some(root) => (root.imagePrompt, Questions(root.question1, root.question2, root.question3))
      case None => (None, NoQuestions)
    else
      (None, NoQuestions)
  }

  /** getLineage(startToken) as a value: null for an unknown token, else the
      walked chain with the metadata of the row its first element names as
      root. */
  function Resolve(rows: Table, startToken: string): (r: Option<Lineage>)
    requires WellFormed(rows)
    ensures r.None? <==> forall k | k in rows :: rows[k].shareToken != startToken
    ensures r.Some? ==>
              var cs := r.value.contributions;
              && |cs| >= 1
              && cs[|cs| - 1].shareToken == startToken
              && (forall i | 0 <= i < |cs| :: cs[i].id in rows && rows[cs[i].id] == cs[i])
              && (forall i | 0 < i < |cs| :: cs[i].parentId == Some(cs[i - 1].id))
              && (cs[0].parentId.None? || cs[0].parentId.value !in rows)
    ensures r.Some? ==>
              var rootId := r.value.contributions[0].lineageRootId;
              if rootId.Some? && rootId.value != 0 && rootId.value in rows then
                var root := rows[rootId.value];
                r.value.imagePrompt == root.imagePrompt
                && r.value.rootQuestions == Questions(root.question1, root.question2, root.question3)
              else
                r.value.imagePrompt.None? && r.value.rootQuestions == NoQuestions
  {
    match FindByToken(rows, startToken)
    case None => None
    case Some(start) =>
      var chain := Ancestry(rows, start.id);
      var (prompt, questions) := RootMetadata(rows, chain[0].lineageRootId);
      Some(Lineage(chain, questions, prompt))
  }

  /** Lenient read: when a row's parent id names no row (an ancestor deleted
      out of band), resolving the row's token still succeeds and the chain
      holds that row alone; when its root id names no row either, the prompt
      and questions are null. */
  lemma MissingParentTruncates(rows: Table, k: int)
    requires WellFormed(rows) && k in rows
    requires rows[k].parentId.Some? && rows[k].parentId.value !in rows
    ensures var r := Resolve(rows, rows[k].shareToken);
            && r.Some?
            && r.value.contributions == [rows[k]]
            && (rows[k].lineageRootId.None? || rows[k].lineageRootId.value !in rows ==>
                  r.value.imagePrompt.None? && r.value.rootQuestions == NoQuestions)
  {
    assert FindByToken(rows, rows[k].shareToken) == Some(rows[k]);
  }

  /** In a table where root ids propagate and no parent is missing, the walk
      from any row reaches the lineage root that the row names, and every row
      on the way shares that root. */
  lemma {:induction false} AncestryReachesRoot(rows: Table, id: int)
    requires WellFormed(rows) && RootsConsistent(rows) && ParentsPresent(rows) && id in rows
    ensures var chain := Ancestry(rows, id);
            && chain[0].parentId.None?
            && Some(chain[0].id) == rows[id].lineageRootId
            && forall i | 0 <= i < |chain| :: chain[i].lineageRootId == rows[id].lineageRootId
    decreases id
  {
    var c := rows[id];
    if c.parentId.Some? {
      var p := c.parentId.value;
      AncestryReachesRoot(rows, p);
      assert Ancestry(rows, id) == Ancestry(rows, p) + [c];
    }
  }

  /** Resolving the token of a row in such a table yields the whole chain from
      the row's lineage root, and the root's own prompt and questions. */
  lemma ResolveReachesRoot(rows: Table, k: int)
    requires WellFormed(rows) && RootsConsistent(rows) && ParentsPresent(rows) && k in rows
    ensures var r := Resolve(rows, rows[k].shareToken);
            && r.Some?
            && var cs := r.value.contributions;
            && cs[|cs| - 1] == rows[k]
            && cs[0].parentId.None?
            && Some(cs[0].id) == rows[k].lineageRootId
            && (forall i | 0 <= i < |cs| :: cs[i].lineageRootId == rows[k].lineageRootId)
            && r.value.imagePrompt == cs[0].imagePrompt
            && r.value.rootQuestions == Questions(cs[0].question1, cs[0].question2, cs[0].question3)
  {
    var start := FindByToken(rows, rows[k].shareToken);
    assert start == Some(rows[k]);
    AncestryReachesRoot(rows, k);
  }

  // ---------------------------------------------------------------------
  // The store object

  /** The open database: the table and its AUTOINCREMENT counter. */
  class ContributionStore {
    var rows: Table
    var nextId: int

    ghost predicate Valid()
      reads this
    {
      TableValid(rows, nextId)
    }

    /** A freshly created, empty table. */
    constructor ()
      ensures Valid() && rows == map[] && nextId == 1
      ensures RootsConsistent(rows) && ParentsPresent(rows)
    {
      rows := map[];
      nextId := 1;
    }

    /** addContribution: INSERT the row with a null root id, then UPDATE its
        root id; neither write is undone when the other fails. */
    method AddContribution(data: ContributionData, insertFails: bool, updateFails: bool)
      returns (r: Result<Contribution, StoreError>)
      requires Valid()
      modifies this
      ensures Valid()
      ensures AddOutcome(rows, nextId, r) == Add(old(rows), old(nextId), data, insertFails, updateFails)
    {
      // Step 1: INSERT without lineage_root_id
      if insertFails || !InsertAccepted(rows, data) {
        return Failure(InsertFailed);
      }
      var newId := nextId;
      rows := rows[newId := WithId(data, newId, None)];
      nextId := nextId + 1;
      // Step 2: UPDATE lineage_root_id of the new row
      var lineageRootIdToSet := RootToSet(data, newId);
      if updateFails || !UpdateAccepted(rows, lineageRootIdToSet) {
        return Failure(UpdateFailed);
      }
      rows := rows[newId := rows[newId].(lineageRootId := lineageRootIdToSet)];
      r := Success(WithId(data, newId, data.lineageRootId));
    }

    /** getLineage: look the start row up by token, then prepend parents until
        a row without parent or a missing parent; then fetch the metadata of
        the row that the first element names as root. */
    method GetLineage(startToken: string) returns (r: Option<Lineage>)
      requires Valid()
      ensures r == Resolve(rows, startToken)
    {
      var startContribution := FindByToken(rows, startToken);
      if startContribution.None? {
        return None;
      }
      var lineage := [startContribution.value];
      var currentContribution := startContribution.value;
      while currentContribution.parentId.Some?
        invariant currentContribution.id in rows && rows[currentContribution.id] == currentContribution
        invariant |lineage| >= 1 && lineage[0] == currentContribution
        invariant Ancestry(rows, startContribution.value.id) == Ancestry(rows, currentContribution.id) + lineage[1..]
        decreases currentContribution.id
      {
        var parentContribution := FindById(rows, currentContribution.parentId.value);
        if parentContribution.None? {
          break;
        }
        lineage := [parentContribution.value] + lineage;
        currentContribution := parentContribution.value;
      }
      assert Ancestry(rows, currentContribution.id) == [currentContribution];
      assert lineage == [currentContribution] + lineage[1..];

      var rootId := lineage[0].lineageRootId;
      var rootQuestions := NoQuestions;
      var imagePrompt := None;
      if rootId.Some? && rootId.value != 0 {
        var rootContribution := FindById(rows, rootId.value);
        if rootContribution.Some? {
          rootQuestions := Questions(rootContribution.value.question1, rootContribution.value.question2,
                                     rootContribution.value.question3);
          imagePrompt := rootContribution.value.imagePrompt;
        }
      }
      r := Some(Lineage(lineage, rootQuestions, imagePrompt));
    }
  }
}
