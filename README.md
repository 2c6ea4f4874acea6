# Lineage store and contribution service — a Dafny model

The meme-survey chain lets a user start a *lineage*: an image, a text prompt
and up to three survey questions. Other participants answer the questions and
append an image of their own, one node after the other. Every node has a share
token. This project models the part of the server that stores the nodes and
rebuilds the chains:

- **The store** (`database.dfy`, module `Database`) models the Contributions
  table as a class. It holds `rows: map<int, Contribution>`, keyed by the
  auto-increment id, and the next id the table hands out.
  - `AddContribution` is the two-step write. The INSERT stores the row with a
    null `lineage_root_id`. The UPDATE then sets that root id: the new id for
    a row without parent, the caller's value for a child.
  - `FindByToken` and `FindById` are pure point lookups over the table.
  - `GetLineage` is the walk. It is a `while` loop that prepends parents until
    it reaches a row without parent or a parent id that names no row. It then
    reads the prompt and questions of the row that the first element names as
    its root.
  - Each method is proved against a pure function: `Add` for the insert,
    `Ancestry`/`Resolve` for the walk. The lemmas are proved about those
    functions.
- **The service** (`server.dfy`, module `Server`) models the two handlers:
  - `Contribute` is `POST /api/contribute`. It validates the upload. It
    derives the parent id and root id from the parent row, fills in the field
    defaults, and calls the store once. It is specified by `ContributeSpec`.
  - `VaultLookup` is `GET /api/vault/:share_token`. It resolves the lineage
    and reshapes each row into `{…, answers: {a1, a2, a3}}`. It is specified
    by `VaultSpec`.
- **A client** (`scenario.dfy`, module `Scenario`) builds a root, a child and
  a grandchild through the contribute handler. It then looks up the
  grandchild's vault and proves what comes back.

Inputs that the model takes as parameters:
- the random share token (`newShareToken`);
- the filename the upload layer chose (`uploadedFilename`);
- the user-agent header (`userAgent`);
- a storage failure on either write of the store (`insertFails`, `updateFails`).

The connection runs `PRAGMA foreign_keys = ON` (database.js:22). So SQLite
also rejects an INSERT whose parent id names no row, and an UPDATE whose root
id names no row. Together with the UNIQUE constraints on `share_token` and
`image_filename` (init_db.js:23, init_db.js:27), these are modelled as the
failures of the first and the second write (`InsertAccepted`,
`UpdateAccepted`).

Table invariants:
- `WellFormed` collects what the schema's constraints and the way addContribution
  assigns ids guarantee. It says:
  - every row is stored under its own positive id;
  - tokens and filenames are unique;
  - a parent id is smaller than its child's id.
  SQLite does not enforce that last point; it holds because addContribution
  only ever names an existing row as parent, and the walk's termination rests
  on it.
- `WellFormed` does not require parents to be present. A row deleted out of
  band leaves exactly the case where the walk stops early.
- `ParentsPresent` (every parent id names a stored row) is a separate
  predicate. Every insert preserves it.
- `RootsConsistent` is root-id propagation:
  - every row's root id names a row without parent that is its own root;
  - a row without parent is its own root;
  - a child shares its parent's root.
  The empty table has it (`ContributionStore.constructor`). Every contribute
  request keeps it unless the request ends in a storage error
  (`ContributeKeepsLineageRoots`). So it holds after any sequence of such
  requests.

### Where the code and its comments differ (the model follows the code)

- **Root id of the resolved object.** The comment at database.js:108 says
  the resolved object carries the correct `lineage_root_id`. But the object
  spreads `...data` last (database.js:109-113), so that field holds the
  caller's value, which is null for a new root, and not the id step 2 stored.
  The handler only reads `share_token` and `image_filename` from it
  (server.js:130-131), so the response is unaffected. See the last ensures
  of `Add`.
- **Prompt and questions on children.** The comments at database.js:65-67
  and server.js:108 and server.js:111 expect null questions and prompt on a
  non-root row. The handler stores whatever the request supplies, on a child
  as well (server.js:108-114). Reads take them from the root row only.
- **No rollback.** When the UPDATE fails, addContribution rejects and leaves
  the row from the INSERT in the table with a null root id (database.js:101-105).
  The handler's error path removes only the uploaded file (server.js:139-143).
  `Add` and `ContributeSpec` state that the row stays, and
  `AddKeepsLineageRoots` shows that such a row always breaks root-id
  propagation.
- **The vault's 404 for an empty chain** (server.js:161) can never happen: a
  resolved lineage always holds at least the start row (`Resolve`).

## Model

| member | source | states |
|---|---|---|
| `Database.FindByToken` | database.js:123-134 | the row holding the token when one exists, and none exactly when no row holds it |
| `Database.FindById` | database.js:197-208 | the row stored under the id when one exists, and none exactly when no row has that id |
| `Database.Add` | database.js:42-117 | a rejected INSERT changes nothing; an accepted one adds one row under a fresh id and leaves every other row as it was; the call succeeds exactly when both writes go through; a root row becomes its own root and a child stores the caller's root id; an accepted INSERT whose UPDATE is rejected fails with the UPDATE's error and leaves the new row with a null root id; the resolved object has the new id and data's root id; the table constraints and parent presence are preserved |
| `Database.AddAccepted` | database.js:84-113 | when both writes go through, the table gains exactly the new row, with the root id step 2 chose, and the counter moves on by one |
| `Database.AddKeepsLineageRoots` | database.js:87-96 | with linkage taken from the parent row, root-id propagation survives every insert except one whose UPDATE failed, and such an insert always breaks it |
| `Database.Ancestry` | database.js:147-159 | the walked chain ends with the start row, holds stored rows only, has each element the parent of the next, and begins at a row without parent or one whose parent is missing |
| `Database.Resolve` | database.js:140-185 | null exactly for an unknown token; otherwise the chain holds stored rows, ends with the token's row, is linked parent to child and begins where the walk stopped; the prompt and questions are those of the row the first element names as root, or null when that id is null, 0 or missing |
| `Database.MissingParentTruncates` | database.js:151-156 | a missing parent stops the walk: the read succeeds with the start row alone, and with null metadata when the root row is missing too |
| `Database.AncestryReachesRoot` | database.js:150-162 | with root ids propagated and no parent missing, the walk starts at the root the row names and every element shares that root |
| `Database.ResolveReachesRoot` | database.js:140-185 | with root ids propagated and no parent missing, resolving a row's token yields the chain from its lineage root to the row, with the root's own prompt and questions |
| `Database.ContributionStore.constructor` | init_db.js:21-41 | the empty table satisfies the constraints, root-id propagation and parent presence, and its counter starts at 1 |
| `Database.ContributionStore.AddContribution` | database.js:42-117 | the two sequential writes leave exactly the table, counter and result that `Add` describes, with the table constraints kept |
| `Database.ContributionStore.GetLineage` | database.js:140-191 | the loop that prepends parents, and the lookup of the root row, compute exactly `Resolve` |
| `Server.PrepareData` | server.js:104-120 | prompt and questions are null exactly when the request field is absent or empty, and the request's value otherwise; answers and description default to '', the user agent to 'Unknown'; token, filename, parent id and root id are the ones given |
| `Server.LinkageFromParentRow` | server.js:96-97 | the parent id and root id the handler derives from a stored parent row, or both null, are the linkage root-id propagation needs |
| `Server.ContributeSpec` | server.js:60-149 | 400 exactly when no image came and 404 exactly when a truthy parent token names no row, and neither stores anything; no stored row is ever changed or removed; 201 means one new row under a fresh id holding the generated token and the defaulted fields, and the response carries that token; a child points at the row its parent token names and carries that row's root id; without a parent token the row is its own root; 500 exactly when the request passed validation and addContribution rejected, so a failing write never answers 201; past validation the table and counter are exactly those addContribution leaves, so nothing is rolled back: an accepted INSERT whose UPDATE fails answers 500 and leaves the new row stored with a null root id |
| `Server.ContributeKeepsLineageRoots` | server.js:80-125 | every contribute request that does not end in a storage error keeps root-id propagation |
| `Server.CreateRoot` | server.js:80-132 | an image, no parent token and a fresh token and filename give 201 and exactly one new row that is its own root |
| `Server.CreateChild` | server.js:83-132 | the same under a parent token naming a row gives 201 and one new row pointing at that row and carrying its root id, a null one included |
| `Server.Contribute` | server.js:60-149 | the handler's validation, parent lookup, defaulting and store call leave exactly the table and response that `ContributeSpec` describes |
| `Server.FormatLineage` | server.js:166-183 | the response array has the lineage's length and order, each entry keeping the row's ids, token, filename, description and user agent, and nesting its three answers |
| `Server.VaultSpec` | server.js:151-196 | 400 exactly for an empty token; 404 exactly when no row holds the token; 200 exactly when some row does; otherwise every entry is its stored row reshaped, the requested row comes last, each entry is the parent of the next, the first entry is where the walk stopped, and prompt and questions are those of the row the first entry names as root, or null |
| `Server.VaultStartsAtRoot` | server.js:159-190 | with root ids propagated and no parent missing, a row's vault starts at its lineage root, every entry shares that root, and the prompt and questions are the root's own |
| `Server.VaultLookup` | server.js:151-196 | the handler computes exactly `VaultSpec` |
| `Scenario.ChainTableVault` | server.js:151-196 | after a root with prompt "P", a child answering "Blue" and a grandchild answering "Red", the grandchild's vault has prompt "P", the root's questions, three entries with those answers, and one shared root id |
| `Scenario.ChainOfThree` | server.js:60-196 | the same round trip, run through the store object and both handlers |
| `Scenario.BuildChain` | server.js:60-149 | three contribute calls on a fresh store each answer 201 with the token the next request names as its parent, and leave the three-row chain |

## Left out

- Express routing, the static files and the HTML page routes (server.js:36-55) are framework plumbing.
- The upload layer (server.js:13-34) is a library: disk storage, UUID filenames, the mime-type filter and the 10 MB limit. Its rejections never reach the handler: the upload middleware passes them on, and the app's error middleware answers them with 500 (server.js:201-204). Neither those rejections nor the handler's "Not an image" 400 branch (server.js:144-146) is modelled. The stored filename is an input.
- Removing uploaded files with `fs.unlink` (server.js:90-93, server.js:139-143) is file-system I/O and is not modelled. The table effects on those paths are: nothing is stored on a 404, and on a 500 the table is what addContribution left, including a row whose UPDATE failed.
- The token from `crypto.randomBytes` (server.js:101) is randomness. It is a parameter, and a colliding token is rejected by the UNIQUE constraint like any other.
- Connection setup, `startServer` and the `unhandledRejection` hook (database.js:8-35, server.js:207-238) are process plumbing. Only the effect of `PRAGMA foreign_keys = ON` is kept.
- Promises, callbacks and logging are not modelled. Each operation is a sequential method.
- Failing reads are not modelled: the point lookups always answer. So the handlers' 500 after a failed read (server.js:134-148, server.js:192-195) is not modelled. Storage failures are modelled on the two writes only.
- `latitude`, `longitude` and the `timestamp` column (init_db.js:36-38) are left out of the row. The vault's `timestamp` field (server.js:175), which carries the column's default insertion time, is left out of `VaultEntry`: the model has no clock.
- A parent cycle is not modelled. `WellFormed` requires a parent id smaller than its child's id, and every row addContribution writes meets that. The schema does not enforce it, though: an out-of-band UPDATE of `parent_contribution_id` could close a cycle, and then getLineage's walk (database.js:151-159) would never end.
- Ids are unbounded integers. SQLite's 64-bit row ids and their exhaustion are not modelled.
- Form fields are strings or absent. A field repeated in the form, which the body parser turns into an array, is not modelled.
- Idempotent reads are not a separate lemma. `Resolve` is a function, and `GetLineage`, `FindByToken` and `FindById` change nothing.
- init_db.js (the DDL) contributes only its UNIQUE, AUTOINCREMENT and FOREIGN KEY constraints, as invariants and insert checks.
- public/ (the browser code) is not part of this model.
