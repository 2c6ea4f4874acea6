/** A client of the two handlers: the chain-of-three round trip. A root is
    created with a prompt and a first question, a child answers under the
    root's token, a grandchild answers under the child's token, and the
    grandchild's vault is looked up. */
module Scenario {
  import opened Wrappers
  import opened Database
  import opened Server

  /** A request with an image and the given fields, everything else absent. */
  function Request(filename: string, parentToken: Option<string>, prompt: Option<string>,
                   question1: Option<string>, answer1: Option<string>): ContributeRequest
  {
    ContributeRequest(Some(filename), None, parentToken, question1, None, None,
                      answer1, None, None, prompt, None)
  }

  /** The walk over a table of three rows, each the parent of the next. */
  lemma ThreeRowChain(rows: Table)
    requires WellFormed(rows) && rows.Keys == {1, 2, 3}
    requires rows[1].parentId.None? && rows[2].parentId == Some(1) && rows[3].parentId == Some(2)
    ensures Ancestry(rows, 3) == [rows[1], rows[2], rows[3]]
  {
    assert Ancestry(rows, 1) == [rows[1]];
    assert Ancestry(rows, 2) == [rows[1], rows[2]];
  }

  // The three requests of the scenario: a root with prompt "P" and first
  // question "Favorite color?", a child answering "Blue", a grandchild
  // answering "Red".

  function RootRequest(): ContributeRequest
  {
    Request("r.png", None, Some("P"), Some("Favorite color?"), None)
  }

  function ChildRequest(): ContributeRequest
  {
    Request("c1.png", Some("t1"), None, None, Some("Blue"))
  }

  function GrandchildRequest(): ContributeRequest
  {
    Request("c2.png", Some("t2"), None, None, Some("Red"))
  }

  function RootRow(): Contribution
  {
    WithId(PrepareData(RootRequest(), "t1", "r.png", None, None), 1, Some(1))
  }

  function ChildRow(): Contribution
  {
    WithId(PrepareData(ChildRequest(), "t2", "c1.png", Some(1), Some(1)), 2, Some(1))
  }

  function GrandchildRow(): Contribution
  {
    WithId(PrepareData(GrandchildRequest(), "t3", "c2.png", Some(2), Some(1)), 3, Some(1))
  }

  /** The table after each of the three requests. */
  function Table1(): Table { map[1 := RootRow()] }

  function Table2(): Table { map[1 := RootRow(), 2 := ChildRow()] }

  function ChainTable(): Table { map[1 := RootRow(), 2 := ChildRow(), 3 := GrandchildRow()] }

  lemma RootStep()
    ensures TableValid(map[], 1)
    ensures ContributeSpec(map[], 1, RootRequest(), "t1", false, false)
            == HandlerOutcome(Table1(), 2, Created("t1", "/uploads/" + "r.png"))
  {
    CreateRoot(map[], 1, RootRequest(), "t1");
  }

  lemma Table1Valid()
    ensures TableValid(Table1(), 2)
  {
    RootStep();
  }

  lemma ChildStep()
    ensures TableValid(Table1(), 2)
    ensures ContributeSpec(Table1(), 2, ChildRequest(), "t2", false, false)
            == HandlerOutcome(Table2(), 3, Created("t2", "/uploads/" + "c1.png"))
  {
    Table1Valid();
    CreateChild(Table1(), 2, ChildRequest(), "t2", 1);
  }

  lemma Table2Valid()
    ensures TableValid(Table2(), 3)
  {
    ChildStep();
  }

  lemma GrandchildStep()
    ensures TableValid(Table2(), 3)
    ensures ContributeSpec(Table2(), 3, GrandchildRequest(), "t3", false, false)
            == HandlerOutcome(ChainTable(), 4, Created("t3", "/uploads/" + "c2.png"))
  {
    Table2Valid();
    var rows := Table2();
    assert rows[1].shareToken == "t1" && rows[2].shareToken == "t2";
    assert rows[1].imageFilename == "r.png" && rows[2].imageFilename == "c1.png";
    assert forall k | k in rows :: rows[k].shareToken != "t3" && rows[k].imageFilename != "c2.png";
    assert rows[2].lineageRootId == Some(1);
    CreateChild(rows, 3, GrandchildRequest(), "t3", 2);
    assert rows[3 := GrandchildRow()] == ChainTable();
  }

  /** Create the root, the child under the root's token and the grandchild
      under the child's token, on a fresh store. */
  method BuildChain() returns (store: ContributionStore, r1: ContributeResponse, r2: ContributeResponse,
                                r3: ContributeResponse)
    ensures store.Valid() && store.rows == ChainTable()
    ensures r1 == Created("t1", "/uploads/" + "r.png")
    ensures r2 == Created("t2", "/uploads/" + "c1.png")
    ensures r3 == Created("t3", "/uploads/" + "c2.png")
  {
    store := new ContributionStore();
    RootStep();
    r1 := Contribute(store, RootRequest(), "t1", false, false);
    ChildStep();
    r2 := Contribute(store, ChildRequest(), "t2", false, false);
    GrandchildStep();
    r3 := Contribute(store, GrandchildRequest(), "t3", false, false);
  }

  /** The table the three requests leave meets the table constraints. */
  lemma ChainTableValid()
    ensures TableValid(ChainTable(), 4)
  {
    GrandchildStep();
  }

  /** Resolving the grandchild's token walks back to the root. */
  lemma ChainTableResolves()
    ensures WellFormed(ChainTable())
    ensures Resolve(ChainTable(), "t3")
            == Some(Lineage([RootRow(), ChildRow(), GrandchildRow()],
                            Questions(Some("Favorite color?"), None, None), Some("P")))
  {
    ChainTableValid();
    var rows := ChainTable();
    assert FindByToken(rows, "t3") == Some(rows[3]);
    ThreeRowChain(rows);
  }

  /** The fields of the three rows the vault shows. */
  lemma ChainRowFacts()
    ensures RootRow().id == 1 && ChildRow().id == 2 && GrandchildRow().id == 3
    ensures RootRow().lineageRootId == ChildRow().lineageRootId == GrandchildRow().lineageRootId == Some(1)
    ensures ChildRow().answer1 == "Blue" && ChildRow().answer2 == "" && ChildRow().answer3 == ""
    ensures GrandchildRow().answer1 == "Red" && GrandchildRow().answer2 == "" && GrandchildRow().answer3 == ""
  {
  }

  /** The three-row chain reshaped for the client, entry by entry. */
  lemma FormatThree(a: Contribution, b: Contribution, c: Contribution)
    ensures FormatLineage([a, b, c]) == [FormatContribution(a), FormatContribution(b), FormatContribution(c)]
  {
    assert [a, b, c][1..] == [b, c];
    assert [b, c][1..] == [c];
  }

  /** The vault of a token that resolves to a lineage of three rows: those
      rows reshaped, with the lineage's prompt and questions. */
  lemma VaultOfThree(rows: Table, token: string, a: Contribution, b: Contribution, c: Contribution,
                     q: Questions, p: Option<string>)
    requires WellFormed(rows) && token != "" && Resolve(rows, token) == Some(Lineage([a, b, c], q, p))
    ensures VaultSpec(rows, token) == VaultOk(p, q, [FormatContribution(a), FormatContribution(b), FormatContribution(c)])
  {
    FormatThree(a, b, c);
  }

  /** The grandchild's vault, as a value. */
  lemma ChainVaultValue()
    ensures WellFormed(ChainTable())
    ensures VaultSpec(ChainTable(), "t3")
            == VaultOk(Some("P"), Questions(Some("Favorite color?"), None, None),
                       [FormatContribution(RootRow()), FormatContribution(ChildRow()), FormatContribution(GrandchildRow())])
  {
    ChainTableResolves();
    VaultOfThree(ChainTable(), "t3", RootRow(), ChildRow(), GrandchildRow(),
                 Questions(Some("Favorite color?"), None, None), Some("P"));
  }

  /** What a client reads off that value. */
  lemma ChainVaultShape(resp: VaultResponse)
    requires resp == VaultOk(Some("P"), Questions(Some("Favorite color?"), None, None),
                             [FormatContribution(RootRow()), FormatContribution(ChildRow()), FormatContribution(GrandchildRow())])
    ensures && resp.VaultOk?
            && resp.imagePrompt == Some("P")
            && resp.rootQuestions == Questions(Some("Favorite color?"), None, None)
            && |resp.contributions| == 3
            && resp.contributions[1].answers == Answers("Blue", "", "")
            && resp.contributions[2].answers == Answers("Red", "", "")
            && forall i | 0 <= i < 3 :: resp.contributions[i].lineageRootId == Some(resp.contributions[0].id)
  {
    ChainRowFacts();
  }

  /** The grandchild's vault: the root's prompt and questions and a chain of
      three entries carrying the answers given, all under the root's id. */
  lemma ChainTableVault()
    ensures WellFormed(ChainTable())
    ensures var resp := VaultSpec(ChainTable(), "t3");
            && resp.VaultOk?
            && resp.imagePrompt == Some("P")
            && resp.rootQuestions == Questions(Some("Favorite color?"), None, None)
            && |resp.contributions| == 3
            && resp.contributions[1].answers == Answers("Blue", "", "")
            && resp.contributions[2].answers == Answers("Red", "", "")
            && forall i | 0 <= i < 3 :: resp.contributions[i].lineageRootId == Some(resp.contributions[0].id)
  {
    ChainVaultValue();
    ChainVaultShape(VaultSpec(ChainTable(), "t3"));
  }

  /** The chain-of-three round trip through both handlers. */
  method ChainOfThree() returns (resp: VaultResponse)
    ensures resp.VaultOk?
    ensures resp.imagePrompt == Some("P")
    ensures resp.rootQuestions == Questions(Some("Favorite color?"), None, None)
    ensures |resp.contributions| == 3
    ensures resp.contributions[1].answers == Answers("Blue", "", "")
    ensures resp.contributions[2].answers == Answers("Red", "", "")
    ensures forall i | 0 <= i < 3 :: resp.contributions[i].lineageRootId == Some(resp.contributions[0].id)
  {
    var store, r1, r2, r3 := BuildChain();
    resp := VaultLookup(store, "t3");
    ChainTableVault();
  }
}
