/** A replacement that is accepted, complete and then refused: a file of five bytes is to become one of seven. */
module LedgerExample {
  import opened Access
  import opened Forest
  import opened ForestEdits
  import opened Ledger
  import opened LedgerRuns
  import opened LedgerState
  import opened Wrappers

  const OWNER := Actor(0, false)
  const ROOT := Node(Folder, 0, None, "", "", true, false)
  const LETTER := Node(File, 0, Some(0), "letter", "letter", false, false)
  const FIRST := Session(0, 0, 0, "letter", "letter", 5, 5, Open, 10, None, None)
  const SECOND := Session(0, 0, 0, "letter", "letter", 7, 2, Open, 10, Some(1), None)

  const D1 := Db(map[0 := ROOT], map[], map[0 := User(None, 0, 0)], map[], map[], map[])
  const D2 := Db(map[0 := ROOT], map[], map[0 := User(None, 0, 5)], map[0 := FIRST], map[], map[])
  const D3 := Db(map[0 := ROOT, 1 := LETTER], map[1 := 5], map[0 := User(None, 5, 0)],
                 map[0 := FIRST.(status := Completed, committed := Some(1))], map[0 := Version(1, 5)], map[])
  const D4 := D3.(users := map[0 := User(None, 5, 2)], sessions := D3.sessions[1 := SECOND])

  const Uploading: seq<Action> := [DoFinalize(OWNER, 0, 1, true, 1, 0)] +
    ([DoCreateSession(OWNER, 0, "letter", "letter", 7, Some(1), 10, 1)] + [])
  const Accepted: seq<Action> := [DoCreateUser(0, 0, None)] +
    ([DoCreateSession(OWNER, 0, "letter", "letter", 5, None, 10, 0)] + Uploading)

  lemma RootIsLive(nodes: Nodes)
    requires 0 in nodes && nodes[0] == ROOT
    ensures Rooted(nodes, 0) && Live(nodes, 0)
  {
    assert RootedAt(nodes, 0, 0);
  }

  lemma LetterIsLive(nodes: Nodes)
    requires nodes == map[0 := ROOT, 1 := LETTER]
    ensures IsForest(nodes) && Live(nodes, 0) && Live(nodes, 1)
  {
    RootIsLive(nodes);
    assert RootedAt(nodes, 1, 1);
    ParentDepth(nodes, 1);
  }

  lemma UserIsCreated()
    ensures Attempt(EMPTY, DoCreateUser(0, 0, None)) == Done(D1)
  {
  }

  lemma UploadIsAccepted()
    ensures IsForest(D1.nodes)
    ensures Attempt(D1, DoCreateSession(OWNER, 0, "letter", "letter", 5, None, 10, 0)) == Done(D2)
  {
    RootIsLive(D1.nodes);
    assert !NameExists(D1.nodes, 0, "letter");
  }

  lemma UploadCommits()
    ensures IsForest(D2.nodes)
    ensures Attempt(D2, DoFinalize(OWNER, 0, 1, true, 1, 0)) == Done(D3)
  {
    RootIsLive(D2.nodes);
    assert !NameExists(D2.nodes, 0, "letter");
    assert CommitNewFile(D2, 0, 1, 0) == Done(D3);
  }

  lemma ReplacementIsAccepted()
    ensures IsForest(D3.nodes)
    ensures Attempt(D3, DoCreateSession(OWNER, 0, "letter", "letter", 7, Some(1), 10, 1)) == Done(D4)
  {
    LetterIsLive(D3.nodes);
    assert ActiveChild(D3.nodes, 1, 0, "letter");
    assert forall x :: ActiveChild(D3.nodes, x, 0, "letter") ==> x == 1;
    assert Reservation(D3, OWNER, 0, "letter", 7, Some(1)) == Success(2);
  }

  lemma RunStep(db: Db, action: Action, next: Db, rest: seq<Action>)
    requires Valid(db) && Attempt(db, action) == Done(next)
    ensures Valid(next) && Run(db, [action] + rest) == Run(next, rest)
  {
    StepKeepsLedger(db, action);
    assert ([action] + rest)[1..] == rest;
  }

  lemma UploadingRun()
    requires Valid(D2)
    ensures Run(D2, Uploading) == D4
  {
    UploadCommits();
    ReplacementIsAccepted();
    var last := [DoCreateSession(OWNER, 0, "letter", "letter", 7, Some(1), 10, 1)] + [];
    RunStep(D2, DoFinalize(OWNER, 0, 1, true, 1, 0), D3, last);
    RunStep(D3, DoCreateSession(OWNER, 0, "letter", "letter", 7, Some(1), 10, 1), D4, []);
  }

  lemma AcceptedRun()
    ensures Valid(EMPTY) && Run(EMPTY, Accepted) == D4
  {
    EmptyIsValid();
    UserIsCreated();
    UploadIsAccepted();
    var create := DoCreateSession(OWNER, 0, "letter", "letter", 5, None, 10, 0);
    RunStep(EMPTY, DoCreateUser(0, 0, None), D1, [create] + Uploading);
    RunStep(D1, create, D2, Uploading);
    UploadingRun();
  }

  /** Every request of the run commits; the replacement, all its parts present, is refused for good. */
  lemma ReplacementIsRefused()
    ensures Run(EMPTY, Accepted) == D4 && IsForest(D4.nodes)
    ensures Finalize(D4, OWNER, 1, 1, true, 0, 1) == Refused(ReservationMismatch)
  {
    AcceptedRun();
    LetterIsLive(D4.nodes);
  }
}
