/**
 * The runs of the examples are runs of the service: each is what these requests,
 * sent one at a time, make of an empty system, and each racing request passes
 * its checks in the state in which it makes them.
 */
module ServedRuns {
  import opened Wrappers
  import opened Sequences
  import opened Lifecycle
  import opened Events
  import opened PatentDb
  import opened History
  import opened Scenarios
  import opened Relations
  import Pipeline
  import ObjectKeys
  import R = Requests

  const OWNER := R.User(7, false)
  const OBJECTS := map[KEY_1 := 100, KEY_2 := 100]
  const CREDITS := [InventorEntry("5", None)]

  /** Two uploads and an inventor. */
  const SETUP: seq<R.Request> := [R.PutObject(KEY_1, 100), R.PutObject(KEY_2, 100), R.AddInventor(5)]

  function CreateRequest(fields: Fields): R.Request {
    R.CreatePatent(fields, CREDITS, OWNER, 0, 0, true)
  }

  function SubmitRequest(id: nat): R.Request {
    R.SubmitForReview(id, OWNER)
  }

  function ReviewRequest(decision: Decision, eventId: nat, bytes: nat, gap: nat): R.Request {
    R.ReviewPatent(1, decision, 9, eventId, bytes, gap)
  }

  const RENAME := R.UpdatePatent(1, map[Title := Some("Stator")], None, OWNER, true)

  predicate AllValidated(requests: seq<R.Request>) {
    forall i :: 0 <= i < |requests| ==> R.Validated(requests[i])
  }

  /** Request `k` is answered with success and leads to the next store. */
  predicate Leads(requests: seq<R.Request>, stores: seq<R.Store>, k: nat) {
    k < |requests| && k + 1 < |stores| && R.Validated(requests[k])
    && R.Serve(stores[k], requests[k]).1.Success? && R.Serve(stores[k], requests[k]).0 == stores[k + 1]
  }

  /** Every request is answered with success, one store leading to the next. */
  ghost predicate Chain(before: R.Store, requests: seq<R.Request>, after: R.Store, stores: seq<R.Store>) {
    && |stores| == |requests| + 1 && stores[0] == before && stores[|requests|] == after
    && forall k: nat :: k < |requests| ==> Leads(requests, stores, k)
  }

  ghost predicate AllServed(before: R.Store, requests: seq<R.Request>, after: R.Store) {
    exists stores :: Chain(before, requests, after, stores)
  }

  lemma ServeAllOneMore(done: seq<R.Request>, r: R.Request)
    requires AllValidated(done) && R.Validated(r)
    ensures AllValidated(done + [r]) && R.ServeAll(done + [r]) == R.Serve(R.ServeAll(done), r).0
  {
    assert (done + [r])[..|done|] == done;
  }

  lemma {:induction false} ServedInTurn(done: seq<R.Request>, requests: seq<R.Request>, stores: seq<R.Store>, k: nat)
    requires AllValidated(done) && |stores| == |requests| + 1 && R.ServeAll(done) == stores[0] && k <= |requests|
    requires forall l: nat :: l < |requests| ==> Leads(requests, stores, l)
    ensures AllValidated(done + requests[..k]) && R.ServeAll(done + requests[..k]) == stores[k]
  {
    if k == 0 {
      assert done + requests[..0] == done;
    } else {
      ServedInTurn(done, requests, stores, k - 1);
      assert Leads(requests, stores, k - 1);
      ServeAllOneMore(done + requests[..k - 1], requests[k - 1]);
      assert done + requests[..k] == done + requests[..k - 1] + [requests[k - 1]];
    }
  }

  lemma ServedOnSetup(requests: seq<R.Request>, after: R.Store)
    requires AllServed(Around(INITIAL, 1, 1), requests, after)
    ensures AllValidated(SETUP + requests) && R.ServeAll(SETUP + requests) == after
  {
    var stores :| Chain(Around(INITIAL, 1, 1), requests, after, stores);
    SetupServed();
    ServedInTurn(SETUP, requests, stores, |requests|);
    assert requests[..|requests|] == requests;
  }

  lemma ChainOneMore(before: R.Store, requests: seq<R.Request>, middle: R.Store, stores: seq<R.Store>, r: R.Request, after: R.Store)
    requires Chain(before, requests, middle, stores)
    requires R.Validated(r) && R.Serve(middle, r).1.Success? && R.Serve(middle, r).0 == after
    ensures Chain(before, requests + [r], after, stores + [after])
  {
    var stores', requests' := stores + [after], requests + [r];
    forall k: nat | k < |requests'| ensures Leads(requests', stores', k) {
      if k < |requests| {
        assert Leads(requests, stores, k);
        assert requests'[k] == requests[k] && stores'[k] == stores[k] && stores'[k + 1] == stores[k + 1];
      } else {
        assert requests'[k] == r && stores'[k] == middle && stores'[k + 1] == after;
      }
    }
  }

  /** One request more. */
  lemma ServedOneMore(before: R.Store, requests: seq<R.Request>, middle: R.Store, r: R.Request, after: R.Store)
    requires AllServed(before, requests, middle)
    requires R.Validated(r) && R.Serve(middle, r).1.Success? && R.Serve(middle, r).0 == after
    ensures AllServed(before, requests + [r], after)
  {
    var stores :| Chain(before, requests, middle, stores);
    ChainOneMore(before, requests, middle, stores, r, after);
  }

  lemma NothingServed(s: R.Store)
    ensures AllServed(s, [], s)
  {
    assert Chain(s, [], s, [s]);
  }

  // ---------------------------------------------------------------- keys and credits

  lemma KeysAreIssued()
    ensures ObjectKeys.KeyBelongsToUser(KEY_1, 7) && ObjectKeys.KeyBelongsToUser(KEY_2, 7)
    ensures KEY_1 != "" && KEY_2 != "" && KEY_1 != KEY_2
  {
    UuidsValid();
    KeysDiffer();
    ObjectKeys.KeysRoundTrip(7, 7, UUID_1, "a.pdf");
    ObjectKeys.KeysRoundTrip(7, 7, UUID_2, "a.pdf");
  }

  lemma CreditsResolve()
    ensures ValidEntries(CREDITS) && Resolved(CREDITS, {5}) == Success([Link(5, 1)])
  {
    assert ObjectKeys.NumeralValue("5") == 5;
    SortOne(1, AtMost);
    assert Orders(CREDITS) == [1];
    assert LinksOf(CREDITS) == [Link(5, 1)];
  }

  // ---------------------------------------------------------------- one request

  /** The store of the examples around some tables. */
  function Around(db: Db, nextPatentId: nat, nextRowId: nat): R.Store {
    R.Store(db, OBJECTS, {5}, nextPatentId, nextRowId)
  }

  lemma CreatePassesChecks(db: Db, id: nat, rowId: nat, fields: Fields)
    requires fields == ROTOR || fields == STATOR
    requires forall q :: q in db.patents ==> db.patents[q].fields.documentKey != fields.documentKey
    ensures R.Validated(CreateRequest(fields))
    ensures var s := Around(db, id, rowId); R.PrecheckedCreate(s, CreateRequest(fields)) == (s, Success([Link(5, 1)]))
  {
    KeysAreIssued();
    CreditsResolve();
    var s, key := Around(db, id, rowId), fields.documentKey.value;
    assert key in OBJECTS && OBJECTS[key] == 100 && !R.AttachedElsewhere(db.patents, key, None);
    assert R.DocumentError(s, key, 7, None).None?;
  }

  lemma CreateServed(db: Db, id: nat, rowId: nat, fields: Fields)
    requires fields == ROTOR || fields == STATOR
    requires id !in db.patentIds && forall q :: q in db.patents ==> db.patents[q].fields.documentKey != fields.documentKey
    ensures R.Validated(CreateRequest(fields))
    ensures R.Serve(Around(db, id, rowId), CreateRequest(fields)) ==
            (Around(ApplyTx(db, Create(id, fields, 7, [Link(5, 1)], 0)), id + 1, rowId), Success(id))
  {
    CreatePassesChecks(db, id, rowId, fields);
    assert R.NewRow(fields) == fields && UniqueOk(db.patents, id, fields);
  }

  lemma SubmitServed(db: Db, id: nat, patentId: nat, rowId: nat)
    requires id in db.patents && db.patents[id].submittedBy == 7 && db.patents[id].status in From(Submit)
    requires db.patents[id].fields == ROTOR || db.patents[id].fields == STATOR
    ensures R.Serve(Around(db, patentId, rowId), SubmitRequest(id)) ==
            (Around(ApplyTx(db, SubmitTx(id)), patentId, rowId), Success(id))
  {
    KeysAreIssued();
  }

  /** A review that passes its check is answered from what its transaction did. */
  lemma ReviewAnswered(s: R.Store, r: R.Request, tx: Tx, db': Db)
    requires r.ReviewPatent? && r.id in s.db.patents && tx == R.ReviewTxOf(r, s.nextRowId + r.gap)
    requires AssertTransition(s.db.patents[r.id].status, if r.decision == Pass then Approve else Decline).Success?
    requires Commit(s.db, tx) == Some(db') && |db'.outbox| > |s.db.outbox|
    ensures R.Serve(s, r) == (s.(db := db', nextRowId := s.nextRowId + r.gap + 1), Success(r.id))
  {
    assert R.CommitOr(s, tx, r.id) == (s.(db := db'), Success(r.id));
  }

  lemma PassCommits(db: Db, eventId: nat, bytes: nat, rowId: nat)
    requires 1 in db.patents && db.patents[1].status == PendingAdmin
    requires forall i :: 0 <= i < |db.outbox| ==> db.outbox[i].id < rowId
    ensures var tx := ApproveTx(1, 9, eventId, bytes, rowId);
            Commit(db, tx) == Some(ApplyTx(db, tx)) && |ApplyTx(db, tx).outbox| == |db.outbox| + 1
  {
    assert Drawable(db.outbox, 1, rowId);
  }

  lemma PassServed(db: Db, eventId: nat, bytes: nat, gap: nat, patentId: nat, rowId: nat)
    requires 1 in db.patents && db.patents[1].status == PendingAdmin
    requires forall i :: 0 <= i < |db.outbox| ==> db.outbox[i].id < rowId
    ensures R.Serve(Around(db, patentId, rowId), ReviewRequest(Pass, eventId, bytes, gap)) ==
            (Around(ApplyTx(db, ApproveTx(1, 9, eventId, bytes, rowId + gap)), patentId, rowId + gap + 1), Success(1))
  {
    var tx := ApproveTx(1, 9, eventId, bytes, rowId + gap);
    PassCommits(db, eventId, bytes, rowId + gap);
    ReviewAnswered(Around(db, patentId, rowId), ReviewRequest(Pass, eventId, bytes, gap), tx, ApplyTx(db, tx));
  }

  lemma WithdrawalCommits(db: Db, eventId: nat, bytes: nat, rowId: nat)
    requires 1 in db.patents && db.patents[1].status == Approved
    requires forall i :: 0 <= i < |db.outbox| ==> db.outbox[i].id < rowId
    ensures var tx := DeclineTx(1, 9, eventId, bytes, rowId);
            Commit(db, tx) == Some(ApplyTx(db, tx)) && |ApplyTx(db, tx).outbox| == |db.outbox| + 1
  {
    assert Drawable(db.outbox, 1, rowId);
  }

  lemma WithdrawalServed(db: Db, eventId: nat, bytes: nat, gap: nat, patentId: nat, rowId: nat)
    requires 1 in db.patents && db.patents[1].status == Approved
    requires forall i :: 0 <= i < |db.outbox| ==> db.outbox[i].id < rowId
    ensures R.Serve(Around(db, patentId, rowId), ReviewRequest(Fail, eventId, bytes, gap)) ==
            (Around(ApplyTx(db, DeclineTx(1, 9, eventId, bytes, rowId + gap)), patentId, rowId + gap + 1), Success(1))
  {
    var tx := DeclineTx(1, 9, eventId, bytes, rowId + gap);
    WithdrawalCommits(db, eventId, bytes, rowId + gap);
    ReviewAnswered(Around(db, patentId, rowId), ReviewRequest(Fail, eventId, bytes, gap), tx, ApplyTx(db, tx));
  }

  lemma RenameServed()
    ensures R.Validated(RENAME)
    ensures R.Serve(Around(Run(TO_APPROVED[..1]), 2, 1), RENAME) == (Around(Run(EDITED), 2, 1), Success(1))
  {
    CreatedRun();
    EditedRun();
    assert !R.ReplacesDocument(RENAME.updates, Rotor(Draft));
  }

  // ---------------------------------------------------------------- the runs

  lemma SetupServed()
    ensures AllValidated(SETUP) && R.ServeAll(SETUP) == Around(INITIAL, 1, 1)
  {
    var a, b, c := R.PutObject(KEY_1, 100), R.PutObject(KEY_2, 100), R.AddInventor(5);
    ServeAllOneMore([], a);
    ServeAllOneMore([] + [a], b);
    ServeAllOneMore([] + [a] + [b], c);
    assert SETUP == [] + [a] + [b] + [c];
    assert map[][KEY_1 := 100][KEY_2 := 100] == OBJECTS;
  }

  /** The store after the patent was created, and after it was submitted. */
  lemma CreateThenSubmit()
    ensures R.Validated(CreateRequest(ROTOR))
    ensures R.Serve(Around(INITIAL, 1, 1), CreateRequest(ROTOR)) == (Around(Run(TO_APPROVED[..1]), 2, 1), Success(1))
    ensures R.Serve(Around(Run(TO_APPROVED[..1]), 2, 1), SubmitRequest(1)) ==
            (Around(Run(TO_APPROVED[..2]), 2, 1), Success(1))
  {
    assert TO_APPROVED[..0] == [];
    CreateServed(INITIAL, 1, 1, ROTOR);
    RunPrefix(TO_APPROVED, 0);
    CreatedRun();
    SubmitServed(Run(TO_APPROVED[..1]), 1, 2, 1);
    RunPrefix(TO_APPROVED, 1);
  }

  const CREATE_AND_SUBMIT: seq<R.Request> := [CreateRequest(ROTOR)] + [SubmitRequest(1)]

  lemma CreateAndSubmitServed()
    ensures AllServed(Around(INITIAL, 1, 1), [CreateRequest(ROTOR)], Around(Run(TO_APPROVED[..1]), 2, 1))
    ensures AllServed(Around(INITIAL, 1, 1), CREATE_AND_SUBMIT, Around(Run(TO_APPROVED[..2]), 2, 1))
  {
    var s0, s1, s2 := Around(INITIAL, 1, 1), Around(Run(TO_APPROVED[..1]), 2, 1), Around(Run(TO_APPROVED[..2]), 2, 1);
    CreateThenSubmit();
    NothingServed(s0);
    ServedOneMore(s0, [], s0, CreateRequest(ROTOR), s1);
    assert [] + [CreateRequest(ROTOR)] == [CreateRequest(ROTOR)];
    ServedOneMore(s0, [CreateRequest(ROTOR)], s1, SubmitRequest(1), s2);
  }

  const TO_APPROVED_REQUESTS: seq<R.Request> := CREATE_AND_SUBMIT + [ReviewRequest(Pass, 0, 100, 0)]

  /** The run of the stale decline and of the inventor race. */
  lemma ApprovedServed()
    ensures AllServed(Around(INITIAL, 1, 1), TO_APPROVED_REQUESTS, Around(Run(TO_APPROVED), 2, 2))
  {
    CreateAndSubmitServed();
    SubmittedRun();
    var s2 := Around(Run(TO_APPROVED[..2]), 2, 1);
    PassServed(s2.db, 0, 100, 0, 2, 1);
    RunPrefix(TO_APPROVED, 2);
    assert TO_APPROVED[..3] == TO_APPROVED && TO_APPROVED[2] == ApproveTx(1, 9, 0, 100, 1);
    ServedOneMore(Around(INITIAL, 1, 1), CREATE_AND_SUBMIT, s2, ReviewRequest(Pass, 0, 100, 0), Around(Run(TO_APPROVED), 2, 2));
  }

  const TO_DECLINED_REQUESTS: seq<R.Request> := TO_APPROVED_REQUESTS + [ReviewRequest(Fail, 1, 100, 0)]

  lemma DeclinedServed()
    ensures AllServed(Around(INITIAL, 1, 1), TO_DECLINED_REQUESTS, Around(Run(REVISED[..4]), 2, 3))
  {
    ApprovedServed();
    ApprovedRun();
    var s3 := Around(Run(TO_APPROVED), 2, 2);
    WithdrawalServed(s3.db, 1, 100, 0, 2, 2);
    RevisedSteps();
    RunPrefix(REVISED, 3);
    ServedOneMore(Around(INITIAL, 1, 1), TO_APPROVED_REQUESTS, s3, ReviewRequest(Fail, 1, 100, 0), Around(Run(REVISED[..4]), 2, 3));
  }

  const TO_RESUBMITTED_REQUESTS: seq<R.Request> := TO_DECLINED_REQUESTS + [SubmitRequest(1)]

  lemma ResubmittedServed()
    ensures AllServed(Around(INITIAL, 1, 1), TO_RESUBMITTED_REQUESTS, Around(Run(REVISED[..5]), 2, 3))
  {
    DeclinedServed();
    RevisedDeclined();
    var s4 := Around(Run(REVISED[..4]), 2, 3);
    SubmitServed(s4.db, 1, 2, 3);
    RevisedSteps();
    RunPrefix(REVISED, 4);
    ServedOneMore(Around(INITIAL, 1, 1), TO_DECLINED_REQUESTS, s4, SubmitRequest(1), Around(Run(REVISED[..5]), 2, 3));
  }

  const REVISED_REQUESTS: seq<R.Request> := TO_RESUBMITTED_REQUESTS + [ReviewRequest(Pass, 2, 100, 0)]

  lemma RevisedServed()
    ensures AllServed(Around(INITIAL, 1, 1), REVISED_REQUESTS, Around(Run(REVISED), 2, 4))
  {
    ResubmittedServed();
    RevisedResubmitted();
    var s5 := Around(Run(REVISED[..5]), 2, 3);
    PassServed(s5.db, 2, 100, 0, 2, 3);
    RevisedSteps();
    RunPrefix(REVISED, 5);
    ServedOneMore(Around(INITIAL, 1, 1), TO_RESUBMITTED_REQUESTS, s5, ReviewRequest(Pass, 2, 100, 0), Around(Run(REVISED), 2, 4));
  }

  function Oversized(): R.Request {
    ReviewRequest(Pass, 0, Pipeline.MAX_PAYLOAD_BYTES + 1, 0)
  }

  lemma OversizedServed()
    ensures AllServed(Around(INITIAL, 1, 1), CREATE_AND_SUBMIT + [Oversized()], Around(Run(OVERSIZED), 2, 2))
  {
    CreateAndSubmitServed();
    SubmittedRun();
    var s2 := Around(Run(TO_APPROVED[..2]), 2, 1);
    PassServed(s2.db, 0, Pipeline.MAX_PAYLOAD_BYTES + 1, 0, 2, 1);
    assert OVERSIZED[..2] == TO_APPROVED[..2] && OVERSIZED[..3] == OVERSIZED;
    assert OVERSIZED[2] == ApproveTx(1, 9, 0, Pipeline.MAX_PAYLOAD_BYTES + 1, 1);
    RunPrefix(OVERSIZED, 2);
    ServedOneMore(Around(INITIAL, 1, 1), CREATE_AND_SUBMIT, s2, Oversized(), Around(Run(OVERSIZED), 2, 2));
  }

  lemma EditedServed()
    ensures AllServed(Around(INITIAL, 1, 1), [CreateRequest(ROTOR)] + [RENAME], Around(Run(EDITED), 2, 1))
  {
    CreateAndSubmitServed();
    RenameServed();
    ServedOneMore(Around(INITIAL, 1, 1), [CreateRequest(ROTOR)], Around(Run(TO_APPROVED[..1]), 2, 1), RENAME, Around(Run(EDITED), 2, 1));
  }

  const SECOND_CREATED: seq<R.Request> := CREATE_AND_SUBMIT + [CreateRequest(STATOR)]

  lemma SecondCreatedServed()
    ensures AllServed(Around(INITIAL, 1, 1), SECOND_CREATED, Around(Run(FIRST[..3]), 3, 1))
  {
    CreateAndSubmitServed();
    SubmittedRun();
    KeysAreIssued();
    var s2 := Around(Run(TO_APPROVED[..2]), 2, 1);
    CreateServed(s2.db, 2, 1, STATOR);
    assert FIRST[..2] == TO_APPROVED[..2] && FIRST[2] == Create(2, STATOR, 7, [Link(5, 1)], 0);
    RunPrefix(FIRST, 2);
    ServedOneMore(Around(INITIAL, 1, 1), CREATE_AND_SUBMIT, s2, CreateRequest(STATOR), Around(Run(FIRST[..3]), 3, 1));
  }

  const BOTH_PENDING: seq<R.Request> := SECOND_CREATED + [SubmitRequest(2)]

  lemma BothPendingServed()
    ensures AllServed(Around(INITIAL, 1, 1), BOTH_PENDING, Around(Run(FIRST[..4]), 3, 1))
  {
    SecondCreatedServed();
    SecondCreated();
    var s3 := Around(Run(FIRST[..3]), 3, 1);
    SubmitServed(s3.db, 2, 3, 1);
    assert FIRST[3] == SubmitTx(2);
    RunPrefix(FIRST, 3);
    ServedOneMore(Around(INITIAL, 1, 1), SECOND_CREATED, s3, SubmitRequest(2), Around(Run(FIRST[..4]), 3, 1));
  }

  /** The review draws row id 2, as the sequence has yielded 1 to the review that is still open. */
  lemma FirstServed()
    ensures AllServed(Around(INITIAL, 1, 1), BOTH_PENDING + [ReviewRequest(Pass, 0, 100, 1)], Around(Run(FIRST), 3, 3))
  {
    BothPendingServed();
    BothPending();
    var s4 := Around(Run(FIRST[..4]), 3, 1);
    PassServed(s4.db, 0, 100, 1, 3, 1);
    assert FIRST[..5] == FIRST && FIRST[4] == ApproveTx(1, 9, 0, 100, 2);
    RunPrefix(FIRST, 4);
    ServedOneMore(Around(INITIAL, 1, 1), BOTH_PENDING, s4, ReviewRequest(Pass, 0, 100, 1), Around(Run(FIRST), 3, 3));
  }

  /** After the set-up these requests all succeed, and the tables are then those of the run. */
  ghost predicate Served(requests: seq<R.Request>, txs: seq<Tx>) {
    && AllValidated(SETUP) && AllValidated(SETUP + requests) && R.ServeAll(SETUP + requests).db == Run(txs)
    && AllServed(R.ServeAll(SETUP), requests, R.ServeAll(SETUP + requests))
  }

  lemma ServedAsRun(requests: seq<R.Request>, after: R.Store, txs: seq<Tx>)
    requires AllServed(Around(INITIAL, 1, 1), requests, after) && after.db == Run(txs)
    ensures Served(requests, txs)
  {
    SetupServed();
    ServedOnSetup(requests, after);
  }

  /** Every run of an example is what the service makes of these requests. */
  lemma ExamplesAreServed()
    ensures AllValidated(SETUP) && Served(TO_APPROVED_REQUESTS, TO_APPROVED) && Served(REVISED_REQUESTS, REVISED)
    ensures Served(CREATE_AND_SUBMIT + [Oversized()], OVERSIZED)
    ensures Served([CreateRequest(ROTOR)] + [RENAME], EDITED)
    ensures Served(BOTH_PENDING + [ReviewRequest(Pass, 0, 100, 1)], FIRST)
  {
    SetupServed();
    ApprovedServed();
    ServedAsRun(TO_APPROVED_REQUESTS, Around(Run(TO_APPROVED), 2, 2), TO_APPROVED);
    RevisedServed();
    ServedAsRun(REVISED_REQUESTS, Around(Run(REVISED), 2, 4), REVISED);
    OversizedServed();
    ServedAsRun(CREATE_AND_SUBMIT + [Oversized()], Around(Run(OVERSIZED), 2, 2), OVERSIZED);
    EditedServed();
    ServedAsRun([CreateRequest(ROTOR)] + [RENAME], Around(Run(EDITED), 2, 1), EDITED);
    FirstServed();
    ServedAsRun(BOTH_PENDING + [ReviewRequest(Pass, 0, 100, 1)], Around(Run(FIRST), 3, 3), FIRST);
  }

  // ---------------------------------------------------------------- the racing requests

  /**
   * Each racing request passes its checks before the others commit: the late
   * approval and the stale decline while their patents are pending, the stale
   * edit on the created row, the delete of the inventor before the create.
   */
  lemma RacersPassTheirChecks()
    ensures var db := Run(FIRST[..4]); 2 in db.patents && AssertTransition(db.patents[2].status, Approve).Success?
    ensures var db := Run(TO_APPROVED[..2]); 1 in db.patents && AssertTransition(db.patents[1].status, Decline).Success?
    ensures var s, r := Around(Run(TO_APPROVED[..1]), 2, 1), RENAME.(updates := BACK_TO_ROTOR.updates);
            && R.Validated(r) && R.AccessError(s, 1, OWNER).None? && s.db.patents[1].status in EDITABLE_STATUSES
            && s.db.patents[1].fields == BACK_TO_ROTOR.seen && R.Prechecked(s, r) == (s, Success(None))
    ensures var s := Around(INITIAL, 1, 1); 5 in s.inventors && !R.Credited(s.db.patents, 5)
  {
    BothPending();
    SubmittedRun();
    CreatedRun();
  }
}
