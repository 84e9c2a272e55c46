/** What whole runs of patent transactions keep, whatever requests interleave. */
module History {
  import opened Wrappers
  import opened Sequences
  import opened Lifecycle
  import opened Events
  import opened Outbox
  import opened PatentDb
  import ObjectKeys

  /** The database after the transactions `txs`, aborted ones included, from the empty database. */
  function Run(txs: seq<Tx>): Db {
    if txs == [] then INITIAL else ApplyTx(Run(txs[..|txs| - 1]), txs[|txs| - 1])
  }

  lemma {:induction false} RunInv(txs: seq<Tx>)
    ensures DbInv(Run(txs))
  {
    if txs == [] {
      InitialInv();
    } else {
      RunInv(txs[..|txs| - 1]);
      TxKeepsInv(Run(txs[..|txs| - 1]), txs[|txs| - 1]);
    }
  }

  lemma RunAgrees(txs: seq<Tx>, id: nat)
    ensures LogAgrees(Run(txs), id)
  {
    RunInv(txs);
  }

  /**
   * The log agrees with the status: each patent's events alternate from
   * Upserted, the last is Upserted exactly while the patent is approved and then
   * carries what the row stores, a Withdrawn names the version it withdraws, and
   * Upserted events are as many as pass reviews. Who is credited is left to
   * `CreditsAgreeOverRuns`.
   */
  lemma LogAgreesWithStatus(txs: seq<Tx>, id: nat)
    ensures var db := Run(txs);
            var es := EventsOf(db.outbox, id);
            && (forall k :: 0 <= k < |es| ==> (es[k].PatentVersionUpserted? <==> k % 2 == 0))
            && (id in db.patents && db.patents[id].status == Approved <==>
                  es != [] && es[|es| - 1].PatentVersionUpserted?)
            && (id in db.patents && db.patents[id].status == Approved ==>
                  var s, p := es[|es| - 1].snapshot, db.patents[id];
                  s.version == p.version && s.fields == p.fields && s.submittedBy == p.submittedBy)
            && Upserts(es) == Passes(DecisionsOf(db.reviews, id))
            && Coherent(es, id)
            && (id in db.patents ==> db.patents[id].status != PendingAi)
  {
    RunAgrees(txs, id);
    AgreesReadOut(Run(txs), id);
  }

  lemma AgreesReadOut(db: Db, id: nat)
    requires LogAgrees(db, id)
    ensures var es := EventsOf(db.outbox, id);
            && (forall k :: 0 <= k < |es| ==> (es[k].PatentVersionUpserted? <==> k % 2 == 0))
            && (id in db.patents && db.patents[id].status == Approved <==>
                  es != [] && es[|es| - 1].PatentVersionUpserted?)
            && (id in db.patents && db.patents[id].status == Approved ==>
                  var s, p := es[|es| - 1].snapshot, db.patents[id];
                  s.version == p.version && s.fields == p.fields && s.submittedBy == p.submittedBy)
            && Upserts(es) == Passes(DecisionsOf(db.reviews, id))
            && Coherent(es, id)
            && (id in db.patents ==> db.patents[id].status != PendingAi)
  {
    var es := EventsOf(db.outbox, id);
    if es != [] {
      assert es[|es| - 1].PatentVersionUpserted? <==> (|es| - 1) % 2 == 0;
    }
  }

  /** Of two approvals of one patent that race, whichever commits second aborts and leaves no trace. */
  lemma RacingApprovalsHaveOneWinner(db: Db, first: Tx, second: Tx)
    requires first.ApproveTx? && second.ApproveTx? && first.id == second.id
    requires Commit(db, first).Some?
    ensures Commit(ApplyTx(db, first), second).None?
    ensures ApplyTx(ApplyTx(db, first), second) == ApplyTx(db, first)
  {
    var db' := ApplyTx(db, first);
    assert db'.patents[first.id].status == Approved;
  }

  // ---------------------------------------------------------------- how a status can move

  const MOVES: set<(Status, Status)> := {
    (Draft, PendingAdmin), (Declined, PendingAdmin),
    (PendingAdmin, Approved), (PendingAdmin, Declined), (Approved, Declined)
  }

  /** An id above every one in the table. */
  function AboveAll(rows: seq<Row>): (id: nat)
    ensures forall i :: 0 <= i < |rows| ==> rows[i].id < id
  {
    if rows == [] then 1
    else
      var below := AboveAll(rows[..|rows| - 1]);
      if rows[|rows| - 1].id < below then below else rows[|rows| - 1].id + 1
  }

  function ActionTx(db: Db, id: nat, action: Action): Tx {
    match action
    case Submit => SubmitTx(id)
    case Approve => ApproveTx(id, 0, 0, 0, AboveAll(db.outbox))
    case Decline => DeclineTx(id, 0, 0, 0, AboveAll(db.outbox))
  }

  /** Each arrow is taken by the transaction of its action. */
  lemma MoveIsTaken(db: Db, id: nat, action: Action)
    requires id in db.patents && db.patents[id].status in From(action)
    ensures var db' := ApplyTx(db, ActionTx(db, id, action));
            id in db'.patents && db'.patents[id].status == To(action)
  {
  }

  lemma TxMoves(db: Db, tx: Tx, id: nat)
    requires id in db.patents && id in db.patentIds && id in ApplyTx(db, tx).patents
    ensures var a, b := db.patents[id].status, ApplyTx(db, tx).patents[id].status;
            a == b || exists action :: a in From(action) && b == To(action)
  {
    assert forall action: Action :: action in {Submit, Approve, Decline} ==> To(action) != Draft;
  }

  /** The arrows of the lifecycle, and no others: each is taken by some transaction. */
  lemma StatusMovesExactly(db: Db, id: nat, to: Status)
    requires id in db.patents && id in db.patentIds && to != db.patents[id].status
    ensures (db.patents[id].status, to) in MOVES <==>
            exists tx :: id in ApplyTx(db, tx).patents && ApplyTx(db, tx).patents[id].status == to
  {
    var from := db.patents[id].status;
    if (from, to) in MOVES {
      var action := if to == PendingAdmin then Submit else if to == Approved then Approve else Decline;
      MoveIsTaken(db, id, action);
    }
    if tx :| id in ApplyTx(db, tx).patents && ApplyTx(db, tx).patents[id].status == to {
      TxMoves(db, tx, id);
      var action :| from in From(action) && to == To(action);
    }
  }

  /**
   * While a patent is under review or approved nothing about it changes, except
   * its status by a review and its credits by the delete of an inventor.
   */
  lemma ReviewedIsFrozen(db: Db, tx: Tx, id: nat)
    requires id in db.patents && id in db.patentIds && db.patents[id].status in {PendingAdmin, Approved}
    ensures id in ApplyTx(db, tx).patents
    ensures var p, p' := db.patents[id], ApplyTx(db, tx).patents[id];
            && p' == p.(status := p'.status, links := p'.links)
            && p'.links == (if tx.DeleteInventorTx? then WithoutInventor(p.links, tx.inventorId) else p.links)
            && (p'.status != p.status ==> |ApplyTx(db, tx).reviews| == |db.reviews| + 1)
  {
  }

  // ---------------------------------------------------------------- credits over runs

  lemma RunPrefix(txs: seq<Tx>, k: nat)
    requires k < |txs|
    ensures Run(txs[..k + 1]) == ApplyTx(Run(txs[..k]), txs[k])
  {
    assert txs[..k + 1][..k] == txs[..k];
  }

  /** Inventors are deleted only while no approved patent credits them, as the count before the delete is to ensure. */
  ghost predicate GuardedDeletes(txs: seq<Tx>) {
    forall i :: 0 <= i < |txs| && txs[i].DeleteInventorTx? ==> !CreditedInCorpus(Run(txs[..i]), txs[i].inventorId)
  }

  /** With guarded deletes, events and approved rows credit the same people in the same order over every run. */
  lemma {:induction false} CreditsAgreeOverRuns(txs: seq<Tx>)
    requires GuardedDeletes(txs)
    ensures AllCreditsAgree(Run(txs))
  {
    if txs != [] {
      var n := |txs| - 1;
      assert forall i :: 0 <= i < n ==> txs[..n][..i] == txs[..i];
      CreditsAgreeOverRuns(txs[..n]);
      TxKeepsCredits(Run(txs[..n]), txs[n]);
    }
  }

  // ---------------------------------------------------------------- a patent for the examples

  const UUID_1 := "00000000-0000-4000-8000-000000000001"

  /** A document of user 7, under a key the service issues. */
  const KEY_1 := ObjectKeys.BuildObjectKey(7, UUID_1, "a.pdf")

  function Drawing(title: string, key: string): Fields {
    Fields(Some(title), Some("A"), Some("S"), Some(key), None, None)
  }

  const ROTOR := Drawing("Rotor", KEY_1)

  function Rotor(status: Status): Patent {
    Patent(ROTOR, status, 1, 7, [Link(5, 1)], 0)
  }

  const TO_APPROVED: seq<Tx> := [Create(1, ROTOR, 7, [Link(5, 1)], 0), SubmitTx(1), ApproveTx(1, 9, 0, 100, 1)]

  lemma CreatedRun()
    ensures Run(TO_APPROVED[..1]) == Db(map[1 := Rotor(Draft)], [], [], {1})
  {
    assert TO_APPROVED[..0] == [];
    RunPrefix(TO_APPROVED, 0);
  }

  lemma SubmittedRun()
    ensures Run(TO_APPROVED[..2]) == Db(map[1 := Rotor(PendingAdmin)], [], [], {1})
  {
    CreatedRun();
    RunPrefix(TO_APPROVED, 1);
  }

  lemma ApprovedRun()
    ensures Run(TO_APPROVED) ==
            Db(map[1 := Rotor(Approved)], [Review(1, 9, Pass)],
               [Row(1, 1, PatentVersionUpserted(0, 1, Snapshot(1, ROTOR, [Link(5, 1)], 7)), 100, None, None, 0)], {1})
  {
    SubmittedRun();
    assert TO_APPROVED[..3] == TO_APPROVED;
    RunPrefix(TO_APPROVED, 2);
    SortOne(Link(5, 1), CreditedBefore);
  }

  /** An event that credits whom the row credits has as many credits. */
  lemma CreditedLength(db: Db, p: nat)
    requires p in db.patents && db.patents[p].status == Approved && CreditsAgree(db, p)
    ensures var es := EventsOf(db.outbox, p);
            && es != [] && es[|es| - 1].PatentVersionUpserted?
            && |es[|es| - 1].snapshot.credits| == |db.patents[p].links|
  {
    SortPermutes(db.patents[p].links, CreditedBefore);
  }

  lemma StrippedRow(db: Db, p: nat, inventorId: nat)
    requires p in db.patents
    ensures var db' := ApplyTx(db, DeleteInventorTx(inventorId));
            && db'.outbox == db.outbox && p in db'.patents
            && db'.patents[p] == db.patents[p].(links := WithoutInventor(db.patents[p].links, inventorId))
  {
  }

  /** With the same events and fewer links, a patent whose credits agreed has credits that do not. */
  lemma FewerCreditsDisagree(db: Db, db': Db, p: nat)
    requires p in db.patents && db.patents[p].status == Approved && CreditsAgree(db, p)
    requires p in db'.patents && db'.patents[p].status == Approved && db'.outbox == db.outbox
    requires |db'.patents[p].links| < |db.patents[p].links|
    ensures !CreditsAgree(db', p)
  {
    CreditedLength(db, p);
    if CreditsAgree(db', p) {
      CreditedLength(db', p);
    }
  }

  lemma StrippedCreditDisagrees(db: Db, p: nat, inventorId: nat)
    requires p in db.patents && db.patents[p].status == Approved && CreditsAgree(db, p)
    requires inventorId in InventorIds(db.patents[p].links)
    ensures var db' := ApplyTx(db, DeleteInventorTx(inventorId));
            && p in db'.patents && db'.patents[p].status == Approved && !CreditsAgree(db', p)
            && db'.patents[p].links == WithoutInventor(db.patents[p].links, inventorId)
  {
    StrippedRow(db, p, inventorId);
    WithoutInventorExactly(db.patents[p].links, inventorId);
    FewerCreditsDisagree(db, ApplyTx(db, DeleteInventorTx(inventorId)), p);
  }

  /**
   * The count and the delete of `deleteInventor` are two statements. If the count
   * came before the create, the delete strips a published patent of its credit.
   */
  lemma InventorRaceExample()
    ensures !CreditedInCorpus(Run(TO_APPROVED[..0]), 5)
    ensures AllCreditsAgree(Run(TO_APPROVED))
    ensures var db := ApplyTx(Run(TO_APPROVED), DeleteInventorTx(5));
            && 1 in db.patents && db.patents[1].status == Approved && db.patents[1].links == []
            && !CreditsAgree(db, 1)
  {
    CreditsAgreeOverRuns(TO_APPROVED);
    ApprovedRun();
    var db := Run(TO_APPROVED);
    assert InventorIds(db.patents[1].links)[0] == 5;
    assert CreditsAgree(db, 1);
    StrippedCreditDisagrees(db, 1, 5);
    assert WithoutInventor([Link(5, 1)], 5) == [];
  }

  /** Over every run no two patents share a document key or a publication number. */
  lemma UniquesOverRuns(txs: seq<Tx>, p: nat, q: nat)
    requires p in Run(txs).patents && q in Run(txs).patents && p != q
    ensures var a, b := Run(txs).patents[p].fields, Run(txs).patents[q].fields;
            && (a.documentKey.Some? ==> a.documentKey != b.documentKey)
            && (a.publicationNumber.Some? ==> a.publicationNumber != b.publicationNumber)
  {
    RunInv(txs);
    assert UniqueOk(Run(txs).patents, p, Run(txs).patents[p].fields);
  }

  // ---------------------------------------------------------------- history is append-only

  lemma TxAppends(db: Db, tx: Tx)
    requires DbInv(db)
    ensures db.outbox <= ApplyTx(db, tx).outbox
    ensures db.reviews <= ApplyTx(db, tx).reviews
  {
    if tx.DeleteTx? && Commit(db, tx).Some? {
      assert LogAgrees(db, tx.id);
      NoDecisionsToErase(db.reviews, tx.id);
    }
  }

  lemma RunAppends(txs: seq<Tx>, tx: Tx)
    ensures Run(txs).outbox <= ApplyTx(Run(txs), tx).outbox
    ensures Run(txs).reviews <= ApplyTx(Run(txs), tx).reviews
  {
    RunInv(txs);
    TxAppends(Run(txs), tx);
  }

  /**
   * History cannot be erased: no continuation of a run removes or rewrites a
   * review or an event, although deleting a patent cascades to its reviews.
   */
  lemma {:induction false} HistoryCannotBeErased(txs: seq<Tx>, more: seq<Tx>)
    ensures Run(txs).outbox <= Run(txs + more).outbox
    ensures Run(txs).reviews <= Run(txs + more).reviews
  {
    if more == [] {
      assert txs + more == txs;
    } else {
      var n := |more| - 1;
      assert (txs + more)[..|txs + more| - 1] == txs + more[..n];
      HistoryCannotBeErased(txs, more[..n]);
      RunAppends(txs + more[..n], more[n]);
    }
  }

  /** A draft, and an id that names no patent, have no review and no event. */
  lemma DraftsHaveNoHistory(txs: seq<Tx>, id: nat)
    requires id !in Run(txs).patents || Run(txs).patents[id].status == Draft
    ensures EventsOf(Run(txs).outbox, id) == [] && DecisionsOf(Run(txs).reviews, id) == []
  {
    RunAgrees(txs, id);
  }

  // ---------------------------------------------------------------- version and content

  /** The edit's comparison, whatever row it was made with, finds a change if the row it lands on changes. */
  predicate BumpsWhenNeeded(db: Db, tx: Tx) {
    tx.Edit? && tx.id in db.patents ==>
      ContentChanged(tx.updates, tx.seen) || !ContentChanged(tx.updates, db.patents[tx.id].fields)
  }

  ghost predicate EditsBumpWhenNeeded(txs: seq<Tx>) {
    forall i :: 0 <= i < |txs| ==> BumpsWhenNeeded(Run(txs[..i]), txs[i])
  }

  /** The same patent later on: an equal version means equal content, and versions only grow. */
  predicate VersionTells(before: Patent, after: Patent) {
    && before.submittedBy == after.submittedBy && before.createdAt == after.createdAt
    && before.version <= after.version
    && (before.version == after.version ==> SameContent(before.fields, after.fields))
  }

  /** An edit writes exactly the columns the request names, each with its own value, and the links given, if any. */
  lemma EditWritesNamedColumns(db: Db, id: nat, updates: Updates, seen: Fields, newLinks: Option<seq<Link>>, field: Field)
    requires Commit(db, Edit(id, updates, seen, newLinks)).Some?
    ensures var p, p' := db.patents[id], ApplyTx(db, Edit(id, updates, seen, newLinks)).patents[id];
            && Get(p'.fields, field) == (if field in updates then updates[field] else Get(p.fields, field))
            && (newLinks.Some? ==> p'.links == newLinks.value) && (newLinks.None? ==> p'.links == p.links)
            && p' == p.(fields := p'.fields, version := p'.version, links := p'.links)
  {
  }

  /** An edit that leaves the four content columns as they are leaves the version as it is, any other adds one. */
  lemma EditBumpsExactly(db: Db, id: nat, updates: Updates, newLinks: Option<seq<Link>>)
    requires id in db.patents && Commit(db, Edit(id, updates, db.patents[id].fields, newLinks)).Some?
    ensures var p, p' := db.patents[id], ApplyTx(db, Edit(id, updates, db.patents[id].fields, newLinks)).patents[id];
            p'.version == if SameContent(p'.fields, p.fields) then p.version else p.version + 1
  {
    UnchangedContent(db.patents[id].fields, updates);
  }

  lemma UnchangedContent(f: Fields, updates: Updates)
    ensures SameContent(Merge(f, updates), f) <==> !ContentChanged(updates, f)
  {
    assert forall field :: field in CONTENT_FIELDS <==> field in [Title, AbstractText, Specification, DocumentKey];
    if !SameContent(Merge(f, updates), f) {
      assert exists field :: field in CONTENT_FIELDS && NewValue(f, updates, field) != Get(f, field) by {
        assert Title in CONTENT_FIELDS && AbstractText in CONTENT_FIELDS
            && Specification in CONTENT_FIELDS && DocumentKey in CONTENT_FIELDS;
        assert Get(f, Title) == f.title && Get(f, AbstractText) == f.abstractText
            && Get(f, Specification) == f.specification && Get(f, DocumentKey) == f.documentKey;
      }
    }
  }

  lemma TxVersionTells(db: Db, tx: Tx, id: nat)
    requires DbInv(db) && BumpsWhenNeeded(db, tx)
    requires id in ApplyTx(db, tx).patents && id in db.patentIds
    ensures id in db.patents && VersionTells(db.patents[id], ApplyTx(db, tx).patents[id])
  {
    if tx.Edit? && tx.id == id && id in db.patents {
      UnchangedContent(db.patents[id].fields, tx.updates);
    }
  }

  lemma {:induction false} PatentIdsGrow(txs: seq<Tx>, i: nat)
    requires i <= |txs|
    ensures Run(txs[..i]).patentIds <= Run(txs).patentIds
  {
    if i == |txs| {
      assert txs[..i] == txs;
    } else {
      var init := txs[..|txs| - 1];
      assert init[..i] == txs[..i];
      PatentIdsGrow(init, i);
    }
  }

  lemma EditsBumpBefore(txs: seq<Tx>, n: nat)
    requires EditsBumpWhenNeeded(txs) && n <= |txs|
    ensures EditsBumpWhenNeeded(txs[..n])
  {
    forall j | 0 <= j < n ensures BumpsWhenNeeded(Run(txs[..n][..j]), txs[..n][j]) {
      assert txs[..n][..j] == txs[..j];
    }
  }

  lemma HasHadItsId(txs: seq<Tx>, id: nat)
    requires id in Run(txs).patents
    ensures id in Run(txs).patentIds
  {
    RunInv(txs);
  }

  /** The last transaction of a run. */
  lemma LastTxTells(txs: seq<Tx>, id: nat)
    requires EditsBumpWhenNeeded(txs) && txs != []
    requires id in Run(txs).patents && id in Run(txs[..|txs| - 1]).patentIds
    ensures var init := Run(txs[..|txs| - 1]);
            id in init.patents && VersionTells(init.patents[id], Run(txs).patents[id])
  {
    var n := |txs| - 1;
    RunInv(txs[..n]);
    assert BumpsWhenNeeded(Run(txs[..n]), txs[n]);
    TxVersionTells(Run(txs[..n]), txs[n], id);
  }

  lemma BeforeTheLastTx(txs: seq<Tx>, i: nat, id: nat)
    requires EditsBumpWhenNeeded(txs) && i < |txs|
    requires id in Run(txs[..i]).patents && id in Run(txs).patents
    ensures var init := txs[..|txs| - 1];
            && init[..i] == txs[..i] && EditsBumpWhenNeeded(init) && id in Run(init).patents
            && VersionTells(Run(init).patents[id], Run(txs).patents[id])
  {
    var init := txs[..|txs| - 1];
    assert init[..i] == txs[..i];
    HasHadItsId(txs[..i], id);
    PatentIdsGrow(init, i);
    LastTxTells(txs, id);
    EditsBumpBefore(txs, |init|);
  }

  /**
   * Version determines content over a run: whenever two states of the run hold
   * the same patent, its submitter is the same, the later version is no smaller,
   * and if the versions are equal so are title, abstract, specification and
   * document key.
   */
  lemma {:induction false} VersionDeterminesContent(txs: seq<Tx>, i: nat, id: nat)
    requires EditsBumpWhenNeeded(txs) && i <= |txs|
    requires id in Run(txs[..i]).patents && id in Run(txs).patents
    ensures VersionTells(Run(txs[..i]).patents[id], Run(txs).patents[id])
  {
    if i == |txs| {
      assert txs[..i] == txs;
    } else {
      BeforeTheLastTx(txs, i, id);
      VersionDeterminesContent(txs[..|txs| - 1], i, id);
    }
  }

  ghost predicate Pictured(txs: seq<Tx>, id: nat, s: Snapshot, i: nat) {
    i <= |txs| && id in Run(txs[..i]).patents && s == SnapshotOf(Run(txs[..i]).patents[id])
  }

  /** One transaction adds at most one event to a patent. */
  lemma EventsAppend(db: Db, tx: Tx, id: nat)
    ensures var es, es' := EventsOf(db.outbox, id), EventsOf(ApplyTx(db, tx).outbox, id);
            es <= es' && |es'| <= |es| + 1
  {
    var db' := ApplyTx(db, tx);
    if db'.outbox != db.outbox {
      var row := db'.outbox[|db.outbox|];
      assert db'.outbox == db.outbox + [row];
      EventsOfEnqueue(db.outbox, row, id);
    }
  }

  lemma NewEventPictures(db: Db, tx: Tx, id: nat, k: nat)
    requires |EventsOf(db.outbox, id)| <= k < |EventsOf(ApplyTx(db, tx).outbox, id)|
    requires EventsOf(ApplyTx(db, tx).outbox, id)[k].PatentVersionUpserted?
    ensures id in ApplyTx(db, tx).patents
    ensures EventsOf(ApplyTx(db, tx).outbox, id)[k].snapshot == SnapshotOf(ApplyTx(db, tx).patents[id])
  {
    var db' := ApplyTx(db, tx);
    if db'.outbox != db.outbox {
      var row := db'.outbox[|db.outbox|];
      assert db'.outbox == db.outbox + [row];
      EventsOfEnqueue(db.outbox, row, id);
    }
  }

  /** Every Upserted event is the picture of a state the run went through. */
  lemma {:induction false} EventPicturesState(txs: seq<Tx>, id: nat, k: nat)
    requires k < |EventsOf(Run(txs).outbox, id)|
    requires EventsOf(Run(txs).outbox, id)[k].PatentVersionUpserted?
    ensures exists i: nat :: Pictured(txs, id, EventsOf(Run(txs).outbox, id)[k].snapshot, i)
  {
    if txs == [] {
      assert false;
    } else {
      var init, tx := txs[..|txs| - 1], txs[|txs| - 1];
      var s := EventsOf(Run(txs).outbox, id)[k].snapshot;
      EventsAppend(Run(init), tx, id);
      if k < |EventsOf(Run(init).outbox, id)| {
        EventPicturesState(init, id, k);
        var i: nat :| Pictured(init, id, s, i);
        assert init[..i] == txs[..i];
        assert Pictured(txs, id, s, i);
      } else {
        NewEventPictures(Run(init), tx, id, k);
        assert txs[..|txs|] == txs;
        assert Pictured(txs, id, s, |txs|);
      }
    }
  }

  lemma PicturesAgree(txs: seq<Tx>, id: nat, s: Snapshot, t: Snapshot, i: nat, j: nat)
    requires EditsBumpWhenNeeded(txs) && i <= j
    requires Pictured(txs, id, s, i) && Pictured(txs, id, t, j) && s.version == t.version
    ensures SameContent(s.fields, t.fields)
  {
    var part := txs[..j];
    assert part[..i] == txs[..i];
    EditsBumpBefore(txs, j);
    VersionDeterminesContent(part, i, id);
  }

  /** The same for events: two Upserted events of one patent with one version carry one content. */
  lemma EventVersionDeterminesContent(txs: seq<Tx>, id: nat, k: nat, l: nat)
    requires EditsBumpWhenNeeded(txs)
    requires var es := EventsOf(Run(txs).outbox, id);
             && k < |es| && l < |es| && es[k].PatentVersionUpserted? && es[l].PatentVersionUpserted?
             && es[k].snapshot.version == es[l].snapshot.version
    ensures var es := EventsOf(Run(txs).outbox, id);
            SameContent(es[k].snapshot.fields, es[l].snapshot.fields)
  {
    EventPicturesState(txs, id, k);
    EventPicturesState(txs, id, l);
    var es := EventsOf(Run(txs).outbox, id);
    var i: nat :| Pictured(txs, id, es[k].snapshot, i);
    var j: nat :| Pictured(txs, id, es[l].snapshot, j);
    if i <= j {
      PicturesAgree(txs, id, es[k].snapshot, es[l].snapshot, i, j);
    } else {
      PicturesAgree(txs, id, es[l].snapshot, es[k].snapshot, j, i);
    }
  }

  // ---------------------------------------------------------------- where reads go stale

  /**
   * `contentChanged` is computed from a row read before the transaction. The
   * edit keeps version and content together exactly when that comparison finds a
   * change, or the row it lands on would not change either.
   */
  lemma StaleEditExact(db: Db, id: nat, updates: Updates, seen: Fields, newLinks: Option<seq<Link>>)
    requires Commit(db, Edit(id, updates, seen, newLinks)).Some?
    ensures VersionTells(db.patents[id], ApplyTx(db, Edit(id, updates, seen, newLinks)).patents[id]) <==>
            ContentChanged(updates, seen) || !ContentChanged(updates, db.patents[id].fields)
  {
    UnchangedContent(db.patents[id].fields, updates);
  }

  const TO_STATOR := Edit(1, map[Title := Some("Stator")], ROTOR, None)
  const BACK_TO_ROTOR := Edit(1, map[Title := Some("Rotor")], ROTOR, None)

  const EDITED: seq<Tx> := [TO_APPROVED[0], TO_STATOR]

  lemma TitleChanged(title: string)
    ensures ContentChanged(map[Title := Some(title)], ROTOR) <==> title != "Rotor"
  {
    assert Title in CONTENT_FIELDS && Get(ROTOR, Title) == Some("Rotor");
  }

  lemma EditApplied(db: Db)
    requires db == Db(map[1 := Rotor(Draft)], [], [], {1})
    ensures ApplyTx(db, TO_STATOR).patents == map[1 := Rotor(Draft).(fields := Drawing("Stator", KEY_1), version := 2)]
  {
    TitleChanged("Stator");
    assert Merge(ROTOR, TO_STATOR.updates) == Drawing("Stator", KEY_1);
  }

  lemma EditedRun()
    ensures Run(EDITED) == ApplyTx(Run(TO_APPROVED[..1]), TO_STATOR)
    ensures Run(EDITED).patents == map[1 := Rotor(Draft).(fields := Drawing("Stator", KEY_1), version := 2)]
  {
    assert EDITED[..1] == TO_APPROVED[..1] && EDITED[..2] == EDITED && EDITED[1] == TO_STATOR;
    CreatedRun();
    EditApplied(Run(TO_APPROVED[..1]));
    RunPrefix(EDITED, 1);
  }

  /** Two concurrent edits, both computed against the created row, give version 2 two titles. */
  lemma StaleEditExample()
    ensures var db := Run(EDITED);
            var db' := ApplyTx(db, BACK_TO_ROTOR);
            && 1 in db.patents && 1 in db'.patents
            && db.patents[1].version == db'.patents[1].version == 2
            && db.patents[1].fields.title != db'.patents[1].fields.title
  {
    EditedRun();
    TitleChanged("Rotor");
  }

  /**
   * `review` reads `before` in a statement of its own. Under read-committed it
   * may be stale; the decline then keeps the log in agreement exactly when the
   * status it read and the status it landed on are both approved or both not.
   */
  lemma StaleDeclineExact(db: Db, id: nat, before: Status, reviewerId: nat, eventId: nat, bytes: nat, rowId: nat)
    requires DbInv(db) && id in db.patents
    requires DeclineSeeing(db, id, before, reviewerId, eventId, bytes, rowId).Some?
    ensures (forall other: nat :: LogAgrees(DeclineSeeing(db, id, before, reviewerId, eventId, bytes, rowId).value, other))
            <==> (before == Approved <==> db.patents[id].status == Approved)
  {
    var db' := DeclineSeeing(db, id, before, reviewerId, eventId, bytes, rowId).value;
    assert LogAgrees(db, id);
    if before == Approved <==> db.patents[id].status == Approved {
      forall other: nat ensures LogAgrees(db', other) {
        assert LogAgrees(db, other);
        DeclineKeepsLog(db, id, reviewerId, eventId, bytes, rowId, other);
      }
    } else {
      StaleDeclineDisagrees(db, id, before, reviewerId, eventId, bytes, rowId);
    }
  }

  /** A decline that saw anything but approved always goes through, and emits nothing. */
  lemma StaleDeclineIsSilent(db: Db, id: nat, before: Status, reviewerId: nat, eventId: nat, bytes: nat, rowId: nat)
    requires id in db.patents && db.patents[id].status == Approved && before != Approved
    ensures DeclineSeeing(db, id, before, reviewerId, eventId, bytes, rowId) ==
            Some(db.(patents := db.patents[id := db.patents[id].(status := Declined)],
                     reviews := db.reviews + [Review(id, reviewerId, Fail)]))
  {
  }

  lemma OddWhileApproved(db: Db, id: nat)
    requires LogAgrees(db, id)
    ensures |EventsOf(db.outbox, id)| % 2 == 1 <==> id in db.patents && db.patents[id].status == Approved
  {
  }

  lemma OddAndDeclinedDisagrees(db: Db, id: nat)
    requires id in db.patents && db.patents[id].status == Declined && |EventsOf(db.outbox, id)| % 2 == 1
    ensures !LogAgrees(db, id)
  {
  }

  lemma DeclineAddsOneOrNone(db: Db, id: nat, before: Status, reviewerId: nat, eventId: nat, bytes: nat, rowId: nat)
    requires DeclineSeeing(db, id, before, reviewerId, eventId, bytes, rowId).Some?
    ensures var db' := DeclineSeeing(db, id, before, reviewerId, eventId, bytes, rowId).value;
            && id in db'.patents && db'.patents[id].status == Declined
            && |EventsOf(db'.outbox, id)| == |EventsOf(db.outbox, id)| + if before == Approved then 1 else 0
  {
    if before == Approved {
      var e := PatentVersionWithdrawn(eventId, id, db.patents[id].version, "declined");
      EventsOfEnqueue(db.outbox, Row(rowId, id, e, bytes, None, None, 0), id);
    }
  }

  lemma StaleDeclineIsOdd(db: Db, id: nat, before: Status, reviewerId: nat, eventId: nat, bytes: nat, rowId: nat)
    requires |EventsOf(db.outbox, id)| % 2 == 1 <==> id in db.patents && db.patents[id].status == Approved
    requires DeclineSeeing(db, id, before, reviewerId, eventId, bytes, rowId).Some?
    requires !(before == Approved <==> db.patents[id].status == Approved)
    ensures var db' := DeclineSeeing(db, id, before, reviewerId, eventId, bytes, rowId).value;
            id in db'.patents && db'.patents[id].status == Declined && |EventsOf(db'.outbox, id)| % 2 == 1
  {
    DeclineAddsOneOrNone(db, id, before, reviewerId, eventId, bytes, rowId);
  }

  lemma StaleDeclineDisagrees(db: Db, id: nat, before: Status, reviewerId: nat, eventId: nat, bytes: nat, rowId: nat)
    requires LogAgrees(db, id) && id in db.patents
    requires DeclineSeeing(db, id, before, reviewerId, eventId, bytes, rowId).Some?
    requires !(before == Approved <==> db.patents[id].status == Approved)
    ensures !LogAgrees(DeclineSeeing(db, id, before, reviewerId, eventId, bytes, rowId).value, id)
  {
    OddWhileApproved(db, id);
    StaleDeclineIsOdd(db, id, before, reviewerId, eventId, bytes, rowId);
    OddAndDeclinedDisagrees(DeclineSeeing(db, id, before, reviewerId, eventId, bytes, rowId).value, id);
  }

  /**
   * A run the service can produce: a decline reads `before` while the patent is
   * pending, an approval commits, and the decline lands on the approved row. No
   * withdrawal is emitted, so the patent is declined and its last event Upserted.
   */
  lemma StaleDeclineExample()
    ensures var read, landing := Run(TO_APPROVED[..2]), Run(TO_APPROVED);
            && 1 in read.patents && DeclineSeeing(landing, 1, read.patents[1].status, 9, 1, 100, 2).Some?
            && var db := DeclineSeeing(landing, 1, read.patents[1].status, 9, 1, 100, 2).value;
            && db.patents[1].status == Declined && db.outbox == landing.outbox
            && !LogAgrees(db, 1)
  {
    ApprovedRun();
    SubmittedRun();
    RunAgrees(TO_APPROVED, 1);
    var landing := Run(TO_APPROVED);
    StaleDeclineIsSilent(landing, 1, PendingAdmin, 9, 1, 100, 2);
    StaleDeclineDisagrees(landing, 1, PendingAdmin, 9, 1, 100, 2);
  }
}
