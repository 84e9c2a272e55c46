/**
 * The PATENT, PATENT_REVIEW and OUTBOX_EVENT tables and the transactions that
 * src/services/patentService.js runs on them. One `Tx` is one committed or
 * aborted transaction; what a request read beforehand is an argument of it.
 */
module PatentDb {
  import opened Wrappers
  import opened Sequences
  import opened Lifecycle
  import opened Events
  import opened Outbox

  datatype Patent = Patent(
    fields: Fields,
    status: Status,
    version: nat,
    submittedBy: nat,
    links: seq<Link>,
    createdAt: nat)

  datatype Decision = Pass | Fail

  datatype Review = Review(patentId: nat, reviewerId: nat, decision: Decision)

  /** `patentIds` are the ids patents have ever had: a sequence never yields one twice. */
  datatype Db = Db(
    patents: map<nat, Patent>,
    reviews: seq<Review>,
    outbox: seq<Row>,
    patentIds: set<nat>)

  const INITIAL := Db(map[], [], [], {})

  // ---------------------------------------------------------------- columns and edits

  datatype Field = Title | AbstractText | Specification | DocumentKey | PublicationNumber | Jurisdiction

  const CONTENT_FIELDS: seq<Field> := [Title, AbstractText, Specification, DocumentKey]
  const METADATA_FIELDS: seq<Field> := [PublicationNumber, Jurisdiction]

  /** The columns present in a PATCH body; an absent key is JavaScript's `undefined`. */
  type Updates = map<Field, Value>

  function Get(f: Fields, field: Field): Value {
    match field
    case Title => f.title
    case AbstractText => f.abstractText
    case Specification => f.specification
    case DocumentKey => f.documentKey
    case PublicationNumber => f.publicationNumber
    case Jurisdiction => f.jurisdiction
  }

  function NewValue(f: Fields, updates: Updates, field: Field): Value {
    if field in updates then updates[field] else Get(f, field)
  }

  function Merge(f: Fields, updates: Updates): Fields {
    Fields(
      NewValue(f, updates, Title),
      NewValue(f, updates, AbstractText),
      NewValue(f, updates, Specification),
      NewValue(f, updates, DocumentKey),
      NewValue(f, updates, PublicationNumber),
      NewValue(f, updates, Jurisdiction))
  }

  predicate ContentChanged(updates: Updates, f: Fields) {
    exists field :: field in CONTENT_FIELDS && field in updates && updates[field] != Get(f, field)
  }

  // ---------------------------------------------------------------- transactions

  /**
   * The ids of new rows were drawn earlier in the transaction, so concurrent
   * transactions may commit in another order than that of their ids.
   */
  datatype Tx =
    | Create(id: nat, fields: Fields, submittedBy: nat, links: seq<Link>, now: nat)
    | Edit(id: nat, updates: Updates, seen: Fields, newLinks: Option<seq<Link>>)
    | SubmitTx(id: nat)
    | ApproveTx(id: nat, reviewerId: nat, eventId: nat, bytes: nat, rowId: nat)
    | DeclineTx(id: nat, reviewerId: nat, eventId: nat, bytes: nat, rowId: nat)
    | DeleteTx(id: nat)
    | DeleteInventorTx(inventorId: nat)

  /** The unique columns: no other patent holds this document key or publication number. */
  predicate UniqueOk(patents: map<nat, Patent>, id: nat, f: Fields) {
    forall q :: q in patents && q != id ==>
      && (f.documentKey.Some? ==> patents[q].fields.documentKey != f.documentKey)
      && (f.publicationNumber.Some? ==> patents[q].fields.publicationNumber != f.publicationNumber)
  }

  /** The primary key (patent_id, inventor_id). */
  predicate DistinctInventors(links: seq<Link>) {
    Distinct(InventorIds(links))
  }

  /** What `ON DELETE CASCADE` leaves in PATENT_INVENTOR. */
  function WithoutInventor(links: seq<Link>, inventorId: nat): seq<Link> {
    if links == [] then []
    else (if links[0].inventorId == inventorId then [] else [links[0]]) + WithoutInventor(links[1..], inventorId)
  }

  function SnapshotOf(p: Patent): Snapshot {
    Snapshot(p.version, p.fields, SortLinks(p.links), p.submittedBy)
  }

  /** `applyTransition`: a conditional write that aborts the transaction when no row matches. */
  function ApplyTransition(db: Db, id: nat, action: Action): Option<Db> {
    if id in db.patents && db.patents[id].status in From(action) then
      Some(db.(patents := db.patents[id := db.patents[id].(status := To(action))]))
    else None
  }

  /**
   * An id the sequence can have yielded to a review of `id`: unused, and above
   * those of the patent's earlier events, as the review draws it while it holds
   * the lock on the patent's row.
   */
  predicate Drawable(rows: seq<Row>, id: nat, rowId: nat) {
    forall i :: 0 <= i < |rows| ==> rows[i].id != rowId && (rows[i].aggregateId == id ==> rows[i].id < rowId)
  }

  /** A run with an id that cannot have been drawn does not happen: `None`. */
  function Enqueue(db: Db, id: nat, event: Event, bytes: nat, rowId: nat): Option<Db> {
    if Drawable(db.outbox, id, rowId) then
      Some(db.(outbox := db.outbox + [Row(rowId, id, event, bytes, None, None, 0)]))
    else None
  }

  function AddReview(db: Db, review: Review): Db {
    db.(reviews := db.reviews + [review])
  }

  function CommitCreate(db: Db, id: nat, fields: Fields, submittedBy: nat, links: seq<Link>, now: nat): Option<Db> {
    if id !in db.patentIds && UniqueOk(db.patents, id, fields) && DistinctInventors(links) then
      Some(db.(patents := db.patents[id := Patent(fields, Draft, 1, submittedBy, links, now)],
               patentIds := db.patentIds + {id}))
    else None
  }

  /** `seen` is the row read before the transaction; only the version bump depends on it. */
  function EditedRow(p: Patent, updates: Updates, seen: Fields, newLinks: Option<seq<Link>>): Patent {
    p.(fields := Merge(p.fields, updates),
       version := if ContentChanged(updates, seen) then p.version + 1 else p.version,
       links := newLinks.GetOr(p.links))
  }

  function CommitEdit(db: Db, id: nat, updates: Updates, seen: Fields, newLinks: Option<seq<Link>>): Option<Db> {
    if id in db.patents && db.patents[id].status in EDITABLE_STATUSES then
      var p := EditedRow(db.patents[id], updates, seen, newLinks);
      if UniqueOk(db.patents, id, p.fields) && DistinctInventors(p.links) then
        Some(db.(patents := db.patents[id := p]))
      else None
    else None
  }

  /** `seen` are the links read for the event, in a statement of its own after the status is written. */
  function ApproveSeeing(
      db: Db, id: nat, seen: seq<Link>, reviewerId: nat, eventId: nat, bytes: nat, rowId: nat): Option<Db> {
    match ApplyTransition(db, id, Approve)
    case None => None
    case Some(d) =>
      var event := PatentVersionUpserted(eventId, id, SnapshotOf(d.patents[id].(links := seen)));
      Enqueue(AddReview(d, Review(id, reviewerId, Pass)), id, event, bytes, rowId)
  }

  function CommitApprove(db: Db, id: nat, reviewerId: nat, eventId: nat, bytes: nat, rowId: nat): Option<Db> {
    if id in db.patents then ApproveSeeing(db, id, db.patents[id].links, reviewerId, eventId, bytes, rowId) else None
  }

  /** `before` is the status that decides whether a withdrawal is emitted. */
  function DeclineSeeing(db: Db, id: nat, before: Status, reviewerId: nat, eventId: nat, bytes: nat, rowId: nat): Option<Db> {
    match ApplyTransition(db, id, Decline)
    case None => None
    case Some(d) =>
      var reviewed := AddReview(d, Review(id, reviewerId, Fail));
      if before == Approved then
        Enqueue(reviewed, id, PatentVersionWithdrawn(eventId, id, d.patents[id].version, "declined"), bytes, rowId)
      else Some(reviewed)
  }

  function CommitDelete(db: Db, id: nat): Option<Db> {
    if id in db.patents && db.patents[id].status == Draft then
      Some(db.(patents := db.patents - {id}, reviews := WithoutReviews(db.reviews, id)))
    else None
  }

  /** What `ON DELETE CASCADE` leaves in PATENT_REVIEW. */
  function WithoutReviews(reviews: seq<Review>, id: nat): seq<Review> {
    if reviews == [] then []
    else WithoutReviews(reviews[..|reviews| - 1], id) +
         if reviews[|reviews| - 1].patentId == id then [] else [reviews[|reviews| - 1]]
  }

  /** The second of the two statements of `deleteInventor`; the count before it may be out of date. */
  function CommitDeleteInventor(db: Db, inventorId: nat): Db {
    db.(patents := map p | p in db.patents ::
      db.patents[p].(links := WithoutInventor(db.patents[p].links, inventorId)))
  }

  /** The effect of one transaction, or `None` when it aborts and changes nothing. */
  function Commit(db: Db, tx: Tx): Option<Db> {
    match tx
    case Create(id, fields, submittedBy, links, now) => CommitCreate(db, id, fields, submittedBy, links, now)
    case Edit(id, updates, seen, newLinks) => CommitEdit(db, id, updates, seen, newLinks)
    case SubmitTx(id) => ApplyTransition(db, id, Submit)
    case ApproveTx(id, reviewerId, eventId, bytes, rowId) => CommitApprove(db, id, reviewerId, eventId, bytes, rowId)
    case DeclineTx(id, reviewerId, eventId, bytes, rowId) =>
      if id in db.patents
      then DeclineSeeing(db, id, db.patents[id].status, reviewerId, eventId, bytes, rowId)
      else None
    case DeleteTx(id) => CommitDelete(db, id)
    case DeleteInventorTx(inventorId) => Some(CommitDeleteInventor(db, inventorId))
  }

  function ApplyTx(db: Db, tx: Tx): Db {
    Commit(db, tx).GetOr(db)
  }

  // ---------------------------------------------------------------- one patent's history

  function EventsOf(rows: seq<Row>, id: nat): seq<Event> {
    if rows == [] then []
    else
      var last := rows[|rows| - 1];
      EventsOf(rows[..|rows| - 1], id) + if last.aggregateId == id then [last.payload] else []
  }

  function DecisionsOf(reviews: seq<Review>, id: nat): seq<Decision> {
    if reviews == [] then []
    else
      var last := reviews[|reviews| - 1];
      DecisionsOf(reviews[..|reviews| - 1], id) + if last.patentId == id then [last.decision] else []
  }

  function Passes(ds: seq<Decision>): nat {
    if ds == [] then 0 else Passes(ds[..|ds| - 1]) + if ds[|ds| - 1] == Pass then 1 else 0
  }

  function Upserts(es: seq<Event>): nat {
    if es == [] then 0 else Upserts(es[..|es| - 1]) + if es[|es| - 1].PatentVersionUpserted? then 1 else 0
  }

  function RowOf(db: Db, id: nat): Option<Patent> {
    if id in db.patents then Some(db.patents[id]) else None
  }

  /** Upserted, Withdrawn, Upserted, ... beginning with Upserted. */
  predicate Alternates(es: seq<Event>) {
    forall k :: 0 <= k < |es| ==> (es[k].PatentVersionUpserted? <==> k % 2 == 0)
  }

  /** All are about this patent, and a withdrawal names the version that was published just before. */
  predicate Coherent(es: seq<Event>, id: nat) {
    && (forall k :: 0 <= k < |es| ==> es[k].patentId == id)
    && (forall k, l :: 0 <= k < |es| && l == k + 1 < |es| && es[k].PatentVersionUpserted? && es[l].PatentVersionWithdrawn?
          ==> es[l].version == es[k].snapshot.version)
  }

  /** What the log says about one patent, against its row and its review trail. */
  predicate Agrees(id: nat, es: seq<Event>, ds: seq<Decision>, row: Option<Patent>) {
    && Alternates(es)
    && Coherent(es, id)
    && Upserts(es) == Passes(ds)
    && (row.None? || row.value.status == Draft ==> es == [] && ds == [])
    && ((row.Some? && row.value.status == Approved) <==> |es| % 2 == 1)
    && (row.Some? ==> row.value.status != PendingAi)
    && (row.Some? && row.value.status == Approved ==>
          WithoutCredits(es[|es| - 1].snapshot) == WithoutCredits(SnapshotOf(row.value)))
  }

  ghost predicate LogAgrees(db: Db, id: nat) {
    Agrees(id, EventsOf(db.outbox, id), DecisionsOf(db.reviews, id), RowOf(db, id))
  }

  /** Of one patent's events the later committed has the higher id. */
  predicate PatentOrdered(rows: seq<Row>) {
    forall i, j :: 0 <= i < j < |rows| && rows[i].aggregateId == rows[j].aggregateId ==> rows[i].id < rows[j].id
  }

  ghost predicate DbInv(db: Db) {
    && DistinctIds(db.outbox) && PatentOrdered(db.outbox)
    && (forall id :: id in db.patents ==> id in db.patentIds && UniqueOk(db.patents, id, db.patents[id].fields))
    && (forall id: nat :: LogAgrees(db, id))
  }

  // ---------------------------------------------------------------- small facts

  lemma {:induction false} EventsOfSame(a: seq<Row>, b: seq<Row>, id: nat)
    requires SameEntries(a, b)
    ensures EventsOf(a, id) == EventsOf(b, id)
  {
    if a != [] {
      EventsOfSame(a[..|a| - 1], b[..|b| - 1], id);
    }
  }

  lemma {:induction false} NoDecisionsToErase(reviews: seq<Review>, id: nat)
    requires DecisionsOf(reviews, id) == []
    ensures WithoutReviews(reviews, id) == reviews
  {
    if reviews != [] {
      NoDecisionsToErase(reviews[..|reviews| - 1], id);
    }
  }

  lemma EventsOfEnqueue(rows: seq<Row>, row: Row, id: nat)
    ensures EventsOf(rows + [row], id) == EventsOf(rows, id) + if row.aggregateId == id then [row.payload] else []
  {
    assert (rows + [row])[..|rows|] == rows;
  }

  lemma DecisionsOfAdd(reviews: seq<Review>, review: Review, id: nat)
    ensures DecisionsOf(reviews + [review], id) ==
            DecisionsOf(reviews, id) + if review.patentId == id then [review.decision] else []
  {
    assert (reviews + [review])[..|reviews|] == reviews;
  }

  lemma UpsertsAdd(es: seq<Event>, e: Event)
    ensures Upserts(es + [e]) == Upserts(es) + if e.PatentVersionUpserted? then 1 else 0
  {
    assert (es + [e])[..|es|] == es;
  }

  lemma PassesAdd(ds: seq<Decision>, d: Decision)
    ensures Passes(ds + [d]) == Passes(ds) + if d == Pass then 1 else 0
  {
    assert (ds + [d])[..|ds|] == ds;
  }

  // ---------------------------------------------------------------- every transaction keeps the invariant

  lemma InitialInv()
    ensures DbInv(INITIAL)
  {
    assert forall id: nat :: LogAgrees(INITIAL, id);
  }

  lemma AgreesAfterApproval(id: nat, es: seq<Event>, ds: seq<Decision>, p: Patent, e: Event)
    requires Agrees(id, es, ds, Some(p)) && p.status == PendingAdmin && e.patentId == id
    requires e.PatentVersionUpserted? && e.snapshot == SnapshotOf(p.(status := Approved))
    ensures Agrees(id, es + [e], ds + [Pass], Some(p.(status := Approved)))
  {
    PassesAdd(ds, Pass);
    UpsertsAdd(es, e);
  }

  lemma AgreesAfterWithdrawal(id: nat, es: seq<Event>, ds: seq<Decision>, p: Patent, e: Event)
    requires Agrees(id, es, ds, Some(p)) && p.status == Approved && e.patentId == id
    requires e.PatentVersionWithdrawn? && e.version == p.version
    ensures Agrees(id, es + [e], ds + [Fail], Some(p.(status := Declined)))
  {
    PassesAdd(ds, Fail);
    UpsertsAdd(es, e);
  }

  lemma AgreesAfterRejection(id: nat, es: seq<Event>, ds: seq<Decision>, p: Patent)
    requires Agrees(id, es, ds, Some(p)) && p.status == PendingAdmin
    ensures Agrees(id, es, ds + [Fail], Some(p.(status := Declined)))
  {
    PassesAdd(ds, Fail);
  }

  /** The review step, for the patent it concerns: exactly one new decision, and an event iff `e` is given. */
  lemma AgreesAfterReview(id: nat, es: seq<Event>, ds: seq<Decision>, p: Patent, e: Option<Event>, d: Decision, status: Status)
    requires Agrees(id, es, ds, Some(p)) && (e.Some? ==> e.value.patentId == id)
    requires p.status == PendingAdmin || p.status == Approved
    requires status == if d == Pass then Approved else Declined
    requires d == Pass ==> p.status == PendingAdmin
    requires e.Some? <==> (d == Pass || p.status == Approved)
    requires d == Pass ==> e.value.PatentVersionUpserted? && e.value.snapshot == SnapshotOf(p.(status := status))
    requires d == Fail && e.Some? ==> e.value.PatentVersionWithdrawn? && e.value.version == p.version
    ensures Agrees(id, es + (if e.Some? then [e.value] else []), ds + [d], Some(p.(status := status)))
  {
    if d == Pass {
      AgreesAfterApproval(id, es, ds, p, e.value);
    } else if e.Some? {
      AgreesAfterWithdrawal(id, es, ds, p, e.value);
    } else {
      AgreesAfterRejection(id, es, ds, p);
      assert es + [] == es;
    }
  }

  lemma ReviewKeepsLog(db: Db, id: nat, d: Decision, e: Option<Event>, db': Db, other: nat)
    requires LogAgrees(db, other) && LogAgrees(db, id) && id in db.patents
    requires var p := db.patents[id];
             var status := if d == Pass then Approved else Declined;
             && (p.status == PendingAdmin || p.status == Approved)
             && (d == Pass ==> p.status == PendingAdmin)
             && (e.Some? <==> (d == Pass || p.status == Approved))
             && (d == Pass ==> e.value.PatentVersionUpserted? && e.value.snapshot == SnapshotOf(p.(status := status)))
             && (e.Some? ==> e.value.patentId == id)
             && (d == Fail && e.Some? ==> e.value.PatentVersionWithdrawn? && e.value.version == p.version)
             && db'.patents == db.patents[id := p.(status := status)]
    requires exists r :: db'.reviews == db.reviews + [Review(id, r, d)]
    requires if e.Some? then exists k, b :: db'.outbox == db.outbox + [Row(k, id, e.value, b, None, None, 0)]
             else db'.outbox == db.outbox
    ensures LogAgrees(db', other)
  {
    var r :| db'.reviews == db.reviews + [Review(id, r, d)];
    DecisionsOfAdd(db.reviews, Review(id, r, d), other);
    if e.Some? {
      var k, b :| db'.outbox == db.outbox + [Row(k, id, e.value, b, None, None, 0)];
      EventsOfEnqueue(db.outbox, Row(k, id, e.value, b, None, None, 0), other);
    }
    if other == id {
      AgreesAfterReview(id, EventsOf(db.outbox, id), DecisionsOf(db.reviews, id), db.patents[id], e, d,
                        if d == Pass then Approved else Declined);
    }
    assert DecisionsOf(db.reviews, other) + [] == DecisionsOf(db.reviews, other);
    assert EventsOf(db.outbox, other) + [] == EventsOf(db.outbox, other);
  }

  lemma ApproveKeepsLog(db: Db, id: nat, reviewerId: nat, eventId: nat, bytes: nat, rowId: nat, other: nat)
    requires LogAgrees(db, id) && LogAgrees(db, other)
    requires CommitApprove(db, id, reviewerId, eventId, bytes, rowId).Some?
    ensures LogAgrees(CommitApprove(db, id, reviewerId, eventId, bytes, rowId).value, other)
  {
    var db' := CommitApprove(db, id, reviewerId, eventId, bytes, rowId).value;
    var e := PatentVersionUpserted(eventId, id, SnapshotOf(db.patents[id].(status := Approved)));
    assert db'.reviews == db.reviews + [Review(id, reviewerId, Pass)];
    assert db'.outbox == db.outbox + [Row(rowId, id, e, bytes, None, None, 0)];
    ReviewKeepsLog(db, id, Pass, Some(e), db', other);
  }

  lemma DeclineKeepsLog(db: Db, id: nat, reviewerId: nat, eventId: nat, bytes: nat, rowId: nat, other: nat)
    requires LogAgrees(db, id) && LogAgrees(db, other) && id in db.patents
    requires DeclineSeeing(db, id, db.patents[id].status, reviewerId, eventId, bytes, rowId).Some?
    ensures LogAgrees(DeclineSeeing(db, id, db.patents[id].status, reviewerId, eventId, bytes, rowId).value, other)
  {
    var db' := DeclineSeeing(db, id, db.patents[id].status, reviewerId, eventId, bytes, rowId).value;
    assert db'.reviews == db.reviews + [Review(id, reviewerId, Fail)];
    if db.patents[id].status == Approved {
      var e := PatentVersionWithdrawn(eventId, id, db.patents[id].version, "declined");
      assert db'.outbox == db.outbox + [Row(rowId, id, e, bytes, None, None, 0)];
      ReviewKeepsLog(db, id, Fail, Some(e), db', other);
    } else {
      ReviewKeepsLog(db, id, Fail, None, db', other);
    }
  }

  /** Submits and edits change neither the log nor the reviews, and never an approved row. */
  lemma UnreviewedKeepsLog(db: Db, db': Db, id: nat, other: nat)
    requires LogAgrees(db, id) && LogAgrees(db, other)
    requires db'.outbox == db.outbox && db'.reviews == db.reviews
    requires forall q :: q != id ==> RowOf(db', q) == RowOf(db, q)
    requires id in db'.patents && db'.patents[id].status in EDITABLE_STATUSES + {PendingAdmin}
    requires RowOf(db, id).None? || db.patents[id].status in EDITABLE_STATUSES
    requires db'.patents[id].status == Draft ==> RowOf(db, id).None? || db.patents[id].status == Draft
    ensures LogAgrees(db', other)
  {
  }

  lemma DeleteKeepsLog(db: Db, id: nat, other: nat)
    requires LogAgrees(db, id) && LogAgrees(db, other)
    requires CommitDelete(db, id).Some?
    ensures LogAgrees(CommitDelete(db, id).value, other)
  {
    NoDecisionsToErase(db.reviews, id);
  }

  /** The delete touches links only, of which agreement says nothing. */
  lemma DeleteInventorKeepsLog(db: Db, inventorId: nat, id: nat)
    requires LogAgrees(db, id)
    ensures LogAgrees(CommitDeleteInventor(db, inventorId), id)
  {
  }

  lemma TxKeepsLog(db: Db, tx: Tx, other: nat)
    requires LogAgrees(db, other) && (!tx.DeleteInventorTx? ==> LogAgrees(db, tx.id))
    requires tx.Create? && tx.id in db.patents ==> tx.id in db.patentIds
    ensures LogAgrees(ApplyTx(db, tx), other)
  {
    if Commit(db, tx).Some? {
      match tx
      case ApproveTx(id, reviewerId, eventId, bytes, rowId) =>
        ApproveKeepsLog(db, id, reviewerId, eventId, bytes, rowId, other);
      case DeclineTx(id, reviewerId, eventId, bytes, rowId) =>
        DeclineKeepsLog(db, id, reviewerId, eventId, bytes, rowId, other);
      case DeleteTx(id) =>
        DeleteKeepsLog(db, id, other);
      case DeleteInventorTx(inventorId) =>
        DeleteInventorKeepsLog(db, inventorId, other);
      case _ =>
        UnreviewedKeepsLog(db, ApplyTx(db, tx), tx.id, other);
    }
  }

  lemma TxKeepsIds(db: Db, tx: Tx)
    requires DistinctIds(db.outbox) && PatentOrdered(db.outbox)
    ensures DistinctIds(ApplyTx(db, tx).outbox) && PatentOrdered(ApplyTx(db, tx).outbox)
  {
  }

  /** A transaction rewrites at most one patent's fields, and only with values that are free. */
  lemma TxWritesOne(db: Db, tx: Tx)
    requires !tx.DeleteInventorTx?
    ensures var db' := ApplyTx(db, tx);
            && (forall id :: id in db'.patents && id != tx.id ==> id in db.patents && db'.patents[id] == db.patents[id])
            && (tx.id in db'.patents ==>
                  (tx.id in db.patents && db'.patents[tx.id].fields == db.patents[tx.id].fields)
                  || UniqueOk(db.patents, tx.id, db'.patents[tx.id].fields))
  {
  }

  lemma TxKeepsPatentIds(db: Db, tx: Tx)
    requires forall id :: id in db.patents ==> id in db.patentIds
    ensures db.patentIds <= ApplyTx(db, tx).patentIds
    ensures forall id :: id in ApplyTx(db, tx).patents ==> id in ApplyTx(db, tx).patentIds
  {
  }

  lemma TxKeepsUniques(db: Db, tx: Tx)
    requires forall id :: id in db.patents ==> UniqueOk(db.patents, id, db.patents[id].fields)
    ensures var db' := ApplyTx(db, tx);
            forall id :: id in db'.patents ==> UniqueOk(db'.patents, id, db'.patents[id].fields)
  {
    var db' := ApplyTx(db, tx);
    if tx.DeleteInventorTx? {
      assert forall id :: id in db'.patents ==> id in db.patents && db'.patents[id].fields == db.patents[id].fields;
    } else {
      TxWritesOne(db, tx);
      OneWriteKeepsUniques(db.patents, db'.patents, tx.id);
    }
  }

  lemma OneWriteKeepsUniques(a: map<nat, Patent>, b: map<nat, Patent>, t: nat)
    requires forall id :: id in a ==> UniqueOk(a, id, a[id].fields)
    requires forall id :: id in b && id != t ==> id in a && b[id] == a[id]
    requires t in b ==> UniqueOk(a, t, b[t].fields) || (t in a && b[t].fields == a[t].fields)
    ensures forall id :: id in b ==> UniqueOk(b, id, b[id].fields)
  {
    assert t in b ==> UniqueOk(a, t, b[t].fields);
  }

  lemma TxKeepsInv(db: Db, tx: Tx)
    requires DbInv(db)
    ensures DbInv(ApplyTx(db, tx))
  {
    forall id: nat ensures LogAgrees(ApplyTx(db, tx), id) {
      assert LogAgrees(db, id) && (!tx.DeleteInventorTx? ==> LogAgrees(db, tx.id));
      TxKeepsLog(db, tx, id);
    }
    TxKeepsUniques(db, tx);
    TxKeepsPatentIds(db, tx);
    TxKeepsIds(db, tx);
  }

  // ---------------------------------------------------------------- credits

  /** The event that put an approved patent in the corpus credits whom the row credits. */
  predicate CreditsAgree(db: Db, id: nat) {
    id in db.patents && db.patents[id].status == Approved ==>
      var es := EventsOf(db.outbox, id);
      es != [] && es[|es| - 1].PatentVersionUpserted? && es[|es| - 1].snapshot == SnapshotOf(db.patents[id])
  }

  ghost predicate AllCreditsAgree(db: Db) {
    forall id: nat :: CreditsAgree(db, id)
  }

  /** Some approved patent credits the inventor. */
  predicate CreditedInCorpus(db: Db, inventorId: nat) {
    exists p :: p in db.patents && db.patents[p].status == Approved && inventorId in InventorIds(db.patents[p].links)
  }

  lemma {:induction false} WithoutInventorExactly(links: seq<Link>, inventorId: nat)
    ensures |WithoutInventor(links, inventorId)| <= |links|
    ensures |WithoutInventor(links, inventorId)| == |links| <==> inventorId !in InventorIds(links)
    ensures inventorId !in InventorIds(links) ==> WithoutInventor(links, inventorId) == links
  {
    if links != [] {
      WithoutInventorExactly(links[1..], inventorId);
      assert InventorIds(links) == [links[0].inventorId] + InventorIds(links[1..]);
    }
  }

  lemma {:induction false} WithoutInventorCounts(links: seq<Link>, inventorId: nat, l: Link)
    ensures multiset(WithoutInventor(links, inventorId))[l] == if l.inventorId == inventorId then 0 else multiset(links)[l]
  {
    if links != [] {
      WithoutInventorCounts(links[1..], inventorId, l);
      assert multiset(links) == multiset{links[0]} + multiset(links[1..]) by { assert links == [links[0]] + links[1..]; }
    }
  }

  lemma NoneLeft(links: seq<Link>, inventorId: nat)
    ensures inventorId !in InventorIds(WithoutInventor(links, inventorId))
    ensures forall l: Link :: l.inventorId != inventorId ==>
              multiset(WithoutInventor(links, inventorId))[l] == multiset(links)[l]
  {
    var left := WithoutInventor(links, inventorId);
    forall l: Link ensures multiset(left)[l] == if l.inventorId == inventorId then 0 else multiset(links)[l] {
      WithoutInventorCounts(links, inventorId, l);
    }
    forall i | 0 <= i < |left| ensures left[i].inventorId != inventorId {
      assert left[i] in multiset(left);
    }
  }

  /** The cascade reaches every patent, whatever its status: nobody credits the inventor any more, and all else stays. */
  lemma CascadeReachesAll(db: Db, inventorId: nat, p: nat)
    requires p in db.patents
    ensures var db' := ApplyTx(db, DeleteInventorTx(inventorId));
            && db' == db.(patents := db'.patents) && db'.patents.Keys == db.patents.Keys
            && db'.patents[p] == db.patents[p].(links := db'.patents[p].links)
            && inventorId !in InventorIds(db'.patents[p].links)
            && forall l: Link :: l.inventorId != inventorId ==>
                 multiset(db'.patents[p].links)[l] == multiset(db.patents[p].links)[l]
  {
    NoneLeft(db.patents[p].links, inventorId);
    assert ApplyTx(db, DeleteInventorTx(inventorId)).patents[p].links == WithoutInventor(db.patents[p].links, inventorId);
  }

  /**
   * Deleting an inventor leaves events and rows crediting the same people exactly
   * when no approved patent credits the inventor at the moment the delete lands.
   */
  lemma DeleteInventorExactly(db: Db, inventorId: nat)
    requires AllCreditsAgree(db)
    ensures AllCreditsAgree(ApplyTx(db, DeleteInventorTx(inventorId))) <==> !CreditedInCorpus(db, inventorId)
  {
    var db' := ApplyTx(db, DeleteInventorTx(inventorId));
    if CreditedInCorpus(db, inventorId) {
      var p :| p in db.patents && db.patents[p].status == Approved && inventorId in InventorIds(db.patents[p].links);
      assert CreditsAgree(db, p);
      WithoutInventorExactly(db.patents[p].links, inventorId);
      SortPermutes(db.patents[p].links, CreditedBefore);
      SortPermutes(db'.patents[p].links, CreditedBefore);
      assert !CreditsAgree(db', p);
    } else {
      forall id: nat ensures CreditsAgree(db', id) {
        assert CreditsAgree(db, id);
        if id in db.patents && db.patents[id].status == Approved {
          WithoutInventorExactly(db.patents[id].links, inventorId);
        }
      }
    }
  }

  lemma ApprovalPicturesSeen(db: Db, id: nat, seen: seq<Link>, reviewerId: nat, eventId: nat, bytes: nat, rowId: nat)
    requires ApproveSeeing(db, id, seen, reviewerId, eventId, bytes, rowId).Some?
    ensures var db' := ApproveSeeing(db, id, seen, reviewerId, eventId, bytes, rowId).value;
            && (forall other :: other != id ==> (CreditsAgree(db', other) <==> CreditsAgree(db, other)))
            && (CreditsAgree(db', id) <==> SortLinks(seen) == SortLinks(db.patents[id].links))
  {
    var db' := ApproveSeeing(db, id, seen, reviewerId, eventId, bytes, rowId).value;
    forall other: nat
      ensures EventsOf(db'.outbox, other) ==
              EventsOf(db.outbox, other) + if other == id then [db'.outbox[|db.outbox|].payload] else []
    {
      EventsOfEnqueue(db.outbox, db'.outbox[|db.outbox|], other);
    }
  }

  /**
   * Below the grain of transactions: an inventor deleted between the read of the
   * links and the commit of the approval. Events and rows then credit the same
   * people exactly when the links that were read did not credit the inventor.
   */
  lemma StaleApprovalExactly(
      db: Db, id: nat, seen: seq<Link>, inventorId: nat, reviewerId: nat, eventId: nat, bytes: nat, rowId: nat)
    requires AllCreditsAgree(db) && ApproveSeeing(db, id, seen, reviewerId, eventId, bytes, rowId).Some?
    requires db.patents[id].links == WithoutInventor(seen, inventorId)
    ensures AllCreditsAgree(ApproveSeeing(db, id, seen, reviewerId, eventId, bytes, rowId).value)
            <==> inventorId !in InventorIds(seen)
  {
    ApprovalPicturesSeen(db, id, seen, reviewerId, eventId, bytes, rowId);
    WithoutInventorExactly(seen, inventorId);
    SortPermutes(seen, CreditedBefore);
    SortPermutes(db.patents[id].links, CreditedBefore);
  }

  /** No other transaction can make events and rows credit different people. */
  lemma TxKeepsCredits(db: Db, tx: Tx)
    requires AllCreditsAgree(db) && (tx.DeleteInventorTx? ==> !CreditedInCorpus(db, tx.inventorId))
    ensures AllCreditsAgree(ApplyTx(db, tx))
  {
    if tx.DeleteInventorTx? {
      DeleteInventorExactly(db, tx.inventorId);
    } else {
      forall id: nat ensures CreditsAgree(ApplyTx(db, tx), id) {
        assert CreditsAgree(db, id);
        OtherTxKeepsCredits(db, tx, id);
      }
    }
  }

  lemma OtherTxKeepsCredits(db: Db, tx: Tx, id: nat)
    requires CreditsAgree(db, id) && !tx.DeleteInventorTx?
    ensures CreditsAgree(ApplyTx(db, tx), id)
  {
    if tx.ApproveTx? {
      ApprovalKeepsCredits(db, tx, id);
    } else {
      OnlyApprovalApproves(db, tx, id);
    }
  }

  /** Without an approval an approved patent was approved before, and has the same row and events. */
  lemma OnlyApprovalApproves(db: Db, tx: Tx, id: nat)
    requires !tx.DeleteInventorTx? && !tx.ApproveTx?
    ensures var db' := ApplyTx(db, tx);
            id in db'.patents && db'.patents[id].status == Approved ==>
              && id in db.patents && db'.patents[id] == db.patents[id]
              && EventsOf(db'.outbox, id) == EventsOf(db.outbox, id)
  {
    if tx.DeclineTx? && (tx.id != id || Commit(db, tx).None?) {
      DeclineLeavesOthers(db, tx, id);
    }
  }

  lemma DeclineLeavesOthers(db: Db, tx: Tx, id: nat)
    requires tx.DeclineTx? && (tx.id != id || Commit(db, tx).None?)
    ensures EventsOf(ApplyTx(db, tx).outbox, id) == EventsOf(db.outbox, id)
  {
    var db' := ApplyTx(db, tx);
    if db'.outbox != db.outbox {
      EventsOfEnqueue(db.outbox, db'.outbox[|db.outbox|], id);
    }
  }

  lemma ApprovalKeepsCredits(db: Db, tx: Tx, id: nat)
    requires CreditsAgree(db, id) && tx.ApproveTx?
    ensures CreditsAgree(ApplyTx(db, tx), id)
  {
    if Commit(db, tx).Some? {
      EventsOfEnqueue(db.outbox, ApplyTx(db, tx).outbox[|db.outbox|], id);
    }
  }
}
