/**
 * The requests of src/services/patentService.js run one at a time: checks,
 * transaction and clean-up of each, over the tables and the object store.
 */
module Requests {
  import opened Wrappers
  import opened Lifecycle
  import opened Events
  import opened Outbox
  import opened PatentDb
  import opened ObjectKeys
  import opened Relations

  const MAX_UPLOAD_BYTES := 50 * 1024 * 1024

  datatype User = User(userId: nat, isAdmin: bool)

  /**
   * `objects` is the bucket, key to size; `inventors` the ids of the INVENTOR
   * table; the `next` counters the sequences behind the BIGSERIAL ids.
   */
  datatype Store = Store(
    db: Db,
    objects: map<string, nat>,
    inventors: set<nat>,
    nextPatentId: nat,
    nextRowId: nat)

  const EMPTY := Store(INITIAL, map[], {}, 1, 1)

  datatype Error = BadRequest | Forbidden | NotFound | Conflict

  type Reply = Result<nat, Error>

  // ---------------------------------------------------------------- documents

  predicate Attached(patents: map<nat, Patent>, key: string) {
    exists q :: q in patents && patents[q].fields.documentKey == Some(key)
  }

  predicate AttachedElsewhere(patents: map<nat, Patent>, key: string, allow: Option<nat>) {
    exists q :: q in patents && allow != Some(q) && patents[q].fields.documentKey == Some(key)
  }

  /** Best effort: `deletes` tells whether the store obeys. */
  function DeleteObject(objects: map<string, nat>, key: Value, deletes: bool): map<string, nat> {
    if key.Some? && key.value != "" && deletes then objects - {key.value} else objects
  }

  /** What is wrong with an uploaded document, if anything. */
  function DocumentError(s: Store, key: string, userId: nat, allow: Option<nat>): Option<Error> {
    if !KeyBelongsToUser(key, userId) then Some(BadRequest)
    else if AttachedElsewhere(s.db.patents, key, allow) then Some(Conflict)
    else if key !in s.objects then Some(BadRequest)
    else if s.objects[key] > MAX_UPLOAD_BYTES then Some(BadRequest)
    else None
  }

  /** `verifyDocument` removes an object found too large, and nothing else. */
  function ObjectsAfterVerify(s: Store, key: string, userId: nat, allow: Option<nat>, deletes: bool): map<string, nat> {
    if KeyBelongsToUser(key, userId) && !AttachedElsewhere(s.db.patents, key, allow)
       && key in s.objects && s.objects[key] > MAX_UPLOAD_BYTES
    then DeleteObject(s.objects, Some(key), deletes)
    else s.objects
  }

  // ---------------------------------------------------------------- requests

  datatype Request =
    | CreatePatent(fields: Fields, entries: seq<InventorEntry>, user: User, now: nat, gap: nat, deletes: bool)
    | UpdatePatent(id: nat, updates: Updates, inventors: Option<seq<InventorEntry>>, user: User, deletes: bool)
    | SubmitForReview(id: nat, user: User)
    | ReviewPatent(id: nat, decision: Decision, reviewerId: nat, eventId: nat, bytes: nat, gap: nat)
    | DeletePatent(id: nat, user: User, deletes: bool)
    | PutObject(key: string, size: nat)
    | AddInventor(id: nat)
    | DeleteInventor(id: nat)

  /** What request validation has already established. */
  predicate Validated(r: Request) {
    match r
    case CreatePatent(fields, entries, _, _, _, _) =>
      fields.documentKey.Some? && fields.documentKey.value != "" && ValidEntries(entries)
    case UpdatePatent(_, updates, inventors, _, _) =>
      && (DocumentKey in updates ==> updates[DocumentKey].Some? && updates[DocumentKey].value != "")
      && (inventors.Some? ==> ValidEntries(inventors.value))
    case _ => true
  }

  /** `findOwnedPatent`, as an error. */
  function AccessError(s: Store, id: nat, user: User): Option<Error> {
    if id !in s.db.patents then Some(NotFound)
    else if s.db.patents[id].submittedBy != user.userId && !user.isAdmin then Some(Forbidden)
    else None
  }

  predicate PublicationNumberTaken(patents: map<nat, Patent>, number: Value, except: Option<nat>) {
    number.Some? && number.value != "" &&
    exists q :: q in patents && except != Some(q) && patents[q].fields.publicationNumber == number
  }

  function CommitOr(s: Store, tx: Tx, id: nat): (Store, Reply) {
    match Commit(s.db, tx)
    case Some(db) => (s.(db := db), Success(id))
    case None => (s, Failure(Conflict))
  }

  /** `value || null`. */
  function OrNull(v: Value): Value {
    if v == Some("") then None else v
  }

  function NewRow(f: Fields): Fields {
    f.(publicationNumber := OrNull(f.publicationNumber), jurisdiction := OrNull(f.jurisdiction))
  }

  /** Everything a create checks before its insert, with the links it resolved. */
  function PrecheckedCreate(s: Store, r: Request): (Store, Result<seq<Link>, Error>)
    requires r.CreatePatent? && Validated(r)
  {
    var key := r.fields.documentKey.value;
    var s1 := s.(objects := ObjectsAfterVerify(s, key, r.user.userId, None, r.deletes));
    var error := DocumentError(s, key, r.user.userId, None);
    if error.Some? then (s1, Failure(error.value))
    else
      match Resolved(r.entries, s.inventors)
      case Failure(_) => (s1, Failure(BadRequest))
      case Success(links) =>
        if PublicationNumberTaken(s.db.patents, r.fields.publicationNumber, None) then (s1, Failure(Conflict))
        else (s1, Success(links))
  }

  function Created(s: Store, r: Request): (Store, Reply)
    requires r.CreatePatent? && Validated(r)
  {
    var (s1, checked) := PrecheckedCreate(s, r);
    if checked.Failure? then (s1, Failure(checked.error))
    else
      var id := s.nextPatentId + r.gap;
      var (s2, reply) := CommitOr(s1, Create(id, NewRow(r.fields), r.user.userId, checked.value, r.now), id);
      (if reply.Success? then s2.(nextPatentId := id + 1) else s2, reply)
  }

  function ReplacesDocument(updates: Updates, p: Patent): bool {
    DocumentKey in updates && updates[DocumentKey] != p.fields.documentKey
  }

  function NewLinks(r: Request, known: set<nat>): Result<Option<seq<Link>>, Error>
    requires r.UpdatePatent? && Validated(r)
  {
    if r.inventors.None? then Success(None)
    else
      match Resolved(r.inventors.value, known)
      case Failure(_) => Failure(BadRequest)
      case Success(links) => Success(Some(links))
  }

  /** Everything an update checks before its transaction, with the links it resolved. */
  function Prechecked(s: Store, r: Request): (Store, Result<Option<seq<Link>>, Error>)
    requires r.UpdatePatent? && Validated(r) && r.id in s.db.patents
  {
    var p := s.db.patents[r.id];
    var replacing := ReplacesDocument(r.updates, p);
    var error := if replacing then DocumentError(s, r.updates[DocumentKey].value, r.user.userId, Some(r.id)) else None;
    var s1 := if replacing
              then s.(objects := ObjectsAfterVerify(s, r.updates[DocumentKey].value, r.user.userId, Some(r.id), r.deletes))
              else s;
    if error.Some? then (s1, Failure(error.value))
    else if PublicationNumber in r.updates
            && PublicationNumberTaken(s.db.patents, r.updates[PublicationNumber], Some(r.id))
    then (s1, Failure(Conflict))
    else (s1, NewLinks(r, s.inventors))
  }

  /** The transaction of an update, and the discard of the old document after it. */
  function CommittedEdit(s: Store, id: nat, updates: Updates, p: Patent, links: Option<seq<Link>>, deletes: bool): (Store, Reply) {
    var (s2, reply) := CommitOr(s, Edit(id, updates, p.fields, links), id);
    if reply.Success? && ReplacesDocument(updates, p)
    then (s2.(objects := DeleteObject(s2.objects, p.fields.documentKey, deletes)), reply)
    else (s2, reply)
  }

  function Updated(s: Store, r: Request): (Store, Reply)
    requires r.UpdatePatent? && Validated(r)
  {
    var denied := AccessError(s, r.id, r.user);
    if denied.Some? then (s, Failure(denied.value))
    else
      var p := s.db.patents[r.id];
      if p.status !in EDITABLE_STATUSES then (s, Failure(Conflict))
      else
        var (s1, checked) := Prechecked(s, r);
        if checked.Failure? then (s1, Failure(checked.error))
        else CommittedEdit(s1, r.id, r.updates, p, checked.value, r.deletes)
  }

  function Submitted(s: Store, r: Request): (Store, Reply)
    requires r.SubmitForReview?
  {
    var denied := AccessError(s, r.id, r.user);
    if denied.Some? then (s, Failure(denied.value))
    else if AssertTransition(s.db.patents[r.id].status, Submit).Failure? then (s, Failure(Conflict))
    else if s.db.patents[r.id].fields.documentKey.GetOr("") == "" then (s, Failure(Conflict))
    else CommitOr(s, SubmitTx(r.id), r.id)
  }

  function ReviewTx(id: nat, decision: Decision, reviewerId: nat, eventId: nat, bytes: nat, rowId: nat): Tx {
    if decision == Pass then ApproveTx(id, reviewerId, eventId, bytes, rowId)
    else DeclineTx(id, reviewerId, eventId, bytes, rowId)
  }

  function ReviewTxOf(r: Request, rowId: nat): Tx
    requires r.ReviewPatent?
  {
    ReviewTx(r.id, r.decision, r.reviewerId, r.eventId, r.bytes, rowId)
  }

  function Reviewed(s: Store, r: Request): (Store, Reply)
    requires r.ReviewPatent?
  {
    if r.id !in s.db.patents then (s, Failure(NotFound))
    else if AssertTransition(s.db.patents[r.id].status, if r.decision == Pass then Approve else Decline).Failure?
    then (s, Failure(Conflict))
    else
      var rowId := s.nextRowId + r.gap;
      var (s1, reply) := CommitOr(s, ReviewTxOf(r, rowId), r.id);
      (if |s1.db.outbox| > |s.db.outbox| then s1.(nextRowId := rowId + 1) else s1, reply)
  }

  function Deleted(s: Store, r: Request): (Store, Reply)
    requires r.DeletePatent?
  {
    var denied := AccessError(s, r.id, r.user);
    if denied.Some? then (s, Failure(denied.value))
    else if s.db.patents[r.id].status != Draft then (s, Failure(Conflict))
    else
      var (s1, reply) := CommitOr(s, DeleteTx(r.id), r.id);
      if reply.Success?
      then (s1.(objects := DeleteObject(s1.objects, s.db.patents[r.id].fields.documentKey, r.deletes)), reply)
      else (s1, reply)
  }

  predicate Credited(patents: map<nat, Patent>, inventorId: nat) {
    exists q :: q in patents && inventorId in InventorIds(patents[q].links)
  }

  function InventorDeleted(s: Store, id: nat): (Store, Reply) {
    if id !in s.inventors then (s, Failure(NotFound))
    else if Credited(s.db.patents, id) then (s, Failure(Conflict))
    else (s.(inventors := s.inventors - {id}, db := ApplyTx(s.db, DeleteInventorTx(id))), Success(id))
  }

  /** One request from its first check to its last clean-up. */
  function Serve(s: Store, r: Request): (Store, Reply)
    requires Validated(r)
  {
    match r
    case CreatePatent(_, _, _, _, _, _) => Created(s, r)
    case UpdatePatent(_, _, _, _, _) => Updated(s, r)
    case SubmitForReview(_, _) => Submitted(s, r)
    case ReviewPatent(_, _, _, _, _, _) => Reviewed(s, r)
    case DeletePatent(_, _, _) => Deleted(s, r)
    case PutObject(key, size) => (s.(objects := s.objects[key := size]), Success(0))
    case AddInventor(id) => (s.(inventors := s.inventors + {id}), Success(id))
    case DeleteInventor(id) => InventorDeleted(s, id)
  }

  function ServeAll(requests: seq<Request>): Store
    requires forall i :: 0 <= i < |requests| ==> Validated(requests[i])
  {
    if requests == [] then EMPTY
    else Serve(ServeAll(requests[..|requests| - 1]), requests[|requests| - 1]).0
  }

  // ---------------------------------------------------------------- invariants

  /** Every attached document is in the bucket. */
  predicate DocumentsStored(patents: map<nat, Patent>, objects: map<string, nat>) {
    forall q :: q in patents && patents[q].fields.documentKey.Some? ==> patents[q].fields.documentKey.value in objects
  }

  predicate CreditsOk(patents: map<nat, Patent>, inventors: set<nat>) {
    forall q :: q in patents ==> CreditOk(patents[q].links, inventors)
  }

  predicate InCreditOrder(e: Event) {
    e.PatentVersionUpserted? ==>
      forall k :: 0 <= k < |e.snapshot.credits| ==> e.snapshot.credits[k].inventorOrder == k + 1
  }

  predicate EventsInOrder(rows: seq<Row>) {
    forall i :: 0 <= i < |rows| ==> InCreditOrder(rows[i].payload)
  }

  predicate IdsBelow(s: Store) {
    && (forall id :: id in s.db.patentIds ==> id < s.nextPatentId)
    && (forall i :: 0 <= i < |s.db.outbox| ==> s.db.outbox[i].id < s.nextRowId)
  }

  /** What the service keeps besides the invariant of the database. */
  predicate ServiceOk(s: Store) {
    && IdsBelow(s)
    && DocumentsStored(s.db.patents, s.objects)
    && CreditsOk(s.db.patents, s.inventors)
    && EventsInOrder(s.db.outbox)
  }

  ghost predicate ServiceInv(s: Store) {
    DbInv(s.db) && ServiceOk(s)
  }

  /** Deleting an object is safe exactly if no patent is attached to it. */
  lemma DeleteSafeExactly(patents: map<nat, Patent>, objects: map<string, nat>, key: string)
    requires DocumentsStored(patents, objects) && key != ""
    ensures DocumentsStored(patents, DeleteObject(objects, Some(key), true)) <==> !Attached(patents, key)
  {
    if Attached(patents, key) {
      var q :| q in patents && patents[q].fields.documentKey == Some(key);
      assert key !in DeleteObject(objects, Some(key), true);
    }
  }

  lemma DiscardKeepsStored(patents: map<nat, Patent>, objects: map<string, nat>, key: Value, deletes: bool)
    requires DocumentsStored(patents, objects)
    requires key.Some? ==> !Attached(patents, key.value)
    ensures DocumentsStored(patents, DeleteObject(objects, key, deletes))
  {
    if key.Some? && key.value != "" {
      DeleteSafeExactly(patents, objects, key.value);
    }
  }

  /** The clean-up of an oversized upload never removes an attached object. */
  lemma VerifyKeepsStored(s: Store, key: string, userId: nat, allow: Option<nat>, deletes: bool)
    requires DocumentsStored(s.db.patents, s.objects)
    requires forall q :: q in s.db.patents && allow == Some(q) ==> s.db.patents[q].fields.documentKey != Some(key)
    ensures DocumentsStored(s.db.patents, ObjectsAfterVerify(s, key, userId, allow, deletes))
  {
    if !AttachedElsewhere(s.db.patents, key, allow) {
      assert !Attached(s.db.patents, key);
      DiscardKeepsStored(s.db.patents, s.objects, Some(key), deletes);
    }
  }

  /** Links that were resolved and that the primary key let in are a sound credit order. */
  lemma CommittedLinksOk(entries: seq<InventorEntry>, known: set<nat>)
    requires ValidEntries(entries) && Resolved(entries, known).Success?
    requires DistinctInventors(Resolved(entries, known).value)
    ensures CreditOk(Resolved(entries, known).value, known)
  {
    ResolvedExactly(entries, known);
  }

  lemma InsertKeepsOk(s: Store, id: nat, fields: Fields, userId: nat, links: seq<Link>, now: nat)
    requires ServiceOk(s) && Commit(s.db, Create(id, fields, userId, links, now)).Some?
    requires CreditOk(links, s.inventors) && (fields.documentKey.Some? ==> fields.documentKey.value in s.objects)
    requires s.nextPatentId <= id
    ensures ServiceOk(s.(db := ApplyTx(s.db, Create(id, fields, userId, links, now)), nextPatentId := id + 1))
  {
  }

  lemma CreateKeepsOk(s: Store, r: Request)
    requires ServiceOk(s) && Validated(r) && r.CreatePatent?
    ensures ServiceOk(Created(s, r).0)
  {
    VerifyKeepsStored(s, r.fields.documentKey.value, r.user.userId, None, r.deletes);
    var (s1, checked) := PrecheckedCreate(s, r);
    assert ServiceOk(s1);
    if Created(s, r).1.Success? {
      var id := s.nextPatentId + r.gap;
      CommittedLinksOk(r.entries, s.inventors);
      InsertKeepsOk(s1, id, NewRow(r.fields), r.user.userId, checked.value, r.now);
    }
  }

  /** After an edit that replaces the document, nothing is attached to the old one. */
  lemma OldDocumentFree(db: Db, id: nat, updates: Updates, links: Option<seq<Link>>)
    requires DbInv(db) && id in db.patents && ReplacesDocument(updates, db.patents[id])
    requires Commit(db, Edit(id, updates, db.patents[id].fields, links)).Some?
    requires db.patents[id].fields.documentKey.Some?
    ensures !Attached(ApplyTx(db, Edit(id, updates, db.patents[id].fields, links)).patents, db.patents[id].fields.documentKey.value)
  {
    var key := db.patents[id].fields.documentKey;
    forall q | q in db.patents && q != id ensures db.patents[q].fields.documentKey != key {
      assert UniqueOk(db.patents, id, db.patents[id].fields);
    }
  }

  lemma EditKeepsOk(s: Store, id: nat, updates: Updates, seen: Fields, links: Option<seq<Link>>)
    requires ServiceOk(s) && Commit(s.db, Edit(id, updates, seen, links)).Some?
    requires links.Some? ==> CreditOk(links.value, s.inventors)
    requires DocumentKey in updates && updates[DocumentKey].Some? ==> updates[DocumentKey].value in s.objects
    ensures ServiceOk(s.(db := ApplyTx(s.db, Edit(id, updates, seen, links))))
  {
  }

  lemma PrecheckKeepsStored(s: Store, r: Request)
    requires DocumentsStored(s.db.patents, s.objects) && Validated(r) && r.UpdatePatent? && r.id in s.db.patents
    ensures var s1 := Prechecked(s, r).0;
            s1 == s.(objects := s1.objects) && DocumentsStored(s.db.patents, s1.objects)
    ensures Prechecked(s, r).1.Success? ==>
            && NewLinks(r, s.inventors) == Prechecked(s, r).1
            && (ReplacesDocument(r.updates, s.db.patents[r.id]) ==> r.updates[DocumentKey].value in Prechecked(s, r).0.objects)
  {
    if ReplacesDocument(r.updates, s.db.patents[r.id]) {
      VerifyKeepsStored(s, r.updates[DocumentKey].value, r.user.userId, Some(r.id), r.deletes);
    }
  }

  lemma CommittedEditKeepsOk(s1: Store, id: nat, updates: Updates, p: Patent, links: Option<seq<Link>>, deletes: bool)
    requires DbInv(s1.db) && ServiceOk(s1) && id in s1.db.patents && p == s1.db.patents[id]
    requires links.Some? && DistinctInventors(links.value) ==> CreditOk(links.value, s1.inventors)
    requires DocumentKey in updates && updates[DocumentKey].Some? ==> updates[DocumentKey].value in s1.objects
    ensures ServiceOk(CommittedEdit(s1, id, updates, p, links, deletes).0)
  {
    if Commit(s1.db, Edit(id, updates, p.fields, links)).Some? {
      var db' := ApplyTx(s1.db, Edit(id, updates, p.fields, links));
      EditKeepsOk(s1, id, updates, p.fields, links);
      if ReplacesDocument(updates, p) {
        if p.fields.documentKey.Some? {
          OldDocumentFree(s1.db, id, updates, links);
        }
        DiscardKeepsStored(db'.patents, s1.objects, p.fields.documentKey, deletes);
      }
    }
  }

  lemma UpdateKeepsOk(s: Store, r: Request)
    requires ServiceInv(s) && Validated(r) && r.UpdatePatent?
    ensures ServiceOk(Updated(s, r).0)
  {
    if AccessError(s, r.id, r.user).None? && s.db.patents[r.id].status in EDITABLE_STATUSES {
      PrecheckKeepsStored(s, r);
      var (s1, checked) := Prechecked(s, r);
      assert ServiceOk(s1);
      if checked.Success? {
        ResolvedLinksOk(r, s.inventors, checked.value);
        CommittedEditKeepsOk(s1, r.id, r.updates, s.db.patents[r.id], checked.value, r.deletes);
      }
    }
  }

  lemma ResolvedLinksOk(r: Request, known: set<nat>, links: Option<seq<Link>>)
    requires r.UpdatePatent? && Validated(r) && NewLinks(r, known) == Success(links)
    ensures links.Some? && DistinctInventors(links.value) ==> CreditOk(links.value, known)
  {
    if links.Some? && DistinctInventors(links.value) {
      CommittedLinksOk(r.inventors.value, known);
    }
  }

  lemma ReviewKeepsOrder(db: Db, known: set<nat>, r: Request, rowId: nat)
    requires r.ReviewPatent? && r.id in db.patents && CreditOk(db.patents[r.id].links, known)
    requires EventsInOrder(db.outbox)
    ensures EventsInOrder(ApplyTx(db, ReviewTxOf(r, rowId)).outbox)
  {
    EventOrder(db.patents[r.id].links, known);
  }

  lemma ReviewKeepsDocuments(s: Store, r: Request, rowId: nat)
    requires DocumentsStored(s.db.patents, s.objects) && CreditsOk(s.db.patents, s.inventors) && r.ReviewPatent?
    ensures DocumentsStored(ApplyTx(s.db, ReviewTxOf(r, rowId)).patents, s.objects)
    ensures CreditsOk(ApplyTx(s.db, ReviewTxOf(r, rowId)).patents, s.inventors)
  {
  }

  lemma ReviewKeepsIds(s: Store, r: Request)
    requires IdsBelow(s) && r.ReviewPatent?
    ensures IdsBelow(Reviewed(s, r).0)
  {
  }

  lemma ReviewKeepsOk(s: Store, r: Request)
    requires ServiceOk(s) && r.ReviewPatent?
    ensures ServiceOk(Reviewed(s, r).0)
  {
    if Reviewed(s, r).1.Success? {
      var rowId := s.nextRowId + r.gap;
      ReviewKeepsDocuments(s, r, rowId);
      ReviewKeepsOrder(s.db, s.inventors, r, rowId);
      ReviewKeepsIds(s, r);
      assert Reviewed(s, r).0.db == ApplyTx(s.db, ReviewTxOf(r, rowId));
    }
  }

  lemma DeleteKeepsOk(s: Store, r: Request)
    requires ServiceInv(s) && r.DeletePatent?
    ensures ServiceOk(Deleted(s, r).0)
  {
    if Deleted(s, r).1.Success? {
      var key, patents' := s.db.patents[r.id].fields.documentKey, ApplyTx(s.db, DeleteTx(r.id)).patents;
      if key.Some? {
        assert UniqueOk(s.db.patents, r.id, s.db.patents[r.id].fields);
        assert !Attached(patents', key.value);
      }
      DiscardKeepsStored(patents', s.objects, key, r.deletes);
    }
  }

  /** The cascade of an inventor whom nobody credits takes nothing away. */
  lemma UncreditedDelete(db: Db, id: nat)
    requires !Credited(db.patents, id)
    ensures ApplyTx(db, DeleteInventorTx(id)) == db
  {
    forall p | p in db.patents ensures WithoutInventor(db.patents[p].links, id) == db.patents[p].links {
      WithoutInventorExactly(db.patents[p].links, id);
    }
    assert CommitDeleteInventor(db, id).patents == db.patents;
  }

  lemma InventorsKeepOk(s: Store, r: Request)
    requires ServiceOk(s) && (r.AddInventor? || r.DeleteInventor?)
    ensures ServiceOk(Serve(s, r).0)
  {
    var s' := Serve(s, r).0;
    if r.DeleteInventor? && !Credited(s.db.patents, r.id) {
      UncreditedDelete(s.db, r.id);
    }
    forall q | q in s.db.patents ensures CreditOk(s.db.patents[q].links, s'.inventors) {
      var links := s.db.patents[q].links;
      assert CreditOk(links, s.inventors);
      assert forall i :: 0 <= i < |links| ==> links[i].inventorId == InventorIds(links)[i];
    }
  }

  lemma ServeKeepsOk(s: Store, r: Request)
    requires ServiceInv(s) && Validated(r)
    ensures ServiceOk(Serve(s, r).0)
  {
    if r.CreatePatent? {
      CreateKeepsOk(s, r);
    } else if r.UpdatePatent? {
      UpdateKeepsOk(s, r);
    } else if r.ReviewPatent? {
      ReviewKeepsOk(s, r);
    } else if r.DeletePatent? {
      DeleteKeepsOk(s, r);
    } else if r.AddInventor? || r.DeleteInventor? {
      InventorsKeepOk(s, r);
    }
  }

  /** The transaction a request runs when it gets that far. */
  function TxOf(s: Store, r: Request): Tx
    requires Validated(r) && !r.PutObject? && !r.AddInventor?
    requires r.CreatePatent? ==> Resolved(r.entries, s.inventors).Success?
    requires r.UpdatePatent? ==> r.id in s.db.patents && NewLinks(r, s.inventors).Success?
  {
    match r
    case CreatePatent(fields, entries, user, now, gap, _) =>
      Create(s.nextPatentId + gap, NewRow(fields), user.userId, Resolved(entries, s.inventors).value, now)
    case UpdatePatent(id, updates, _, _, _) => Edit(id, updates, s.db.patents[id].fields, NewLinks(r, s.inventors).value)
    case SubmitForReview(id, _) => SubmitTx(id)
    case ReviewPatent(_, _, _, _, _, gap) => ReviewTxOf(r, s.nextRowId + gap)
    case DeletePatent(id, _, _) => DeleteTx(id)
    case DeleteInventor(id) => DeleteInventorTx(id)
  }

  /**
   * A request changes the tables by at most one of the transactions of the step
   * system, and deletes no inventor whom a patent credits.
   */
  lemma ServeIsOneTx(s: Store, r: Request)
    requires Validated(r)
    ensures Serve(s, r).0.db == s.db ||
            exists tx :: Serve(s, r).0.db == ApplyTx(s.db, tx) && !tx.DeleteInventorTx?
  {
    if r.DeleteInventor? && !Credited(s.db.patents, r.id) {
      UncreditedDelete(s.db, r.id);
    } else if Serve(s, r).0.db != s.db {
      assert Serve(s, r).0.db == ApplyTx(s.db, TxOf(s, r));
    }
  }

  lemma ServeKeepsInv(s: Store, r: Request)
    requires ServiceInv(s) && Validated(r)
    ensures ServiceInv(Serve(s, r).0)
  {
    ServeKeepsOk(s, r);
    ServeIsOneTx(s, r);
    if tx :| Serve(s, r).0.db == ApplyTx(s.db, tx) {
      TxKeepsInv(s.db, tx);
    }
  }

  lemma {:induction false} ServeAllInv(requests: seq<Request>)
    requires forall i :: 0 <= i < |requests| ==> Validated(requests[i])
    ensures ServiceInv(ServeAll(requests))
  {
    if requests == [] {
      InitialInv();
    } else {
      ServeAllInv(requests[..|requests| - 1]);
      ServeKeepsInv(ServeAll(requests[..|requests| - 1]), requests[|requests| - 1]);
    }
  }

  /**
   * Document integrity: after any requests run one at a time, whatever deletes
   * the store performs or fails, no two patents share a document key and every
   * document key names an object that is there.
   */
  lemma DocumentIntegrity(requests: seq<Request>, p: nat, q: nat)
    requires forall i :: 0 <= i < |requests| ==> Validated(requests[i])
    requires var s := ServeAll(requests);
             p in s.db.patents && q in s.db.patents && s.db.patents[p].fields.documentKey.Some?
    ensures var s := ServeAll(requests);
            && s.db.patents[p].fields.documentKey.value in s.objects
            && (p != q ==> s.db.patents[p].fields.documentKey != s.db.patents[q].fields.documentKey)
  {
    ServeAllInv(requests);
    assert UniqueOk(ServeAll(requests).db.patents, p, ServeAll(requests).db.patents[p].fields);
  }

  /**
   * Credit order: after any requests run one at a time, each patent credits
   * distinct existing inventors in places 1..n, and entry `k` of every Upserted
   * event, counting from 0, is the inventor in place `k + 1`.
   */
  lemma CreditOrderSound(requests: seq<Request>)
    requires forall i :: 0 <= i < |requests| ==> Validated(requests[i])
    ensures var s := ServeAll(requests);
            && (forall p :: p in s.db.patents ==> CreditOk(s.db.patents[p].links, s.inventors))
            && (forall i :: 0 <= i < |s.db.outbox| ==> InCreditOrder(s.db.outbox[i].payload))
  {
    ServeAllInv(requests);
  }

  predicate FromUser(r: Request) {
    r.CreatePatent? || r.UpdatePatent? || r.SubmitForReview? || r.DeletePatent?
  }

  lemma UpdateTouchesOwn(s: Store, r: Request, p: nat)
    requires Validated(r) && r.UpdatePatent? && !r.user.isAdmin
    requires p in s.db.patents && s.db.patents[p].submittedBy != r.user.userId
    ensures p in Updated(s, r).0.db.patents && Updated(s, r).0.db.patents[p] == s.db.patents[p]
  {
  }

  /** A user's own requests never touch a patent somebody else submitted, unless the user is an admin. */
  lemma ForeignPatentsUntouched(s: Store, r: Request, p: nat)
    requires ServiceInv(s) && Validated(r) && FromUser(r) && !r.user.isAdmin
    requires p in s.db.patents && s.db.patents[p].submittedBy != r.user.userId
    ensures p in Serve(s, r).0.db.patents && Serve(s, r).0.db.patents[p] == s.db.patents[p]
  {
    if r.UpdatePatent? {
      UpdateTouchesOwn(s, r, p);
    }
  }

  /** The key of the document a request leaves unreferenced when it succeeds. */
  function Superseded(s: Store, r: Request): Value {
    match r
    case UpdatePatent(id, updates, _, _, _) =>
      if id in s.db.patents && ReplacesDocument(updates, s.db.patents[id]) then s.db.patents[id].fields.documentKey else None
    case DeletePatent(id, _, _) => if id in s.db.patents then s.db.patents[id].fields.documentKey else None
    case _ => None
  }

  /** A superseded document leaves the store when its request succeeds, and stays when it fails. */
  lemma SupersededIsDiscarded(s: Store, r: Request, key: string)
    requires ServiceInv(s) && Validated(r) && Superseded(s, r) == Some(key) && key != ""
    requires if r.UpdatePatent? then r.deletes else r.DeletePatent? && r.deletes
    ensures key in Serve(s, r).0.objects <==> Serve(s, r).1.Failure?
  {
    assert key in s.objects;
    if r.UpdatePatent? {
      PrecheckKeepsStored(s, r);
    }
  }

  /**
   * Run one at a time, the checks before the insert foresee every violation of a
   * unique column; only an inventor spelled two ways can still make it fail.
   */
  lemma ChecksForeseeConflicts(s: Store, r: Request)
    requires ServiceInv(s) && r.CreatePatent? && Validated(r)
    requires DocumentError(s, r.fields.documentKey.value, r.user.userId, None).None?
    requires Resolved(r.entries, s.inventors).Success?
    requires !PublicationNumberTaken(s.db.patents, r.fields.publicationNumber, None)
    ensures Created(s, r).1.Success? <==>
            forall i, j :: 0 <= i < j < |r.entries|
              && NumeralValue(r.entries[i].inventorId) == NumeralValue(r.entries[j].inventorId)
              ==> r.entries[i].inventorId == r.entries[j].inventorId
  {
    AcceptedSoundExactly(r.entries, s.inventors);
    var links := Resolved(r.entries, s.inventors).value;
    ResolvedExactly(r.entries, s.inventors);
    assert UniqueOk(s.db.patents, s.nextPatentId + r.gap, NewRow(r.fields));
  }

  /** So with requests run one at a time, events and approved rows credit the same people in the same order. */
  lemma {:induction false} ServedCreditsAgree(requests: seq<Request>)
    requires forall i :: 0 <= i < |requests| ==> Validated(requests[i])
    ensures AllCreditsAgree(ServeAll(requests).db)
  {
    if requests != [] {
      var s, r := ServeAll(requests[..|requests| - 1]), requests[|requests| - 1];
      ServedCreditsAgree(requests[..|requests| - 1]);
      ServeIsOneTx(s, r);
      if Serve(s, r).0.db != s.db {
        var tx :| Serve(s, r).0.db == ApplyTx(s.db, tx) && !tx.DeleteInventorTx?;
        TxKeepsCredits(s.db, tx);
      }
    }
  }
}
