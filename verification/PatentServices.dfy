/** The patent service as imperative code over its tables, proved against the requests it serves. */
module PatentServices {
  import opened Wrappers
  import opened Lifecycle
  import opened Events
  import opened Outbox
  import opened PatentDb
  import opened ObjectKeys
  import opened Relations
  import opened Requests

  const FIELDS: seq<Field> := CONTENT_FIELDS + METADATA_FIELDS

  lemma AllFieldsListed()
    ensures forall f: Field :: f in FIELDS
  {
    forall f: Field ensures f in FIELDS {
      match f
      case Title => assert FIELDS[0] == f;
      case AbstractText => assert FIELDS[1] == f;
      case Specification => assert FIELDS[2] == f;
      case DocumentKey => assert FIELDS[3] == f;
      case PublicationNumber => assert FIELDS[4] == f;
      case Jurisdiction => assert FIELDS[5] == f;
    }
  }

  /** A key of a request body: a column a client may write, or anything else, such as `inventors`. */
  datatype Key = Column(field: Field) | Other(name: string)

  type Body = map<Key, Value>

  /** What a body asks the PATENT row to become. */
  function ColumnsOf(body: Body): Updates {
    map f | f in FIELDS && Column(f) in body :: body[Column(f)]
  }

  class PatentService {
    var patents: map<nat, Patent>
    var reviews: seq<Review>
    var outbox: seq<Row>
    var nextPatentId: nat
    var nextRowId: nat
    ghost var patentIds: set<nat>
    var objects: map<string, nat>
    var inventors: set<nat>

    ghost function Contents(): Store
      reads this
    {
      Store(Db(patents, reviews, outbox, patentIds), objects, inventors, nextPatentId, nextRowId)
    }

    constructor ()
      ensures Contents() == EMPTY && ServiceInv(Contents())
    {
      patents, reviews, outbox, patentIds, nextPatentId, nextRowId := map[], [], [], {}, 1, 1;
      objects, inventors := map[], {};
      new;
      ServeAllInv([]);
    }

    /** Ownership, attachment, existence and size, in that order; too large an object is removed. */
    method VerifyDocument(key: string, userId: nat, allow: Option<nat>, deletes: bool) returns (error: Option<Error>)
      modifies this`objects
      ensures error == DocumentError(old(Contents()), key, userId, allow)
      ensures objects == ObjectsAfterVerify(old(Contents()), key, userId, allow, deletes)
    {
      if !KeyBelongsToUser(key, userId) {
        return Some(BadRequest);
      }
      if exists q :: q in patents && allow != Some(q) && patents[q].fields.documentKey == Some(key) {
        return Some(Conflict);
      }
      if key !in objects {
        return Some(BadRequest);
      }
      if objects[key] > MAX_UPLOAD_BYTES {
        objects := DeleteObject(objects, Some(key), deletes);
        return Some(BadRequest);
      }
      return None;
    }

    /** The insert, which the unique columns and the link key may refuse. */
    method InsertPatent(id: nat, fields: Fields, userId: nat, links: seq<Link>, now: nat) returns (applied: bool)
      requires id !in patentIds
      modifies this`patents, this`patentIds
      ensures applied == Commit(old(Contents()).db, Create(id, fields, userId, links, now)).Some?
      ensures Contents().db == ApplyTx(old(Contents()).db, Create(id, fields, userId, links, now))
    {
      applied := UniqueOk(patents, id, fields) && DistinctInventors(links);
      if applied {
        patents := patents[id := Patent(fields, Draft, 1, userId, links, now)];
        patentIds := patentIds + {id};
      }
    }

    /** The checks of a create: document, inventors, publication number. */
    method PrecheckCreate(fields: Fields, entries: seq<InventorEntry>, user: User, now: nat, gap: nat, deletes: bool)
      returns (checked: Result<seq<Link>, Error>)
      requires Validated(Request.CreatePatent(fields, entries, user, now, gap, deletes))
      modifies this`objects
      ensures (Contents(), checked) ==
              PrecheckedCreate(old(Contents()), Request.CreatePatent(fields, entries, user, now, gap, deletes))
    {
      var error := VerifyDocument(fields.documentKey.value, user.userId, None, deletes);
      if error.Some? {
        return Failure(error.value);
      }
      var links := ResolveInventorLinks(entries, inventors);
      if links.Failure? {
        return Failure(BadRequest);
      }
      if PublicationNumberTaken(patents, fields.publicationNumber, None) {
        return Failure(Conflict);
      }
      return Success(links.value);
    }

    method CreatePatent(fields: Fields, entries: seq<InventorEntry>, user: User, now: nat, gap: nat, deletes: bool)
      returns (reply: Reply)
      requires ServiceInv(Contents())
      requires Validated(Request.CreatePatent(fields, entries, user, now, gap, deletes))
      modifies this
      ensures (Contents(), reply) ==
              Serve(old(Contents()), Request.CreatePatent(fields, entries, user, now, gap, deletes))
      ensures ServiceInv(Contents())
    {
      ServeKeepsInv(Contents(), Request.CreatePatent(fields, entries, user, now, gap, deletes));
      var checked := PrecheckCreate(fields, entries, user, now, gap, deletes);
      if checked.Failure? {
        return Failure(checked.error);
      }
      var row := fields.(publicationNumber := OrNull(fields.publicationNumber), jurisdiction := OrNull(fields.jurisdiction));
      var id := nextPatentId + gap;
      var applied := InsertPatent(id, row, user.userId, checked.value, now);
      if !applied {
        return Failure(Conflict);
      }
      nextPatentId := id + 1;
      return Success(id);
    }

    /** Keeps the columns a PATCH body names, one by one, and none of its other keys. */
    method CollectScalars(body: Body) returns (scalar: Updates)
      ensures scalar == ColumnsOf(body)
      ensures forall f :: f in scalar <==> Column(f) in body
    {
      scalar := map[];
      for k := 0 to |FIELDS|
        invariant forall f :: f in scalar <==> f in FIELDS[..k] && Column(f) in body
        invariant forall f :: f in scalar ==> scalar[f] == body[Column(f)]
      {
        if Column(FIELDS[k]) in body {
          scalar := scalar[FIELDS[k] := body[Column(FIELDS[k])]];
        }
      }
      AllFieldsListed();
      assert FIELDS[..|FIELDS|] == FIELDS;
      assert scalar.Keys == ColumnsOf(body).Keys;
    }

    /** The transaction of an edit: status re-checked, unique columns and link key enforced. */
    method CommitEdit(id: nat, body: Body, seen: Fields, links: Option<seq<Link>>) returns (applied: bool)
      modifies this`patents
      ensures applied == Commit(old(Contents()).db, Edit(id, ColumnsOf(body), seen, links)).Some?
      ensures Contents().db == ApplyTx(old(Contents()).db, Edit(id, ColumnsOf(body), seen, links))
    {
      var scalar := CollectScalars(body);
      if id !in patents || patents[id].status !in EDITABLE_STATUSES {
        return false;
      }
      var edited := EditedRow(patents[id], scalar, seen, links);
      applied := UniqueOk(patents, id, edited.fields) && DistinctInventors(edited.links);
      if applied {
        patents := patents[id := edited];
      }
    }

    /** The checks of an update: new document, publication number, inventors. */
    method PrecheckUpdate(id: nat, updates: Updates, newInventors: Option<seq<InventorEntry>>, user: User, deletes: bool)
      returns (checked: Result<Option<seq<Link>>, Error>)
      requires Validated(Request.UpdatePatent(id, updates, newInventors, user, deletes)) && id in patents
      modifies this`objects
      ensures (Contents(), checked) ==
              Prechecked(old(Contents()), Request.UpdatePatent(id, updates, newInventors, user, deletes))
    {
      if DocumentKey in updates && updates[DocumentKey] != patents[id].fields.documentKey {
        var error := VerifyDocument(updates[DocumentKey].value, user.userId, Some(id), deletes);
        if error.Some? {
          return Failure(error.value);
        }
      }
      if PublicationNumber in updates && PublicationNumberTaken(patents, updates[PublicationNumber], Some(id)) {
        return Failure(Conflict);
      }
      if newInventors.None? {
        return Success(None);
      }
      var resolved := ResolveInventorLinks(newInventors.value, inventors);
      if resolved.Failure? {
        return Failure(BadRequest);
      }
      return Success(Some(resolved.value));
    }

    method UpdatePatent(id: nat, body: Body, newInventors: Option<seq<InventorEntry>>, user: User, deletes: bool)
      returns (reply: Reply)
      requires ServiceInv(Contents())
      requires Validated(Request.UpdatePatent(id, ColumnsOf(body), newInventors, user, deletes))
      modifies this
      ensures (Contents(), reply) ==
              Serve(old(Contents()), Request.UpdatePatent(id, ColumnsOf(body), newInventors, user, deletes))
      ensures ServiceInv(Contents())
    {
      ghost var request := Request.UpdatePatent(id, ColumnsOf(body), newInventors, user, deletes);
      ServeKeepsInv(Contents(), request);
      if id !in patents {
        return Failure(NotFound);
      }
      var patent := patents[id];
      if patent.submittedBy != user.userId && !user.isAdmin {
        return Failure(Forbidden);
      }
      if patent.status !in EDITABLE_STATUSES {
        return Failure(Conflict);
      }
      var updates := ColumnsOf(body);
      var checked := PrecheckUpdate(id, updates, newInventors, user, deletes);
      if checked.Failure? {
        return Failure(checked.error);
      }
      reply := ApplyUpdate(id, body, patent, checked.value, deletes);
    }

    /** The transaction of an update and, only once it has committed, the discard of the old document. */
    method ApplyUpdate(id: nat, body: Body, patent: Patent, links: Option<seq<Link>>, deletes: bool) returns (reply: Reply)
      modifies this
      ensures (Contents(), reply) == CommittedEdit(old(Contents()), id, ColumnsOf(body), patent, links, deletes)
    {
      var applied := CommitEdit(id, body, patent.fields, links);
      if !applied {
        return Failure(Conflict);
      }
      if ReplacesDocument(ColumnsOf(body), patent) {
        objects := DeleteObject(objects, patent.fields.documentKey, deletes);
      }
      return Success(id);
    }

    /** The conditional status write shared by submit and review. */
    method Transition(id: nat, action: Action) returns (applied: bool)
      modifies this`patents
      ensures applied == ApplyTransition(old(Contents()).db, id, action).Some?
      ensures Contents().db == ApplyTransition(old(Contents()).db, id, action).GetOr(old(Contents()).db)
    {
      applied := id in patents && patents[id].status in From(action);
      if applied {
        patents := patents[id := patents[id].(status := To(action))];
      }
    }

    method SubmitForReview(id: nat, user: User) returns (reply: Reply)
      requires ServiceInv(Contents())
      modifies this
      ensures (Contents(), reply) == Serve(old(Contents()), Request.SubmitForReview(id, user))
      ensures ServiceInv(Contents())
    {
      ServeKeepsInv(Contents(), Request.SubmitForReview(id, user));
      if id !in patents {
        return Failure(NotFound);
      }
      if patents[id].submittedBy != user.userId && !user.isAdmin {
        return Failure(Forbidden);
      }
      if patents[id].status !in From(Submit) {
        return Failure(Conflict);
      }
      if patents[id].fields.documentKey.GetOr("") == "" {
        return Failure(Conflict);
      }
      var applied := Transition(id, Submit);
      return if applied then Success(id) else Failure(Conflict);
    }

    /** Status, review row and, when corpus membership changes, outbox row: one transaction. */
    method CommitReview(id: nat, decision: Decision, reviewerId: nat, eventId: nat, bytes: nat, rowId: nat)
      returns (applied: bool)
      requires Drawable(outbox, id, rowId)
      modifies this`patents, this`reviews, this`outbox
      ensures var tx := ReviewTx(id, decision, reviewerId, eventId, bytes, rowId);
              applied == Commit(old(Contents()).db, tx).Some? && Contents().db == ApplyTx(old(Contents()).db, tx)
    {
      if id !in patents {
        return false;
      }
      var before := patents[id].status;
      applied := Transition(id, if decision == Pass then Approve else Decline);
      if !applied {
        return;
      }
      reviews := reviews + [Review(id, reviewerId, decision)];
      if decision == Pass {
        var event := PatentVersionUpserted(eventId, id, SnapshotOf(patents[id]));
        outbox := outbox + [Row(rowId, id, event, bytes, None, None, 0)];
      } else if before == Approved {
        var event := PatentVersionWithdrawn(eventId, id, patents[id].version, "declined");
        outbox := outbox + [Row(rowId, id, event, bytes, None, None, 0)];
      }
    }

    /** The checks of a review, its transaction, and the sequence moved on if that drew from it. */
    method DecideReview(id: nat, decision: Decision, reviewerId: nat, eventId: nat, bytes: nat, gap: nat)
      returns (reply: Reply)
      requires IdsBelow(Contents())
      modifies this
      ensures (Contents(), reply) ==
              Serve(old(Contents()), Request.ReviewPatent(id, decision, reviewerId, eventId, bytes, gap))
    {
      if id !in patents {
        return Failure(NotFound);
      }
      if patents[id].status !in From(if decision == Pass then Approve else Decline) {
        return Failure(Conflict);
      }
      var rowId, enqueued := nextRowId + gap, |outbox|;
      var applied := CommitReview(id, decision, reviewerId, eventId, bytes, rowId);
      if |outbox| > enqueued {
        nextRowId := rowId + 1;
      }
      return if applied then Success(id) else Failure(Conflict);
    }

    method ReviewPatent(id: nat, decision: Decision, reviewerId: nat, eventId: nat, bytes: nat, gap: nat)
      returns (reply: Reply)
      requires ServiceInv(Contents())
      modifies this
      ensures (Contents(), reply) ==
              Serve(old(Contents()), Request.ReviewPatent(id, decision, reviewerId, eventId, bytes, gap))
      ensures ServiceInv(Contents())
    {
      ServeKeepsInv(Contents(), Request.ReviewPatent(id, decision, reviewerId, eventId, bytes, gap));
      reply := DecideReview(id, decision, reviewerId, eventId, bytes, gap);
    }

    method DeletePatent(id: nat, user: User, deletes: bool) returns (reply: Reply)
      requires ServiceInv(Contents())
      modifies this
      ensures (Contents(), reply) == Serve(old(Contents()), Request.DeletePatent(id, user, deletes))
      ensures ServiceInv(Contents())
    {
      ServeKeepsInv(Contents(), Request.DeletePatent(id, user, deletes));
      if id !in patents {
        return Failure(NotFound);
      }
      var patent := patents[id];
      if patent.submittedBy != user.userId && !user.isAdmin {
        return Failure(Forbidden);
      }
      if patent.status != Draft {
        return Failure(Conflict);
      }
      patents := patents - {id};
      reviews := WithoutReviews(reviews, id);
      objects := DeleteObject(objects, patent.fields.documentKey, deletes);
      return Success(id);
    }

    /** Refused while the inventor is credited anywhere, because links would cascade away. */
    method DeleteInventor(id: nat) returns (reply: Reply)
      requires ServiceInv(Contents())
      modifies this
      ensures (Contents(), reply) == Serve(old(Contents()), Request.DeleteInventor(id))
      ensures ServiceInv(Contents())
    {
      ServeKeepsInv(Contents(), Request.DeleteInventor(id));
      if id !in inventors {
        return Failure(NotFound);
      }
      if Credited(patents, id) {
        return Failure(Conflict);
      }
      UncreditedDelete(Contents().db, id);
      patents := map p | p in patents :: patents[p].(links := WithoutInventor(patents[p].links, id));
      inventors := inventors - {id};
      return Success(id);
    }
  }
}
