/**
 * What each request of the patent service accepts, what it answers, and all it
 * changes: stated from the request and the store alone, for every store the
 * service can be in.
 */
module Outcomes {
  import opened Wrappers
  import opened Sequences
  import opened Lifecycle
  import opened Events
  import opened Outbox
  import opened PatentDb
  import opened ObjectKeys
  import opened Relations
  import opened Requests

  // ---------------------------------------------------------------- parts of a request

  /** The list of inventors can be taken: known inventors, each once, all or none placed, in places 1..n. */
  predicate InventorsAcceptable(entries: seq<InventorEntry>, known: set<nat>)
    requires ValidEntries(entries)
  {
    && (forall i, j :: 0 <= i < j < |entries| ==> NumeralValue(entries[i].inventorId) != NumeralValue(entries[j].inventorId))
    && (forall i :: 0 <= i < |entries| ==> NumeralValue(entries[i].inventorId) in known)
    && ((forall i :: 0 <= i < |entries| ==> entries[i].order.None?) ||
        ((forall i :: 0 <= i < |entries| ==> entries[i].order.Some? && 1 <= entries[i].order.value <= |entries|)
         && forall i, j :: 0 <= i < j < |entries| ==> entries[i].order != entries[j].order))
  }

  /** The checks on the list, and the link key at the commit, let through exactly the acceptable lists. */
  lemma AcceptableExactly(entries: seq<InventorEntry>, known: set<nat>)
    requires ValidEntries(entries)
    ensures Resolved(entries, known).Success? && DistinctInventors(Resolved(entries, known).value)
            <==> InventorsAcceptable(entries, known)
    ensures Resolved(entries, known).Success? ==> AsAsked(Resolved(entries, known).value, entries)
  {
    ResolvedExactly(entries, known);
    OrdersExactly(entries);
    assert InventorsAcceptable(entries, known) ==> Distinct(SpelledIds(entries));
    if Resolved(entries, known).Success? {
      AcceptedSoundExactly(entries, known);
      DistinctEntriesExactly(entries, known);
    }
  }

  lemma DistinctEntriesExactly(entries: seq<InventorEntry>, known: set<nat>)
    requires ValidEntries(entries) && Resolved(entries, known).Success?
    ensures DistinctInventors(Resolved(entries, known).value) <==>
            forall i, j :: 0 <= i < j < |entries| ==>
              NumeralValue(entries[i].inventorId) != NumeralValue(entries[j].inventorId)
  {
    ResolvedExactly(entries, known);
    var ids := InventorIds(LinksOf(entries));
    assert |ids| == |entries|;
    assert forall i :: 0 <= i < |entries| ==> ids[i] == NumeralValue(entries[i].inventorId);
  }

  lemma OrdersExactly(entries: seq<InventorEntry>)
    ensures AllOrNone(entries) && IsPermutation(Orders(entries)) <==>
            ((forall i :: 0 <= i < |entries| ==> entries[i].order.None?) ||
             ((forall i :: 0 <= i < |entries| ==> entries[i].order.Some? && 1 <= entries[i].order.value <= |entries|)
              && forall i, j :: 0 <= i < j < |entries| ==> entries[i].order != entries[j].order))
  {
    var orders := Orders(entries);
    assert |orders| == |entries|;
    if forall i :: 0 <= i < |entries| ==> entries[i].order.None? {
      assert forall i :: 0 <= i < |orders| ==> orders[i] == i + 1;
    } else if forall i :: 0 <= i < |entries| ==> entries[i].order.Some? {
      assert forall i :: 0 <= i < |orders| ==> orders[i] == entries[i].order.value;
    }
  }

  /** Uploaded under a key issued to the user, to no other patent attached, and of a size that is allowed. */
  predicate DocumentAcceptable(s: Store, key: string, userId: nat, except: Option<nat>) {
    && "patents/" + Decimal(userId) + "/" <= key
    && (forall q :: q in s.db.patents && except != Some(q) ==> s.db.patents[q].fields.documentKey != Some(key))
    && key in s.objects && s.objects[key] <= 50 * 1024 * 1024
  }

  /** The user's own unattached upload, found too large. */
  predicate Oversized(s: Store, key: string, userId: nat, except: Option<nat>) {
    && "patents/" + Decimal(userId) + "/" <= key
    && (forall q :: q in s.db.patents && except != Some(q) ==> s.db.patents[q].fields.documentKey != Some(key))
    && key in s.objects && s.objects[key] > 50 * 1024 * 1024
  }

  lemma DocumentChecked(s: Store, key: string, userId: nat, except: Option<nat>, deletes: bool)
    requires key != ""
    ensures DocumentError(s, key, userId, except).None? <==> DocumentAcceptable(s, key, userId, except)
    ensures ObjectsAfterVerify(s, key, userId, except, deletes) ==
            if Oversized(s, key, userId, except) && deletes then s.objects - {key} else s.objects
    ensures Oversized(s, key, userId, except) ==> DocumentError(s, key, userId, except).Some?
  {
  }

  /** No other patent has this publication number. */
  predicate NumberFree(s: Store, number: Value, except: Option<nat>) {
    number.Some? ==> forall q :: q in s.db.patents && except != Some(q) ==> s.db.patents[q].fields.publicationNumber != number
  }

  predicate MayChange(p: Patent, user: User) {
    p.submittedBy == user.userId || user.isAdmin
  }

  // ---------------------------------------------------------------- create

  function NullIfEmpty(v: Value): Value {
    if v.Some? && v.value == "" then None else v
  }

  predicate CreateAcceptable(s: Store, r: Request)
    requires r.CreatePatent? && Validated(r)
  {
    && DocumentAcceptable(s, r.fields.documentKey.value, r.user.userId, None)
    && InventorsAcceptable(r.entries, s.inventors)
    && NumberFree(s, NullIfEmpty(r.fields.publicationNumber), None)
  }

  /** What a successful create adds: one draft, with what was asked for, in the caller's name. */
  predicate CreatedAs(s: Store, r: Request, s': Store, id: nat)
    requires r.CreatePatent? && Validated(r)
  {
    && id !in s.db.patents && id !in s.db.patentIds && id in s'.db.patents
    && s'.db.patents == s.db.patents[id := s'.db.patents[id]]
    && (var p := s'.db.patents[id];
        && p.fields.title == r.fields.title && p.fields.abstractText == r.fields.abstractText
        && p.fields.specification == r.fields.specification && p.fields.documentKey == r.fields.documentKey
        && p.fields.publicationNumber == NullIfEmpty(r.fields.publicationNumber)
        && p.fields.jurisdiction == NullIfEmpty(r.fields.jurisdiction)
        && p.status == Draft && p.version == 1 && p.submittedBy == r.user.userId && p.createdAt == r.now
        && AsAsked(p.links, r.entries))
    && s'.db.reviews == s.db.reviews && s'.db.outbox == s.db.outbox
    && s'.objects == s.objects && s'.inventors == s.inventors
  }

  lemma CheckedCreate(s: Store, r: Request)
    requires ServiceInv(s) && Validated(r) && r.CreatePatent?
    ensures var (s1, checked) := PrecheckedCreate(s, r);
            && s1 == s.(objects := ObjectsAfterVerify(s, r.fields.documentKey.value, r.user.userId, None, r.deletes))
            && (checked.Success? ==> s1 == s && AsAsked(checked.value, r.entries))
            && (checked.Success? && DistinctInventors(checked.value) <==> CreateAcceptable(s, r))
  {
    DocumentChecked(s, r.fields.documentKey.value, r.user.userId, None, r.deletes);
    AcceptableExactly(r.entries, s.inventors);
  }

  lemma InsertCommits(s: Store, r: Request, links: seq<Link>)
    requires ServiceInv(s) && Validated(r) && r.CreatePatent?
    requires DocumentAcceptable(s, r.fields.documentKey.value, r.user.userId, None)
    requires NumberFree(s, NullIfEmpty(r.fields.publicationNumber), None)
    ensures var id := s.nextPatentId + r.gap;
            && id !in s.db.patentIds && id !in s.db.patents
            && (Commit(s.db, Create(id, NewRow(r.fields), r.user.userId, links, r.now)).Some? <==> DistinctInventors(links))
  {
    assert UniqueOk(s.db.patents, s.nextPatentId + r.gap, NewRow(r.fields));
  }

  /**
   * A create succeeds exactly when the document, the inventors and the publication
   * number are acceptable, and then adds what was asked for and nothing else. When
   * it fails, nothing changes but that the caller's own oversized upload may go.
   */
  lemma CreateOutcome(s: Store, r: Request)
    requires ServiceInv(s) && Validated(r) && r.CreatePatent?
    ensures Serve(s, r).1.Success? <==> CreateAcceptable(s, r)
    ensures Serve(s, r).1.Success? ==> CreatedAs(s, r, Serve(s, r).0, Serve(s, r).1.value)
    ensures Serve(s, r).1.Failure? ==>
              Serve(s, r).0 == s.(objects := if Oversized(s, r.fields.documentKey.value, r.user.userId, None) && r.deletes
                                             then s.objects - {r.fields.documentKey.value} else s.objects)
  {
    CheckedCreate(s, r);
    DocumentChecked(s, r.fields.documentKey.value, r.user.userId, None, r.deletes);
    var (s1, checked) := PrecheckedCreate(s, r);
    if checked.Success? {
      InsertCommits(s, r, checked.value);
    }
  }

  /** The key is attached to some patent other than the one excepted. */
  predicate Taken(s: Store, key: string, except: Option<nat>) {
    exists q :: q in s.db.patents && except != Some(q) && s.db.patents[q].fields.documentKey == Some(key)
  }

  /** Why a document is refused, if it is: a conflict when it is attached elsewhere, a bad request otherwise. */
  lemma DocumentRefused(s: Store, key: string, userId: nat, except: Option<nat>)
    requires key != "" && !DocumentAcceptable(s, key, userId, except)
    ensures DocumentError(s, key, userId, except) ==
            Some(if "patents/" + Decimal(userId) + "/" <= key && Taken(s, key, except) then Conflict else BadRequest)
  {
    DocumentChecked(s, key, userId, except, false);
  }

  /** The list of inventors passes the checks, which look at the spelling of the ids. */
  predicate InventorsPass(entries: seq<InventorEntry>, known: set<nat>)
    requires ValidEntries(entries)
  {
    Resolved(entries, known).Success?
  }

  /** What a create that fails is told: the first thing wrong, in this order. */
  lemma CreateErrors(s: Store, r: Request)
    requires ServiceInv(s) && Validated(r) && r.CreatePatent? && !CreateAcceptable(s, r)
    ensures var key := r.fields.documentKey.value;
            Serve(s, r).1 == Failure(
              if !DocumentAcceptable(s, key, r.user.userId, None) then
                (if "patents/" + Decimal(r.user.userId) + "/" <= key && Taken(s, key, None) then Conflict else BadRequest)
              else if !InventorsPass(r.entries, s.inventors) then BadRequest
              else Conflict)
  {
    CreateOutcome(s, r);
    DocumentChecked(s, r.fields.documentKey.value, r.user.userId, None, r.deletes);
    if !DocumentAcceptable(s, r.fields.documentKey.value, r.user.userId, None) {
      DocumentRefused(s, r.fields.documentKey.value, r.user.userId, None);
    }
  }

  /** A stored document is the caller's own: its key's owner segment spells the caller's id. */
  lemma CreateTakesOwnDocument(s: Store, r: Request, owner: string, uuid: string, name: string)
    requires ServiceInv(s) && Validated(r) && r.CreatePatent? && FitsPattern(owner, uuid, name)
    requires r.fields.documentKey == Some("patents/" + owner + "/" + uuid + "/" + name)
    ensures Serve(s, r).1.Success? ==> owner == Decimal(r.user.userId)
    ensures owner != Decimal(r.user.userId) ==> Serve(s, r) == (s, Failure(BadRequest))
  {
    OwnerIsSecondSegment(owner, uuid, name, r.user.userId);
    CreateOutcome(s, r);
  }

  // ---------------------------------------------------------------- update

  predicate ChangesDocument(r: Request, p: Patent)
    requires r.UpdatePatent?
  {
    DocumentKey in r.updates && r.updates[DocumentKey] != p.fields.documentKey
  }

  predicate UpdateAcceptable(s: Store, r: Request)
    requires r.UpdatePatent? && Validated(r)
  {
    && r.id in s.db.patents
    && MayChange(s.db.patents[r.id], r.user)
    && (s.db.patents[r.id].status == Draft || s.db.patents[r.id].status == Declined)
    && (ChangesDocument(r, s.db.patents[r.id]) ==>
          DocumentAcceptable(s, r.updates[DocumentKey].value, r.user.userId, Some(r.id)))
    && (PublicationNumber in r.updates ==> NumberFree(s, r.updates[PublicationNumber], Some(r.id)))
    && (r.inventors.Some? ==> InventorsAcceptable(r.inventors.value, s.inventors))
  }

  function Asked(updates: Updates, field: Field, before: Value): Value {
    if field in updates then updates[field] else before
  }

  /** Every column the request names takes its value and no other changes; the inventors are those given, if any. */
  predicate UpdatedAs(r: Request, p: Patent, p': Patent)
    requires r.UpdatePatent? && Validated(r)
  {
    && p'.fields.title == Asked(r.updates, Title, p.fields.title)
    && p'.fields.abstractText == Asked(r.updates, AbstractText, p.fields.abstractText)
    && p'.fields.specification == Asked(r.updates, Specification, p.fields.specification)
    && p'.fields.documentKey == Asked(r.updates, DocumentKey, p.fields.documentKey)
    && p'.fields.publicationNumber == Asked(r.updates, PublicationNumber, p.fields.publicationNumber)
    && p'.fields.jurisdiction == Asked(r.updates, Jurisdiction, p.fields.jurisdiction)
    && (r.inventors.Some? ==> AsAsked(p'.links, r.inventors.value))
    && (r.inventors.None? ==> p'.links == p.links)
    && p'.version == (if p'.fields.title == p.fields.title && p'.fields.abstractText == p.fields.abstractText
                         && p'.fields.specification == p.fields.specification && p'.fields.documentKey == p.fields.documentKey
                      then p.version else p.version + 1)
    && p'.status == p.status && p'.submittedBy == p.submittedBy && p'.createdAt == p.createdAt
  }

  /** What the checks of an update leave behind, and the links they hand on. */
  predicate ChecksUpdate(s: Store, r: Request)
    requires Validated(r) && r.UpdatePatent? && r.id in s.db.patents
  {
    var (s1, checked) := Prechecked(s, r);
    var p := s.db.patents[r.id];
    && s1 == s.(objects := s1.objects)
    && (checked.Success? ==> s1 == s)
    && (checked.Success? && r.inventors.Some? ==>
          checked.value.Some? && AsAsked(checked.value.value, r.inventors.value))
    && (checked.Success? && r.inventors.None? ==> checked.value.None?)
    && (s1.objects == if ChangesDocument(r, p) && r.deletes
                         && Oversized(s, r.updates[DocumentKey].value, r.user.userId, Some(r.id))
                      then s.objects - {r.updates[DocumentKey].value} else s.objects)
  }

  lemma CheckedUpdate(s: Store, r: Request)
    requires ServiceInv(s) && Validated(r) && r.UpdatePatent? && r.id in s.db.patents
    ensures ChecksUpdate(s, r)
  {
    if ChangesDocument(r, s.db.patents[r.id]) {
      DocumentChecked(s, r.updates[DocumentKey].value, r.user.userId, Some(r.id), r.deletes);
    }
    if r.inventors.Some? {
      AcceptableExactly(r.inventors.value, s.inventors);
    }
  }

  predicate GoesThrough(s: Store, r: Request)
    requires Validated(r) && r.UpdatePatent? && r.id in s.db.patents
  {
    var checked := Prechecked(s, r).1;
    checked.Success? && Commit(s.db, Edit(r.id, r.updates, s.db.patents[r.id].fields, checked.value)).Some?
  }

  /** The checks pass and the commit finds nothing in its way, exactly for an acceptable update. */
  lemma UpdateCommits(s: Store, r: Request)
    requires ServiceInv(s) && Validated(r) && r.UpdatePatent? && r.id in s.db.patents
    requires s.db.patents[r.id].status in EDITABLE_STATUSES && MayChange(s.db.patents[r.id], r.user)
    ensures GoesThrough(s, r) <==> UpdateAcceptable(s, r)
  {
    var p := s.db.patents[r.id];
    var (s1, checked) := Prechecked(s, r);
    CheckedUpdate(s, r);
    if ChangesDocument(r, p) {
      DocumentChecked(s, r.updates[DocumentKey].value, r.user.userId, Some(r.id), r.deletes);
    }
    if r.inventors.Some? {
      AcceptableExactly(r.inventors.value, s.inventors);
    }
    if checked.Success? {
      EditCommits(s, r, checked.value);
    }
  }

  lemma EditCommits(s: Store, r: Request, links: Option<seq<Link>>)
    requires ServiceInv(s) && Validated(r) && r.UpdatePatent? && r.id in s.db.patents
    requires s.db.patents[r.id].status in EDITABLE_STATUSES
    requires ChangesDocument(r, s.db.patents[r.id]) ==>
               DocumentAcceptable(s, r.updates[DocumentKey].value, r.user.userId, Some(r.id))
    ensures Commit(s.db, Edit(r.id, r.updates, s.db.patents[r.id].fields, links)).Some? <==>
            && (PublicationNumber in r.updates ==> NumberFree(s, r.updates[PublicationNumber], Some(r.id)))
            && (links.Some? ==> DistinctInventors(links.value))
  {
    var p := s.db.patents[r.id];
    assert UniqueOk(s.db.patents, r.id, p.fields);
    assert CreditOk(p.links, s.inventors);
  }

  lemma EditEffect(s: Store, r: Request, links: Option<seq<Link>>)
    requires Validated(r) && r.UpdatePatent? && r.id in s.db.patents
    requires Commit(s.db, Edit(r.id, r.updates, s.db.patents[r.id].fields, links)).Some?
    requires r.inventors.Some? ==> links.Some? && AsAsked(links.value, r.inventors.value)
    requires r.inventors.None? ==> links.None?
    ensures var db' := ApplyTx(s.db, Edit(r.id, r.updates, s.db.patents[r.id].fields, links));
            && r.id in db'.patents && UpdatedAs(r, s.db.patents[r.id], db'.patents[r.id])
            && db' == s.db.(patents := s.db.patents[r.id := db'.patents[r.id]])
  {
    var p, p' := s.db.patents[r.id], EditedRow(s.db.patents[r.id], r.updates, s.db.patents[r.id].fields, links);
    assert Title in CONTENT_FIELDS && AbstractText in CONTENT_FIELDS && Specification in CONTENT_FIELDS && DocumentKey in CONTENT_FIELDS;
    assert forall f :: f in CONTENT_FIELDS ==> f == Title || f == AbstractText || f == Specification || f == DocumentKey;
    assert ContentChanged(r.updates, p.fields) <==>
      p'.fields.title != p.fields.title || p'.fields.abstractText != p.fields.abstractText
      || p'.fields.specification != p.fields.specification || p'.fields.documentKey != p.fields.documentKey;
  }

  /** What `UpdateOutcome` promises. */
  predicate UpdateRight(s: Store, r: Request)
    requires Validated(r) && r.UpdatePatent?
  {
    && (Serve(s, r).1.Success? <==> UpdateAcceptable(s, r))
    && (Serve(s, r).1.Success? ==>
          var s', p := Serve(s, r).0, s.db.patents[r.id];
          && Serve(s, r).1.value == r.id && r.id in s'.db.patents && UpdatedAs(r, p, s'.db.patents[r.id])
          && s'.db == s.db.(patents := s.db.patents[r.id := s'.db.patents[r.id]])
          && s' == s.(db := s'.db, objects := s'.objects)
          && (s'.objects == if ChangesDocument(r, p) && p.fields.documentKey.GetOr("") != "" && r.deletes
                            then s.objects - {p.fields.documentKey.value} else s.objects))
    && (Serve(s, r).1.Failure? ==>
          Serve(s, r).0 == s.(objects :=
            if r.deletes && r.id in s.db.patents && MayChange(s.db.patents[r.id], r.user)
               && s.db.patents[r.id].status in {Draft, Declined} && ChangesDocument(r, s.db.patents[r.id])
               && Oversized(s, r.updates[DocumentKey].value, r.user.userId, Some(r.id))
            then s.objects - {r.updates[DocumentKey].value} else s.objects))
    && (r.id !in s.db.patents <==> Serve(s, r).1 == Failure(NotFound))
    && (r.id in s.db.patents && !MayChange(s.db.patents[r.id], r.user) <==> Serve(s, r).1 == Failure(Forbidden))
  }

  lemma UpdatedExactly(s: Store, r: Request)
    requires Validated(r) && r.UpdatePatent?
    requires (r.id in s.db.patents && MayChange(s.db.patents[r.id], r.user)
              && s.db.patents[r.id].status in EDITABLE_STATUSES)
             ==> ChecksUpdate(s, r) && (GoesThrough(s, r) <==> UpdateAcceptable(s, r))
    ensures UpdateRight(s, r)
  {
    if r.id in s.db.patents && MayChange(s.db.patents[r.id], r.user) && s.db.patents[r.id].status in EDITABLE_STATUSES {
      var checked := Prechecked(s, r).1;
      if checked.Success? {
        CommittedEditEffect(s, r, checked.value);
      }
    }
  }

  /**
   * An update succeeds exactly when the patent is a draft or declined and the
   * caller's or the caller an admin, and the new document, publication number and
   * inventors, where given, are acceptable. It then does what was asked to this
   * patent alone and drops the document it replaced. When it fails, nothing
   * changes but that the caller's own oversized upload may go.
   */
  lemma UpdateOutcome(s: Store, r: Request)
    requires ServiceInv(s) && Validated(r) && r.UpdatePatent?
    ensures UpdateRight(s, r)
  {
    if r.id in s.db.patents && MayChange(s.db.patents[r.id], r.user) && s.db.patents[r.id].status in EDITABLE_STATUSES {
      CheckedUpdate(s, r);
      UpdateCommits(s, r);
    }
    UpdatedExactly(s, r);
  }

  lemma CommittedEditEffect(s: Store, r: Request, links: Option<seq<Link>>)
    requires Validated(r) && r.UpdatePatent? && r.id in s.db.patents
    requires r.inventors.Some? ==> links.Some? && AsAsked(links.value, r.inventors.value)
    requires r.inventors.None? ==> links.None?
    ensures var p := s.db.patents[r.id];
            var (s', reply) := CommittedEdit(s, r.id, r.updates, p, links, r.deletes);
            if Commit(s.db, Edit(r.id, r.updates, p.fields, links)).None? then s' == s && reply == Failure(Conflict)
            else
              && reply == Success(r.id) && r.id in s'.db.patents && UpdatedAs(r, p, s'.db.patents[r.id])
              && s'.db == s.db.(patents := s.db.patents[r.id := s'.db.patents[r.id]])
              && s' == s.(db := s'.db, objects := s'.objects)
              && (s'.objects == if ChangesDocument(r, p) && p.fields.documentKey.GetOr("") != "" && r.deletes
                                then s.objects - {p.fields.documentKey.value} else s.objects)
  {
    if Commit(s.db, Edit(r.id, r.updates, s.db.patents[r.id].fields, links)).Some? {
      EditEffect(s, r, links);
    }
  }

  /** What an update that fails is told: the first thing wrong, in this order. */
  lemma UpdateErrors(s: Store, r: Request)
    requires ServiceInv(s) && Validated(r) && r.UpdatePatent? && !UpdateAcceptable(s, r)
    requires r.id in s.db.patents && MayChange(s.db.patents[r.id], r.user)
    ensures var p := s.db.patents[r.id];
            Serve(s, r).1 == Failure(
              if p.status != Draft && p.status != Declined then Conflict
              else if ChangesDocument(r, p) && !DocumentAcceptable(s, r.updates[DocumentKey].value, r.user.userId, Some(r.id)) then
                (if "patents/" + Decimal(r.user.userId) + "/" <= r.updates[DocumentKey].value
                    && Taken(s, r.updates[DocumentKey].value, Some(r.id)) then Conflict else BadRequest)
              else if PublicationNumber in r.updates && r.updates[PublicationNumber] != Some("")
                      && !NumberFree(s, r.updates[PublicationNumber], Some(r.id)) then Conflict
              else if r.inventors.Some? && !InventorsPass(r.inventors.value, s.inventors) then BadRequest
              else Conflict)
  {
    var p := s.db.patents[r.id];
    UpdateOutcome(s, r);
    if ChangesDocument(r, p) {
      var key := r.updates[DocumentKey].value;
      DocumentChecked(s, key, r.user.userId, Some(r.id), r.deletes);
      if !DocumentAcceptable(s, key, r.user.userId, Some(r.id)) {
        DocumentRefused(s, key, r.user.userId, Some(r.id));
      }
    }
  }

  /** The same for a document that an update brings: it is the caller's own, or the update fails and changes nothing. */
  lemma UpdateTakesOwnDocument(s: Store, r: Request, owner: string, uuid: string, name: string)
    requires ServiceInv(s) && Validated(r) && r.UpdatePatent? && FitsPattern(owner, uuid, name)
    requires DocumentKey in r.updates && r.updates[DocumentKey] == Some("patents/" + owner + "/" + uuid + "/" + name)
    requires r.id in s.db.patents && ChangesDocument(r, s.db.patents[r.id])
    ensures Serve(s, r).1.Success? ==> owner == Decimal(r.user.userId)
    ensures owner != Decimal(r.user.userId) ==> Serve(s, r).0 == s
    ensures (owner != Decimal(r.user.userId) && MayChange(s.db.patents[r.id], r.user)
             && s.db.patents[r.id].status in {Draft, Declined}) ==> Serve(s, r).1 == Failure(BadRequest)
  {
    OwnerIsSecondSegment(owner, uuid, name, r.user.userId);
    UpdateOutcome(s, r);
  }

  // ---------------------------------------------------------------- submit, review, delete

  /** A submit needs a draft or declined patent of the caller's, or an admin, and a document; it changes the status alone. */
  lemma SubmitOutcome(s: Store, r: Request)
    requires r.SubmitForReview?
    ensures Serve(s, r).1.Success? <==>
            && r.id in s.db.patents && MayChange(s.db.patents[r.id], r.user)
            && (s.db.patents[r.id].status == Draft || s.db.patents[r.id].status == Declined)
            && s.db.patents[r.id].fields.documentKey.Some? && s.db.patents[r.id].fields.documentKey.value != ""
    ensures Serve(s, r).1.Success? ==>
              && Serve(s, r).1.value == r.id
              && Serve(s, r).0 == s.(db := s.db.(patents :=
                   s.db.patents[r.id := s.db.patents[r.id].(status := PendingAdmin)]))
    ensures Serve(s, r).1.Failure? ==> Serve(s, r).0 == s
    ensures r.id !in s.db.patents <==> Serve(s, r).1 == Failure(NotFound)
    ensures r.id in s.db.patents && !MayChange(s.db.patents[r.id], r.user) <==> Serve(s, r).1 == Failure(Forbidden)
  {
  }

  /** The event of a review, if it has one: the row it approves, or the version it withdraws. */
  function ReviewEvent(r: Request, p: Patent): Option<Event>
    requires r.ReviewPatent?
  {
    if r.decision == Pass then
      Some(PatentVersionUpserted(r.eventId, r.id, Snapshot(p.version, p.fields, SortLinks(p.links), p.submittedBy)))
    else if p.status == Approved then Some(PatentVersionWithdrawn(r.eventId, r.id, p.version, "declined"))
    else None
  }

  /** What `ReviewOutcome` promises. */
  predicate ReviewRight(s: Store, r: Request)
    requires r.ReviewPatent?
  {
    && (Serve(s, r).1.Success? <==>
        && r.id in s.db.patents
        && (s.db.patents[r.id].status == PendingAdmin || (r.decision == Fail && s.db.patents[r.id].status == Approved)))
    && (Serve(s, r).1.Success? ==>
          var s', p := Serve(s, r).0, s.db.patents[r.id];
          var event, rowId := ReviewEvent(r, p), s.nextRowId + r.gap;
          && Serve(s, r).1.value == r.id
          && s'.db.patents == s.db.patents[r.id := p.(status := if r.decision == Pass then Approved else Declined)]
          && s'.db.reviews == s.db.reviews + [Review(r.id, r.reviewerId, r.decision)]
          && (s'.db.outbox == if event.Some? then s.db.outbox + [Row(rowId, r.id, event.value, r.bytes, None, None, 0)]
                              else s.db.outbox)
          && s'.objects == s.objects && s'.inventors == s.inventors && s'.db.patentIds == s.db.patentIds)
    && (Serve(s, r).1.Failure? ==> Serve(s, r).0 == s)
    && (r.id !in s.db.patents <==> Serve(s, r).1 == Failure(NotFound))
  }

  lemma ReviewedExactly(s: Store, r: Request)
    requires r.ReviewPatent? && Drawable(s.db.outbox, r.id, s.nextRowId + r.gap)
    ensures ReviewRight(s, r)
  {
    if r.id in s.db.patents {
      if r.decision == Pass {
        PassOutcome(s, r);
      } else {
        FailOutcome(s, r);
      }
    }
  }

  /**
   * A pass needs a pending patent, a fail a pending or approved one. The status,
   * one review naming the reviewer, and the event, if there is one, are all that
   * changes.
   */
  lemma ReviewOutcome(s: Store, r: Request)
    requires ServiceInv(s) && r.ReviewPatent?
    ensures ReviewRight(s, r)
  {
    assert Drawable(s.db.outbox, r.id, s.nextRowId + r.gap);
    ReviewedExactly(s, r);
  }

  lemma FailOutcome(s: Store, r: Request)
    requires r.ReviewPatent? && r.decision == Fail && r.id in s.db.patents
    requires Drawable(s.db.outbox, r.id, s.nextRowId + r.gap)
    ensures var tx, event := DeclineTx(r.id, r.reviewerId, r.eventId, r.bytes, s.nextRowId + r.gap), ReviewEvent(r, s.db.patents[r.id]);
            && (Commit(s.db, tx).Some? <==> s.db.patents[r.id].status in {PendingAdmin, Approved})
            && (Commit(s.db, tx).Some? ==>
                  ApplyTx(s.db, tx).outbox ==
                  if event.Some? then s.db.outbox + [Row(s.nextRowId + r.gap, r.id, event.value, r.bytes, None, None, 0)]
                  else s.db.outbox)
  {
  }

  lemma PassOutcome(s: Store, r: Request)
    requires r.ReviewPatent? && r.decision == Pass && r.id in s.db.patents
    requires Drawable(s.db.outbox, r.id, s.nextRowId + r.gap)
    ensures var tx := ApproveTx(r.id, r.reviewerId, r.eventId, r.bytes, s.nextRowId + r.gap);
            && (Commit(s.db, tx).Some? <==> s.db.patents[r.id].status == PendingAdmin)
            && (Commit(s.db, tx).Some? ==>
                  ApplyTx(s.db, tx).outbox ==
                  s.db.outbox + [Row(s.nextRowId + r.gap, r.id, ReviewEvent(r, s.db.patents[r.id]).value, r.bytes, None, None, 0)])
  {
  }

  /** What `DeleteOutcome` promises. */
  predicate DeleteRight(s: Store, r: Request)
    requires r.DeletePatent?
  {
    && (Serve(s, r).1.Success? <==>
        r.id in s.db.patents && MayChange(s.db.patents[r.id], r.user) && s.db.patents[r.id].status == Draft)
    && (Serve(s, r).1.Success? ==>
          var key := s.db.patents[r.id].fields.documentKey;
          Serve(s, r).0 == s.(db := s.db.(patents := s.db.patents - {r.id}),
                              objects := if r.deletes && key.GetOr("") != "" then s.objects - {key.value} else s.objects))
    && (Serve(s, r).1.Failure? ==> Serve(s, r).0 == s)
    && (r.id !in s.db.patents <==> Serve(s, r).1 == Failure(NotFound))
    && (r.id in s.db.patents && !MayChange(s.db.patents[r.id], r.user) <==> Serve(s, r).1 == Failure(Forbidden))
  }

  lemma DeletedExactly(s: Store, r: Request)
    requires r.DeletePatent?
    requires r.id in s.db.patents && s.db.patents[r.id].status == Draft ==> DecisionsOf(s.db.reviews, r.id) == []
    ensures DeleteRight(s, r)
  {
    if r.id in s.db.patents && s.db.patents[r.id].status == Draft {
      NoDecisionsToErase(s.db.reviews, r.id);
    }
  }

  /** A delete needs a draft of the caller's, or an admin; the patent and its document go, and nothing else. */
  lemma DeleteOutcome(s: Store, r: Request)
    requires ServiceInv(s) && r.DeletePatent?
    ensures DeleteRight(s, r)
  {
    assert LogAgrees(s.db, r.id);
    DeletedExactly(s, r);
  }

  /** An inventor can be deleted exactly when there is one and no patent credits them; only the inventor goes. */
  lemma DeleteInventorOutcome(s: Store, id: nat)
    ensures Serve(s, DeleteInventor(id)).1.Success? <==>
            id in s.inventors && forall q, i :: q in s.db.patents && 0 <= i < |s.db.patents[q].links| ==>
              s.db.patents[q].links[i].inventorId != id
    ensures Serve(s, DeleteInventor(id)).0 ==
            if Serve(s, DeleteInventor(id)).1.Success? then s.(inventors := s.inventors - {id}) else s
    ensures id !in s.inventors <==> Serve(s, DeleteInventor(id)).1 == Failure(NotFound)
  {
    if Credited(s.db.patents, id) {
      var q :| q in s.db.patents && id in InventorIds(s.db.patents[q].links);
      var i :| 0 <= i < |InventorIds(s.db.patents[q].links)| && InventorIds(s.db.patents[q].links)[i] == id;
      assert s.db.patents[q].links[i].inventorId == id;
    } else {
      UncreditedDelete(s.db, id);
      forall q, i | q in s.db.patents && 0 <= i < |s.db.patents[q].links|
        ensures s.db.patents[q].links[i].inventorId != id
      {
        assert InventorIds(s.db.patents[q].links)[i] == s.db.patents[q].links[i].inventorId;
      }
    }
  }
}
