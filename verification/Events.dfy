/** The published event contract of src/events/patentEvents.js. */
module Events {
  import opened Wrappers
  import opened Sequences

  /** A column value; `None` is SQL NULL. */
  type Value = Option<string>

  /** The columns a client may write. */
  datatype Fields = Fields(
    title: Value,
    abstractText: Value,
    specification: Value,
    documentKey: Value,
    publicationNumber: Value,
    jurisdiction: Value)

  /** The four columns whose change makes a new version are equal. */
  predicate SameContent(a: Fields, b: Fields) {
    a.title == b.title && a.abstractText == b.abstractText
    && a.specification == b.specification && a.documentKey == b.documentKey
  }

  /** One PATENT_INVENTOR row: an inventor and the place in the credit order. */
  datatype Link = Link(inventorId: nat, inventorOrder: int)

  /** Everything an Upserted event says about a patent, names apart. */
  datatype Snapshot = Snapshot(version: nat, fields: Fields, credits: seq<Link>, submittedBy: nat)

  /** Leaves out who is credited: deleting an inventor can change that without a review. */
  function WithoutCredits(s: Snapshot): Snapshot {
    s.(credits := [])
  }

  datatype Event =
    | PatentVersionUpserted(eventId: nat, patentId: nat, snapshot: Snapshot)
    | PatentVersionWithdrawn(eventId: nat, patentId: nat, version: nat, reason: string)

  function InventorIds(links: seq<Link>): seq<nat> {
    seq(|links|, i requires 0 <= i < |links| => links[i].inventorId)
  }

  predicate CreditedBefore(a: Link, b: Link) {
    a.inventorOrder <= b.inventorOrder
  }

  /** The stable sort by `inventorOrder` applied to a copied list. */
  function SortLinks(s: seq<Link>): seq<Link> {
    Sort(s, CreditedBefore)
  }
}
