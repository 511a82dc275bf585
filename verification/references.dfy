/**
 * The two shapes a reference field takes. In a database document a
 * reference is null, an identifier, or (after the query populated it) the
 * referenced document; in an API object it is null, the identifier printed
 * as a string, or the referenced object.
 */
module References {
  import opened ObjectIds

  datatype Ref<+D> = NoRef | RefId(oid: ObjectId) | RefDoc(doc: D)

  datatype Link<+A> = NoLink | LinkId(id: string) | LinkObj(obj: A)

  /** A reference as the mapper expects it: populated exactly when the caller asked for population. */
  predicate RefShaped<D>(r: Ref<D>, populated: bool) {
    match r
    case NoRef => true
    case RefId(_) => !populated
    case RefDoc(_) => populated
  }

  /** A link as the inverse mapper expects it: an object exactly when the caller asked for one. */
  predicate LinkShaped<A>(l: Link<A>, populated: bool) {
    match l
    case NoLink => true
    case LinkId(s) => !populated && IsHexId(s)
    case LinkObj(_) => populated
  }

  /** A link whose identifier string, if any, is in printed form. */
  predicate LinkCanonical<A>(l: Link<A>) {
    l.LinkId? ==> IsCanonicalId(l.id)
  }
}
