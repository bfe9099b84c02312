/**
 * The API side: the `idCounter` row whose `idCount` is raised by one per
 * allocation, and the record the POST handler builds around the new identifier.
 */
module Routes {
  import opened Wrappers
  import opened Records
  import opened Ids

  /**
   * Identifiers formatted from values that are not among `values` differ from every
   * identifier formatted from `values`.
   */
  lemma FreshValueFreshId(values: seq<int>, n: int)
    requires n !in values
    ensures forall v :: v in values ==> FormatId(v) != FormatId(n)
  {
    forall v | v in values ensures FormatId(v) != FormatId(n) {
      FormatIdInjective(v, n);
    }
  }

  /** The counter row `idCounter` / `BusinessId`. */
  class IdCounter {
    var idCount: int
    /** The value the row held when this model started, and every value handed out since, in order. */
    ghost const start: int
    ghost var handedOut: seq<int>

    ghost predicate Valid()
      reads this
    {
      && idCount >= start
      && |handedOut| == idCount - start
      && forall i :: 0 <= i < |handedOut| ==> handedOut[i] == start + i + 1
    }

    constructor (initial: int)
      ensures Valid() && idCount == initial && start == initial && handedOut == []
    {
      idCount := initial;
      start := initial;
      handedOut := [];
    }

    /**
     * `getId`: when the store applies the update (`updated`), the counter is one higher
     * and the identifier formatted from the new value is returned; that value was never
     * handed out before, so the identifier differs from every earlier one. When the
     * update fails, the error is swallowed, nothing changes and no identifier is returned.
     */
    method GetId(updated: bool) returns (id: Option<string>)
      requires Valid()
      modifies this
      ensures Valid()
      ensures updated ==> idCount == old(idCount) + 1 && id == Some(FormatId(idCount))
      ensures !updated ==> idCount == old(idCount) && id == None
      ensures handedOut == if updated then old(handedOut) + [idCount] else old(handedOut)
      ensures updated ==> idCount !in old(handedOut)
      ensures forall v :: v in old(handedOut) && id.Some? ==> FormatId(v) != id.value
    {
      if !updated {
        return None;
      }
      idCount := idCount + 1;
      FreshValueFreshId(handedOut, idCount);
      handedOut := handedOut + [idCount];
      id := Some(FormatId(idCount));
    }
  }

  /**
   * The POST handler's record: the allocated identifier, the request's `name` and
   * `status` as sent, and the creation time. Without an identifier the store refuses
   * the item (its key is missing), so no record results.
   */
  method CreateBusiness(counter: IdCounter, name: string, status: string, now: string, updated: bool)
    returns (item: Option<Business>)
    requires counter.Valid()
    modifies counter
    ensures counter.Valid()
    ensures item.Some? <==> updated
    ensures updated ==> (counter.idCount == old(counter.idCount) + 1
      && item == Some(Business(FormatId(counter.idCount), name, now, status)))
    ensures !updated ==> counter.idCount == old(counter.idCount)
    ensures forall v :: v in old(counter.handedOut) && item.Some? ==> FormatId(v) != item.value.busId
  {
    var id := counter.GetId(updated);
    if id.None? {
      return None;
    }
    item := Some(Business(id.value, name, now, status));
  }
}
