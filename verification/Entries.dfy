/** Order entries as objects, and the counter behind their ids. */
module Entries {
  import opened Orders

  /** An entry of the book: everything is fixed but its amount. */
  class Entry {
    const terms: Terms
    var amount: real

    constructor (o: Order)
      ensures Value() == o
    {
      terms, amount := o.terms, o.amount;
    }

    function Value(): Order
      reads this
    {
      Order(terms, amount)
    }
  }

  /** The counter behind every entry's id. */
  class IdSource {
    var nextId: nat

    method Take() returns (id: nat)
      modifies this
      ensures id == old(nextId) && nextId == old(nextId) + 1
    {
      id := nextId;
      nextId := nextId + 1;
    }
  }

  function Values(entries: seq<Entry>): (r: seq<Order>)
    reads set e | e in entries
    ensures |r| == |entries|
    ensures forall k | 0 <= k < |r| :: r[k] == entries[k].Value()
  {
    seq(|entries|, k requires 0 <= k < |entries| reads entries => entries[k].Value())
  }

  function TermsOf(entries: seq<Entry>): (r: seq<Terms>)
    ensures |r| == |entries|
    ensures forall k | 0 <= k < |r| :: r[k] == entries[k].terms
  {
    seq(|entries|, k requires 0 <= k < |entries| => entries[k].terms)
  }

  ghost predicate NoRepeats(entries: seq<Entry>) {
    forall i, j | 0 <= i < j < |entries| :: entries[i] != entries[j]
  }
}
