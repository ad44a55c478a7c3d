/** The coordinator's bookkeeping of which stripe a client is filling and how far. */
module StripeOffsets {

  datatype StripeOffset = StripeOffset(stripe: nat, offset: nat)

  /** The entry of one client: a stripe that is begun but not full, holding as much as the offset says. */
  ghost predicate EntryOk(at: StripeOffset, nextStripe: nat, filled: map<nat, nat>, capacity: nat) {
    at.stripe < nextStripe && 0 < at.offset < capacity && at.stripe in filled && filled[at.stripe] == at.offset
  }

  ghost predicate BeingFilled(table: map<string, StripeOffset>, stripe: nat) {
    exists c :: c in table && table[c].stripe == stripe
  }

  /** Every stripe is either full or being filled by exactly one client. */
  ghost predicate TableOk(table: map<string, StripeOffset>, nextStripe: nat, filled: map<nat, nat>, capacity: nat) {
    && (forall s: nat :: s in filled <==> s < nextStripe)
    && (forall c :: c in table ==> EntryOk(table[c], nextStripe, filled, capacity))
    && (forall c, d :: c in table && d in table && c != d ==> table[c].stripe != table[d].stripe)
    && (forall s: nat :: s in filled && filled[s] != capacity ==> BeingFilled(table, s))
  }

  /** Where the next append of a client goes. */
  function NextOffset(table: map<string, StripeOffset>, nextStripe: nat, client: string): StripeOffset {
    if client in table then table[client] else StripeOffset(nextStripe, 0)
  }

  /** The table once the client's stripe has moved on to `at`; a full stripe is forgotten. */
  function AfterAppend(table: map<string, StripeOffset>, client: string, at: StripeOffset, capacity: nat): map<string, StripeOffset> {
    if at.offset == capacity then table - {client} else table[client := at]
  }

  lemma AppendKeeps(table: map<string, StripeOffset>, nextStripe: nat, filled: map<nat, nat>, capacity: nat,
      client: string, size: nat)
    requires TableOk(table, nextStripe, filled, capacity) && size > 0
    requires NextOffset(table, nextStripe, client).offset + size <= capacity
    ensures var at := NextOffset(table, nextStripe, client);
      TableOk(AfterAppend(table, client, at.(offset := at.offset + size), capacity),
        if client in table then nextStripe else nextStripe + 1, filled[at.stripe := at.offset + size], capacity)
    ensures client !in table ==> nextStripe !in filled
    ensures client in table ==> table[client].stripe in filled && filled[table[client].stripe] == table[client].offset
  {
    var at := NextOffset(table, nextStripe, client);
    var after := AfterAppend(table, client, at.(offset := at.offset + size), capacity);
    var next, filled' := if client in table then nextStripe else nextStripe + 1, filled[at.stripe := at.offset + size];
    forall c | c in after ensures EntryOk(after[c], next, filled', capacity) {
      if c != client {
        assert EntryOk(table[c], nextStripe, filled, capacity);
      }
    }
    forall s: nat | s in filled' && filled'[s] != capacity ensures BeingFilled(after, s) {
      if s == at.stripe {
        assert after[client].stripe == s;
      } else {
        assert BeingFilled(table, s);
        var c :| c in table && table[c].stripe == s;
        assert c in after && after[c].stripe == s;
      }
    }
    OneStripeEach(table, nextStripe, filled, capacity, client, size);
  }

  lemma OneStripeEach(table: map<string, StripeOffset>, nextStripe: nat, filled: map<nat, nat>, capacity: nat,
      client: string, size: nat)
    requires TableOk(table, nextStripe, filled, capacity)
    requires NextOffset(table, nextStripe, client).offset + size <= capacity
    ensures var at := NextOffset(table, nextStripe, client);
      var after := AfterAppend(table, client, at.(offset := at.offset + size), capacity);
      forall c, d :: c in after && d in after && c != d ==> after[c].stripe != after[d].stripe
  {
    assert forall c :: c in table ==> EntryOk(table[c], nextStripe, filled, capacity);
    hide BeingFilled;
  }

  class OffsetTable {
    const capacity: nat
    var table: map<string, StripeOffset>
    var nextStripe: nat
    /** How many bytes each stripe has got so far. */
    ghost var filled: map<nat, nat>

    ghost predicate Valid()
      reads this
    {
      capacity > 0 && TableOk(table, nextStripe, filled, capacity)
    }

    constructor (capacity: nat)
      requires capacity > 0
      ensures Valid() && table == map[] && nextStripe == 0 && this.capacity == capacity
    {
      this.capacity := capacity;
      table, nextStripe, filled := map[], 0, map[];
    }

    /** Where an append of `size` bytes goes: right after what its stripe holds, in the client's own stripe. */
    method UploadAppendValue(client: string, size: nat) returns (at: StripeOffset)
      requires Valid() && size > 0
      requires NextOffset(table, nextStripe, client).offset + size <= capacity
      modifies this
      ensures Valid() && at == NextOffset(old(table), old(nextStripe), client)
      ensures at.offset == if at.stripe in old(filled) then old(filled)[at.stripe] else 0
      ensures filled == old(filled)[at.stripe := at.offset + size]
      ensures table == AfterAppend(old(table), client, at.(offset := at.offset + size), capacity)
    {
      hide TableOk;
      AppendKeeps(table, nextStripe, filled, capacity, client, size);
      if client !in table {
        table := table[client := StripeOffset(nextStripe, 0)];
        nextStripe := nextStripe + 1;
      }
      at := table[client];
      table := table[client := at.(offset := at.offset + size)];
      if table[client].offset == capacity {
        table := table - {client};
      }
      assert table == AfterAppend(old(table), client, at.(offset := at.offset + size), capacity);
      filled := filled[at.stripe := at.offset + size];
    }
  }
}
