/** The whole contract state: the ledger and the protocols built on it. */
module Worlds {
  import opened Types
  import opened Ledger

  datatype World = World(
    ledger: Ledger,
    proposals: map<Id, Proposal>,
    requests: map<Id, Request>,
    pending: map<Address, seq<Id>>,
    delegations: map<(Address, Address, ClaimType), Delegation>,
    delegatorIndex: map<Address, seq<(Address, ClaimType)>>)

  const INITIAL: World := World(EMPTY, map[], map[], map[], map[], map[])
}
