/** Executions of the contract object: invoking its entry points one after another is exactly a run of
    the model, so everything proved of runs holds of the storage the object ends with. */
module Executions {
  import opened Types
  import opened Sequences
  import opened Worlds
  import opened Runs
  import opened Coherence
  import opened Contract
  import Ch = ChunkedIndex
  import L = Ledger
  import D = Delegations
  import M = Multisig
  import R = Requests

  /** The one argument whose u64 width matters: a renewal writes its expiration out in decimal. */
  predicate Representable(c: Call) {
    c.action.Renew? && c.action.expiration.Some? ==> c.action.expiration.value <= U64_MAX
  }

  /** The creating entry points of src/attestation.rs. */
  method InvokeCreation(contract: Contract, c: Call)
    requires contract.Valid()
    requires c.action.Create? || c.action.Import? || c.action.Bridge? || c.action.CreateBatch? || c.action.CreateAsDelegate?
    modifies contract
    ensures contract.Valid() && contract.View() == Apply(old(contract.View()), c)
  {
    hide Sound, L.Create, L.Import, L.Bridge, L.CreateBatch, L.CreateAsDelegate, Abstract;
    match c.action
    case Create(i, s, ct, e, m, v) => var _ := contract.CreateAttestation(c.env, i, s, ct, e, m, v);
    case Import(ad, i, s, ct, t, e) => var _ := contract.ImportAttestation(c.env, ad, i, s, ct, t, e);
    case Bridge(b, s, ct, chain, tx) => var _ := contract.BridgeAttestation(c.env, b, s, ct, chain, tx);
    case CreateBatch(i, ss, ct, e) => var _ := contract.CreateAttestationsBatch(c.env, i, ss, ct, e);
    case CreateAsDelegate(d, i, s, ct, e, m) => var _ := contract.CreateAttestationAsDelegate(c.env, d, i, s, ct, e, m);
  }

  /** The entry points of src/attestation.rs that change stored records. */
  method InvokeChange(contract: Contract, c: Call)
    requires contract.Valid() && Representable(c)
    requires c.action.Revoke? || c.action.RevokeBatch? || c.action.Renew? || c.action.UpdateExpiration?
          || c.action.Transfer? || c.action.Delete?
    modifies contract
    ensures contract.Valid() && contract.View() == Apply(old(contract.View()), c)
  {
    hide Sound, L.Revoke, L.RevokeBatch, L.SetExpiration, L.Transfer, L.Delete, Abstract;
    match c.action
    case Revoke(i, id, reason) => var _ := contract.RevokeAttestation(c.env, i, id, reason);
    case RevokeBatch(i, ids, reason) => var _ := contract.RevokeAttestationsBatch(c.env, i, ids, reason);
    case Renew(i, id, e) => var _ := contract.RenewAttestation(c.env, i, id, e);
    case UpdateExpiration(i, id, e) => var _ := contract.UpdateExpiration(c.env, i, id, e);
    case Transfer(ad, id, n) => var _ := contract.TransferAttestation(c.env, ad, id, n);
    case Delete(s, id) => var _ := contract.RequestDeletion(c.env, s, id);
  }

  /** The entry points of src/multisig.rs, src/request.rs and src/admin.rs. */
  method InvokeProtocol(contract: Contract, c: Call)
    requires contract.Valid() && OnLedger(contract.View(), c.env, c.action).None?
    modifies contract
    ensures contract.Valid() && contract.View() == Apply(old(contract.View()), c)
  {
    hide Sound, M.Propose, M.Cosign, R.Submit, R.Fulfill, R.Reject, R.Cancel, D.Grant, D.Withdraw, Abstract;
    match c.action
    case Propose(p, s, ct, rs, t) => var _ := contract.ProposeAttestation(c.env, p, s, ct, rs, t);
    case Cosign(i, id) => var _ := contract.CosignAttestation(c.env, i, id);
    case Submit(s, i, ct) => var _ := contract.RequestAttestation(c.env, s, i, ct);
    case Fulfill(i, id, e) => var _ := contract.FulfillRequest(c.env, i, id, e);
    case Reject(i, id, reason) => var _ := contract.RejectRequest(c.env, i, id, reason);
    case Cancel(s, id) => var _ := contract.CancelRequest(c.env, s, id);
    case Grant(i, d, ct, e) => var _ := contract.DelegateClaimType(c.env, i, d, ct, e);
    case Withdraw(i, d, ct) => var _ := contract.RevokeDelegation(c.env, i, d, ct);
  }

  /** Any call on the object is one step of the model. */
  method Invoke(contract: Contract, c: Call)
    requires contract.Valid() && Representable(c)
    modifies contract
    ensures contract.Valid() && contract.View() == Apply(old(contract.View()), c)
  {
    hide Sound, Apply, Abstract;
    if c.action.Create? || c.action.Import? || c.action.Bridge? || c.action.CreateBatch? || c.action.CreateAsDelegate? {
      InvokeCreation(contract, c);
    } else if c.action.Revoke? || c.action.RevokeBatch? || c.action.Renew? || c.action.UpdateExpiration?
           || c.action.Transfer? || c.action.Delete? {
      InvokeChange(contract, c);
    } else {
      InvokeProtocol(contract, c);
    }
  }

  /** Any sequence of calls on the object is a run. */
  method Execute(contract: Contract, calls: seq<Call>)
    requires contract.Valid() && forall i :: 0 <= i < |calls| ==> Representable(calls[i])
    modifies contract
    ensures contract.Valid() && contract.View() == Run(old(contract.View()), calls)
  {
    hide Sound, Apply, Abstract;
    for i := 0 to |calls|
      invariant contract.Valid()
      invariant Run(contract.View(), calls[i..]) == Run(old(contract.View()), calls)
    {
      assert calls[i..][0] == calls[i] && calls[i..][1..] == calls[i + 1..];
      Invoke(contract, calls[i]);
    }
  }

  /** What the storage itself looks like after any calls on a newly deployed contract: the protocols keep
      their invariants, and unless a multisig path reused an id, every index, log and counter agrees with
      the records and the fifty-entry chunks of each subject are exactly those of its valid list. */
  method DeployAndExecute(calls: seq<Call>) returns (contract: Contract)
    requires forall i :: 0 <= i < |calls| ==> Representable(calls[i])
    ensures contract.Valid() && ProtocolsOk(contract.View())
    ensures FreshRun(INITIAL, calls) ==>
      && Coherent(contract.View().ledger)
      && forall subject :: Ch.Stores(contract.store.subjectChunks, subject, Read(contract.store.valid, subject))
  {
    hide Sound, ProtocolsOk, Coherent, FreshRun;
    contract := new Contract();
    Execute(contract, calls);
    ReachableOk(calls);
    if FreshRun(INITIAL, calls) {
      forall subject ensures Ch.Stores(contract.store.subjectChunks, subject, Read(contract.store.valid, subject)) {
        ChunksRefineValid(contract.store, contract.ghosts, subject);
      }
    }
  }
}
