/** The single-use nonce ledger: one row per decision nonce, RESERVED until one terminal status. */
module Ledger {
  import opened Wrappers
  import opened Consent

  datatype RowStatus = Reserved | Succeeded | Rejected | Uncertain

  datatype LedgerRow = LedgerRow(requestSha: Digest, status: RowStatus, orderId: Option<string>)

  type LedgerTable = map<string, LedgerRow>

  // INSERT of a RESERVED row; false when the primary key exists.
  function Reserve(rows: LedgerTable, nonce: string, requestSha: Digest): (LedgerTable, bool) {
    if nonce in rows then (rows, false) else (rows[nonce := LedgerRow(requestSha, Reserved, None)], true)
  }

  // UPDATE ... WHERE nonce, request hash and status RESERVED match; true when one row changed.
  function Transition(rows: LedgerTable, nonce: string, requestSha: Digest, status: RowStatus, orderId: Option<string>)
    : (LedgerTable, bool)
  {
    if nonce in rows && rows[nonce].requestSha == requestSha && rows[nonce].status.Reserved?
    then (rows[nonce := LedgerRow(requestSha, status, orderId)], true)
    else (rows, false)
  }

  // How a row may differ later: not at all, or settled once from RESERVED under the same hash.
  predicate RowEvolves(before: LedgerRow, after: LedgerRow) {
    after == before || (before.status.Reserved? && after.requestSha == before.requestSha && !after.status.Reserved?)
  }

  ghost predicate Evolves(before: LedgerTable, after: LedgerTable) {
    forall nonce :: nonce in before ==> nonce in after && RowEvolves(before[nonce], after[nonce])
  }

  lemma EvolvesTransitive(a: LedgerTable, b: LedgerTable, c: LedgerTable)
    requires Evolves(a, b) && Evolves(b, c)
    ensures Evolves(a, c)
  {
    forall nonce | nonce in a ensures nonce in c && RowEvolves(a[nonce], c[nonce]) {
      assert nonce in b && RowEvolves(a[nonce], b[nonce]) && RowEvolves(b[nonce], c[nonce]);
    }
  }

  /** An order id stands exactly in SUCCEEDED rows. */
  ghost predicate OrderIdsOnSuccess(rows: LedgerTable) {
    forall nonce :: nonce in rows ==> (rows[nonce].orderId.Some? <==> rows[nonce].status.Succeeded?)
  }

  class SqlExecutionLedger {
    var rows: LedgerTable

    constructor ()
      ensures rows == map[]
    {
      rows := map[];
    }

    method ReserveNonce(nonce: string, requestSha: Digest) returns (reserved: bool)
      modifies this
      ensures (rows, reserved) == Reserve(old(rows), nonce, requestSha)
      ensures Evolves(old(rows), rows)
    {
      if nonce in rows {
        return false;
      }
      rows := rows[nonce := LedgerRow(requestSha, Reserved, None)];
      return true;
    }

    method Update(nonce: string, requestSha: Digest, status: RowStatus, orderId: Option<string>) returns (changed: bool)
      requires !status.Reserved?
      modifies this
      ensures (rows, changed) == Transition(old(rows), nonce, requestSha, status, orderId)
      ensures Evolves(old(rows), rows)
    {
      changed := nonce in rows && rows[nonce].requestSha == requestSha && rows[nonce].status.Reserved?;
      if changed {
        rows := rows[nonce := LedgerRow(requestSha, status, orderId)];
      }
    }

    method MarkSucceeded(nonce: string, requestSha: Digest, orderId: string) returns (changed: bool)
      modifies this
      ensures (rows, changed) == Transition(old(rows), nonce, requestSha, Succeeded, Some(orderId))
      ensures Evolves(old(rows), rows)
    {
      changed := Update(nonce, requestSha, Succeeded, Some(orderId));
    }

    method MarkRejected(nonce: string, requestSha: Digest) returns (changed: bool)
      modifies this
      ensures (rows, changed) == Transition(old(rows), nonce, requestSha, Rejected, None)
      ensures Evolves(old(rows), rows)
    {
      changed := Update(nonce, requestSha, Rejected, None);
    }

    method MarkUncertain(nonce: string, requestSha: Digest) returns (changed: bool)
      modifies this
      ensures (rows, changed) == Transition(old(rows), nonce, requestSha, Uncertain, None)
      ensures Evolves(old(rows), rows)
    {
      changed := Update(nonce, requestSha, Uncertain, None);
    }

    method Get(nonce: string) returns (row: Option<LedgerRow>)
      ensures row == if nonce in rows then Some(rows[nonce]) else None
    {
      row := if nonce in rows then Some(rows[nonce]) else None;
    }
  }

  /** A nonce is reserved exactly when it has no row; its new row is RESERVED under the request hash, others stay. */
  lemma ReservesExactlyWhen(rows: LedgerTable, nonce: string, requestSha: Digest)
    ensures var (rows', reserved) := Reserve(rows, nonce, requestSha);
            && (reserved <==> nonce !in rows)
            && (!reserved ==> rows' == rows)
            && (reserved ==>
                  && nonce in rows' && rows'[nonce] == LedgerRow(requestSha, Reserved, None)
                  && forall other :: other != nonce ==>
                       (other in rows' <==> other in rows) && (other in rows ==> rows'[other] == rows[other]))
  {
  }

  /** A row is settled exactly when it is RESERVED under the same request hash, and then it alone changes. */
  lemma SettlesExactlyWhen(rows: LedgerTable, nonce: string, requestSha: Digest, status: RowStatus,
                           orderId: Option<string>)
    ensures var (rows', changed) := Transition(rows, nonce, requestSha, status, orderId);
            && (changed <==> nonce in rows && rows[nonce].requestSha == requestSha && rows[nonce].status == Reserved)
            && (!changed ==> rows' == rows)
            && (changed ==>
                  && nonce in rows' && rows'[nonce] == LedgerRow(requestSha, status, orderId)
                  && forall other :: other != nonce ==>
                       (other in rows' <==> other in rows) && (other in rows ==> rows'[other] == rows[other]))
  {
  }
}
