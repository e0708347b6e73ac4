/**
 * The `meson` table: one row per request ID (`reqid TEXT PRIMARY KEY`),
 * holding the transfer's first leg (A) and, once it arrives, its second
 * leg (B).  The table is a map from the reqid column to the row; the four
 * queries the monitor issues are the methods of `MesonTable`.
 */
module MesonStore {
  import opened Wrappers

  /** One row of the table; amounts are the `uint64` values the monitor decoded. */
  datatype Meson = Meson(
    reqId: string,
    chainA: string,
    chainB: string,
    timestamp: int,
    amountA: nat,
    amountB: nat,
    actionA: string,
    actionB: string,
    txHashA: string,
    txHashB: string,
    isCheck: bool)

  /** Every row is stored under its own reqid. */
  ghost predicate KeyedByReqId(rows: map<string, Meson>)
  {
    forall k :: k in rows ==> rows[k].reqId == k
  }

  /** The reqids of the rows whose is_check is false. */
  ghost function UncheckedKeys(rows: map<string, Meson>): set<string>
  {
    set k | k in rows && !rows[k].isCheck
  }

  /** The row `UPDATE meson SET chain_b, amount_b, action_b, tx_hash_b, is_check` leaves:
      the leg-B columns and is_check come from `m`, every other column stays. */
  function WithLegB(row: Meson, m: Meson): (r: Meson)
    ensures r.reqId == row.reqId && r.timestamp == row.timestamp
    ensures r.chainA == row.chainA && r.amountA == row.amountA
    ensures r.actionA == row.actionA && r.txHashA == row.txHashA
    ensures r.chainB == m.chainB && r.amountB == m.amountB
    ensures r.actionB == m.actionB && r.txHashB == m.txHashB && r.isCheck == m.isCheck
  {
    row.(chainB := m.chainB, amountB := m.amountB, actionB := m.actionB,
         txHashB := m.txHashB, isCheck := m.isCheck)
  }

  class MesonTable {
    var rows: map<string, Meson>

    ghost predicate Valid()
      reads this
    {
      KeyedByReqId(rows)
    }

    /** `CREATE TABLE IF NOT EXISTS meson`, on a fresh database. */
    constructor ()
      ensures Valid() && rows == map[]
    {
      rows := map[];
    }

    /** `FindMesonByReqID`: the row whose reqid matches, or absent (`pgx.ErrNoRows` becomes nil, nil). */
    function Find(reqId: string): (r: Option<Meson>)
      reads this
      requires Valid()
      ensures r.None? <==> reqId !in rows
      ensures r.Some? ==> r.value == rows[reqId] && r.value.reqId == reqId
    {
      if reqId in rows then Some(rows[reqId]) else None
    }

    /** `InsertMeson`: adds the row under its reqid; an existing reqid violates the
        primary key, so the insert fails and the table is unchanged. */
    method Insert(m: Meson) returns (failed: bool)
      requires Valid()
      modifies this
      ensures Valid()
      ensures failed <==> m.reqId in old(rows)
      ensures rows == if failed then old(rows) else old(rows)[m.reqId := m]
    {
      failed := m.reqId in rows;
      if !failed {
        rows := rows[m.reqId := m];
      }
    }

    /** `UpdateMeson`: rewrites the leg-B columns and is_check of the row whose reqid is
        `m.reqId`; the other rows and the other columns are untouched.  With no such
        row nothing changes and no error is reported (rows affected are not checked). */
    method Update(m: Meson)
      requires Valid()
      modifies this
      ensures Valid()
      ensures rows.Keys == old(rows).Keys
      ensures m.reqId in rows ==> rows[m.reqId] == WithLegB(old(rows)[m.reqId], m)
      ensures forall k :: k in rows && k != m.reqId ==> rows[k] == old(rows)[k]
    {
      if m.reqId in rows {
        rows := rows[m.reqId := WithLegB(rows[m.reqId], m)];
      }
    }

    /** `FindUncheckedMesons`: every row whose is_check is false, each exactly once,
        in an order the database chooses. */
    method FindUnchecked() returns (results: seq<Meson>)
      requires Valid()
      ensures forall i :: 0 <= i < |results| ==>
                results[i].reqId in UncheckedKeys(rows) && results[i] == rows[results[i].reqId]
      ensures forall i, j :: 0 <= i < j < |results| ==> results[i].reqId != results[j].reqId
      ensures forall k :: k in UncheckedKeys(rows) ==>
                exists i :: 0 <= i < |results| && results[i].reqId == k
    {
      var pending := rows.Keys;
      results := [];
      while pending != {}
        invariant pending <= rows.Keys
        invariant forall i :: 0 <= i < |results| ==>
                    results[i].reqId in UncheckedKeys(rows) - pending
                    && results[i] == rows[results[i].reqId]
        invariant forall i, j :: 0 <= i < j < |results| ==> results[i].reqId != results[j].reqId
        invariant forall k :: k in UncheckedKeys(rows) - pending ==>
                    exists i :: 0 <= i < |results| && results[i].reqId == k
        decreases pending
      {
        var k :| k in pending;
        ghost var before, pendingBefore := results, pending;
        if !rows[k].isCheck {
          results := results + [rows[k]];
        }
        pending := pending - {k};
        forall k' | k' in UncheckedKeys(rows) - pending
          ensures exists i :: 0 <= i < |results| && results[i].reqId == k'
        {
          if k' == k {
            assert results[|results| - 1].reqId == k';
          } else {
            assert k' in UncheckedKeys(rows) - pendingBefore;
            var i :| 0 <= i < |before| && before[i].reqId == k';
            assert results[i] == before[i];
          }
        }
      }
      assert UncheckedKeys(rows) - pending == UncheckedKeys(rows);
    }
  }
}
