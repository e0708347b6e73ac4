/**
 * `meson_handle`: pairs the two legs of a cross-chain transfer in the meson
 * table.  The first leg seen for a reqid is inserted as leg A; the next one
 * fills leg B, recomputes is_check, is persisted, and is then validated
 * (one burn and one mint, equal amounts).  A leg arriving when leg B is
 * already filled is rejected.  Every rejection raises an alert built by
 * `constructMessage`; an insert and a successful pairing raise none.
 */
module Reconciliation {
  import opened Wrappers
  import opened MesonStore

  const BURN_EVENT: string := "TokenBurnExecuted"
  const MINT_EVENT: string := "TokenMintExecuted"

  /** One decoded leg, as `processEvent` hands it to `meson_handle`. */
  datatype Leg = Leg(reqId: string, chain: string, action: string, createdTime: int, amount: nat, txHash: string)

  /** `meson_event`: the two actions are one burn and one mint, in either order. */
  function IsMesonEvent(actionA: string, actionB: string): (valid: bool)
    ensures valid <==> {actionA, actionB} == {BURN_EVENT, MINT_EVENT}
  {
    EventNamesDiffer();
    assert {actionA, actionB} == {BURN_EVENT, MINT_EVENT} ==>
             actionA in {BURN_EVENT, MINT_EVENT} && actionB in {BURN_EVENT, MINT_EVENT}
             && BURN_EVENT in {actionA, actionB} && MINT_EVENT in {actionA, actionB};
    (actionA == BURN_EVENT && actionB == MINT_EVENT) || (actionA == MINT_EVENT && actionB == BURN_EVENT)
  }

  lemma EventNamesDiffer()
    ensures BURN_EVENT != MINT_EVENT
  {
    assert BURN_EVENT[5] != MINT_EVENT[5];
  }

  /** One side of an alert: chain, amount and transaction hash of a leg. */
  datatype Side = Side(chain: string, amount: nat, txHash: string)

  /** The content of one `constructMessage` call: the transfer's time and its
      "From" (burn) and "To" (mint) sides. */
  datatype Alert = Alert(timestamp: int, from: Side, to: Side)

  function SideA(m: Meson): Side { Side(m.chainA, m.amountA, m.txHashA) }
  function SideB(m: Meson): Side { Side(m.chainB, m.amountB, m.txHashB) }

  /** The side of `m` whose action is `action`, leg A if both are. */
  function SideWith(m: Meson, action: string): Side
  {
    if m.actionA == action then SideA(m) else SideB(m)
  }

  /** The orientation choice of `constructMessage`: leg A is shown as "From" exactly
      when its action is the burn; otherwise leg B is, whatever its action. */
  function Orient(m: Meson): (a: Alert)
    ensures a.timestamp == m.timestamp
    ensures IsMesonEvent(m.actionA, m.actionB) ==>
              a.from == SideWith(m, BURN_EVENT) && a.to == SideWith(m, MINT_EVENT)
    ensures (a.from == SideA(m) && a.to == SideB(m)) <==> m.actionA == BURN_EVENT || SideA(m) == SideB(m)
    ensures m.actionA != BURN_EVENT ==> a.from == SideB(m) && a.to == SideA(m)
  {
    if m.actionA == BURN_EVENT then Alert(m.timestamp, SideA(m), SideB(m))
    else Alert(m.timestamp, SideB(m), SideA(m))
  }

  /** Which path `meson_handle` took. */
  datatype Outcome = Inserted | ConflictB | UpdatedBadActions | UpdatedBadAmount | UpdatedOk

  /** `meson_handle` returns an error on every path but these two. */
  predicate Succeeded(o: Outcome)
  {
    o == Inserted || o == UpdatedOk
  }

  /** The table after one call, the path taken and the alert raised, if any. */
  datatype Transition = Transition(rows: map<string, Meson>, outcome: Outcome, alert: Option<Alert>)

  /** The record inserted for a first leg: leg A from the leg, leg B empty (Go zero values). */
  function FirstLeg(leg: Leg): Meson
  {
    Meson(leg.reqId, leg.chain, "", leg.createdTime, leg.amount, 0, leg.action, "", leg.txHash, "", false)
  }

  /** `existingMeson` after its leg-B fields are assigned in place and is_check recomputed. */
  function FillLegB(m: Meson, leg: Leg): Meson
  {
    var filled := m.(chainB := leg.chain, amountB := leg.amount, actionB := leg.action, txHashB := leg.txHash);
    filled.(isCheck := filled.amountA == filled.amountB)
  }

  /** Leg A fields and timestamp agree. */
  predicate SameLegA(m: Meson, m': Meson)
  {
    m.reqId == m'.reqId && m.chainA == m'.chainA && m.timestamp == m'.timestamp
    && m.amountA == m'.amountA && m.actionA == m'.actionA && m.txHashA == m'.txHashA
  }

  /** No row disappears, no leg A changes, and a row whose leg B is filled is frozen. */
  ghost predicate Evolves(rows: map<string, Meson>, rows': map<string, Meson>)
  {
    && rows.Keys <= rows'.Keys
    && (forall k :: k in rows ==> SameLegA(rows[k], rows'[k]))
    && (forall k :: k in rows && rows[k].chainB != "" ==> rows'[k] == rows[k])
  }

  /** What `meson_handle(leg)` does to the table `rows`. */
  function Reconcile(rows: map<string, Meson>, leg: Leg): (t: Transition)
    // an alert is raised exactly on the three error paths
    ensures t.alert.Some? <==> !Succeeded(t.outcome)
    // no record: insert leg A, nothing else
    ensures leg.reqId !in rows ==>
              && t.outcome == Inserted
              && t.rows.Keys == rows.Keys + {leg.reqId}
              && var m := t.rows[leg.reqId];
                 && m.reqId == leg.reqId && m.chainA == leg.chain && m.actionA == leg.action
                 && m.amountA == leg.amount && m.txHashA == leg.txHash
                 && m.timestamp == leg.createdTime && !m.isCheck
                 && m.chainB == "" && m.amountB == 0 && m.actionB == "" && m.txHashB == ""
    // leg B already filled: reject, alert with the stored record, table unchanged
    ensures leg.reqId in rows && rows[leg.reqId].chainB != "" ==>
              t.outcome == ConflictB && t.rows == rows && t.alert == Some(Orient(rows[leg.reqId]))
    // leg B empty: fill it, persist, then validate actions before amounts
    ensures leg.reqId in rows && rows[leg.reqId].chainB == "" ==>
              && t.rows.Keys == rows.Keys
              && var was, m := rows[leg.reqId], t.rows[leg.reqId];
                 && SameLegA(was, m)
                 && m.chainB == leg.chain && m.amountB == leg.amount
                 && m.actionB == leg.action && m.txHashB == leg.txHash
                 && (m.isCheck <==> was.amountA == leg.amount)
                 && (!IsMesonEvent(was.actionA, leg.action) ==> t.outcome == UpdatedBadActions)
                 && (IsMesonEvent(was.actionA, leg.action) && !m.isCheck ==> t.outcome == UpdatedBadAmount)
                 && (IsMesonEvent(was.actionA, leg.action) && m.isCheck ==> t.outcome == UpdatedOk)
                 && (t.alert.Some? ==> t.alert == Some(Orient(m)))
    // every other row is untouched
    ensures forall k :: k in rows && k != leg.reqId ==> k in t.rows && t.rows[k] == rows[k]
  {
    if leg.reqId in rows then
      var existing := rows[leg.reqId];
      if existing.chainB != "" then
        Transition(rows, ConflictB, Some(Orient(existing)))
      else
        var m := FillLegB(existing, leg);
        var rows' := rows[leg.reqId := m];
        if !IsMesonEvent(m.actionA, m.actionB) then Transition(rows', UpdatedBadActions, Some(Orient(m)))
        else if !m.isCheck then Transition(rows', UpdatedBadAmount, Some(Orient(m)))
        else Transition(rows', UpdatedOk, None)
    else
      Transition(rows[leg.reqId := FirstLeg(leg)], Inserted, None)
  }

  /** One call never drops a record, never rewrites a leg A or a record whose leg B
      is filled, and keeps every record under its own reqid. */
  lemma ReconcileEvolves(rows: map<string, Meson>, leg: Leg)
    ensures Evolves(rows, Reconcile(rows, leg).rows)
    ensures KeyedByReqId(rows) ==> KeyedByReqId(Reconcile(rows, leg).rows)
  {
    var t := Reconcile(rows, leg);
    if leg.reqId in rows {
      assert t.rows.Keys == rows.Keys;
    }
  }

  /** `meson_handle` over the table object: query, then insert or update in place. */
  method HandleLeg(db: MesonTable, leg: Leg) returns (outcome: Outcome, alert: Option<Alert>)
    requires db.Valid()
    modifies db
    ensures db.Valid()
    ensures Transition(db.rows, outcome, alert) == Reconcile(old(db.rows), leg)
  {
    var existing := db.Find(leg.reqId);
    if existing.Some? {
      var m := existing.value;
      if m.chainB != "" {
        alert := Some(Orient(m));
        outcome := ConflictB;
      } else {
        m := m.(chainB := leg.chain);
        m := m.(amountB := leg.amount);
        m := m.(actionB := leg.action);
        m := m.(txHashB := leg.txHash);
        m := m.(isCheck := m.amountA == m.amountB);
        db.Update(m);
        assert db.rows == old(db.rows)[leg.reqId := m];
        if !IsMesonEvent(m.actionA, m.actionB) {
          alert := Some(Orient(m));
          outcome := UpdatedBadActions;
        } else if !m.isCheck {
          alert := Some(Orient(m));
          outcome := UpdatedBadAmount;
        } else {
          alert := None;
          outcome := UpdatedOk;
        }
      }
    } else {
      var m := FirstLeg(leg);
      var failed := db.Insert(m);
      outcome, alert := Inserted, None;
    }
  }

  /** Leg A and leg B exchanged. */
  function SwapLegs(m: Meson): Meson
  {
    m.(chainA := m.chainB, chainB := m.chainA, amountA := m.amountB, amountB := m.amountA,
       actionA := m.actionB, actionB := m.actionA, txHashA := m.txHashB, txHashB := m.txHashA)
  }

  /** For a valid burn/mint pair the alert does not depend on which leg is A. */
  lemma OrientIgnoresLegOrder(m: Meson)
    requires IsMesonEvent(m.actionA, m.actionB)
    ensures Orient(SwapLegs(m)) == Orient(m)
  {
    EventNamesDiffer();
  }

  /**
   * Arrival order of two legs of one fresh transfer: whichever comes first,
   * the path taken and is_check are the same, the record is the same up to
   * exchanging legs A and B, and for a burn/mint pair the alert is the same.
   */
  lemma {:induction false} ArrivalOrder(rows: map<string, Meson>, a: Leg, b: Leg)
    requires a.reqId == b.reqId && a.reqId !in rows && a.createdTime == b.createdTime
    ensures var ab := Reconcile(Reconcile(rows, a).rows, b);
            var ba := Reconcile(Reconcile(rows, b).rows, a);
            && ab.outcome == ba.outcome
            && ab.rows.Keys == ba.rows.Keys
            && ab.rows[a.reqId] == SwapLegs(ba.rows[a.reqId])
            && ab.rows[a.reqId].isCheck == ba.rows[a.reqId].isCheck
            && (forall k :: k in rows ==> ab.rows[k] == ba.rows[k])
            && (IsMesonEvent(a.action, b.action) ==> ab.alert == ba.alert)
  {
    PairOfLegs(rows, a, b);
    PairOfLegs(rows, b, a);
    var ma, mb := FillLegB(FirstLeg(a), b), FillLegB(FirstLeg(b), a);
    assert ma == SwapLegs(mb);
    if IsMesonEvent(a.action, b.action) {
      OrientIgnoresLegOrder(mb);
    }
  }

  /** The path that the second of two legs `a`, `b` of a fresh transfer takes. */
  function PairOutcome(a: Leg, b: Leg): Outcome
  {
    if !IsMesonEvent(a.action, b.action) then UpdatedBadActions
    else if a.amount != b.amount then UpdatedBadAmount
    else UpdatedOk
  }

  /** Two legs of a fresh transfer, `a` first: one record with `a` as leg A and `b` as leg B. */
  lemma PairOfLegs(rows: map<string, Meson>, a: Leg, b: Leg)
    requires a.reqId == b.reqId && a.reqId !in rows
    ensures var m := FillLegB(FirstLeg(a), b);
            var t := Reconcile(Reconcile(rows, a).rows, b);
            && t.rows == rows[a.reqId := m]
            && t.outcome == PairOutcome(a, b)
            && t.alert == if Succeeded(t.outcome) then None else Some(Orient(m))
  {
    var first := rows[a.reqId := FirstLeg(a)];
    assert Reconcile(rows, a) == Transition(first, Inserted, None);
    var m := FillLegB(FirstLeg(a), b);
    assert b.reqId in first && first[b.reqId] == FirstLeg(a) && first[b.reqId].chainB == "";
    assert first[a.reqId := m] == rows[a.reqId := m];
  }

  /**
   * A first leg delivered twice is not recognised as a duplicate: the second
   * delivery fills leg B with a copy of leg A, fails the action check (raising
   * an alert) and, since the amounts agree, marks the record checked, so the
   * periodic sweep no longer reports it.  The real counterpart leg is then
   * rejected as a conflict and the table stays as it was.
   */
  lemma {:induction false} RedeliveredFirstLeg(rows: map<string, Meson>, a: Leg, b: Leg)
    requires a.reqId !in rows && b.reqId == a.reqId
    ensures var once := Reconcile(rows, a);
            var twice := Reconcile(once.rows, a);
            var thrice := Reconcile(twice.rows, b);
            && once.outcome == Inserted && once.alert.None?
            && twice.outcome == UpdatedBadActions && twice.alert.Some?
            && twice.rows[a.reqId].isCheck
            && a.reqId !in UncheckedKeys(twice.rows)
            && (a.chain != "" ==> thrice.outcome == ConflictB && thrice.rows == twice.rows)
  {
    var once := Reconcile(rows, a);
    assert !IsMesonEvent(a.action, a.action) by {
      EventNamesDiffer();
      assert {a.action, a.action} == {a.action};
    }
  }

  /** Two burns (or two mints) for one reqid are an action violation even when the amounts agree. */
  lemma {:induction false} SameActionTwice(rows: map<string, Meson>, a: Leg, b: Leg)
    requires a.reqId !in rows && b.reqId == a.reqId && a.action == b.action
    ensures Reconcile(Reconcile(rows, a).rows, b).outcome == UpdatedBadActions
  {
    EventNamesDiffer();
    assert {a.action, b.action} == {a.action};
  }

  /** A record inserted with only leg A is what the periodic sweep reports. */
  lemma InsertedIsUnchecked(rows: map<string, Meson>, a: Leg)
    requires a.reqId !in rows
    ensures a.reqId in UncheckedKeys(Reconcile(rows, a).rows)
  {
  }

  /** After a call, the record is reported by the sweep exactly when it is not a
      matched pair of equal amounts. */
  lemma {:induction false} UncheckedAfterReconcile(rows: map<string, Meson>, leg: Leg)
    requires leg.reqId !in rows || rows[leg.reqId].chainB == ""
    ensures var t := Reconcile(rows, leg);
            leg.reqId in UncheckedKeys(t.rows) <==>
              t.outcome == Inserted || t.outcome == UpdatedBadAmount
              || (t.outcome == UpdatedBadActions && rows[leg.reqId].amountA != leg.amount)
  {
    var t := Reconcile(rows, leg);
    assert leg.reqId in UncheckedKeys(t.rows) <==> !t.rows[leg.reqId].isCheck;
  }
}
