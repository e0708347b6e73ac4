/**
 * One tick of `checkDatabase`: list the rows whose is_check is false and
 * build the anomaly message of each, oriented burn side to mint side.
 * The ticker, the query error path and the (disabled) delivery of the
 * message are outside this model; the tick's result is the alerts it builds.
 */
module Sweep {
  import opened MesonStore
  import opened Reconciliation

  /** The reqids listed in `rows`. */
  function KeysOf(results: seq<Meson>): (keys: set<string>)
    ensures forall i :: 0 <= i < |results| ==> results[i].reqId in keys
    ensures forall k :: k in keys ==> exists i :: 0 <= i < |results| && results[i].reqId == k
    decreases |results|
  {
    if results == [] then {}
    else
      var init := results[..|results| - 1];
      var keys := KeysOf(init);
      assert forall i :: 0 <= i < |init| ==> init[i] == results[i];
      keys + {results[|results| - 1].reqId}
  }

  /** A listing whose reqids are pairwise distinct has as many entries as keys. */
  lemma {:induction false} DistinctKeysCount(results: seq<Meson>)
    requires forall i, j :: 0 <= i < j < |results| ==> results[i].reqId != results[j].reqId
    ensures |KeysOf(results)| == |results|
    decreases |results|
  {
    if results != [] {
      var init := results[..|results| - 1];
      DistinctKeysCount(init);
      var last := results[|results| - 1].reqId;
      assert forall i :: 0 <= i < |init| ==> init[i] == results[i];
      assert last !in KeysOf(init);
    }
  }

  /** A listing of exactly the unchecked rows has the unchecked reqids as its key set. */
  lemma ListingKeys(rows: map<string, Meson>, results: seq<Meson>)
    requires forall i :: 0 <= i < |results| ==> results[i].reqId in UncheckedKeys(rows)
    requires forall k :: k in UncheckedKeys(rows) ==>
               exists i :: 0 <= i < |results| && results[i].reqId == k
    ensures KeysOf(results) == UncheckedKeys(rows)
  {
  }

  /** Every unchecked row's alert is among the alerts built from the listing. */
  lemma UncheckedRowsAlerted(rows: map<string, Meson>, results: seq<Meson>, alerts: seq<Alert>)
    requires forall i :: 0 <= i < |results| ==>
               results[i].reqId in rows && results[i] == rows[results[i].reqId]
    requires forall k :: k in UncheckedKeys(rows) ==>
               exists i :: 0 <= i < |results| && results[i].reqId == k
    requires |alerts| == |results|
    requires forall j :: 0 <= j < |results| ==> alerts[j] == Orient(results[j])
    ensures forall k :: k in UncheckedKeys(rows) ==> Orient(rows[k]) in alerts
  {
    forall k | k in UncheckedKeys(rows)
      ensures Orient(rows[k]) in alerts
    {
      var j :| 0 <= j < |results| && results[j].reqId == k;
      assert alerts[j] == Orient(rows[k]);
    }
  }

  /** The alerts of the unchecked rows. */
  ghost function UncheckedAlerts(rows: map<string, Meson>): set<Alert>
  {
    set k | k in UncheckedKeys(rows) :: Orient(rows[k])
  }

  /** Every alert built from the listing is that of an unchecked row. */
  lemma AlertsAreUnchecked(rows: map<string, Meson>, results: seq<Meson>, alerts: seq<Alert>)
    requires forall i :: 0 <= i < |results| ==>
               results[i].reqId in UncheckedKeys(rows) && results[i] == rows[results[i].reqId]
    requires |alerts| == |results|
    requires forall j :: 0 <= j < |results| ==> alerts[j] == Orient(results[j])
    ensures forall i :: 0 <= i < |alerts| ==> alerts[i] in UncheckedAlerts(rows)
  {
    forall i | 0 <= i < |alerts|
      ensures alerts[i] in UncheckedAlerts(rows)
    {
      var key := results[i].reqId;
      assert key in UncheckedKeys(rows) && alerts[i] == Orient(rows[key]);
    }
  }

  /** The alerts and keys built entry by entry from a listing of exactly the
      unchecked rows pair each unchecked row with its alert, once. */
  lemma ListingAlerts(rows: map<string, Meson>, results: seq<Meson>, alerts: seq<Alert>, keys: seq<string>)
    requires forall i :: 0 <= i < |results| ==>
               results[i].reqId in UncheckedKeys(rows) && results[i] == rows[results[i].reqId]
    requires forall i, j :: 0 <= i < j < |results| ==> results[i].reqId != results[j].reqId
    requires forall k :: k in UncheckedKeys(rows) ==>
               exists i :: 0 <= i < |results| && results[i].reqId == k
    requires |alerts| == |keys| == |results|
    requires forall j :: 0 <= j < |results| ==> alerts[j] == Orient(results[j]) && keys[j] == results[j].reqId
    ensures |keys| == |alerts| == |UncheckedKeys(rows)|
    ensures forall i, j :: 0 <= i < j < |keys| ==> keys[i] != keys[j]
    ensures forall i :: 0 <= i < |keys| ==> keys[i] in UncheckedKeys(rows) && alerts[i] == Orient(rows[keys[i]])
    ensures forall k :: k in UncheckedKeys(rows) ==> Orient(rows[k]) in alerts
    ensures forall i :: 0 <= i < |alerts| ==> alerts[i] in UncheckedAlerts(rows)
  {
    ListingKeys(rows, results);
    DistinctKeysCount(results);
    forall i, j | 0 <= i < j < |keys|
      ensures keys[i] != keys[j]
    {
      assert keys[i] == results[i].reqId && keys[j] == results[j].reqId;
    }
    forall i | 0 <= i < |keys|
      ensures keys[i] in UncheckedKeys(rows) && alerts[i] == Orient(rows[keys[i]])
    {
      assert keys[i] == results[i].reqId;
    }
    UncheckedRowsAlerted(rows, results, alerts);
    AlertsAreUnchecked(rows, results, alerts);
  }

  /**
   * The tick raises exactly one alert per unchecked row: `keys` names, for each
   * alert, the distinct unchecked row it was built from, and every unchecked row
   * is named once.
   */
  method CheckDatabaseTick(db: MesonTable) returns (alerts: seq<Alert>, ghost keys: seq<string>)
    requires db.Valid()
    ensures |keys| == |alerts| == |UncheckedKeys(db.rows)|
    ensures forall i, j :: 0 <= i < j < |keys| ==> keys[i] != keys[j]
    ensures forall i :: 0 <= i < |keys| ==>
              keys[i] in UncheckedKeys(db.rows) && alerts[i] == Orient(db.rows[keys[i]])
    ensures forall k :: k in UncheckedKeys(db.rows) ==> Orient(db.rows[k]) in alerts
    ensures forall i :: 0 <= i < |alerts| ==> alerts[i] in UncheckedAlerts(db.rows)
  {
    var results := db.FindUnchecked();
    alerts, keys := [], [];
    var i := 0;
    while i < |results|
      invariant 0 <= i <= |results|
      invariant |alerts| == |keys| == i
      invariant forall j :: 0 <= j < i ==> alerts[j] == Orient(results[j]) && keys[j] == results[j].reqId
    {
      alerts, keys := alerts + [Orient(results[i])], keys + [results[i].reqId];
      i := i + 1;
    }
    ListingAlerts(db.rows, results, alerts, keys);
  }
}
