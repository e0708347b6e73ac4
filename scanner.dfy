/**
 * The pull-mode scan loop of `connectAndListen`.  The local `startBlock`
 * is the checkpoint: the next block to scan.  Each iteration asks for the
 * chain head; when the head is not more than 100 blocks past the
 * checkpoint it waits, otherwise it fetches the logs of blocks
 * [checkpoint, min(checkpoint + 5000, head)], feeds every recognised log
 * to the decode pipeline and `meson_handle`, moves the checkpoint past the
 * range and writes it to the chain's checkpoint file.  A failed head query
 * or log fetch leaves everything as it was; a failed write is only logged.
 *
 * The RPC answers are inputs: one `Tick` per loop iteration.
 */
module Scanner {
  import opened Wrappers
  import opened MesonStore
  import opened Reconciliation
  import opened Events

  /** How far the head must be past the checkpoint before a range is scanned. */
  const SAFETY_MARGIN: nat := 100
  /** `blockStep`: the largest `endBlock - startBlock` of one fetch. */
  const BLOCK_STEP: nat := 5000

  datatype Plan = Wait | Scan(from: nat, to: nat)

  /** The range choice of one loop iteration, given the checkpoint and the head. */
  function PlanRange(cp: nat, head: nat): (p: Plan)
    ensures p.Wait? <==> head <= cp + SAFETY_MARGIN
    ensures p.Scan? ==> && p.from == cp
                        && cp + SAFETY_MARGIN < p.to <= head
                        && p.to <= cp + BLOCK_STEP
                        && (p.to == head || p.to == cp + BLOCK_STEP)
  {
    if head <= cp + SAFETY_MARGIN then Wait
    else Scan(cp, if cp + BLOCK_STEP > head then head else cp + BLOCK_STEP)
  }

  /** The answer to `FilterLogs` and, when it succeeded, whether the checkpoint write did. */
  datatype Fetch = FetchFailed | Fetched(logs: seq<Log>, saveOk: bool)

  /** What the RPC endpoint answered in one loop iteration. */
  datatype Tick = HeadFailed | HeadAt(head: nat, fetch: Fetch)

  /** An inclusive block range that was fetched and processed. */
  datatype Range = Range(from: nat, to: nat)

  /** `getLastBlockNumber`: the saved checkpoint of the chain, or the configured start block. */
  function LoadCheckpoint(saved: map<string, nat>, chain: string, startBlock: nat): (cp: nat)
    ensures chain !in saved ==> cp == startBlock
    ensures chain in saved ==> cp == saved[chain]
  {
    if chain in saved then saved[chain] else startBlock
  }

  /** `saveLastBlockNumber`: overwrite the chain's checkpoint; other chains keep theirs. */
  function SaveCheckpoint(saved: map<string, nat>, chain: string, cp: nat): (saved': map<string, nat>)
    ensures forall start :: LoadCheckpoint(saved', chain, start) == cp
    ensures forall c, start :: c != chain ==> LoadCheckpoint(saved', c, start) == LoadCheckpoint(saved, c, start)
  {
    saved[chain := cp]
  }

  datatype Ingest = Ingest(rows: map<string, Meson>, alerts: seq<Alert>)

  function AlertsOf(alert: Option<Alert>): seq<Alert>
  {
    if alert.Some? then [alert.value] else []
  }

  lemma EvolvesTransitive(r0: map<string, Meson>, r1: map<string, Meson>, r2: map<string, Meson>)
    requires Evolves(r0, r1) && Evolves(r1, r2)
    ensures Evolves(r0, r2)
  {
  }

  /** One iteration of the inner loop: decode the log and reconcile the leg it yields. */
  function IngestOne(cfg: ChainConfig, acc: Ingest, log: Log): (r: Ingest)
    ensures !DecodeLog(cfg, log).Accepted? ==> r == acc
    ensures |r.alerts| <= |acc.alerts| + 1
  {
    match DecodeLog(cfg, log)
    case Accepted(leg) =>
      var t := Reconcile(acc.rows, leg);
      Ingest(t.rows, acc.alerts + AlertsOf(t.alert))
    case _ => acc
  }

  /** The inner `for _, vLog := range logs` loop, over the table `rows`. */
  function IngestLogs(cfg: ChainConfig, rows: map<string, Meson>, logs: seq<Log>): (r: Ingest)
    ensures |r.alerts| <= |logs|
    decreases |logs|
  {
    if logs == [] then Ingest(rows, [])
    else IngestOne(cfg, IngestLogs(cfg, rows, logs[..|logs| - 1]), logs[|logs| - 1])
  }

  /** `IngestLogs` over one more log is one more `IngestOne`. */
  lemma IngestLogsSnoc(cfg: ChainConfig, rows: map<string, Meson>, logs: seq<Log>, j: nat)
    requires j < |logs|
    ensures IngestLogs(cfg, rows, logs[..j + 1]) == IngestOne(cfg, IngestLogs(cfg, rows, logs[..j]), logs[j])
  {
    assert logs[..j + 1][..j] == logs[..j];
  }

  /** Processing a fetch's logs never loses a record or changes a leg A, leaves a
      record with both legs as it was, and keeps every record under its reqid. */
  lemma {:induction false} IngestEvolves(cfg: ChainConfig, rows: map<string, Meson>, logs: seq<Log>)
    ensures Evolves(rows, IngestLogs(cfg, rows, logs).rows)
    ensures KeyedByReqId(rows) ==> KeyedByReqId(IngestLogs(cfg, rows, logs).rows)
    decreases |logs|
  {
    if logs != [] {
      var prev := IngestLogs(cfg, rows, logs[..|logs| - 1]);
      IngestEvolves(cfg, rows, logs[..|logs| - 1]);
      var r := IngestOne(cfg, prev, logs[|logs| - 1]);
      if DecodeLog(cfg, logs[|logs| - 1]).Accepted? {
        ReconcileEvolves(prev.rows, DecodeLog(cfg, logs[|logs| - 1]).leg);
        EvolvesTransitive(rows, prev.rows, r.rows);
      }
    }
  }

  /** Everything one chain's listener has produced so far. */
  datatype ListenState = ListenState(
    cp: nat,
    ranges: seq<Range>,
    saved: map<string, nat>,
    rows: map<string, Meson>,
    alerts: seq<Alert>)

  /** One iteration of the scan loop. */
  function Step(cfg: ChainConfig, s: ListenState, t: Tick): (r: ListenState)
    // retry or wait: nothing changes
    ensures t.HeadFailed? || (t.HeadAt? && t.fetch.FetchFailed?) ==> r == s
    ensures r.cp == s.cp ==> r == s
    // a head past the safety margin and a successful fetch always scan
    ensures r.cp != s.cp <==> t.HeadAt? && t.fetch.Fetched? && t.head > s.cp + SAFETY_MARGIN
    // a scanned range starts at the checkpoint, and the checkpoint moves just past it
    ensures r.cp != s.cp ==> && s.cp + SAFETY_MARGIN + 1 < r.cp <= s.cp + BLOCK_STEP + 1
                             && r.ranges == s.ranges + [Range(s.cp, r.cp - 1)]
                             && r.cp - 1 == (if s.cp + BLOCK_STEP < t.head then s.cp + BLOCK_STEP else t.head)
                             && r.saved == (if t.fetch.saveOk then SaveCheckpoint(s.saved, cfg.name, r.cp) else s.saved)
                             && r.rows == IngestLogs(cfg, s.rows, t.fetch.logs).rows
                             && r.alerts == s.alerts + IngestLogs(cfg, s.rows, t.fetch.logs).alerts
  {
    match t
    case HeadFailed => s
    case HeadAt(head, fetch) =>
      match PlanRange(s.cp, head)
      case Wait => s
      case Scan(from, to) =>
        match fetch
        case FetchFailed => s
        case Fetched(logs, saveOk) =>
          var ingest := IngestLogs(cfg, s.rows, logs);
          var saved := if saveOk then SaveCheckpoint(s.saved, cfg.name, to + 1) else s.saved;
          ListenState(to + 1, s.ranges + [Range(from, to)], saved, ingest.rows, s.alerts + ingest.alerts)
  }

  /** The scan loop run over a sequence of RPC answers. */
  function Run(cfg: ChainConfig, s: ListenState, ticks: seq<Tick>): (r: ListenState)
    ensures s.cp <= r.cp
    ensures |s.ranges| <= |r.ranges| <= |s.ranges| + |ticks|
    decreases |ticks|
  {
    if ticks == [] then s else Step(cfg, Run(cfg, s, ticks[..|ticks| - 1]), ticks[|ticks| - 1])
  }

  /** `Run` over one more answer is one more `Step`. */
  lemma RunSnoc(cfg: ChainConfig, s: ListenState, ticks: seq<Tick>, i: nat)
    requires i < |ticks|
    ensures Run(cfg, s, ticks[..i + 1]) == Step(cfg, Run(cfg, s, ticks[..i]), ticks[i])
  {
    assert ticks[..i + 1][..i] == ticks[..i];
  }

  /** A session never loses a record or changes a leg A, and keeps every record under its reqid. */
  lemma {:induction false} RunEvolves(cfg: ChainConfig, s: ListenState, ticks: seq<Tick>)
    ensures Evolves(s.rows, Run(cfg, s, ticks).rows)
    ensures KeyedByReqId(s.rows) ==> KeyedByReqId(Run(cfg, s, ticks).rows)
    decreases |ticks|
  {
    if ticks != [] {
      var init := ticks[..|ticks| - 1];
      RunEvolves(cfg, s, init);
      var p := Run(cfg, s, init);
      var t := ticks[|ticks| - 1];
      if t.HeadAt? && t.fetch.Fetched? {
        IngestEvolves(cfg, p.rows, t.fetch.logs);
        EvolvesTransitive(s.rows, p.rows, IngestLogs(cfg, p.rows, t.fetch.logs).rows);
      }
    }
  }

  /** The ranges start at `cp0`, follow one another without gap or overlap, each
      is more than the safety margin long, and `cpEnd` is the block after the last. */
  ghost predicate Contiguous(cp0: nat, rs: seq<Range>, cpEnd: nat)
  {
    && (|rs| == 0 ==> cpEnd == cp0)
    && (|rs| > 0 ==> rs[0].from == cp0 && cpEnd == rs[|rs| - 1].to + 1)
    && (forall i :: 0 <= i < |rs| ==> rs[i].from + SAFETY_MARGIN < rs[i].to)
    && (forall i :: 1 <= i < |rs| ==> rs[i].from == rs[i - 1].to + 1)
  }

  /** Appending the range that starts at `cpEnd` keeps the ranges contiguous. */
  lemma ContiguousExtend(cp0: nat, rs: seq<Range>, cpEnd: nat, next: Range)
    requires Contiguous(cp0, rs, cpEnd)
    requires next.from == cpEnd && next.from + SAFETY_MARGIN < next.to
    ensures Contiguous(cp0, rs + [next], next.to + 1)
  {
    var rs' := rs + [next];
    assert forall i :: 0 <= i < |rs| ==> rs'[i] == rs[i];
  }

  /** The ranges a listener scans from a fresh start are contiguous from its first checkpoint. */
  lemma {:induction false} RunContiguous(cfg: ChainConfig, s: ListenState, ticks: seq<Tick>)
    requires s.ranges == []
    ensures Contiguous(s.cp, Run(cfg, s, ticks).ranges, Run(cfg, s, ticks).cp)
    decreases |ticks|
  {
    if ticks != [] {
      var init := ticks[..|ticks| - 1];
      RunContiguous(cfg, s, init);
      var p := Run(cfg, s, init);
      var r := Step(cfg, p, ticks[|ticks| - 1]);
      if r.cp != p.cp {
        ContiguousExtend(s.cp, p.ranges, p.cp, Range(p.cp, r.cp - 1));
      }
    }
  }

  /** Contiguous ranges are strictly increasing: every block is scanned at most once. */
  lemma {:induction false} ContiguousIncreasing(cp0: nat, rs: seq<Range>, cpEnd: nat)
    requires Contiguous(cp0, rs, cpEnd)
    ensures forall i, j :: 0 <= i < j < |rs| ==> rs[i].to < rs[j].from
    ensures forall i :: 0 <= i < |rs| ==> cp0 <= rs[i].from && rs[i].to < cpEnd
    decreases |rs|
  {
    if |rs| > 0 {
      var last := |rs| - 1;
      var init := rs[..last];
      assert Contiguous(cp0, init, if last == 0 then cp0 else rs[last - 1].to + 1);
      ContiguousIncreasing(cp0, init, if last == 0 then cp0 else rs[last - 1].to + 1);
    }
  }

  /** Running two batches of answers is running the first, then the second from where it stopped. */
  lemma {:induction false} RunCompose(cfg: ChainConfig, s: ListenState, t1: seq<Tick>, t2: seq<Tick>)
    ensures Run(cfg, s, t1 + t2) == Run(cfg, Run(cfg, s, t1), t2)
    decreases |t2|
  {
    if t2 == [] {
      assert t1 + t2 == t1;
    } else {
      var t2' := t2[..|t2| - 1];
      assert (t1 + t2)[..|t1 + t2| - 1] == t1 + t2';
      RunCompose(cfg, s, t1, t2');
    }
  }

  lemma StepIgnoresHistory(cfg: ChainConfig, s: ListenState, t: Tick)
    ensures var anew := Step(cfg, s.(ranges := []), t);
            Step(cfg, s, t) == anew.(ranges := s.ranges + anew.ranges)
  {
  }

  /** The ranges already scanned do not influence what the loop does next. */
  lemma {:induction false} RunIgnoresHistory(cfg: ChainConfig, s: ListenState, ticks: seq<Tick>)
    ensures var anew := Run(cfg, s.(ranges := []), ticks);
            Run(cfg, s, ticks) == anew.(ranges := s.ranges + anew.ranges)
    decreases |ticks|
  {
    if ticks != [] {
      var init := ticks[..|ticks| - 1];
      RunIgnoresHistory(cfg, s, init);
      var p := Run(cfg, s, init);
      var q := Run(cfg, s.(ranges := []), init);
      assert p == q.(ranges := s.ranges + q.ranges);
      StepIgnoresHistory(cfg, p, ticks[|ticks| - 1]);
      StepIgnoresHistory(cfg, q, ticks[|ticks| - 1]);
      assert p.(ranges := []) == q.(ranges := []);
    }
  }

  /** Every checkpoint write in these answers succeeded. */
  ghost predicate SavesSucceed(ticks: seq<Tick>)
  {
    forall i :: 0 <= i < |ticks| && ticks[i].HeadAt? && ticks[i].fetch.Fetched? ==> ticks[i].fetch.saveOk
  }

  lemma SavesSucceedPrefix(ticks: seq<Tick>)
    requires ticks != []
    ensures SavesSucceed(ticks) ==> SavesSucceed(ticks[..|ticks| - 1])
  {
    var init := ticks[..|ticks| - 1];
    assert forall i :: 0 <= i < |init| ==> init[i] == ticks[i];
  }

  /**
   * The persisted checkpoint after a session is a range boundary at or before
   * the in-memory checkpoint: a listener restarted from it re-scans at most the
   * ranges whose write failed and never skips a block.  When every write
   * succeeded it is exactly the in-memory checkpoint.
   */
  lemma {:induction false} SavedCheckpointIsBoundary(cfg: ChainConfig, s: ListenState, ticks: seq<Tick>)
    requires s.ranges == [] && s.cp == LoadCheckpoint(s.saved, cfg.name, cfg.startBlock)
    ensures var r := Run(cfg, s, ticks);
            var c := LoadCheckpoint(r.saved, cfg.name, cfg.startBlock);
            && c <= r.cp
            && (c == s.cp || exists i :: 0 <= i < |r.ranges| && c == r.ranges[i].to + 1)
            && (SavesSucceed(ticks) ==> c == r.cp)
    decreases |ticks|
  {
    if ticks != [] {
      var init := ticks[..|ticks| - 1];
      SavedCheckpointIsBoundary(cfg, s, init);
      var p := Run(cfg, s, init);
      var t := ticks[|ticks| - 1];
      SavesSucceedPrefix(ticks);
      StepCheckpoint(cfg, p, t);
      var r := Step(cfg, p, t);
      assert Run(cfg, s, ticks) == r;
      var c := LoadCheckpoint(r.saved, cfg.name, cfg.startBlock);
      var c' := LoadCheckpoint(p.saved, cfg.name, cfg.startBlock);
      if r.saved != p.saved {
        assert c == r.ranges[|r.ranges| - 1].to + 1;
      } else if c' != s.cp {
        var i :| 0 <= i < |p.ranges| && c' == p.ranges[i].to + 1;
        assert r.ranges[i] == p.ranges[i];
      }
      if SavesSucceed(ticks) {
        assert t == ticks[|ticks| - 1];
      }
    }
  }

  /** One step either leaves the persisted checkpoint alone or writes the new
      in-memory checkpoint, which is one past the range just scanned. */
  lemma StepCheckpoint(cfg: ChainConfig, p: ListenState, t: Tick)
    ensures var r := Step(cfg, p, t);
            var c := LoadCheckpoint(r.saved, cfg.name, cfg.startBlock);
            && p.cp <= r.cp
            && |p.ranges| <= |r.ranges|
            && (forall i :: 0 <= i < |p.ranges| ==> r.ranges[i] == p.ranges[i])
            && (r.saved == p.saved ==> c == LoadCheckpoint(p.saved, cfg.name, cfg.startBlock))
            && (r.saved != p.saved ==> c == r.cp == r.ranges[|r.ranges| - 1].to + 1)
            && (t.HeadAt? && t.fetch.Fetched? && t.fetch.saveOk && r.cp != p.cp ==> c == r.cp)
  {
  }

  /** A chain's listener never changes another chain's persisted checkpoint. */
  lemma {:induction false} OtherChainsUntouched(cfg: ChainConfig, s: ListenState, ticks: seq<Tick>,
                                                other: string, start: nat)
    requires other != cfg.name
    ensures LoadCheckpoint(Run(cfg, s, ticks).saved, other, start) == LoadCheckpoint(s.saved, other, start)
    decreases |ticks|
  {
    if ticks != [] {
      OtherChainsUntouched(cfg, s, ticks[..|ticks| - 1], other, start);
    }
  }

  /**
   * Restarting a listener from its persisted checkpoint, after a session in which
   * every write succeeded, scans exactly the ranges an uninterrupted listener
   * would have scanned next.
   */
  lemma {:induction false} RestartResumes(cfg: ChainConfig, s: ListenState, t1: seq<Tick>, t2: seq<Tick>)
    requires s.ranges == [] && s.cp == LoadCheckpoint(s.saved, cfg.name, cfg.startBlock)
    requires SavesSucceed(t1)
    ensures var first := Run(cfg, s, t1);
            var restarted := first.(cp := LoadCheckpoint(first.saved, cfg.name, cfg.startBlock), ranges := []);
            Run(cfg, s, t1 + t2).ranges == first.ranges + Run(cfg, restarted, t2).ranges
  {
    SavedCheckpointIsBoundary(cfg, s, t1);
    RunCompose(cfg, s, t1, t2);
    var first := Run(cfg, s, t1);
    RunIgnoresHistory(cfg, first, t2);
    assert first.(cp := LoadCheckpoint(first.saved, cfg.name, cfg.startBlock), ranges := []) == first.(ranges := []);
  }

  /** The inner loop over one fetch's logs, applied to the table in place. */
  method IngestInto(cfg: ChainConfig, db: MesonTable, logs: seq<Log>) returns (found: seq<Alert>)
    requires db.Valid()
    modifies db
    ensures db.Valid()
    ensures Ingest(db.rows, found) == IngestLogs(cfg, old(db.rows), logs)
  {
    found := [];
    var j := 0;
    while j < |logs|
      invariant 0 <= j <= |logs|
      invariant db.Valid()
      invariant Ingest(db.rows, found) == IngestLogs(cfg, old(db.rows), logs[..j])
    {
      IngestLogsSnoc(cfg, old(db.rows), logs, j);
      ghost var acc := Ingest(db.rows, found);
      var decoded := DecodeLog(cfg, logs[j]);
      if decoded.Accepted? {
        var outcome, alert := HandleLeg(db, decoded.leg);
        found := found + AlertsOf(alert);
      }
      assert Ingest(db.rows, found) == IngestOne(cfg, acc, logs[j]);
      j := j + 1;
    }
    assert logs[..|logs|] == logs;
  }

  /** One iteration of the scan loop on the table object: plan, fetch, ingest, advance. */
  method ListenOnce(cfg: ChainConfig, db: MesonTable, cp: nat, ranges: seq<Range>, saved: map<string, nat>,
                    alerts: seq<Alert>, tick: Tick)
    returns (cp': nat, ranges': seq<Range>, saved': map<string, nat>, alerts': seq<Alert>)
    requires db.Valid()
    modifies db
    ensures db.Valid()
    ensures ListenState(cp', ranges', saved', db.rows, alerts')
            == Step(cfg, ListenState(cp, ranges, saved, old(db.rows), alerts), tick)
  {
    cp', ranges', saved', alerts' := cp, ranges, saved, alerts;
    if tick.HeadAt? {
      var plan := PlanRange(cp, tick.head);
      if plan.Scan? && tick.fetch.Fetched? {
        var found := IngestInto(cfg, db, tick.fetch.logs);
        alerts' := alerts + found;
        cp' := plan.to + 1;
        ranges' := ranges + [Range(plan.from, plan.to)];
        if tick.fetch.saveOk {
          saved' := SaveCheckpoint(saved, cfg.name, cp');
        }
      }
    }
  }

  /**
   * One `connectAndListen` session over the answers `ticks`: the checkpoint is
   * loaded once, then every iteration plans a range, decodes the fetched logs,
   * reconciles each accepted leg in the table and advances and writes the
   * checkpoint.
   */
  method Listen(cfg: ChainConfig, db: MesonTable, saved: map<string, nat>, ticks: seq<Tick>)
    returns (cp: nat, ranges: seq<Range>, saved': map<string, nat>, alerts: seq<Alert>)
    requires db.Valid()
    modifies db
    ensures db.Valid()
    ensures ListenState(cp, ranges, saved', db.rows, alerts)
            == Run(cfg, ListenState(LoadCheckpoint(saved, cfg.name, cfg.startBlock), [], saved, old(db.rows), []), ticks)
  {
    cp := LoadCheckpoint(saved, cfg.name, cfg.startBlock);
    ranges, saved', alerts := [], saved, [];
    ghost var s0 := ListenState(cp, [], saved, db.rows, []);
    var i := 0;
    while i < |ticks|
      invariant 0 <= i <= |ticks|
      invariant db.Valid()
      invariant ListenState(cp, ranges, saved', db.rows, alerts) == Run(cfg, s0, ticks[..i])
    {
      RunSnoc(cfg, s0, ticks, i);
      cp, ranges, saved', alerts := ListenOnce(cfg, db, cp, ranges, saved', alerts, ticks[i]);
      i := i + 1;
    }
    assert ticks[..|ticks|] == ticks;
  }
}
