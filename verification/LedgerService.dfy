/** The ledger stays in service: it opens after every crash, and allowed calls get through. */
module LedgerService {
  import opened LedgerState
  import opened LedgerOps
  import opened Compaction
  import opened LedgerTrace
  import opened LedgerSafety
  import opened LedgerRuns
  import opened LedgerSystem
  import opened StateFile
  import opened LedgerFiles
  import opened LedgerProcess
  import opened LC = LedgerCaches
  import Chain = AuditChain
  import F = Framing

  /** An operation that does all its writes. */
  ghost function Completed(ctx: Ctx, s: Sys, op: Op, now: int): Event
    requires ReplayAll(s.disk.state, ctx.pol.gatewayId).Ok? && !op.Compact?
  {
    var view := View(ctx, s.disk);
    Do(op, now, view, None, |OpTrace(ctx, view, op, Chain.TailOf(s.disk.audit), now, None)|)
  }

  /** From every state of a history a completed operation that may start leads on. */
  lemma DoesWhole(ctx: Ctx, states: seq<Sys>, events: seq<Event>, op: Op, now: int) returns (ev: Event, s': Sys)
    requires HashesOk(ctx) && History(ctx, states, events)
    requires (states[|events|].up || op.Open?) && OpOk(ctx, op, now) && !op.Compact?
    ensures var s := states[|events|];
            && ReplayAll(s.disk.state, ctx.pol.gatewayId).Ok? && ev == Completed(ctx, s, op, now)
            && Next(ctx, s, ev, s') && s'.up && Synced(ctx, s'.disk) && History(ctx, states + [s'], events + [ev])
            && s'.pending == s.pending + Committing(ctx, View(ctx, s.disk), op, now) && s'.forwards == s.forwards
  {
    hide ReplayAll, Recoverable, Synced, SodSafe, OpTrace, OpOk, OpenAccepts, SameMeaning, History, DiskAfter, Chain.TailOf,
         CallsOk, Run;
    SameLength(ctx, states, events);
    var s := states[|events|];
    FilesAreOk(ctx, states, events);
    RecoverableReplays(ctx, s.disk);
    var view := View(ctx, s.disk);
    SameMeaningItself(view);
    OpenIsAccepted(ctx, s.disk, view);
    StartIsReady(ctx, s, view, op);
    NoOrder(ctx, view, op, Chain.TailOf(s.disk.audit), now);
    OpIsRun(ctx, s.disk, view, op, now, None);
    ev := Completed(ctx, s, op, now);
    var all := OpTrace(ctx, view, op, Chain.TailOf(s.disk.audit), now, None);
    assert all[..|all|] == all;
    s' := Sys(DiskAfter(s.disk, all), true, s.pending + Committing(ctx, view, op, now), s.forwards, s.trace + all);
    HistorySnoc(ctx, states, events, ev, s');
  }

  lemma NoOrder(ctx: Ctx, view: State, op: Op, tail: Chain.Tail, now: int)
    requires !op.Compact?
    ensures OrderOk(ctx, view, op, tail, now, None)
  {
  }

  /** Main result: after every history, however it crashed, opening the ledger brings the
      system up with the log at its mark. */
  lemma OpensAgain(ctx: Ctx, states: seq<Sys>, events: seq<Event>, t: Chain.AuditRecord, now: int) returns (ev: Event, s': Sys)
    requires HashesOk(ctx) && History(ctx, states, events) && t.decision != "pre_forward_allow"
    ensures ev.Do? && ev.op == Open(t) && ev.now == now && ev.compaction == None
    ensures History(ctx, states + [s'], events + [ev]) && s'.up && Synced(ctx, s'.disk)
    ensures s'.forwards == states[|events|].forwards
  {
    hide History, Next, Synced, ReplayAll, OpTrace;
    ev, s' := DoesWhole(ctx, states, events, Open(t), now);
  }

  /** Main result: while the system is up, a commit that the checks allow completes, and its
      call is forwarded under the number of its audit record. */
  lemma AllowedCallsAreForwarded(ctx: Ctx, states: seq<Sys>, events: seq<Event>, st: State, req: Request,
                                  t: Chain.AuditRecord, now: int)
      returns (ev: Event, s': Sys, s'': Sys)
    requires HashesOk(ctx) && History(ctx, states, events) && states[|events|].up && OpOk(ctx, Op.Commit(req, t), now)
    requires ReplayAll(states[|events|].disk.state, ctx.pol.gatewayId) == Ok(st) && Decide(ctx.pol, st, req, now) == Allow
    ensures var n := |states[|events|].disk.audit| + 1;
            && ev.Do? && ev.op == Op.Commit(req, t) && ev.now == now
            && History(ctx, states + [s'] + [s''], events + [ev] + [Forward(n)])
            && s''.up && s''.forwards == states[|events|].forwards + [n] && |s''.disk.audit| == n
  {
    hide History, Synced, ReplayAll, OpTrace, OpOk, Decide, DiskAfter, Recoverable, SodSafe, SameMeaning, Chain.TailOf, Next;
    SameLength(ctx, states, events);
    var s, op := states[|events|], Op.Commit(req, t);
    ev, s' := DoesWhole(ctx, states, events, op, now);
    var n := |s.disk.audit| + 1;
    FilesAreOk(ctx, states, events);
    var view := st;
    SameMeaningItself(view);
    StartIsReady(ctx, s, view, op);
    NoOrder(ctx, view, op, Chain.TailOf(s.disk.audit), now);
    NextAuditNumber(ctx, s.disk, view, op, now, None);
    AfterWhole(ctx, s, op, now, s');
    s'' := s'.(pending := s'.pending - {n}, forwards := s'.forwards + [n]);
    Forwards(ctx, s', n, s'');
    assert (states + [s'])[|events + [ev]|] == s';
    HistorySnoc(ctx, states + [s'], events + [ev], Forward(n), s'');
  }

  lemma SameLength(ctx: Ctx, states: seq<Sys>, events: seq<Event>)
    requires History(ctx, states, events)
    ensures |states| == |events| + 1
  {
    hide Next, Initial;
  }

  lemma Forwards(ctx: Ctx, s: Sys, n: nat, s': Sys)
    requires s.up && n in s.pending && s' == s.(pending := s.pending - {n}, forwards := s.forwards + [n])
    ensures Next(ctx, s, Forward(n), s')
  {
    hide DoEnabled;
  }

  lemma AfterWhole(ctx: Ctx, s: Sys, op: Op, now: int, s': Sys)
    requires ReplayAll(s.disk.state, ctx.pol.gatewayId).Ok? && !op.Compact? && Next(ctx, s, Completed(ctx, s, op, now), s')
    ensures OrderOk(ctx, View(ctx, s.disk), op, Chain.TailOf(s.disk.audit), now, None)
    ensures s'.disk == DiskAfter(s.disk, OpTrace(ctx, View(ctx, s.disk), op, Chain.TailOf(s.disk.audit), now, None))
  {
    hide ReplayAll, DiskAfter, OpTrace, SameMeaning, OpOk, OpenAccepts;
    NoOrder(ctx, View(ctx, s.disk), op, Chain.TailOf(s.disk.audit), now);
    var all := OpTrace(ctx, View(ctx, s.disk), op, Chain.TailOf(s.disk.audit), now, None);
    assert all[..|all|] == all;
  }

  // ----- the same on the text of the files -----

  /** What a process sees of files within the size limit is a state, not an error. */
  lemma ProcessesSee(ctx: Ctx, k: Codecs, hosts: seq<Host>, acts: seq<Act>, p: nat) returns (view: State)
    requires HashesOk(ctx) && CodecsOk(k) && Hosts(ctx, k, hosts, acts)
    requires |hosts[|acts|].img.state| <= 67108864 && |hosts[|acts|].img.audit| <= 67108864
    ensures Seen(ctx, k, hosts[|acts|], p) == Ok(view)
  {
    hide Steps, Starts, Represents, CacheOk, LoadThrough, LoadSpec, SameMeaning, History, View, Recoverable, Synced, SodSafe;
    var states, events := HostsRefine(ctx, k, hosts, acts);
    CodecsAreOk(k);
    SameLength(ctx, states, events);
    FilesAreOk(ctx, states, events);
    WillLoad(ctx, k, hosts[|acts|].img, states[|events|].disk);
    EveryCacheIsFaithful(ctx, k, hosts, acts, p);
    view := Seen(ctx, k, hosts[|acts|], p).value;
  }

  /** Main result: in every history of processes with caches, on files within the size limit,
      a process can open the ledger, and while the system is up any process can complete a
      commit that the checks allow, and its call is forwarded, provided that the lines it
      writes are ones that its parser reads back. */
  lemma ProcessesServe(ctx: Ctx, k: Codecs, hosts: seq<Host>, acts: seq<Act>, p: nat, view: State, op: Op, now: int)
      returns (a: Act, c': Host, c'': Host)
    requires Hosts(ctx, k, hosts, acts) && Seen(ctx, k, hosts[|acts|], p) == Ok(view)
    requires op.Open? || (op.Commit? && hosts[|acts|].up && Decide(ctx.pol, view, op.req, now) == Allow)
    requires OpOk(ctx, op, now)
    requires OrderOk(ctx, view, op, TailFor(ctx, k, hosts[|acts|], op), now, None) ==>
               WritesFit(k, OpWrites(ctx, view, op, TailFor(ctx, k, hosts[|acts|], op), now, None))
    ensures a.Operate? && a.p == p && a.op == op && a.now == now && Steps(ctx, k, hosts[|acts|], a, c') && c'.up
    ensures op.Commit? ==>
              var n := view.hwmSeq + 1;
              Steps(ctx, k, c', Send(n), c'') && c''.up && c''.forwards == hosts[|acts|].forwards + [n]
  {
    hide Seen, LoadThrough, OpOk, WritesFit, OpWrites, PutAll, AfterOp, TailFor, Decide;
    var c := hosts[|acts|];
    var tail := TailFor(ctx, k, c, op);
    NoOrder(ctx, view, op, tail, now);
    var ws := OpWrites(ctx, view, op, tail, now, None);
    assert ws[..|ws|] == ws;
    var img' := PutAll(k, c.img, ws);
    a := Operate(p, op, now, None, |ws|);
    c' := Host(img', c.caches[p := LC.Whole(img', AfterOp(ctx, view, op, tail, now, None))], true,
               c.pending + Committing(ctx, view, op, now), c.forwards);
    var n := view.hwmSeq + 1;
    c'' := c'.(pending := c'.pending - {n}, forwards := c'.forwards + [n]);
  }
}
