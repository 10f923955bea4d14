/** Processes that share the two files, each with its own cache: a refinement of LedgerSystem.

    A host is the text of the files and what every process remembers of state.db.
    Each history of hosts is shown to be a history of the system, whose states hold
    records instead of text and where every process sees what the files replay to. */
module LedgerCaches {
  import opened LedgerState
  import opened LedgerOps
  import opened Compaction
  import opened LedgerTrace
  import opened LedgerSafety
  import opened LedgerRuns
  import opened LedgerSystem
  import opened StateFile
  import opened LedgerFiles
  import opened LedgerProcess
  import Chain = AuditChain
  import F = Framing

  /** The text of the files, and what each process remembers of state.db. */
  datatype Host = Host(img: Image, caches: map<nat, Cache>, up: bool, pending: set<nat>, forwards: seq<nat>)

  /** Process p operates, only loads (a snapshot of the grants), or ends; a call is
      forwarded; or everything crashes. */
  datatype Act =
    | Operate(p: nat, op: Op, now: int, compaction: Option<Order>, cut: nat)
    | Look(p: nat)
    | End(p: nat)
    | Send(n: nat)
    | CrashAll

  function CacheOf(s: Host, p: nat): Cache {
    if p in s.caches then s.caches[p] else Cache(0, 0, None)
  }

  /** What process p sees. */
  function Seen(ctx: Ctx, k: Codecs, s: Host, p: nat): Result<State> {
    LoadThrough(k.state, ctx.pol.gatewayId, CacheOf(s, p), s.img)
  }

  function TailFor(ctx: Ctx, k: Codecs, s: Host, op: Op): Chain.Tail {
    if op.Open? then FileTail(ctx, k, s.img) else NO_TAIL
  }

  /** A cache that describes the whole file. */
  function Whole(img: Image, st: State): Cache {
    Cache(img.gen, |img.state|, Some(st))
  }

  ghost predicate Operates(ctx: Ctx, k: Codecs, s: Host, a: Act, s': Host)
    requires a.Operate? && Seen(ctx, k, s, a.p).Ok?
  {
    var view, tail := Seen(ctx, k, s, a.p).value, TailFor(ctx, k, s, a.op);
    && (s.up || a.op.Open?) && OpOk(ctx, a.op, a.now) && OrderOk(ctx, view, a.op, tail, a.now, a.compaction)
    && var ws := OpWrites(ctx, view, a.op, tail, a.now, a.compaction);
       && WritesFit(k, ws) && a.cut <= |ws|
       && var img' := PutAll(k, s.img, ws[..a.cut]);
          if a.cut == |ws| then
            s' == Host(img', s.caches[a.p := Whole(img', AfterOp(ctx, view, a.op, tail, a.now, a.compaction))], true,
                       s.pending + Committing(ctx, view, a.op, a.now), s.forwards)
          else s' == Host(img', map[], false, {}, s.forwards)
  }

  ghost predicate Steps(ctx: Ctx, k: Codecs, s: Host, a: Act, s': Host) {
    match a
    case Operate(p, _, _, _, _) => Seen(ctx, k, s, p).Ok? && Operates(ctx, k, s, a, s')
    case Look(p) => Seen(ctx, k, s, p).Ok? && s' == s.(caches := s.caches[p := Whole(s.img, Seen(ctx, k, s, p).value)])
    case End(p) => s' == s.(caches := s.caches - {p})
    case Send(n) => s.up && n in s.pending && s' == s.(pending := s.pending - {n}, forwards := s.forwards + [n])
    case CrashAll => s' == s.(caches := map[], up := false, pending := {})
  }

  ghost predicate Starts(ctx: Ctx, k: Codecs, s: Host) {
    && (exists id, t, now :: IsLedgerId(id) && Represents(k, s.img, Genesis(ctx, id, t, now)))
    && s.caches == map[] && !s.up && s.pending == {} && s.forwards == []
  }

  ghost predicate Hosts(ctx: Ctx, k: Codecs, states: seq<Host>, acts: seq<Act>) {
    && |states| == |acts| + 1 && Starts(ctx, k, states[0])
    && forall i | 0 <= i < |acts| :: Steps(ctx, k, states[i], acts[i], states[i + 1])
  }

  // ----- the refinement -----

  /** The files hold the system's records, and every cache is valid. */
  ghost predicate Matches(ctx: Ctx, k: Codecs, c: Host, s: Sys) {
    && Represents(k, c.img, s.disk) && c.up == s.up && c.pending == s.pending && c.forwards == s.forwards
    && CachesOk(ctx, k, c)
  }

  ghost predicate CachesOk(ctx: Ctx, k: Codecs, c: Host) {
    forall p | p in c.caches :: CacheOk(k.state, ctx.pol.gatewayId, c.caches[p], c.img)
  }

  ghost predicate CodecsOk(k: Codecs) {
    F.CodecOk(k.state) && F.CodecOk(k.audit)
  }

  lemma ColdIsOk(ctx: Ctx, k: Codecs, c: Host, p: nat)
    requires CachesOk(ctx, k, c)
    ensures CacheOk(k.state, ctx.pol.gatewayId, CacheOf(c, p), c.img)
  {
  }

  /** What a process sees through its cache means what the system's records replay to. */
  lemma SeenMeans(ctx: Ctx, k: Codecs, c: Host, s: Sys, p: nat)
    requires F.CodecOk(k.state) && Matches(ctx, k, c, s) && Recoverable(ctx, s.disk) && Seen(ctx, k, c, p).Ok?
    ensures SameMeaning(Seen(ctx, k, c, p).value, View(ctx, s.disk))
    ensures CacheOk(k.state, ctx.pol.gatewayId, Whole(c.img, Seen(ctx, k, c, p).value), c.img)
    ensures |c.img.state| <= MAX_FILE && |c.img.audit| <= MAX_FILE
  {
    hide F.CodecOk, ReplayAll, ApplyText, Chain.ValidChain, SameMeaning, Represents;
    ColdIsOk(ctx, k, c, p);
    LoadThroughMeans(k.state, ctx.pol.gatewayId, CacheOf(c, p), c.img);
    WillLoad(ctx, k, c.img, s.disk);
  }

  lemma CachesStayOk(ctx: Ctx, k: Codecs, c: Host, img': Image)
    requires CachesOk(ctx, k, c) && Grows(c.img, img')
    ensures CachesOk(ctx, k, c.(img := img'))
  {
    hide CacheOk, Grows;
    forall p | p in c.caches ensures CacheOk(k.state, ctx.pol.gatewayId, c.caches[p], img') {
      CacheStaysOk(k.state, ctx.pol.gatewayId, c.caches[p], c.img, img');
    }
  }

  lemma OpenIsAccepted(ctx: Ctx, d: Disk, view: State)
    requires Recoverable(ctx, d) && SameMeaning(view, View(ctx, d))
    ensures OpenAccepts(ctx, d, view)
  {
    hide ReplayAll, Chain.ValidChain, SameMeaning;
    SameMeaningId(view, View(ctx, d));
  }

  /** The tail the process computes from the text is that of the system's log. */
  lemma TailAgrees(ctx: Ctx, k: Codecs, c: Host, s: Sys, view: State, op: Op, now: int, compaction: Option<Order>)
    requires CodecsOk(k) && Represents(k, c.img, s.disk) && Recoverable(ctx, s.disk)
    requires |c.img.state| <= MAX_FILE && |c.img.audit| <= MAX_FILE
    requires OrderOk(ctx, view, op, TailFor(ctx, k, c, op), now, compaction)
    ensures var tail, logTail := TailFor(ctx, k, c, op), Chain.TailOf(s.disk.audit);
            && OrderOk(ctx, view, op, logTail, now, compaction)
            && OpWrites(ctx, view, op, tail, now, compaction) == OpWrites(ctx, view, op, logTail, now, compaction)
            && AfterOp(ctx, view, op, tail, now, compaction) == AfterOp(ctx, view, op, logTail, now, compaction)
  {
    hide CodecsOk, Represents, Recoverable, OrderOk, OpWrites, AfterOp, FileTail, F.CodecOk, Chain.TailOf;
    CodecsAreOk(k);
    CrashedFilesAreAccepted(ctx, k, c.img, s.disk);
    TailOnlyForOpen(ctx, view, op, TailFor(ctx, k, c, op), Chain.TailOf(s.disk.audit), now, compaction);
  }

  lemma CodecsAreOk(k: Codecs)
    requires CodecsOk(k)
    ensures F.CodecOk(k.state) && F.CodecOk(k.audit)
  {
  }

  lemma FirstWritesFit(k: Codecs, ws: seq<Write>, n: nat)
    requires WritesFit(k, ws) && n <= |ws|
    ensures WritesFit(k, ws[..n])
  {
  }

  lemma StampedCut(ws: seq<Write>, now: int, n: nat)
    requires n <= |ws|
    ensures Stamped(ws, now)[..n] == Stamped(ws[..n], now)
  {
  }

  /** The system's state after the operation. */
  ghost function SysAfter(ctx: Ctx, s: Sys, view: State, a: Act): Sys
    requires a.Operate? && OrderOk(ctx, view, a.op, Chain.TailOf(s.disk.audit), a.now, a.compaction)
    requires a.cut <= |OpTrace(ctx, view, a.op, Chain.TailOf(s.disk.audit), a.now, a.compaction)|
  {
    var all := OpTrace(ctx, view, a.op, Chain.TailOf(s.disk.audit), a.now, a.compaction);
    var done := a.cut == |all|;
    Sys(DiskAfter(s.disk, all[..a.cut]), done, if done then s.pending + Committing(ctx, view, a.op, a.now) else {},
        s.forwards, s.trace + all[..a.cut])
  }

  /** An operation of a process with a cache is one of the system. */
  lemma OperateRefines(ctx: Ctx, k: Codecs, c: Host, a: Act, c': Host, s: Sys) returns (ev: Event, s': Sys)
    requires HashesOk(ctx) && CodecsOk(k) && Matches(ctx, k, c, s) && a.Operate? && Steps(ctx, k, c, a, c')
    requires Recoverable(ctx, s.disk) && (s.up ==> Synced(ctx, s.disk)) && SodSafe(ctx, View(ctx, s.disk))
    ensures Next(ctx, s, ev, s') && Matches(ctx, k, c', s')
  {
    hide CodecsOk, Represents, Recoverable, Synced, SodSafe, OrderOk, OpWrites, AfterOp, Chain.TailOf, OpOk, WritesFit,
         PutAll, SameMeaning, LoadThrough, TailFor, DiskAfter, Stamped, Grows, CacheOk, OpenAccepts, ReplayAll, F.CodecOk,
         CachesOk, Committing, View;
    CodecsAreOk(k);
    SeenMeans(ctx, k, c, s, a.p);
    var view, tail, logTail := Seen(ctx, k, c, a.p).value, TailFor(ctx, k, c, a.op), Chain.TailOf(s.disk.audit);
    TailAgrees(ctx, k, c, s, view, a.op, a.now, a.compaction);
    OpenIsAccepted(ctx, s.disk, view);
    RecoverableReplays(ctx, s.disk);
    var ws := OpWrites(ctx, view, a.op, logTail, a.now, a.compaction);
    StampedCut(ws, a.now, a.cut);
    StampedLength(ws, a.now);
    ev := Do(a.op, a.now, view, a.compaction, a.cut);
    s' := SysAfter(ctx, s, view, a);
    FirstWritesFit(k, ws, a.cut);
    RepresentsAll(k, c.img, s.disk, ws[..a.cut], a.now);
    if a.cut == |ws| {
      assert ws[..a.cut] == ws;
      StartIsReady(ctx, s, view, a.op);
      OpKeepsFiles(ctx, k, c.img, s.disk, view, a.op, a.now, a.compaction);
      OthersStayOk(ctx, k, c, a, c', view);
    } else {
      NoCaches(ctx, k, c');
    }
  }

  lemma NoCaches(ctx: Ctx, k: Codecs, c: Host)
    requires c.caches == map[]
    ensures CachesOk(ctx, k, c)
  {
  }

  lemma RecoverableReplays(ctx: Ctx, d: Disk)
    requires Recoverable(ctx, d)
    ensures ReplayAll(d.state, ctx.pol.gatewayId).Ok?
  {
  }

  lemma StampedLength(ws: seq<Write>, now: int)
    ensures |Stamped(ws, now)| == |ws|
  {
  }

  lemma StartIsReady(ctx: Ctx, s: Sys, view: State, op: Op)
    requires Recoverable(ctx, s.disk) && SameMeaning(view, View(ctx, s.disk))
    requires (s.up ==> Synced(ctx, s.disk)) && (s.up || op.Open?)
    ensures CanStart(ctx, s.disk, view, op)
  {
  }

  lemma OthersStayOk(ctx: Ctx, k: Codecs, c: Host, a: Act, c': Host, view: State)
    requires CachesOk(ctx, k, c) && a.Operate? && Grows(c.img, c'.img)
    requires exists st :: c'.caches == c.caches[a.p := Whole(c'.img, st)]
                          && CacheOk(k.state, ctx.pol.gatewayId, Whole(c'.img, st), c'.img)
    ensures CachesOk(ctx, k, c')
  {
    hide CacheOk, Grows;
    CachesStayOk(ctx, k, c, c'.img);
  }

  lemma OtherActRefines(ctx: Ctx, k: Codecs, c: Host, a: Act, c': Host, s: Sys) returns (ev: Option<Event>, s': Sys)
    requires CodecsOk(k) && Matches(ctx, k, c, s) && !a.Operate? && Steps(ctx, k, c, a, c') && Recoverable(ctx, s.disk)
    ensures if ev.None? then s' == s else Next(ctx, s, ev.value, s')
    ensures Matches(ctx, k, c', s')
  {
    hide Represents, Recoverable, CacheOk, LoadThrough, F.CodecOk, SameMeaning, View;
    match a
    case Look(p) =>
      SeenMeans(ctx, k, c, s, p);
      ev, s' := None, s;
    case End(p) =>
      ev, s' := None, s;
    case Send(n) =>
      ev, s' := Some(Forward(n)), s.(pending := s.pending - {n}, forwards := s.forwards + [n]);
    case CrashAll =>
      ev, s' := Some(Crash), s.(up := false, pending := {});
  }

  lemma HistorySnoc(ctx: Ctx, states: seq<Sys>, events: seq<Event>, ev: Event, s': Sys)
    requires History(ctx, states, events) && Next(ctx, states[|events|], ev, s')
    ensures History(ctx, states + [s'], events + [ev])
  {
    hide Next, Initial;
    var ss, es := states + [s'], events + [ev];
    forall i | 0 <= i < |es| ensures Next(ctx, ss[i], es[i], ss[i + 1]) {
      if i < |events| {
        assert Next(ctx, states[i], events[i], states[i + 1]);
      }
    }
  }

  lemma StartRefines(ctx: Ctx, k: Codecs, c: Host) returns (s: Sys)
    requires Starts(ctx, k, c)
    ensures Initial(ctx, s) && Matches(ctx, k, c, s)
  {
    hide Represents, Genesis;
    var id, t, now :| IsLedgerId(id) && Represents(k, c.img, Genesis(ctx, id, t, now));
    s := Sys(Genesis(ctx, id, t, now), false, {}, [], []);
  }

  lemma FilesAreOk(ctx: Ctx, states: seq<Sys>, events: seq<Event>)
    requires HashesOk(ctx) && History(ctx, states, events)
    ensures var s := states[|events|];
            Recoverable(ctx, s.disk) && (s.up ==> Synced(ctx, s.disk)) && SodSafe(ctx, View(ctx, s.disk))
  {
    hide Recoverable, Synced, SodSafe, View, CallsOk, Run, DiskAfter, Next, Initial;
    HistoryInvariant(ctx, states, events, |events|);
  }

  /** Main result: every history of processes with caches of their own, on the text of the
      files, is a history of the system, in which every process sees what the files
      replay to; so everything proved of the system holds of it. */
  lemma {:induction false} HostsRefine(ctx: Ctx, k: Codecs, hosts: seq<Host>, acts: seq<Act>)
      returns (states: seq<Sys>, events: seq<Event>)
    requires HashesOk(ctx) && CodecsOk(k) && Hosts(ctx, k, hosts, acts)
    ensures History(ctx, states, events) && Matches(ctx, k, hosts[|acts|], states[|events|])
    decreases |acts|
  {
    hide Steps, Starts, Next, Initial, Matches, Recoverable, Synced, SodSafe, View, CodecsOk;
    if acts == [] {
      var s := StartRefines(ctx, k, hosts[0]);
      states, events := [s], [];
    } else {
      var n := |acts| - 1;
      assert Steps(ctx, k, hosts[n], acts[n], hosts[n + 1]);
      states, events := HostsRefine(ctx, k, hosts[..n + 1], acts[..n]);
      FilesAreOk(ctx, states, events);
      var s := states[|events|];
      if acts[n].Operate? {
        var ev, s' := OperateRefines(ctx, k, hosts[n], acts[n], hosts[n + 1], s);
        HistorySnoc(ctx, states, events, ev, s');
        states, events := states + [s'], events + [ev];
      } else {
        var ev, s' := OtherActRefines(ctx, k, hosts[n], acts[n], hosts[n + 1], s);
        if ev.Some? {
          HistorySnoc(ctx, states, events, ev.value, s');
          states, events := states + [s'], events + [ev.value];
        }
      }
    }
  }

  /** What any process sees in any such history means what a full replay of the text gives. */
  lemma EveryCacheIsFaithful(ctx: Ctx, k: Codecs, hosts: seq<Host>, acts: seq<Act>, p: nat)
    requires HashesOk(ctx) && CodecsOk(k) && Hosts(ctx, k, hosts, acts)
    ensures var c := hosts[|acts|]; SameResult(Seen(ctx, k, c, p), LoadSpec(k.state, ctx.pol.gatewayId, c.img))
  {
    hide Steps, Starts, Represents, CacheOk, LoadThrough, LoadSpec, SameMeaning, History;
    var states, events := HostsRefine(ctx, k, hosts, acts);
    var c := hosts[|acts|];
    ColdIsOk(ctx, k, c, p);
    LoadThroughMeans(k.state, ctx.pol.gatewayId, CacheOf(c, p), c.img);
  }
}
