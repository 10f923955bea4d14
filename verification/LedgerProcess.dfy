/** A process's ledger with its cache: the Ledger type of internal/authz/statedb.go. */
module LedgerProcess {
  import opened LedgerState
  import opened LedgerOps
  import opened Compaction
  import opened LedgerTrace
  import opened LedgerSafety
  import opened LedgerRuns
  import opened StateFile
  import opened LedgerFiles
  import A = AuditFile
  import Chain = AuditChain
  import F = Framing
  import Sod

  /** state.db and audit.jsonl, shared by all processes. */
  class Files {
    var gen: nat
    var state: string
    var audit: string

    constructor (img: Image)
      ensures Img() == img
    {
      gen, state, audit := img.gen, img.state, img.audit;
    }

    function Img(): Image
      reads this
    {
      Image(gen, state, audit)
    }
  }

  /** The grant lines of one subject. */
  method EntLines(c: StateCodec, id: string, gw: string, subject: string, ents: seq<string>, now: int) returns (buf: string)
    ensures buf == F.Frame(c, EntRecords(id, gw, subject, ents, now))
  {
    buf := "";
    for j := 0 to |ents|
      invariant buf == F.Frame(c, EntRecords(id, gw, subject, ents[..j], now))
    {
      assert ents[..j + 1][..j] == ents[..j];
      ghost var so := EntRecords(id, gw, subject, ents[..j], now);
      var rec := GrantRecord(id, gw, subject, ents[j], now);
      assert (so + [rec])[..|so|] == so;
      buf := buf + c.format(rec) + "\n";
    }
    assert ents[..|ents|] == ents;
  }

  /** The lines of all grant records of a commit. */
  method GrantLines(c: StateCodec, id: string, gw: string, subjects: seq<string>, ents: seq<string>, now: int)
    returns (buf: string)
    ensures buf == F.Frame(c, GrantRecords(id, gw, subjects, ents, now))
  {
    hide F.Frame, EntRecords;
    NothingFramed(c);
    buf := "";
    for i := 0 to |subjects|
      invariant buf == F.Frame(c, GrantRecords(id, gw, subjects[..i], ents, now))
    {
      assert subjects[..i + 1][..i] == subjects[..i];
      var lines := EntLines(c, id, gw, subjects[i], ents, now);
      F.FrameConcat(c, GrantRecords(id, gw, subjects[..i], ents, now), EntRecords(id, gw, subjects[i], ents, now));
      buf := buf + lines;
    }
    assert subjects[..|subjects|] == subjects;
  }

  /** The buffer of state records that a commit writes at once. */
  method CommitLines(c: StateCodec, pol: Policy, id: string, req: Request, now: int) returns (buf: string)
    ensures buf == F.Frame(c, CommitRecords(pol, id, req, now))
  {
    hide GrantRecords, F.Frame;
    var budget := BudgetRecord(id, pol.gatewayId, NewBudget(pol, req, now));
    FrameOne(c, budget);
    buf := c.format(budget) + "\n";
    var grants := GrantLines(c, id, pol.gatewayId, req.subjects, req.ents, now);
    ghost var gs := GrantRecords(id, pol.gatewayId, req.subjects, req.ents, now);
    F.FrameConcat(c, [budget], gs);
    buf := buf + grants;
    if req.approval.Some? {
      var rec := ReplayRecord(pol, id, req.approval.value, now);
      FrameOne(c, rec);
      F.FrameConcat(c, [budget] + gs, [rec]);
      buf := buf + (c.format(rec) + "\n");
    } else {
      assert [budget] + gs + [] == [budget] + gs;
    }
  }

  lemma FrameOne(c: StateCodec, rec: StateRecord)
    ensures F.Frame(c, [rec]) == c.format(rec) + "\n"
  {
    assert [rec][..0] == [];
    assert "" + c.format(rec) + "\n" == c.format(rec) + "\n";
  }

  /** The in-memory grants of one subject. */
  method GrantSubject(st0: State, subject: string, ents: seq<string>, now: int) returns (st: State)
    ensures st == GrantEnts(TouchSubject(st0, subject), subject, ents, now)
  {
    hide AddGrant;
    st := st0;
    if subject !in st.grants {
      st := st.(grants := st.grants[subject := {}], origins := st.origins[subject := map[]]);
    }
    ghost var touched := st;
    for j := 0 to |ents|
      invariant st == GrantEnts(touched, subject, ents[..j], now)
    {
      assert ents[..j + 1][..j] == ents[..j];
      st := AddGrant(st, subject, ents[j], now);
    }
    assert ents[..|ents|] == ents;
  }

  /** The in-memory update of a commit. */
  method UpdateForCommit(pol: Policy, st0: State, req: Request, now: int) returns (st: State)
    ensures st == CommitState(pol, st0, req, now)
  {
    hide GrantEnts, TouchSubject;
    st := st0.(budgets := st0.budgets + [NewBudget(pol, req, now)]);
    ghost var st1 := st;
    for i := 0 to |req.subjects|
      invariant st == GrantAll(st1, req.subjects[..i], req.ents, now)
    {
      assert req.subjects[..i + 1][..i] == req.subjects[..i];
      st := GrantSubject(st, req.subjects[i], req.ents, now);
    }
    assert req.subjects[..|req.subjects|] == req.subjects;
    if req.approval.Some? {
      var rec := ReplayRecord(pol, st0.ledgerId, req.approval.value, now);
      st := st.(replays := st.replays[rec.key := rec]);
    }
  }

  /** The error of a result. */
  function Failure<T>(r: Result<T>): Option<Error> {
    if r.Err? then Some(r.error) else None
  }

  /** Only OpenLedger looks at the tail of the audit log. */
  const NO_TAIL := Chain.Tail(0, "", "")

  /** The last record of an audit file that verifies. */
  function FileTail(ctx: Ctx, k: Codecs, img: Image): Chain.Tail {
    match LoadSpec(k.state, ctx.pol.gatewayId, img)
    case Err(_) => NO_TAIL
    case Ok(st) =>
      match A.ChainOf(k.audit, ctx.h, img.audit, ctx.pol.gatewayId, st.ledgerId)
      case None => NO_TAIL
      case Some(log) => Chain.TailOf(log)
  }

  /** The error with which startup refuses the files, if any. */
  function StartupFailure(ctx: Ctx, k: Codecs, img: Image): Option<Error> {
    match LoadSpec(k.state, ctx.pol.gatewayId, img)
    case Err(e) => Some(e)
    case Ok(st) =>
      match A.ChainOf(k.audit, ctx.h, img.audit, ctx.pol.gatewayId, st.ledgerId)
      case None => Some(AuditCorrupted)
      case Some(log) =>
        var tail := Chain.TailOf(log);
        if (tail.seqNo == st.hwmSeq && tail.hash == st.hwmHash) || (tail.seqNo == st.hwmSeq + 1 && tail.prevHash == st.hwmHash)
        then None else Some(AuditCorrupted)
  }

  class Ledger {
    const ctx: Ctx
    const k: Codecs
    const files: Files
    var cachedGen: nat
    var cachedSize: nat
    var cachedState: Option<State>

    function CacheValue(): Cache
      reads this
    {
      Cache(cachedGen, cachedSize, cachedState)
    }

    /** The cached state is what the cached part of the file replays to. */
    ghost predicate Valid()
      reads this, files
    {
      CacheOk(k.state, ctx.pol.gatewayId, CacheValue(), files.Img())
    }

    /** The cache is exactly the whole file. */
    ghost predicate Cached(st: State)
      reads this, files
    {
      CacheValue() == Cache(files.gen, |files.state|, Some(st))
    }

    constructor (ctx: Ctx, k: Codecs, files: Files)
      ensures this.ctx == ctx && this.k == k && this.files == files && Valid()
    {
      this.ctx, this.k, this.files := ctx, k, files;
      cachedGen, cachedSize, cachedState := 0, 0, None;
    }

    /** withExclusiveLock up to the call of its function: the cached state with
        the unread rest applied, or a full replay.  On every content of the files,
        malformed ones included, the outcome is that of a full replay. */
    method Load() returns (r: Result<State>)
      requires Valid()
      modifies this
      ensures r == LoadThrough(k.state, ctx.pol.gatewayId, old(CacheValue()), files.Img())
      ensures SameResult(r, LoadSpec(k.state, ctx.pol.gatewayId, files.Img()))
      ensures Valid()
      ensures if r.Ok? then Cached(r.value) else CacheValue() == old(CacheValue())
    {
      hide ApplyText, SameMeaning;
      LoadThroughMeans(k.state, ctx.pol.gatewayId, CacheValue(), files.Img());
      if |files.state| == 0 {
        return Err(Uninitialized);
      }
      if |files.state| > MAX_FILE {
        return Err(PayloadTooLarge);
      }
      if |files.audit| == 0 {
        return Err(Uninitialized);
      }
      if |files.audit| > MAX_FILE {
        return Err(PayloadTooLarge);
      }
      if cachedState.Some? && files.gen == cachedGen && |files.state| >= cachedSize {
        if |files.state| > cachedSize {
          r := ApplyStateRecordsBytes(k.state, cachedState.value, files.state[cachedSize..], ctx.pol.gatewayId, false);
          if r.Ok? {
            cachedState := Some(r.value);
            cachedSize := |files.state|;
          }
        } else {
          NothingApplied(k.state, cachedState.value, files.state[cachedSize..], ctx.pol.gatewayId);
          r := Ok(cachedState.value);
        }
      } else {
        r := ApplyStateRecordsBytes(k.state, EMPTY, files.state, ctx.pol.gatewayId, true);
        if r.Ok? {
          cachedGen := files.gen;
          cachedSize := |files.state|;
          cachedState := Some(r.value);
        }
      }
    }

    /** compactLocked: a new file takes the place of state.db. */
    method CompactFile(st: State, now: int) returns (after: State, ghost o: Order)
      modifies this, files
      ensures ValidOrder(st, now, o) && InKeyOrder(o) && after == CompactState(st, now)
      ensures files.Img() == Put(k, old(files.Img()), Swap(CompactRecords(st, ctx.pol.gatewayId, now, o)))
      ensures Cached(after)
    {
      var recs;
      recs, after, o := CompactLocked(st, ctx.pol.gatewayId, now);
      files.gen := files.gen + 1;
      files.state := F.Frame(k.state, recs);
      cachedGen := files.gen;
      cachedSize := |files.state|;
      cachedState := Some(after);
    }

    /** appendAuditAndHWMLocked */
    method AppendAuditAndHwm(st: State, t: Chain.AuditRecord, now: int) returns (after: State, ghost compaction: Option<Order>)
      requires cachedGen == files.gen && cachedSize == |files.state|
      modifies this, files
      ensures compaction.Some? ==> ValidOrder(st, now, compaction.value)
      ensures files.Img() == PutAll(k, old(files.Img()), AuditWrites(ctx, st, t, now, compaction))
      ensures after == AfterAudit(ctx, st, t, now, compaction) && Cached(after)
      ensures compaction.Some? <==> |PutAll(k, old(files.Img()), AuditWrites(ctx, st, t, now, None)).state| > 4194304
    {
      hide NextAudit, CompactRecords, ValidOrder, CompactState;
      var rec := NextAudit(ctx, st, t);
      files.audit := files.audit + k.audit.format(rec) + "\n";
      var hwm := HwmRecord(st.ledgerId, ctx.pol.gatewayId, rec.seqNo, rec.recordHash, now);
      var line := k.state.format(hwm) + "\n";
      files.state := files.state + line;
      after := Marked(ctx, st, t);
      cachedSize := cachedSize + |line|;
      cachedState := Some(after);
      compaction := None;
      PairText(ctx, k, old(files.Img()), st, t, now);
      assert files.Img() == PutAll(k, old(files.Img()), AuditWrites(ctx, st, t, now, None));
      if cachedSize > MAX_BEFORE_COMPACTION {
        ghost var o;
        after, o := CompactFile(after, now);
        MarkedIs(ctx, st, t);
        SameOrder(Marked(ctx, st, t), st, now, o);
        compaction := Some(o);
        SwapText(ctx, k, old(files.Img()), st, t, now, o);
      }
    }

    // ----- the operations -----

    /** How an operation ends, on any content of the files.  On an error nothing was
        written.  Otherwise it saw what a full replay gives, performed exactly its
        writes, compacted exactly when the file had grown past the threshold, and
        remembers the state it ended with; the files have only grown or been replaced. */
    ghost predicate Outcome(done: bool, img: Image, view: State, op: Op, tail: Chain.Tail, now: int, compaction: Option<Order>)
      reads this, files
    {
      if done then
        && Performed(ctx, k, img, files.Img(), view, op, tail, now, compaction)
        && CompactsWhenLarge(ctx, k, img, view, op, tail, now, compaction)
        && Cached(AfterOp(ctx, view, op, tail, now, compaction)) && Grows(img, files.Img())
        && forall d :: KeepsLedger(img, d, view, op, tail, now, compaction)
      else files.Img() == img && Valid()
    }

    /** Files that held a ledger hold the one that the operation's run leaves, if
        every record written is one the parser reads back. */
    ghost predicate KeepsLedger(img: Image, d: Disk, view: State, op: Op, tail: Chain.Tail, now: int, compaction: Option<Order>)
      requires OrderOk(ctx, view, op, tail, now, compaction)
      reads this, files
    {
      CanRun(img, d, op, tail, now) && WritesFit(k, OpWrites(ctx, view, op, tail, now, compaction)) ==>
        && Valid()
        && HoldsLedger(ctx, k, files.Img(), DiskAfter(d, OpTrace(ctx, view, op, tail, now, compaction)))
    }

    /** The files held the ledger d, synced or for OpenLedger as a crash may leave it. */
    ghost predicate CanRun(img: Image, d: Disk, op: Op, tail: Chain.Tail, now: int) {
      && HashesOk(ctx) && F.CodecOk(k.state) && OpOk(ctx, op, now)
      && Represents(k, img, d) && Recoverable(ctx, d) && SodSafe(ctx, View(ctx, d))
      && if op.Open? then tail == Chain.TailOf(d.audit) else Synced(ctx, d)
    }

    lemma Conclude(img: Image, view: State, op: Op, tail: Chain.Tail, now: int, compaction: Option<Order>)
      requires Performed(ctx, k, img, files.Img(), view, op, tail, now, compaction)
      requires CompactsWhenLarge(ctx, k, img, view, op, tail, now, compaction)
      requires Cached(AfterOp(ctx, view, op, tail, now, compaction))
      ensures Outcome(true, img, view, op, tail, now, compaction)
    {
      hide Recoverable, SodSafe, View, OrderOk, LoadSpec, SameMeaning, PutAll, CompactsWhenLarge, OpWrites, AfterOp,
           OpOk, Represents, HoldsLedger, CacheOk, WritesFit, F.CodecOk, Synced;
      PutAllGrows(k, img, OpWrites(ctx, view, op, tail, now, compaction));
      forall d ensures KeepsLedger(img, d, view, op, tail, now, compaction) {
        if CanRun(img, d, op, tail, now) && WritesFit(k, OpWrites(ctx, view, op, tail, now, compaction)) {
          TailOnlyForOpen(ctx, view, op, tail, Chain.TailOf(d.audit), now, compaction);
          PerformedKeepsLedger(ctx, k, img, files.Img(), d, view, op, now, compaction);
        }
      }
    }

    /** The audit half of an operation whose state records have been written. */
    method FinishOp(img: Image, st: State, ghost view: State, ghost op: Op, ghost tail: Chain.Tail, t: Chain.AuditRecord, now: int)
      returns (ghost compaction: Option<Order>)
      requires SameResult(Ok(view), LoadSpec(k.state, ctx.pol.gatewayId, img)) && Audits(view, op, tail)
      requires st == AfterPrelude(ctx, view, op, tail, now) && t == Template(ctx, view, op, now)
      requires files.Img() == img.(state := img.state + F.Frame(k.state, Prelude(ctx, view, op, tail, now)))
      requires cachedGen == files.gen && cachedSize == |files.state|
      modifies this, files
      ensures Outcome(true, img, view, op, tail, now, compaction)
    {
      hide CompactsWhenLarge, AfterPrelude, Template, Prelude, NeedsCatchUp, AuditWrites, AfterAudit, F.Frame,
           LoadSpec, SameMeaning, Outcome, ValidOrder;
      var after;
      after, compaction := AppendAuditAndHwm(st, t, now);
      TwoParts(ctx, k, img, view, op, tail, now, compaction);
      LargeIff(ctx, k, img, view, op, tail, now, compaction);
      Conclude(img, view, op, tail, now, compaction);
    }

    /** AppendAudit */
    method AppendAudit(t: Chain.AuditRecord, now: int)
      returns (r: Result<()>, ghost view: State, ghost compaction: Option<Order>)
      requires Valid()
      modifies this, files
      ensures Failure(r) == Failure(LoadSpec(k.state, ctx.pol.gatewayId, old(files.Img())))
      ensures Outcome(r.Ok?, old(files.Img()), view, Op.AppendAudit(t), NO_TAIL, now, compaction)
    {
      hide Recoverable, SodSafe, View, LoadSpec, SameMeaning, Outcome, CacheOk, F.CodecOk, Synced, Represents;
      view, compaction := EMPTY, None;
      var loaded := Load();
      if loaded.Err? {
        NothingDone(old(files.Img()), view, Op.AppendAudit(t), NO_TAIL, now, compaction);
        return Err(loaded.error), view, compaction;
      }
      view := loaded.value;
      assert files.state + "" == files.state;
      compaction := FinishOp(files.Img(), loaded.value, view, Op.AppendAudit(t), NO_TAIL, t, now);
      return Ok(()), view, compaction;
    }

    lemma NothingDone(img: Image, view: State, op: Op, tail: Chain.Tail, now: int, compaction: Option<Order>)
      requires Valid() && files.Img() == img
      ensures Outcome(false, img, view, op, tail, now, compaction)
    {
    }

    /** RecordChallengeAndAudit; the result says whether the challenge was admitted. */
    method RecordChallenge(principal: string, t: Chain.AuditRecord, now: int)
      returns (r: Result<bool>, ghost view: State, ghost compaction: Option<Order>)
      requires Valid()
      modifies this, files
      ensures Failure(r) == Failure(LoadSpec(k.state, ctx.pol.gatewayId, old(files.Img())))
      ensures Outcome(r.Ok?, old(files.Img()), view, Op.RecordChallenge(principal, t), NO_TAIL, now, compaction)
      ensures r.Ok? ==> r.value == !TooManyChallenges(ctx.pol, view, principal, now)
    {
      hide Recoverable, SodSafe, View, LoadSpec, SameMeaning, Outcome, CacheOk, F.CodecOk, Synced, Represents,
           ChallengesIn;
      view, compaction := EMPTY, None;
      ghost var op := Op.RecordChallenge(principal, t);
      var loaded := Load();
      if loaded.Err? {
        NothingDone(old(files.Img()), view, op, NO_TAIL, now, compaction);
        return Err(loaded.error), view, compaction;
      }
      var st := loaded.value;
      view := st;
      var img := files.Img();
      var recent := CountChallenges(st.challenges, principal, now);
      if ctx.pol.maxChallengesPerMinute > 0 && recent >= ctx.pol.maxChallengesPerMinute {
        assert files.state + "" == files.state;
        compaction := FinishOp(img, st, view, op, NO_TAIL, t.(decision := DENY), now);
        return Ok(false), view, compaction;
      }
      var rec := ChallengeRecord(st.ledgerId, ctx.pol.gatewayId, ChallengeEntry(principal, now, now + 60));
      var line := k.state.format(rec) + "\n";
      files.state := files.state + line;
      st := st.(challenges := st.challenges + [ChallengeEntry(principal, now, now + 60)]);
      cachedSize := cachedSize + |line|;
      FrameOne(k.state, rec);
      compaction := FinishOp(img, st, view, op, NO_TAIL, t, now);
      return Ok(true), view, compaction;
    }

    /** RevokeGrantCLI, from its locked section on. */
    method Revoke(subject: string, ent: string, value: string, t: Chain.AuditRecord, now: int)
      returns (r: Result<()>, ghost view: State, ghost compaction: Option<Order>)
      requires Valid()
      modifies this, files
      ensures Failure(r) == Failure(LoadSpec(k.state, ctx.pol.gatewayId, old(files.Img())))
      ensures Outcome(r.Ok?, old(files.Img()), view, Op.Revoke(subject, ent, value, t), NO_TAIL, now, compaction)
    {
      hide Recoverable, SodSafe, View, LoadSpec, SameMeaning, Outcome, CacheOk, F.CodecOk, Synced, Represents;
      view, compaction := EMPTY, None;
      ghost var op := Op.Revoke(subject, ent, value, t);
      var loaded := Load();
      if loaded.Err? {
        NothingDone(old(files.Img()), view, op, NO_TAIL, now, compaction);
        return Err(loaded.error), view, compaction;
      }
      var st := loaded.value;
      view := st;
      var img := files.Img();
      var rec := RevokeRecord(st.ledgerId, ctx.pol.gatewayId, subject, ent, value, now);
      var line := k.state.format(rec) + "\n";
      files.state := files.state + line;
      if subject in st.grants {
        st := RemoveGrant(st, subject, ent);
      }
      cachedSize := cachedSize + |line|;
      cachedState := Some(st);
      FrameOne(k.state, rec);
      compaction := FinishOp(img, st, view, op, NO_TAIL, t, now);
      return Ok(()), view, compaction;
    }

    /** The checks of CommitWriteAndPreForwardAudit under the lock. */
    method Check(st: State, req: Request, now: int) returns (decision: Decision)
      ensures decision == Decide(ctx.pol, st, req, now)
    {
      if req.approval.Some? {
        var jti := req.approval.value.jti;
        if jti in st.replays && st.replays[jti].expiresAt >= now {
          return DenyReplayed;
        }
      }
      if |req.subjects| > 0 && |req.ents| > 0 {
        var bad := Sod.CheckSoDRules(ctx.pol.rules, ctx.pol.statics, req.subjects, req.ents, st.grants);
        if bad {
          return DenySod;
        }
      }
      var calls, targets := CountBudgets(st.budgets, req.principal, now, Window(ctx.pol));
      if (ctx.pol.maxCallsPerMinute > 0 && calls + 1 > ctx.pol.maxCallsPerMinute)
         || (ctx.pol.maxTargetsPerWindow > 0 && targets + req.targets > ctx.pol.maxTargetsPerWindow) {
        return DenyBudget;
      }
      return Allow;
    }

    /** CommitWriteAndPreForwardAudit */
    method Commit(req: Request, t: Chain.AuditRecord, now: int)
      returns (r: Result<Decision>, ghost view: State, ghost compaction: Option<Order>)
      requires Valid()
      modifies this, files
      ensures Failure(r) == Failure(LoadSpec(k.state, ctx.pol.gatewayId, old(files.Img())))
      ensures Outcome(r.Ok?, old(files.Img()), view, Op.Commit(req, t), NO_TAIL, now, compaction)
      ensures r.Ok? ==> r.value == Decide(ctx.pol, view, req, now)
    {
      hide Recoverable, SodSafe, View, LoadSpec, SameMeaning, Outcome, CacheOk, F.CodecOk, Synced, Represents,
           Decide, CommitState, CommitRecords, OpOk, F.Frame;
      view, compaction := EMPTY, None;
      ghost var op := Op.Commit(req, t);
      var loaded := Load();
      if loaded.Err? {
        NothingDone(old(files.Img()), view, op, NO_TAIL, now, compaction);
        return Err(loaded.error), view, compaction;
      }
      var st := loaded.value;
      view := st;
      var img := files.Img();
      var decision := Check(st, req, now);
      if decision != Allow {
        NothingFramed(k.state);
        assert files.state + "" == files.state;
        compaction := FinishOp(img, st, view, op, NO_TAIL, t.(decision := DENY), now);
        return Ok(decision), view, compaction;
      }
      var buf := CommitLines(k.state, ctx.pol, st.ledgerId, req, now);
      files.state := files.state + buf;
      st := UpdateForCommit(ctx.pol, st, req, now);
      cachedSize := cachedSize + |buf|;
      cachedState := Some(st);
      compaction := FinishOp(img, st, view, op, NO_TAIL, t, now);
      return Ok(Allow), view, compaction;
    }

    /** ForceCompact */
    method ForceCompact(now: int)
      returns (r: Result<()>, ghost view: State, ghost compaction: Option<Order>)
      requires Valid()
      modifies this, files
      ensures Failure(r) == Failure(LoadSpec(k.state, ctx.pol.gatewayId, old(files.Img())))
      ensures Outcome(r.Ok?, old(files.Img()), view, Op.Compact, NO_TAIL, now, compaction)
    {
      hide Recoverable, SodSafe, View, LoadSpec, SameMeaning, Outcome, CacheOk, F.CodecOk, Synced, Represents,
           CompactRecords, CompactState, ValidOrder;
      view, compaction := EMPTY, None;
      var loaded := Load();
      if loaded.Err? {
        NothingDone(old(files.Img()), view, Op.Compact, NO_TAIL, now, compaction);
        return Err(loaded.error), view, compaction;
      }
      view := loaded.value;
      var img := files.Img();
      var after;
      ghost var o;
      after, o := CompactFile(loaded.value, now);
      compaction := Some(o);
      PutOne(k, img, Swap(CompactRecords(view, ctx.pol.gatewayId, now, o)));
      Conclude(img, view, Op.Compact, NO_TAIL, now, compaction);
      return Ok(()), view, compaction;
    }

    /** verifyStartupAndRecoverHWM, the second half of OpenLedger, on any content of
        the files: it succeeds exactly on those that StartupAccepts, and writes
        the missing mark exactly when the log is one record ahead. */
    method Recover(t: Chain.AuditRecord, now: int)
      returns (r: Result<()>, ghost view: State, ghost compaction: Option<Order>)
      requires Valid()
      modifies this, files
      ensures Failure(r) == StartupFailure(ctx, k, old(files.Img()))
      ensures Outcome(r.Ok?, old(files.Img()), view, Op.Open(t), FileTail(ctx, k, old(files.Img())), now, compaction)
    {
      hide LoadSpec, SameMeaning, Outcome, CacheOk, NeedsCatchUp, Chain.TailOf, A.ChainOf;
      view, compaction := EMPTY, None;
      ghost var op := Op.Open(t);
      var img := files.Img();
      ghost var tail0 := FileTail(ctx, k, img);
      var loaded := Load();
      if loaded.Err? {
        NothingDone(img, view, op, tail0, now, compaction);
        return Err(loaded.error), view, compaction;
      }
      var st := loaded.value;
      view := st;
      LoadedMark(st, LoadSpec(k.state, ctx.pol.gatewayId, img));
      var ok, tail := A.VerifyAuditChainFile(k.audit, ctx.h, files.audit, ctx.pol.gatewayId, st.ledgerId);
      if !ok {
        NothingDone(img, view, op, tail0, now, compaction);
        return Err(AuditCorrupted), view, compaction;
      }
      if tail.seqNo == st.hwmSeq && tail.hash == st.hwmHash {
        UpToDate(view, tail);
        NothingPerformed(ctx, k, img, view, op, tail, now);
        Conclude(img, view, op, tail, now, compaction);
        return Ok(()), view, compaction;
      }
      if !(tail.seqNo == st.hwmSeq + 1 && tail.prevHash == st.hwmHash) {
        NothingDone(img, view, op, tail0, now, compaction);
        return Err(AuditCorrupted), view, compaction;
      }
      IsBehind(view, tail);
      var rec := HwmRecord(st.ledgerId, ctx.pol.gatewayId, tail.seqNo, tail.hash, now);
      var line := k.state.format(rec) + "\n";
      files.state := files.state + line;
      st := st.(hwmSeq := tail.seqNo, hwmHash := tail.hash);
      cachedSize := cachedSize + |line|;
      cachedState := Some(st);
      FrameOne(k.state, rec);
      compaction := FinishOp(img, st, view, op, tail, t, now);
      return Ok(()), view, compaction;
    }
  }

  lemma PairText(ctx: Ctx, k: Codecs, img: Image, st: State, t: Chain.AuditRecord, now: int)
    ensures var rec := NextAudit(ctx, st, t);
            var hwm := HwmRecord(st.ledgerId, ctx.pol.gatewayId, rec.seqNo, rec.recordHash, now);
            PutAll(k, img, AuditWrites(ctx, st, t, now, None))
            == Image(img.gen, img.state + (k.state.format(hwm) + "\n"), img.audit + k.audit.format(rec) + "\n")
  {
    hide NextAudit;
    var ws := AuditWrites(ctx, st, t, now, None);
    assert ws == [ws[0]] + [ws[1]];
    PutAllConcat(k, img, [ws[0]], [ws[1]]);
    PutOne(k, img, ws[0]);
    PutOne(k, Put(k, img, ws[0]), ws[1]);
    var rec := NextAudit(ctx, st, t);
    var hwm := HwmRecord(st.ledgerId, ctx.pol.gatewayId, rec.seqNo, rec.recordHash, now);
    assert img.state + k.state.format(hwm) + "\n" == img.state + (k.state.format(hwm) + "\n");
  }

  lemma SwapText(ctx: Ctx, k: Codecs, img: Image, st: State, t: Chain.AuditRecord, now: int, o: Order)
    requires ValidOrder(st, now, o) && ValidOrder(Marked(ctx, st, t), now, o)
    ensures PutAll(k, img, AuditWrites(ctx, st, t, now, Some(o)))
         == Put(k, PutAll(k, img, AuditWrites(ctx, st, t, now, None)), Swap(CompactRecords(Marked(ctx, st, t), ctx.pol.gatewayId, now, o)))
  {
    hide NextAudit, CompactRecords, ValidOrder, Marked;
    var pair := AuditWrites(ctx, st, t, now, None);
    var w := Swap(CompactRecords(Marked(ctx, st, t), ctx.pol.gatewayId, now, o));
    assert AuditWrites(ctx, st, t, now, Some(o)) == pair + [w];
    PutAllConcat(k, img, pair, [w]);
    PutOne(k, PutAll(k, img, pair), w);
  }

  lemma LargeIff(ctx: Ctx, k: Codecs, img: Image, view: State, op: Op, tail: Chain.Tail, now: int, compaction: Option<Order>)
    requires OrderOk(ctx, view, op, tail, now, compaction) && Audits(view, op, tail)
    requires var mid := img.(state := img.state + F.Frame(k.state, Prelude(ctx, view, op, tail, now)));
             var ws := AuditWrites(ctx, AfterPrelude(ctx, view, op, tail, now), Template(ctx, view, op, now), now, None);
             compaction.Some? <==> |PutAll(k, mid, ws).state| > 4194304
    ensures CompactsWhenLarge(ctx, k, img, view, op, tail, now, compaction)
  {
    hide AuditWrites, AfterPrelude, Template, Prelude, NeedsCatchUp, F.Frame, ValidOrder;
    TwoParts(ctx, k, img, view, op, tail, now, None);
  }

  lemma NothingApplied(c: StateCodec, st: State, rest: string, gw: string)
    requires rest == ""
    ensures ApplyText(c, st, rest, gw, false) == Ok(st)
  {
  }

  lemma NothingFramed(c: StateCodec)
    ensures F.Frame(c, []) == ""
  {
  }

  // ----- what startup finds -----

  /** Files that hold a recoverable ledger load, up to the size limit. */
  lemma WillLoad(ctx: Ctx, k: Codecs, img: Image, d: Disk)
    requires F.CodecOk(k.state) && Represents(k, img, d) && Recoverable(ctx, d)
    ensures LoadSpec(k.state, ctx.pol.gatewayId, img)
         == if |img.state| <= MAX_FILE && |img.audit| <= MAX_FILE then Ok(View(ctx, d)) else Err(PayloadTooLarge)
  {
    hide ReplayAll, Chain.ValidChain, ApplyText;
    RepresentedReplays(ctx, k, img, d);
    FramedNotEmpty(k.audit, d.audit);
    StateNotEmpty(ctx, d);
    FramedNotEmpty(k.state, d.state);
  }

  lemma FramedNotEmpty<R>(c: F.Codec<R>, recs: seq<R>)
    requires recs != []
    ensures F.Frame(c, recs) != ""
  {
  }

  lemma StateNotEmpty(ctx: Ctx, d: Disk)
    requires ReplayAll(d.state, ctx.pol.gatewayId).Ok?
    ensures d.state != []
  {
  }

  /** Main result: startup refuses nothing that a crash may have left, unless a file
      has outgrown the size limit. */
  lemma CrashedFilesAreAccepted(ctx: Ctx, k: Codecs, img: Image, d: Disk)
    requires F.CodecOk(k.state) && F.CodecOk(k.audit) && Represents(k, img, d) && Recoverable(ctx, d)
    ensures var fits := |img.state| <= MAX_FILE && |img.audit| <= MAX_FILE;
            StartupFailure(ctx, k, img) == (if fits then None else Some(PayloadTooLarge))
            && (fits ==> FileTail(ctx, k, img) == Chain.TailOf(d.audit))
  {
    hide ReplayAll, Chain.ValidChain, A.ChainOf, LoadSpec, Chain.TailOf;
    WillLoad(ctx, k, img, d);
    A.FramedChain(k.audit, ctx.h, d.audit, ctx.pol.gatewayId, View(ctx, d).ledgerId);
  }

  lemma LoadedMark(st: State, spec: Result<State>)
    requires SameResult(Ok(st), spec)
    ensures spec.Ok? && st.ledgerId == spec.value.ledgerId
    ensures st.hwmSeq == spec.value.hwmSeq && st.hwmHash == spec.value.hwmHash
  {
  }

  lemma IsBehind(view: State, tail: Chain.Tail)
    requires tail.seqNo == view.hwmSeq + 1 && tail.prevHash == view.hwmHash
    ensures NeedsCatchUp(view, tail)
  {
  }

  lemma UpToDate(view: State, tail: Chain.Tail)
    requires tail.seqNo == view.hwmSeq && tail.hash == view.hwmHash
    ensures !NeedsCatchUp(view, tail)
  {
  }

  lemma NothingPerformed(ctx: Ctx, k: Codecs, img: Image, view: State, op: Op, tail: Chain.Tail, now: int)
    requires op.Open? && !Audits(view, op, tail)
    ensures OrderOk(ctx, view, op, tail, now, None) && PutAll(k, img, OpWrites(ctx, view, op, tail, now, None)) == img
    ensures CompactsWhenLarge(ctx, k, img, view, op, tail, now, None)
    ensures AfterOp(ctx, view, op, tail, now, None) == view
  {
  }
}
