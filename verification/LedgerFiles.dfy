/** Durable writes on the text of the two files. */
module LedgerFiles {
  import opened LedgerState
  import opened LedgerOps
  import opened Compaction
  import opened LedgerTrace
  import opened LedgerSafety
  import opened LedgerRuns
  import opened StateFile
  import A = AuditFile
  import Chain = AuditChain
  import F = Framing

  datatype Codecs = Codecs(state: StateCodec, audit: A.AuditCodec)

  /** A rename puts a new file behind the path. */
  function Put(k: Codecs, img: Image, w: Write): Image {
    match w
    case PutState(rec) => img.(state := img.state + k.state.format(rec) + "\n")
    case PutAudit(r) => img.(audit := img.audit + k.audit.format(r) + "\n")
    case Swap(recs) => img.(gen := img.gen + 1, state := F.Frame(k.state, recs))
  }

  function PutAll(k: Codecs, img: Image, ws: seq<Write>): Image {
    if ws == [] then img else Put(k, PutAll(k, img, ws[..|ws| - 1]), ws[|ws| - 1])
  }

  lemma {:induction false} PutAllConcat(k: Codecs, img: Image, a: seq<Write>, b: seq<Write>)
    ensures PutAll(k, img, a + b) == PutAll(k, PutAll(k, img, a), b)
    decreases |b|
  {
    if b == [] {
      assert a + b == a;
    } else {
      var n := |b| - 1;
      assert (a + b)[..|a| + n] == a + b[..n];
      PutAllConcat(k, img, a, b[..n]);
    }
  }

  lemma PutOne(k: Codecs, img: Image, w: Write)
    ensures PutAll(k, img, [w]) == Put(k, img, w)
  {
    assert [w][..0] == [];
  }

  /** Appending records one by one is appending their lines. */
  lemma {:induction false} PutStatesText(k: Codecs, img: Image, recs: seq<StateRecord>)
    ensures PutAll(k, img, PutStates(recs)) == img.(state := img.state + F.Frame(k.state, recs))
    decreases |recs|
  {
    if recs == [] {
      assert img.state + "" == img.state;
    } else {
      var n := |recs| - 1;
      PutStatesText(k, img, recs[..n]);
      assert PutStates(recs)[..n] == PutStates(recs[..n]);
      var init, line := F.Frame(k.state, recs[..n]), k.state.format(recs[n]);
      assert (img.state + init) + line + "\n" == img.state + (init + line + "\n");
    }
  }

  // ----- the files as records -----

  ghost predicate WriteFits(k: Codecs, w: Write) {
    match w
    case PutState(rec) => k.state.fits(rec)
    case PutAudit(r) => k.audit.fits(r)
    case Swap(recs) => F.AllFit(k.state, recs)
  }

  ghost predicate WritesFit(k: Codecs, ws: seq<Write>) {
    forall i | 0 <= i < |ws| :: WriteFits(k, ws[i])
  }

  /** The files hold exactly the records of d. */
  ghost predicate Represents(k: Codecs, img: Image, d: Disk) {
    && img.state == F.Frame(k.state, d.state) && img.audit == F.Frame(k.audit, d.audit)
    && F.AllFit(k.state, d.state) && F.AllFit(k.audit, d.audit)
  }

  lemma RepresentsPut(k: Codecs, img: Image, d: Disk, w: Write)
    requires Represents(k, img, d) && WriteFits(k, w)
    ensures Represents(k, Put(k, img, w), Perform(d, w)) && Grows(img, Put(k, img, w))
  {
    match w
    case PutState(rec) => assert (d.state + [rec])[..|d.state|] == d.state;
    case PutAudit(r) => assert (d.audit + [r])[..|d.audit|] == d.audit;
    case Swap(recs) =>
  }

  lemma GrowsOn(a: Image, b: Image, c: Image)
    requires Grows(a, b) && Grows(b, c)
    ensures Grows(a, c)
  {
  }

  /** Whatever is written, the files only grow or are replaced. */
  lemma {:induction false} PutAllGrows(k: Codecs, img: Image, ws: seq<Write>)
    ensures Grows(img, PutAll(k, img, ws))
  {
    if ws == [] {
      GrowsNothing(img);
    } else {
      PutAllGrows(k, img, ws[..|ws| - 1]);
    }
  }

  /** Writing to the files is writing to the records they hold. */
  lemma {:induction false} RepresentsAll(k: Codecs, img: Image, d: Disk, ws: seq<Write>, now: int)
    requires Represents(k, img, d) && WritesFit(k, ws)
    ensures Represents(k, PutAll(k, img, ws), DiskAfter(d, Stamped(ws, now)))
    ensures Grows(img, PutAll(k, img, ws))
    decreases |ws|
  {
    hide Represents, Put, Grows, WriteFits, Perform;
    if ws == [] {
      GrowsNothing(img);
    } else {
      var n := |ws| - 1;
      RepresentsAll(k, img, d, ws[..n], now);
      var mid := PutAll(k, img, ws[..n]);
      assert Stamped(ws, now)[..n] == Stamped(ws[..n], now);
      RepresentsPut(k, mid, DiskAfter(d, Stamped(ws[..n], now)), ws[n]);
      GrowsOn(img, mid, PutAll(k, img, ws));
    }
  }

  lemma GrowsNothing(img: Image)
    ensures Grows(img, img)
  {
  }

  /** Main result: after an operation's writes the files hold the records of its
      run, and the state the process kept in memory is what they replay to. */
  lemma OpKeepsFiles(ctx: Ctx, k: Codecs, img: Image, d: Disk, view: State, op: Op, now: int, compaction: Option<Order>)
    requires HashesOk(ctx) && F.CodecOk(k.state) && Represents(k, img, d)
    requires CanStart(ctx, d, view, op) && SodSafe(ctx, View(ctx, d)) && OpOk(ctx, op, now)
    requires OrderOk(ctx, view, op, Chain.TailOf(d.audit), now, compaction)
    requires WritesFit(k, OpWrites(ctx, view, op, Chain.TailOf(d.audit), now, compaction))
    ensures var tail := Chain.TailOf(d.audit);
            var img' := PutAll(k, img, OpWrites(ctx, view, op, tail, now, compaction));
            var d' := DiskAfter(d, OpTrace(ctx, view, op, tail, now, compaction));
            && Represents(k, img', d') && Synced(ctx, d') && SodSafe(ctx, View(ctx, d')) && Grows(img, img')
            && CacheOk(k.state, ctx.pol.gatewayId,
               Cache(img'.gen, |img'.state|, Some(AfterOp(ctx, view, op, tail, now, compaction))), img')
  {
    hide ReplayAll, Chain.ValidChain, Chain.TailOf, SodSafe, Run, DiskAfter, Stamped, SameMeaning, OpWrites, OpOk,
         OrderOk, AfterOp, WritesFit, PutAll, ApplyText, F.CodecOk;
    var tail := Chain.TailOf(d.audit);
    var ws := OpWrites(ctx, view, op, tail, now, compaction);
    var d' := DiskAfter(d, OpTrace(ctx, view, op, tail, now, compaction));
    var img' := PutAll(k, img, ws);
    OpIsRun(ctx, d, view, op, now, compaction);
    var all := OpTrace(ctx, view, op, tail, now, compaction);
    assert all[..|all|] == all;
    CrashedOpRecovers(ctx, d, view, op, now, compaction, |all|);
    RepresentsAll(k, img, d, ws, now);
    RepresentedReplays(ctx, k, img', d');
    assert img'.state[..|img'.state|] == img'.state;
  }

  /** Replaying the files is replaying the records. */
  lemma RepresentedReplays(ctx: Ctx, k: Codecs, img: Image, d: Disk)
    requires F.CodecOk(k.state) && Represents(k, img, d)
    ensures ApplyText(k.state, EMPTY, img.state, ctx.pol.gatewayId, true) == ReplayAll(d.state, ctx.pol.gatewayId)
  {
    FramedReplays(k.state, EMPTY, d.state, ctx.pol.gatewayId, true);
  }

  const MAX_BEFORE_COMPACTION: nat := 4194304

  /** state.db has grown past the threshold when the operation's own records are in. */
  ghost predicate CompactsWhenLarge(ctx: Ctx, k: Codecs, img: Image, view: State, op: Op, tail: Chain.Tail, now: int,
                                    compaction: Option<Order>) {
    if op.Compact? then compaction.Some?
    else if !Audits(view, op, tail) then compaction.None?
    else compaction.Some? <==> |PutAll(k, img, OpWrites(ctx, view, op, tail, now, None)).state| > 4194304
  }

  /** What a completed operation did: it saw what a full replay of the files gives,
      and performed exactly its writes. */
  ghost predicate Performed(ctx: Ctx, k: Codecs, img: Image, img': Image, view: State, op: Op, tail: Chain.Tail, now: int,
                            compaction: Option<Order>) {
    && SameResult(Ok(view), LoadSpec(k.state, ctx.pol.gatewayId, img))
    && OrderOk(ctx, view, op, tail, now, compaction)
    && img' == PutAll(k, img, OpWrites(ctx, view, op, tail, now, compaction))
  }

  /** The same for an operation in two parts: its state records, then its audit record. */
  lemma TwoParts(ctx: Ctx, k: Codecs, img: Image, view: State, op: Op, tail: Chain.Tail, now: int, compaction: Option<Order>)
    requires OrderOk(ctx, view, op, tail, now, compaction) && Audits(view, op, tail)
    ensures var mid := img.(state := img.state + F.Frame(k.state, Prelude(ctx, view, op, tail, now)));
            PutAll(k, img, OpWrites(ctx, view, op, tail, now, compaction))
            == PutAll(k, mid, AuditWrites(ctx, AfterPrelude(ctx, view, op, tail, now), Template(ctx, view, op, now), now, compaction))
  {
    hide AuditWrites, Prelude, AfterPrelude, Template, PutStates, F.Frame, ValidOrder, NeedsCatchUp;
    var recs := Prelude(ctx, view, op, tail, now);
    var st, t := AfterPrelude(ctx, view, op, tail, now), Template(ctx, view, op, now);
    PutAllConcat(k, img, PutStates(recs), AuditWrites(ctx, st, t, now, compaction));
    PutStatesText(k, img, recs);
  }

  /** The files hold the records of a ledger that is synced and obeys the rules. */
  ghost predicate HoldsLedger(ctx: Ctx, k: Codecs, img: Image, d: Disk) {
    Represents(k, img, d) && Synced(ctx, d) && SodSafe(ctx, View(ctx, d))
  }

  /** An operation that performed its writes leaves files that hold the ledger its run leaves. */
  lemma PerformedKeepsLedger(ctx: Ctx, k: Codecs, img: Image, img': Image, d: Disk, view: State, op: Op, now: int,
                             compaction: Option<Order>)
    requires HashesOk(ctx) && F.CodecOk(k.state) && Represents(k, img, d) && Recoverable(ctx, d) && SodSafe(ctx, View(ctx, d))
    requires op.Open? || Synced(ctx, d)
    requires OpOk(ctx, op, now) && Performed(ctx, k, img, img', view, op, Chain.TailOf(d.audit), now, compaction)
    requires WritesFit(k, OpWrites(ctx, view, op, Chain.TailOf(d.audit), now, compaction))
    ensures HoldsLedger(ctx, k, img', DiskAfter(d, OpTrace(ctx, view, op, Chain.TailOf(d.audit), now, compaction)))
    ensures Grows(img, img')
    ensures CacheOk(k.state, ctx.pol.gatewayId,
                    Cache(img'.gen, |img'.state|, Some(AfterOp(ctx, view, op, Chain.TailOf(d.audit), now, compaction))), img')
  {
    hide ReplayAll, Chain.ValidChain, Chain.TailOf, SodSafe, DiskAfter, SameMeaning, OpWrites, OpOk, OrderOk,
         AfterOp, WritesFit, PutAll, ApplyText, F.CodecOk, OpTrace, Represents, CacheOk;
    RepresentedReplays(ctx, k, img, d);
    OpKeepsFiles(ctx, k, img, d, view, op, now, compaction);
  }
}
