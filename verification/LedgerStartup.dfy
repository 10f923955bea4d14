/** Exactly which files startup accepts, and that no other log passes under the same marks. */
module LedgerStartup {
  import opened LedgerState
  import opened LedgerOps
  import opened LedgerTrace
  import opened StateFile
  import opened LedgerFiles
  import opened LedgerProcess
  import A = AuditFile
  import Chain = AuditChain
  import F = Framing

  // ----- acceptance -----

  /** An audit file that verifies is the framing of its log. */
  lemma VerifiedIsFramed(ctx: Ctx, k: Codecs, img: Image, id: string)
    requires F.CodecOk(k.audit) && A.ChainOf(k.audit, ctx.h, img.audit, ctx.pol.gatewayId, id).Some?
    ensures var log := A.ChainOf(k.audit, ctx.h, img.audit, ctx.pol.gatewayId, id).value;
            && log != [] && F.AllFit(k.audit, log) && img.audit == F.Frame(k.audit, log)
            && Chain.ValidChain(ctx.h, log, ctx.pol.gatewayId, id)
  {
    hide Chain.ValidChain;
    F.FrameUnframe(k.audit, img.audit);
  }

  /** The disk that accepted files hold. */
  lemma AcceptedIsRecoverable(ctx: Ctx, k: Codecs, img: Image) returns (d: Disk)
    requires F.CodecOk(k.state) && F.CodecOk(k.audit) && StartupFailure(ctx, k, img) == None
    ensures Represents(k, img, d) && Recoverable(ctx, d)
    ensures |img.state| <= 67108864 && |img.audit| <= 67108864
  {
    hide ApplyText, ReplayAll, Chain.ValidChain, A.ChainOf;
    var st := LoadSpec(k.state, ctx.pol.gatewayId, img).value;
    var recs := AcceptedIsFramed(k.state, img.state, ctx.pol.gatewayId);
    VerifiedIsFramed(ctx, k, img, st.ledgerId);
    d := Disk(recs, A.ChainOf(k.audit, ctx.h, img.audit, ctx.pol.gatewayId, st.ledgerId).value);
  }

  /** Main result: startup accepts exactly the files that hold a ledger which is synced or
      one record ahead of its mark, within 64 MiB each; it refuses everything else. */
  lemma StartupAcceptsIff(ctx: Ctx, k: Codecs, img: Image)
    requires F.CodecOk(k.state) && F.CodecOk(k.audit)
    ensures StartupFailure(ctx, k, img) == None <==>
            (exists d :: Represents(k, img, d) && Recoverable(ctx, d)) && |img.state| <= 67108864 && |img.audit| <= 67108864
  {
    hide StartupFailure, FileTail, Represents, Recoverable, F.CodecOk;
    if StartupFailure(ctx, k, img) == None {
      var d := AcceptedIsRecoverable(ctx, k, img);
    }
    if d :| Represents(k, img, d) && Recoverable(ctx, d) {
      CrashedFilesAreAccepted(ctx, k, img, d);
    }
  }

  // ----- what the mark says of the log -----

  /** The records up to the mark: their number is the mark's and so is their last hash. */
  lemma MarkedPart(ctx: Ctx, d: Disk)
    requires Recoverable(ctx, d)
    ensures ReplayAll(d.state, ctx.pol.gatewayId).Ok?
    ensures var n := View(ctx, d).hwmSeq;
            && 0 < n <= |d.audit| <= n + 1 && d.audit[n - 1].recordHash == View(ctx, d).hwmHash
            && Chain.ValidChain(ctx.h, d.audit[..n], ctx.pol.gatewayId, View(ctx, d).ledgerId)
  {
    hide ReplayAll, Chain.ValidChain, Chain.LineOk;
    var st, gw := View(ctx, d), ctx.pol.gatewayId;
    ReplayGives(ctx, d);
    Chain.TailSeqIsLength(ctx.h, d.audit, gw, st.ledgerId);
    Chain.ValidPrefix(ctx.h, d.audit, st.hwmSeq, gw, st.ledgerId);
    if |d.audit| > st.hwmSeq {
      LastLink(ctx, d.audit, gw, st.ledgerId);
    }
  }

  lemma LastLink(ctx: Ctx, log: seq<Chain.AuditRecord>, gw: string, id: string)
    requires |log| > 1 && Chain.ValidChain(ctx.h, log, gw, id)
    ensures Chain.TailOf(log).prevHash == log[|log| - 2].recordHash
  {
    Chain.ValidAt(ctx.h, log, |log| - 1, gw, id);
  }

  /** The files a and b hold the logs x and y, which agree on the first n records. */
  ghost predicate Agree(ctx: Ctx, k: Codecs, a: Image, b: Image, x: seq<Chain.AuditRecord>, y: seq<Chain.AuditRecord>, n: nat) {
    && a.audit == F.Frame(k.audit, x) && b.audit == F.Frame(k.audit, y)
    && n <= |x| <= n + 1 && n <= |y| <= n + 1
    && (Chain.SameLog(x[..n], y[..n]) || Chain.Collision(ctx.h, x[..n], y[..n]))
  }

  /** Main result: two audit logs that startup accepts beside the same state.db hold the
      same records up to its mark, and at most one more, or exhibit a hash collision: a
      rewritten log is refused. */
  lemma AcceptedLogsAgree(ctx: Ctx, k: Codecs, a: Image, b: Image)
    requires F.CodecOk(k.state) && F.CodecOk(k.audit) && a.state == b.state
    requires StartupFailure(ctx, k, a) == None && StartupFailure(ctx, k, b) == None
    ensures LoadSpec(k.state, ctx.pol.gatewayId, a).Ok?
    ensures var n := LoadSpec(k.state, ctx.pol.gatewayId, a).value.hwmSeq;
            exists x, y :: Agree(ctx, k, a, b, x, y, n)
  {
    hide StartupFailure, Recoverable, F.CodecOk, ReplayAll, Chain.ValidChain, Chain.SameLog, Chain.Collision, F.AllFit, F.Frame,
         LoadSpec;
    AcceptedLoads(ctx, k, a);
    var d := AcceptedIsRecoverable(ctx, k, a);
    var e := AcceptedIsRecoverable(ctx, k, b);
    RepresentedReplays(ctx, k, a, d);
    RepresentedReplays(ctx, k, b, e);
    MarkedPart(ctx, d);
    MarkedPart(ctx, e);
    var n := View(ctx, d).hwmSeq;
    var x, y := d.audit[..n], e.audit[..n];
    LastOf(x);
    LastOf(y);
    Chain.SameTailSameLog(ctx.h, x, y, ctx.pol.gatewayId, View(ctx, d).ledgerId);
    ViewLoads(ctx, k, a, d);
    assert Agree(ctx, k, a, b, d.audit, e.audit, n);
  }

  lemma AcceptedLoads(ctx: Ctx, k: Codecs, img: Image)
    requires StartupFailure(ctx, k, img) == None
    ensures LoadSpec(k.state, ctx.pol.gatewayId, img).Ok?
  {
  }

  lemma ViewLoads(ctx: Ctx, k: Codecs, img: Image, d: Disk)
    requires F.CodecOk(k.state) && Represents(k, img, d) && Recoverable(ctx, d) && LoadSpec(k.state, ctx.pol.gatewayId, img).Ok?
    ensures LoadSpec(k.state, ctx.pol.gatewayId, img) == Ok(View(ctx, d))
  {
    hide ReplayAll, Chain.ValidChain, ApplyText;
    WillLoad(ctx, k, img, d);
  }

  lemma LastOf(log: seq<Chain.AuditRecord>)
    requires log != []
    ensures Chain.TailOf(log).hash == log[|log| - 1].recordHash
  {
  }
}
