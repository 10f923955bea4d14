/** Which step-up tokens are accepted, spelled out on the token, the policy and the
    call (VerifyApprovalToken in internal/authz/stepup.go). */
module ApprovalRules {
  import opened StepUp
  import J = Json
  import L = LedgerOps

  /** White space as strings.TrimSpace knows it. */
  predicate White(c: char) {
    c as int in {9, 10, 11, 12, 13, 0x20, 0x85, 0xA0, 0x1680, 0x2000, 0x2001, 0x2002, 0x2003, 0x2004, 0x2005, 0x2006,
                 0x2007, 0x2008, 0x2009, 0x200A, 0x2028, 0x2029, 0x202F, 0x205F, 0x3000}
  }

  predicate AllWhite(s: string) {
    forall i | 0 <= i < |s| :: White(s[i])
  }

  /** How names are compared: the outer white space falls away, and of what is left
      only the upper-case ASCII letters change, to their lower-case ones. */
  lemma CanonIs(before: string, name: string, after: string)
    requires AllWhite(before) && AllWhite(after)
    requires name != "" ==> !White(name[0]) && !White(name[|name| - 1])
    ensures |Canon(before + name + after)| == |name|
    ensures forall i :: 0 <= i < |name| ==>
              Canon(before + name + after)[i] == if 'A' <= name[i] <= 'Z' then (name[i] as int + 32) as char else name[i]
  {
    LeftGone(before, name + after);
    assert before + name + after == before + (name + after);
    if name == "" {
      LeftGone(after, "");
      assert name + after == after && after + "" == after;
    } else {
      assert (name + after)[0] == name[0];
      RightGone(name, after);
    }
  }

  lemma {:induction false} LeftGone(white: string, s: string)
    requires AllWhite(white)
    ensures J.TrimLeft(white + s) == J.TrimLeft(s)
  {
    if white == "" {
      assert white + s == s;
    } else {
      assert (white + s)[1..] == white[1..] + s;
      LeftGone(white[1..], s);
    }
  }

  lemma {:induction false} RightGone(s: string, white: string)
    requires AllWhite(white)
    ensures J.TrimRight(s + white) == J.TrimRight(s)
  {
    if white == "" {
      assert s + white == s;
    } else {
      var k := |white| - 1;
      assert (s + white)[..|s + white| - 1] == s + white[..k];
      RightGone(s, white[..k]);
    }
  }

  /** Main result: exactly which tokens an approver's registration k makes
      acceptable, without a helper of the check. */
  lemma ApprovesIff(cfg: Config, tok: Token, k: string, ledgerId: string, digest: string, p: Principal, now: int)
    ensures Approves(cfg, tok, k, ledgerId, digest, p, now) <==>
            && k in cfg.approvers && Canon(tok.claims.approverSub) != ""
            && (k == tok.claims.approverSub
                || (tok.claims.approverSub !in cfg.approvers && Canon(tok.claims.approverSub) == J.Lower(k)))
            && cfg.verifies(cfg.approvers[k].key, tok.message, tok.signature)
            && tok.claims.version == "mcp-authz-approval/v1"
            && 32 <= |tok.claims.jti| <= 64
            && (forall i :: 0 <= i < |tok.claims.jti| ==> '0' <= tok.claims.jti[i] <= '9' || 'a' <= tok.claims.jti[i] <= 'f')
            && tok.claims.gatewayId == cfg.pol.gatewayId && tok.claims.ledgerId == ledgerId
            && tok.claims.intentDigest == digest && cfg.ticketOk(tok.claims.ticketId)
            && (cfg.requireTty ==> tok.claims.interactive)
            && 0 < tok.claims.issuedAt < tok.claims.expiresAt
            && tok.claims.expiresAt - tok.claims.issuedAt
               <= (if cfg.pol.maxApprovalTtlSeconds > 0 then cfg.pol.maxApprovalTtlSeconds else 300)
            && tok.claims.issuedAt - (if cfg.pol.maxClockSkewSeconds > 0 then cfg.pol.maxClockSkewSeconds else 30) <= now
            && now <= tok.claims.expiresAt + (if cfg.pol.maxClockSkewSeconds > 0 then cfg.pol.maxClockSkewSeconds else 30)
            && forall mine, theirs ::
                 (mine == k || mine in cfg.approvers[k].principalIds || mine in cfg.approvers[k].emails)
                 && (theirs == p.id || theirs == p.sub || theirs == p.email || theirs in p.secondary)
                 && Canon(mine) != ""
                 ==> Canon(mine) != Canon(theirs)
  {
    hide Canon, ApproverNames, PrincipalNames, Names, J.Lower, L.IsJti;
    JtiIs(tok.claims.jti);
    BlankIff(tok.claims.approverSub);
    if k in cfg.approvers {
      ApartIff(k, cfg.approvers[k], p);
    }
  }

  lemma BlankIff(s: string)
    ensures Canon(s) == "" <==> J.TrimRight(J.TrimLeft(s)) == ""
  {
  }

  lemma JtiIs(s: string)
    ensures L.IsJti(s) <==>
            32 <= |s| <= 64 && forall i :: 0 <= i < |s| ==> '0' <= s[i] <= '9' || 'a' <= s[i] <= 'f'
  {
  }

  lemma ApartIff(k: string, a: Approver, p: Principal)
    ensures ApproverNames(k, a) !! PrincipalNames(p) <==>
            forall mine, theirs ::
              (mine == k || mine in a.principalIds || mine in a.emails)
              && (theirs == p.id || theirs == p.sub || theirs == p.email || theirs in p.secondary)
              && Canon(mine) != ""
              ==> Canon(mine) != Canon(theirs)
  {
    hide Canon, Names;
    var ours, others := [k] + a.principalIds + a.emails, [p.id, p.sub, p.email] + p.secondary;
    assert forall mine :: mine in ours <==> mine == k || mine in a.principalIds || mine in a.emails;
    assert forall theirs :: theirs in others <==> theirs == p.id || theirs == p.sub || theirs == p.email || theirs in p.secondary;
    DisjointIff(ours, others);
  }

  lemma DisjointIff(a: seq<string>, b: seq<string>)
    ensures Names(a) !! Names(b) <==> forall x, y :: x in a && y in b && Canon(x) != "" ==> Canon(x) != Canon(y)
  {
    hide Canon;
    if Names(a) !! Names(b) {
      forall x, y | x in a && y in b && Canon(x) != "" ensures Canon(x) != Canon(y) {
        if Canon(x) == Canon(y) {
          InNames(a, x);
          InNames(b, y);
        }
      }
    }
  }

  /** An approval does not outlive its term: whatever two calls it is accepted for,
      they are at most its time to live and twice the clock skew apart. */
  lemma ApprovalExpires(cfg: Config, tok: Token, k: string, l: string, ledgerId: string, otherId: string,
                        digest: string, other: string, p: Principal, q: Principal, now: int, later: int)
    requires Approves(cfg, tok, k, ledgerId, digest, p, now) && Approves(cfg, tok, l, otherId, other, q, later)
    ensures later - now <= (if cfg.pol.maxApprovalTtlSeconds > 0 then cfg.pol.maxApprovalTtlSeconds else 300)
                           + 2 * (if cfg.pol.maxClockSkewSeconds > 0 then cfg.pol.maxClockSkewSeconds else 30)
  {
    hide Canon, ApproverNames, PrincipalNames, L.IsJti;
  }
}
