/** Step-up approval: what an accepted token proves of its call (internal/authz/stepup.go). */
module StepUp {
  import opened Json
  import opened JsonRoundTrip
  import R = JsonRecord
  import L = LedgerOps

  // ----- the intent digest -----

  /** IntentPayloadV1 */
  datatype Intent = Intent(
    gatewayId: string, ledgerId: string, serverName: string, toolName: string, actionClass: string,
    toolDigest: string, upstreamDigest: string, policyDigest: string,
    principalId: string, principalSub: string, principalEmail: string, principalTokenDigest: string,
    scopes: seq<string>, args: map<string, Value>)

  const INTENT_VERSION: string := "mcp-authz-intent/v1"

  const NAMES: seq<string> := [
    "ver", "gateway_id", "ledger_id", "server_name", "tool_name", "action_class", "tool_sha256",
    "upstream_binary_sha256", "policy_sha256", "principal_identity_id", "principal_sub", "principal_email",
    "principal_token_digest", "effective_scopes", "clean_arguments"]

  function IndexOf(name: string): nat {
    if name == "ver" then 0 else if name == "gateway_id" then 1 else if name == "ledger_id" then 2
    else if name == "server_name" then 3 else if name == "tool_name" then 4 else if name == "action_class" then 5
    else if name == "tool_sha256" then 6 else if name == "upstream_binary_sha256" then 7
    else if name == "policy_sha256" then 8 else if name == "principal_identity_id" then 9
    else if name == "principal_sub" then 10 else if name == "principal_email" then 11
    else if name == "principal_token_digest" then 12 else if name == "effective_scopes" then 13 else 14
  }

  lemma NamesDistinct()
    ensures Distinct(NAMES)
  {
    assert forall i | 0 <= i < |NAMES| :: IndexOf(NAMES[i]) == i;
  }

  function Strings(ss: seq<string>): (vs: seq<Value>)
    ensures |vs| == |ss| && forall i | 0 <= i < |ss| :: vs[i] == Str(ss[i])
  {
    seq(|ss|, i requires 0 <= i < |ss| => Str(ss[i]))
  }

  function IntentValues(i: Intent): (vals: seq<R.Option<Value>>)
    ensures |vals| == |NAMES|
  {
    [R.Some(Str(INTENT_VERSION)), R.Some(Str(i.gatewayId)), R.Some(Str(i.ledgerId)), R.Some(Str(i.serverName)),
     R.Some(Str(i.toolName)), R.Some(Str(i.actionClass)), R.Some(Str(i.toolDigest)), R.Some(Str(i.upstreamDigest)),
     R.Some(Str(i.policyDigest)), R.Some(Str(i.principalId)), R.Some(Str(i.principalSub)),
     R.Some(Str(i.principalEmail)), R.Some(Str(i.principalTokenDigest)), R.Some(Arr(Strings(i.scopes))),
     R.Some(Obj(i.args))]
  }

  function IntentJson(i: Intent): Value {
    Obj(R.Fields(NAMES, IntentValues(i)))
  }

  /** BuildIntentPayload's digest with the digest function sha. */
  ghost function IntentDigest(sha: string -> string, i: Intent): string {
    sha(Text(IntentJson(i)))
  }

  lemma ValuesAreInjective(a: Intent, b: Intent)
    requires IntentValues(a) == IntentValues(b)
    ensures a == b
  {
    var x, y := IntentValues(a), IntentValues(b);
    assert forall k | 0 <= k < |NAMES| :: x[k] == y[k];
    SameStrings(a.scopes, b.scopes);
  }

  lemma SameStrings(a: seq<string>, b: seq<string>)
    ensures Strings(a) == Strings(b) ==> a == b
  {
    if Strings(a) == Strings(b) {
      forall i | 0 <= i < |a| ensures a[i] == b[i] {
        assert Strings(a)[i] == Strings(b)[i];
      }
    }
  }

  /** Two calls with the same intent digest are the same call: same tool, arguments,
      principal, scopes, policy and ledger; or the digest function collides. */
  lemma DigestBindsIntent(sha: string -> string, a: Intent, b: Intent)
    requires Serialisable(IntentJson(a)) && Serialisable(IntentJson(b))
    requires IntentDigest(sha, a) == IntentDigest(sha, b)
    ensures a == b || (Text(IntentJson(a)) != Text(IntentJson(b)) && sha(Text(IntentJson(a))) == sha(Text(IntentJson(b))))
  {
    hide Text, Serialisable, R.Fields, IntentValues;
    if Text(IntentJson(a)) == Text(IntentJson(b)) {
      TextIsInjective(IntentJson(a), IntentJson(b));
      NamesDistinct();
      R.ValuesOfFields(NAMES, IntentValues(a));
      R.ValuesOfFields(NAMES, IntentValues(b));
      ValuesAreInjective(a, b);
    }
  }

  // ----- identities -----

  /** asciiLower(strings.TrimSpace(s)) */
  function Canon(s: string): string {
    Lower(TrimRight(TrimLeft(s)))
  }

  datatype Approver = Approver(key: string, principalIds: seq<string>, emails: seq<string>)

  datatype Principal = Principal(id: string, sub: string, email: string, secondary: seq<string>)

  /** The names under which someone may be known, the empty ones left out. */
  function Names(raw: seq<string>): set<string> {
    set i | 0 <= i < |raw| && Canon(raw[i]) != "" :: Canon(raw[i])
  }

  function ApproverNames(sub: string, cfg: Approver): set<string> {
    Names([sub] + cfg.principalIds + cfg.emails)
  }

  lemma NamesConcat(a: seq<string>, b: seq<string>)
    ensures Names(a + b) == Names(a) + Names(b)
  {
    forall n ensures n in Names(a + b) <==> n in Names(a) + Names(b) {
      if n in Names(a) {
        var i :| 0 <= i < |a| && Canon(a[i]) != "" && Canon(a[i]) == n;
        assert (a + b)[i] == a[i];
      }
      if n in Names(b) {
        var i :| 0 <= i < |b| && Canon(b[i]) != "" && Canon(b[i]) == n;
        assert (a + b)[|a| + i] == b[i];
      }
    }
  }

  method MatchesPrincipal(candidate: string, id: string, sub: string, email: string) returns (m: bool)
    ensures m <==> candidate in Names([id, sub, email])
  {
    hide Canon;
    ghost var raw := [id, sub, email];
    assert raw[0] == id && raw[1] == sub && raw[2] == email;
    if candidate == "" {
      return false;
    }
    m := (Canon(id) != "" && candidate == Canon(id)) || (Canon(sub) != "" && candidate == Canon(sub))
         || (Canon(email) != "" && candidate == Canon(email));
  }

  /** One list of the approver's names against the principal. */
  method AnyMatches(raw: seq<string>, id: string, sub: string, email: string) returns (m: bool)
    ensures m <==> Names(raw) * Names([id, sub, email]) != {}
  {
    hide Canon;
    for i := 0 to |raw|
      invariant forall j | 0 <= j < i :: Canon(raw[j]) !in Names([id, sub, email])
    {
      var hit := MatchesPrincipal(Canon(raw[i]), id, sub, email);
      if hit {
        assert Canon(raw[i]) in Names(raw) * Names([id, sub, email]);
        return true;
      }
    }
    return false;
  }

  lemma Apart(a: set<string>, b: set<string>, c: set<string>, n: set<string>)
    ensures (a + b + c) !! n <==> a * n == {} && b * n == {} && c * n == {}
  {
    var all := (a + b + c) * n;
    assert all == a * n + b * n + c * n;
    assert a * n <= all && b * n <= all && c * n <= all;
    if all == {} {
      assert forall x | x in a + b + c :: x in n ==> x in all;
    }
  }

  /** VerifyMakerChecker: refused exactly when the approver and the principal share
      a name, in whatever namespace. */
  method VerifyMakerChecker(approverSub: string, cfg: Approver, id: string, sub: string, email: string) returns (ok: bool)
    ensures ok <==> ApproverNames(approverSub, cfg) !! Names([id, sub, email])
  {
    hide Names;
    NamesConcat([approverSub] + cfg.principalIds, cfg.emails);
    NamesConcat([approverSub], cfg.principalIds);
    assert ApproverNames(approverSub, cfg) == Names([approverSub]) + Names(cfg.principalIds) + Names(cfg.emails);
    Apart(Names([approverSub]), Names(cfg.principalIds), Names(cfg.emails), Names([id, sub, email]));
    var bad := AnyMatches([approverSub], id, sub, email);
    if bad {
      return false;
    }
    bad := AnyMatches(cfg.principalIds, id, sub, email);
    if bad {
      return false;
    }
    bad := AnyMatches(cfg.emails, id, sub, email);
    return !bad;
  }

  /** All names of the principal, the secondary claims included. */
  function PrincipalNames(p: Principal): set<string> {
    Names([p.id, p.sub, p.email] + p.secondary)
  }

  /** The checks of VerifyApprovalToken on every name of the principal. */
  method VerifySeparation(approverSub: string, cfg: Approver, p: Principal) returns (ok: bool)
    ensures ok <==> ApproverNames(approverSub, cfg) !! PrincipalNames(p)
  {
    hide Names, ApproverNames;
    NamesConcat([p.id, p.sub, p.email], p.secondary);
    var fine := VerifyMakerChecker(approverSub, cfg, p.id, p.sub, p.email);
    if !fine {
      return false;
    }
    NoNames(p.secondary[..0]);
    for i := 0 to |p.secondary|
      invariant ApproverNames(approverSub, cfg) !! Names(p.secondary[..i])
    {
      var s := p.secondary[i];
      assert p.secondary[..i + 1] == p.secondary[..i] + [s];
      NamesConcat(p.secondary[..i], [s]);
      NamesConcat([p.id, p.sub], [s]);
      NamesConcat([p.id, p.sub], [p.email]);
      assert [p.id, p.sub] + [s] == [p.id, p.sub, s] && [p.id, p.sub] + [p.email] == [p.id, p.sub, p.email];
      if !BlankName(s) {
        fine := VerifyMakerChecker(approverSub, cfg, p.id, p.sub, s);
        if !fine {
          MoreNames(p.secondary, i);
          return false;
        }
      } else {
        NoName(s);
      }
    }
    assert p.secondary[..|p.secondary|] == p.secondary;
    return true;
  }

  predicate BlankName(s: string) {
    TrimRight(TrimLeft(s)) == ""
  }

  lemma NoName(s: string)
    requires BlankName(s)
    ensures Names([s]) == {}
  {
    assert [s][0] == s;
  }

  lemma NoNames(raw: seq<string>)
    requires raw == []
    ensures Names(raw) == {}
  {
  }

  lemma MoreNames(raw: seq<string>, i: nat)
    requires i < |raw|
    ensures Names([raw[i]]) <= Names(raw)
  {
    assert [raw[i]][0] == raw[i];
  }

  // ----- the token -----

  /** ApprovalTokenClaimsV1 */
  datatype Claims = Claims(
    version: string, jti: string, gatewayId: string, ledgerId: string, intentDigest: string, approverSub: string, ticketId: string,
    interactive: bool, issuedAt: int, expiresAt: int)

  const VERSION: string := "mcp-authz-approval/v1"

  /** A token whose payload has been decoded; message is what was signed. */
  datatype Token = Token(claims: Claims, message: string, signature: string)

  /** verifies is the signature scheme, ticketOk the policy's ticket pattern. */
  datatype Config = Config(
    pol: L.Policy, approvers: map<string, Approver>, requireTty: bool,
    ticketOk: string -> bool, verifies: (string, string, string) -> bool)

  /** lookupApproverConfig may answer k. */
  predicate MayBe(cfg: Config, raw: string, k: string) {
    && k in cfg.approvers && TrimRight(TrimLeft(raw)) != ""
    && (k == raw || (raw !in cfg.approvers && Lower(k) == Canon(raw)))
  }

  /** What acceptance under the approver k means. */
  predicate Approves(cfg: Config, tok: Token, k: string, ledgerId: string, digest: string, p: Principal, now: int) {
    var c := tok.claims;
    && MayBe(cfg, c.approverSub, k)
    && cfg.verifies(cfg.approvers[k].key, tok.message, tok.signature)
    && c.gatewayId == cfg.pol.gatewayId && c.ledgerId == ledgerId && cfg.ticketOk(c.ticketId)
    && (cfg.requireTty ==> c.interactive)
    && c.version == VERSION && L.TokenVerified(cfg.pol, L.Claims(c.jti, c.intentDigest, c.issuedAt, c.expiresAt), now)
    && c.intentDigest == digest
    && ApproverNames(k, cfg.approvers[k]) !! PrincipalNames(p)
  }

  /** VerifyApprovalToken, on a decoded token. */
  method VerifyApproval(cfg: Config, tok: Token, ledgerId: string, digest: string, p: Principal, now: int)
    returns (ok: bool, k: string)
    ensures ok ==> Approves(cfg, tok, k, ledgerId, digest, p, now)
    ensures !ok ==> forall a :: MayBe(cfg, tok.claims.approverSub, a) && (a == k || k !in cfg.approvers) ==>
                      !Approves(cfg, tok, a, ledgerId, digest, p, now)
    ensures k in cfg.approvers ==> MayBe(cfg, tok.claims.approverSub, k) || k == tok.claims.approverSub
  {
    hide Canon, ApproverNames, PrincipalNames, L.IsJti;
    var c := tok.claims;
    k := c.approverSub;
    if c.version != VERSION || !L.IsJti(c.jti) {
      return false, k;
    }
    if TrimRight(TrimLeft(c.approverSub)) == "" {
      return false, k;
    }
    if k !in cfg.approvers {
      if a :| a in cfg.approvers && Lower(a) == Canon(c.approverSub) {
        k := a;
      } else {
        return false, k;
      }
    }
    if !cfg.verifies(cfg.approvers[k].key, tok.message, tok.signature) {
      return false, k;
    }
    if c.gatewayId != cfg.pol.gatewayId || c.ledgerId != ledgerId || !cfg.ticketOk(c.ticketId) {
      return false, k;
    }
    if cfg.requireTty && !c.interactive {
      return false, k;
    }
    var skew := L.Skew(cfg.pol);
    var maxTtl := if cfg.pol.maxApprovalTtlSeconds <= 0 then 300 else cfg.pol.maxApprovalTtlSeconds;
    if c.issuedAt <= 0 || c.expiresAt <= 0 || c.expiresAt <= c.issuedAt || c.expiresAt - c.issuedAt > maxTtl {
      return false, k;
    }
    if now < c.issuedAt - skew || now > c.expiresAt + skew {
      return false, k;
    }
    if c.intentDigest != digest {
      return false, k;
    }
    ok := VerifySeparation(k, cfg.approvers[k], p);
  }

  /** Main result: one token approves one call only.  If it is accepted for two
      calls, whenever and by whomever they are made, then they have the same intent
      (so also the same principal), or two intents collide under the digest. */
  lemma OneTokenOneIntent(cfg: Config, sha: string -> string, tok: Token, a: Intent, b: Intent,
                          k: string, l: string, p: Principal, q: Principal, now: int, later: int)
    requires Serialisable(IntentJson(a)) && Serialisable(IntentJson(b))
    requires Approves(cfg, tok, k, a.ledgerId, IntentDigest(sha, a), p, now)
    requires Approves(cfg, tok, l, b.ledgerId, IntentDigest(sha, b), q, later)
    ensures a == b || (Text(IntentJson(a)) != Text(IntentJson(b)) && sha(Text(IntentJson(a))) == sha(Text(IntentJson(b))))
  {
    hide Serialisable, IntentDigest, ApproverNames, PrincipalNames;
    DigestBindsIntent(sha, a, b);
  }

  /** Nobody approves their own call: a name of the accepted approver, its case and
      outer white space aside, is no name of the principal. */
  lemma NoSelfApproval(cfg: Config, tok: Token, k: string, ledgerId: string, digest: string, p: Principal, now: int, name: string)
    requires Approves(cfg, tok, k, ledgerId, digest, p, now)
    requires name == k || name in cfg.approvers[k].principalIds || name in cfg.approvers[k].emails
    requires Canon(name) != ""
    ensures forall other :: other in [p.id, p.sub, p.email] + p.secondary ==> Canon(other) != Canon(name)
  {
    hide Canon, L.TokenVerified;
    var mine := [k] + cfg.approvers[k].principalIds + cfg.approvers[k].emails;
    InNames(mine, name);
    var theirs := [p.id, p.sub, p.email] + p.secondary;
    assert Canon(name) in ApproverNames(k, cfg.approvers[k]);
    forall other | other in theirs ensures Canon(other) != Canon(name) {
      if Canon(other) != "" {
        InNames(theirs, other);
        assert Canon(other) in PrincipalNames(p);
      }
    }
  }

  lemma InNames(raw: seq<string>, name: string)
    requires name in raw && Canon(name) != ""
    ensures Canon(name) in Names(raw)
  {
  }
}
