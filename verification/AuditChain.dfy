/** The hash-chained audit log (internal/authz/audit.go, statedb.go). */
module AuditChain {
  import opened Json

  datatype Option<T> = None | Some(value: T)

  /** AuditRecordV1.  The fields that the ledger sets or reads are named; the
      descriptive ones (time stamp, tool, stage, ...) are kept in details. */
  datatype AuditRecord = AuditRecord(
    seqNo: nat, gatewayId: string, ledgerId: string, decision: string, principalId: string, approvalJti: string,
    scopes: Option<seq<string>>, args: Option<map<string, Value>>, details: map<string, Value>,
    prevHash: string, recordHash: string)

  /** AuditGenesisZeros: 64 zeros. */
  const ZEROS: string := "0000000000000000"
  const GENESIS: string := ZEROS + ZEROS + ZEROS + ZEROS

  /** ComputeAuditRecordHash, as a function of the record without its own hash. */
  type Hasher = AuditRecord -> string

  function Strip(r: AuditRecord): AuditRecord {
    r.(recordHash := "")
  }

  /** Null and empty scopes or arguments hash alike. */
  function Normal(r: AuditRecord): AuditRecord {
    r.(scopes := Some(if r.scopes.None? then [] else r.scopes.value),
       args := Some(if r.args.None? then map[] else r.args.value))
  }

  function HashOf(h: Hasher, r: AuditRecord): string {
    h(Normal(Strip(r)))
  }

  function PrevOf(log: seq<AuditRecord>, i: nat): string
    requires i <= |log|
  {
    if i == 0 then GENESIS else log[i - 1].recordHash
  }

  /** parseAndVerifyAuditLine on a decoded record. */
  predicate LineOk(h: Hasher, r: AuditRecord, expectedSeq: nat, expectedPrev: string, gw: string, id: string) {
    && r.seqNo == expectedSeq
    && r.prevHash == expectedPrev
    && (gw != "" ==> r.gatewayId == gw)
    && (id != "" ==> r.ledgerId == id)
    && r.recordHash == HashOf(h, r)
  }

  /** Record i stands at its place in the chain. */
  predicate LinkOk(h: Hasher, log: seq<AuditRecord>, i: int, gw: string, id: string)
    requires 0 <= i < |log|
  {
    LineOk(h, log[i], i + 1, PrevOf(log, i), gw, id)
  }

  predicate ValidChain(h: Hasher, log: seq<AuditRecord>, gw: string, id: string) {
    forall i | 0 <= i < |log| :: LinkOk(h, log, i, gw, id)
  }

  datatype Tail = Tail(seqNo: nat, prevHash: string, hash: string)

  function TailOf(log: seq<AuditRecord>): Tail {
    if log == [] then Tail(0, "", "") else
      var r := log[|log| - 1];
      Tail(r.seqNo, r.prevHash, r.recordHash)
  }

  lemma ValidSnoc(h: Hasher, log: seq<AuditRecord>, r: AuditRecord, gw: string, id: string)
    ensures ValidChain(h, log + [r], gw, id) <==>
            ValidChain(h, log, gw, id) && LineOk(h, r, |log| + 1, PrevOf(log, |log|), gw, id)
  {
    hide LineOk;
    var log' := log + [r];
    assert log'[|log|] == r && PrevOf(log', |log|) == PrevOf(log, |log|);
    assert LinkOk(h, log', |log|, gw, id) <==> LineOk(h, r, |log| + 1, PrevOf(log, |log|), gw, id);
    forall i | 0 <= i < |log| ensures LinkOk(h, log', i, gw, id) <==> LinkOk(h, log, i, gw, id) {
      assert log'[i] == log[i] && PrevOf(log', i) == PrevOf(log, i);
    }
    if ValidChain(h, log', gw, id) {
      forall i | 0 <= i < |log| ensures LinkOk(h, log, i, gw, id) {
        assert LinkOk(h, log', i, gw, id);
      }
    }
  }

  lemma ValidPrefix(h: Hasher, log: seq<AuditRecord>, n: nat, gw: string, id: string)
    requires ValidChain(h, log, gw, id) && n <= |log|
    ensures ValidChain(h, log[..n], gw, id)
  {
    hide LineOk;
    forall i | 0 <= i < n ensures LinkOk(h, log[..n], i, gw, id) {
      assert LinkOk(h, log, i, gw, id);
      assert PrevOf(log[..n], i) == PrevOf(log, i);
    }
  }

  lemma ValidAt(h: Hasher, log: seq<AuditRecord>, i: nat, gw: string, id: string)
    requires ValidChain(h, log, gw, id) && i < |log|
    ensures LineOk(h, log[i], i + 1, PrevOf(log, i), gw, id)
  {
    assert LinkOk(h, log, i, gw, id);
  }

  lemma NotValidBeyond(h: Hasher, log: seq<AuditRecord>, n: nat, gw: string, id: string)
    requires n <= |log| && !ValidChain(h, log[..n], gw, id)
    ensures !ValidChain(h, log, gw, id)
  {
    if ValidChain(h, log, gw, id) {
      ValidPrefix(h, log, n, gw, id);
    }
  }

  // ----- appending -----

  /** The record that appendAuditAndHWMLocked makes of a template. */
  function Chained(h: Hasher, t: AuditRecord, seqNo: nat, prev: string, gw: string, id: string): (r: AuditRecord)
    ensures LineOk(h, r, seqNo, prev, gw, id)
  {
    var r := t.(seqNo := seqNo, prevHash := prev, gatewayId := gw, ledgerId := id, recordHash := "");
    var n := Normal(r);
    n.(recordHash := h(n))
  }

  lemma AppendKeepsChain(h: Hasher, log: seq<AuditRecord>, t: AuditRecord, gw: string, id: string)
    requires ValidChain(h, log, gw, id)
    ensures ValidChain(h, log + [Chained(h, t, |log| + 1, PrevOf(log, |log|), gw, id)], gw, id)
  {
    ValidSnoc(h, log, Chained(h, t, |log| + 1, PrevOf(log, |log|), gw, id), gw, id);
  }

  lemma TailSeqIsLength(h: Hasher, log: seq<AuditRecord>, gw: string, id: string)
    requires ValidChain(h, log, gw, id)
    ensures TailOf(log).seqNo == |log|
    ensures log != [] ==> TailOf(log).hash == PrevOf(log, |log|) && TailOf(log).prevHash == PrevOf(log, |log| - 1)
  {
    if log != [] {
      assert LinkOk(h, log, |log| - 1, gw, id);
    }
  }

  /** Exactly the valid logs: numbered from 1, linked to the record before or to 64
      zeros, of one gateway and ledger, and each with the hash of all it says. */
  lemma ValidChainIff(h: Hasher, log: seq<AuditRecord>, gw: string, id: string)
    ensures ValidChain(h, log, gw, id) <==>
            && (forall i :: 0 <= i < |log| ==> log[i].seqNo == i + 1)
            && (forall i :: 0 < i < |log| ==> log[i].prevHash == log[i - 1].recordHash)
            && (log != [] ==> |log[0].prevHash| == 64 && forall k :: 0 <= k < 64 ==> log[0].prevHash[k] == '0')
            && (gw != "" ==> forall i :: 0 <= i < |log| ==> log[i].gatewayId == gw)
            && (id != "" ==> forall i :: 0 <= i < |log| ==> log[i].ledgerId == id)
            && forall i :: 0 <= i < |log| ==>
                 log[i].recordHash
                 == h(log[i].(recordHash := "", scopes := Some(if log[i].scopes.None? then [] else log[i].scopes.value),
                              args := Some(if log[i].args.None? then map[] else log[i].args.value)))
  {
    hide HashOf, GENESIS;
    forall i | 0 <= i < |log| ensures
      HashOf(h, log[i]) == h(log[i].(recordHash := "", scopes := Some(if log[i].scopes.None? then [] else log[i].scopes.value),
                                     args := Some(if log[i].args.None? then map[] else log[i].args.value)))
    {
      HashIs(h, log[i]);
    }
    if log != [] {
      ZerosOnly(log[0].prevHash);
    }
    if ValidChain(h, log, gw, id) {
      forall i | 0 <= i < |log| ensures log[i].recordHash == HashOf(h, log[i]) && LinkSpelled(h, log, i, gw, id) {
        LinkIff(h, log, i, gw, id);
      }
    } else {
      var i :| 0 <= i < |log| && !LinkOk(h, log, i, gw, id);
      LinkIff(h, log, i, gw, id);
    }
  }

  predicate LinkSpelled(h: Hasher, log: seq<AuditRecord>, i: int, gw: string, id: string)
    requires 0 <= i < |log|
  {
    && log[i].seqNo == i + 1
    && log[i].prevHash == (if i == 0 then GENESIS else log[i - 1].recordHash)
    && (gw != "" ==> log[i].gatewayId == gw)
    && (id != "" ==> log[i].ledgerId == id)
    && log[i].recordHash == HashOf(h, log[i])
  }

  lemma LinkIff(h: Hasher, log: seq<AuditRecord>, i: int, gw: string, id: string)
    requires 0 <= i < |log|
    ensures LinkSpelled(h, log, i, gw, id) <==> LinkOk(h, log, i, gw, id)
  {
    hide HashOf, GENESIS;
  }

  lemma GenesisIs()
    ensures |GENESIS| == 64 && forall k :: 0 <= k < 64 ==> GENESIS[k] == '0'
  {
    assert |ZEROS| == 16 && forall k :: 0 <= k < 16 ==> ZEROS[k] == '0';
  }

  lemma ZerosOnly(s: string)
    ensures s == GENESIS <==> |s| == 64 && forall k :: 0 <= k < 64 ==> s[k] == '0'
  {
    hide GENESIS;
    GenesisIs();
    if |s| == 64 && forall k :: 0 <= k < 64 ==> s[k] == '0' {
      assert forall k | 0 <= k < 64 :: s[k] == GENESIS[k];
    }
  }

  lemma HashIs(h: Hasher, r: AuditRecord)
    ensures HashOf(h, r) == h(r.(recordHash := "", scopes := Some(if r.scopes.None? then [] else r.scopes.value),
                                 args := Some(if r.args.None? then map[] else r.args.value)))
  {
  }

  // ----- integrity -----

  /** Two different records, one in each log, with the same hash. */
  ghost predicate Collision(h: Hasher, a: seq<AuditRecord>, b: seq<AuditRecord>) {
    exists i, j :: 0 <= i < |a| && 0 <= j < |b| && Collide(h, a[i], b[j])
  }

  ghost predicate Collide(h: Hasher, r: AuditRecord, s: AuditRecord) {
    Normal(Strip(r)) != Normal(Strip(s)) && HashOf(h, r) == HashOf(h, s)
  }

  ghost predicate SameLog(a: seq<AuditRecord>, b: seq<AuditRecord>) {
    |a| == |b| && forall i | 0 <= i < |a| :: Normal(a[i]) == Normal(b[i])
  }

  /** Two verified records with the same hash collide, or agree in everything
      they say, their position and their predecessor included. */
  lemma SameHashSameRecord(h: Hasher, r: AuditRecord, s: AuditRecord, n: nat, m: nat, p: string, q: string, gw: string, id: string)
    requires LineOk(h, r, n, p, gw, id) && LineOk(h, s, m, q, gw, id) && r.recordHash == s.recordHash
    ensures Collide(h, r, s) || (n == m && p == q && Normal(r) == Normal(s))
  {
    var x, y := Normal(Strip(r)), Normal(Strip(s));
    assert x.seqNo == r.seqNo && y.seqNo == s.seqNo && x.prevHash == r.prevHash && y.prevHash == s.prevHash;
    assert Normal(r) == x.(recordHash := r.recordHash);
    assert Normal(s) == y.(recordHash := s.recordHash);
  }

  /** Main result: logs that verify for the same ledger and end in the same hash
      hold the same records in the same order, up to null versus empty fields;
      anything else exhibits two different records with equal hashes. */
  lemma {:induction false} SameTailSameLog(h: Hasher, a: seq<AuditRecord>, b: seq<AuditRecord>, gw: string, id: string)
    requires ValidChain(h, a, gw, id) && ValidChain(h, b, gw, id) && a != [] && b != []
    requires TailOf(a).hash == TailOf(b).hash
    ensures SameLog(a, b) || Collision(h, a, b)
    decreases |a|
  {
    hide LineOk, Normal, Collide, ValidChain;
    var n, m := |a| - 1, |b| - 1;
    ValidAt(h, a, n, gw, id);
    ValidAt(h, b, m, gw, id);
    SameHashSameRecord(h, a[n], b[m], n + 1, m + 1, PrevOf(a, n), PrevOf(b, m), gw, id);
    if !Collide(h, a[n], b[m]) && n > 0 {
      ValidPrefix(h, a, n, gw, id);
      ValidPrefix(h, b, n, gw, id);
      SameTailSameLog(h, a[..n], b[..n], gw, id);
      ExtendSame(h, a, b, n);
    }
  }

  lemma ExtendSame(h: Hasher, a: seq<AuditRecord>, b: seq<AuditRecord>, n: nat)
    requires |a| == |b| == n + 1 && Normal(a[n]) == Normal(b[n])
    requires SameLog(a[..n], b[..n]) || Collision(h, a[..n], b[..n])
    ensures SameLog(a, b) || Collision(h, a, b)
  {
    hide Normal, Collide;
    if SameLog(a[..n], b[..n]) {
      forall i | 0 <= i < |a| ensures Normal(a[i]) == Normal(b[i]) {
        assert i < n ==> a[..n][i] == a[i] && b[..n][i] == b[i];
      }
    } else {
      var i, j :| 0 <= i < |a[..n]| && 0 <= j < |b[..n]| && Collide(h, a[..n][i], b[..n][j]);
      assert Collide(h, a[i], b[j]);
    }
  }
}
