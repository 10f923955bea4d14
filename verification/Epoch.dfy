/** The manifest epoch protocol of the gateway (internal/authz/proxy.go).

    Any number of threads serve tool calls, upstream notifications arrive at any
    time, and a manifest that fails re-verification poisons the gateway for good.
    Every read or write of a shared variable, every lock operation and the start
    and end of every upstream exchange is a step of its own. */
module Epoch {
  datatype Option<T> = None | Some(value: T)

  // ----- the policy -----

  datatype ActionClass = Read | WriteLowRisk | WriteHighRisk

  datatype Tool = Tool(action: ActionClass, enabled: bool)

  /** The tools, and reverify_manifest_before_write if it is given. */
  datatype Policy = Policy(tools: map<string, Tool>, reverify: Option<bool>)

  predicate IsWriteTool(tool: Tool) {
    tool.enabled && !tool.action.Read?
  }

  predicate HasWriteTool(pol: Policy) {
    exists name :: name in pol.tools && IsWriteTool(pol.tools[name])
  }

  predicate HasReadTool(pol: Policy) {
    exists name :: name in pol.tools && pol.tools[name] == Tool(Read, true)
  }

  /** What executeWriteCall makes of the setting. */
  predicate Reverifies(pol: Policy) {
    pol.reverify.None? || pol.reverify.value
  }

  /** The loader takes no policy with an enabled write tool and without re-verification. */
  predicate Accepted(pol: Policy) {
    HasWriteTool(pol) ==> Reverifies(pol)
  }

  /** That part of ParseAndValidatePolicyBytes. */
  method CheckWriteTools(pol: Policy) returns (ok: bool)
    ensures ok <==> Accepted(pol)
    ensures !ok <==> pol.reverify == Some(false)
                     && exists name :: name in pol.tools && pol.tools[name].enabled && pol.tools[name].action != Read
  {
    var hasWriteTool := false;
    var rest := pol.tools.Keys;
    while rest != {}
      invariant rest <= pol.tools.Keys
      invariant hasWriteTool <==> exists name :: name in pol.tools.Keys - rest && IsWriteTool(pol.tools[name])
      decreases |rest|
    {
      var name :| name in rest;
      var tool := pol.tools[name];
      match tool.action {
        case Read =>
        case WriteLowRisk => if tool.enabled { hasWriteTool := true; }
        case WriteHighRisk => if tool.enabled { hasWriteTool := true; }
      }
      rest := rest - {name};
    }
    assert forall name | name in pol.tools :: IsWriteTool(pol.tools[name]) <==> pol.tools[name].enabled && pol.tools[name].action != Read;
    ok := !(hasWriteTool && pol.reverify.Some? && !pol.reverify.value);
  }

  // ----- the steps -----

  /** Where a thread continues after a successful re-verification. */
  datatype Back = ToGuards | ToReadLoop | ToCommit

  /** Where a thread is in EvaluateToolCall, executeReadCall or executeWriteCall. */
  datatype Pc =
    | Idle
    // stage 0
    | CheckPoisoned | CheckDead | LoadNotified | LoadVerified(n: nat)
    | Lock(back: Back)
    // reverifyManifestLocked
    | RvPoisoned(back: Back) | RvDead(back: Back) | RvSnapshot(back: Back)
    | RvFetch(back: Back, g: nat) | RvFetching(back: Back, g: nat)
    | RvStore(back: Back, g: nat) | RvPoison | RvClose | RvKill
    // releasing the exclusive lock
    | UnlockToDeny | UnlockToGuards | UnlockToRead
    // stages 1 to 3
    | Guards
    // executeReadCall
    | RLock | RPoisoned | RDead | RLoadNotified | RLoadVerified(n: nat) | RCall | RCalling
    | RLeave(retry: bool)
    // executeWriteCall
    | WLock | WLoadNotified | WLoadVerified(n: nat) | WCommit | WCall | WCalling

  /** The fields of the gateway; closed says that poisoning has closed the upstream
      session; writer and readers are the state of epochMu. */
  datatype Vars = Vars(notified: nat, verified: nat, poisoned: bool, closed: bool, dead: bool,
                       writer: Option<nat>, readers: set<nat>)

  datatype Gateway = Gateway(v: Vars, pcs: map<nat, Pc>)

  function At(s: Gateway, t: nat): Pc {
    if t in s.pcs then s.pcs[t] else Idle
  }

  function AfterReverify(back: Back): Pc {
    match back
    case ToGuards => UnlockToGuards
    case ToReadLoop => UnlockToRead
    case ToCommit => WCommit
  }

  predicate CanLock(v: Vars) {
    v.writer.None? && v.readers == {}
  }

  /** Stage 0, and stages 1 to 3. */
  predicate StageStep(pol: Policy, v: Vars, t: nat, pc: Pc, v': Vars, pc': Pc) {
    match pc
    case Idle => v' == v && pc' == CheckPoisoned
    case CheckPoisoned => v' == v && pc' == if v.poisoned then Idle else CheckDead
    case CheckDead => v' == v && pc' == if v.dead then Idle else LoadNotified
    case LoadNotified => v' == v && pc' == LoadVerified(v.notified)
    case LoadVerified(n) => v' == v && pc' == if n == v.verified then Guards else Lock(ToGuards)
    case Lock(back) => CanLock(v) && v' == v.(writer := Some(t)) && pc' == RvPoisoned(back)
    case UnlockToDeny => v' == v.(writer := None) && pc' == Idle
    case UnlockToGuards => v' == v.(writer := None) && pc' == Guards
    case UnlockToRead => v' == v.(writer := None) && pc' == RLock
    case Guards => v' == v && (pc' == Idle || (pc' == RLock && HasReadTool(pol)) || (pc' == WLock && HasWriteTool(pol)))
    case _ => false
  }

  /** reverifyManifestLocked */
  predicate ReverifyStep(v: Vars, t: nat, pc: Pc, v': Vars, pc': Pc) {
    match pc
    case RvPoisoned(back) => v' == v && pc' == if v.poisoned then UnlockToDeny else RvDead(back)
    case RvDead(back) => v' == v && pc' == if v.dead then UnlockToDeny else RvSnapshot(back)
    case RvSnapshot(back) => v' == v && pc' == RvFetch(back, v.notified)
    case RvFetch(back, g) => v' == v && pc' == RvFetching(back, g)
    case RvFetching(back, g) => v' == v && (pc' == RvStore(back, g) || pc' == RvPoison || pc' == RvKill)
    case RvStore(back, g) => v' == v.(verified := g) && pc' == AfterReverify(back)
    case RvPoison => v' == v.(poisoned := true) && pc' == RvClose
    case RvClose => v' == v.(closed := true) && pc' == UnlockToDeny
    case RvKill => v' == v.(dead := true) && pc' == UnlockToDeny
    case _ => false
  }

  /** executeReadCall */
  predicate ReadStep(v: Vars, t: nat, pc: Pc, v': Vars, pc': Pc) {
    match pc
    case RLock => v.writer.None? && v' == v.(readers := v.readers + {t}) && pc' == RPoisoned
    case RPoisoned => v' == v && pc' == if v.poisoned then RLeave(false) else RDead
    case RDead => v' == v && pc' == if v.dead then RLeave(false) else RLoadNotified
    case RLoadNotified => v' == v && pc' == RLoadVerified(v.notified)
    case RLoadVerified(n) => v' == v && pc' == if n == v.verified then RCall else RLeave(true)
    case RCall => v' == v && pc' == RCalling
    case RCalling => (v' == v || v' == v.(dead := true)) && pc' == RLeave(false)
    case RLeave(retry) => v' == v.(readers := v.readers - {t}) && pc' == if retry then Lock(ToReadLoop) else Idle
    case _ => false
  }

  /** executeWriteCall */
  predicate WriteStep(pol: Policy, v: Vars, t: nat, pc: Pc, v': Vars, pc': Pc) {
    match pc
    case WLock => CanLock(v) && v' == v.(writer := Some(t)) && pc' == if Reverifies(pol) then RvPoisoned(ToCommit) else WLoadNotified
    case WLoadNotified => v' == v && pc' == WLoadVerified(v.notified)
    case WLoadVerified(n) => v' == v && pc' == if n == v.verified then WCommit else RvPoisoned(ToCommit)
    case WCommit => v' == v && (pc' == WCall || pc' == UnlockToDeny)
    case WCall => v' == v && pc' == WCalling
    case WCalling => (v' == v || v' == v.(dead := true)) && pc' == UnlockToDeny
    case _ => false
  }

  predicate Local(pol: Policy, v: Vars, t: nat, pc: Pc, v': Vars, pc': Pc) {
    StageStep(pol, v, t, pc, v', pc') || ReverifyStep(v, t, pc, v', pc') || ReadStep(v, t, pc, v', pc')
    || WriteStep(pol, v, t, pc, v', pc')
  }

  /** One step of thread t. */
  predicate Step(pol: Policy, s: Gateway, t: nat, s': Gateway) {
    Local(pol, s.v, t, At(s, t), s'.v, At(s', t)) && s'.pcs == s.pcs[t := At(s', t)]
  }

  datatype Move = Thread(t: nat) | Notify | Exit

  /** A thread step, OnToolListChanged or OnUpstreamProcessExit. */
  predicate Next(pol: Policy, s: Gateway, m: Move, s': Gateway) {
    match m
    case Thread(t) => Step(pol, s, t, s')
    case Notify => s' == s.(v := s.v.(notified := s.v.notified + 1))
    case Exit => s' == s.(v := s.v.(dead := true))
  }

  /** NewGateway: the startup manifest has been verified as generation 1; later
      notifications may already have arrived. */
  predicate Initial(s: Gateway) {
    s.v.notified >= 1 && s.v.verified == 1 && !s.v.poisoned && !s.v.closed && s.v.writer.None? && s.v.readers == {} && s.pcs == map[]
  }

  predicate Run(pol: Policy, states: seq<Gateway>, moves: seq<Move>) {
    && |states| == |moves| + 1 && Initial(states[0])
    && forall k | 0 <= k < |moves| :: Next(pol, states[k], moves[k], states[k + 1])
  }

  // ----- the invariant -----

  predicate Exclusive(pc: Pc) {
    || pc.RvPoisoned? || pc.RvDead? || pc.RvSnapshot? || pc.RvFetch? || pc.RvFetching? || pc.RvStore? || pc.RvPoison?
    || pc.RvClose? || pc.RvKill? || pc.UnlockToDeny? || pc.UnlockToGuards? || pc.UnlockToRead?
    || pc.WLoadNotified? || pc.WLoadVerified? || pc.WCommit? || pc.WCall? || pc.WCalling?
  }

  predicate Shared(pc: Pc) {
    || pc.RPoisoned? || pc.RDead? || pc.RLoadNotified? || pc.RLoadVerified? || pc.RCall? || pc.RCalling? || pc.RLeave?
  }

  /** A thread that saw the gateway clean under a lock it still holds. */
  predicate SawClean(pol: Policy, pc: Pc) {
    || pc.RvDead? || pc.RvSnapshot? || pc.RvFetch? || pc.RvFetching? || pc.RvStore?
    || pc.RDead? || pc.RLoadNotified? || pc.RLoadVerified? || pc.RCall? || pc.RCalling?
    || (Accepted(pol) && (pc.WCommit? || pc.WCall? || pc.WCalling?))
  }

  function Snapshot(pc: Pc): Option<nat> {
    match pc
    case RvFetch(_, g) => Some(g)
    case RvFetching(_, g) => Some(g)
    case RvStore(_, g) => Some(g)
    case _ => None
  }

  predicate ThreadOk(pol: Policy, v: Vars, t: nat, pc: Pc) {
    && (v.writer == Some(t) <==> Exclusive(pc))
    && (t in v.readers <==> Shared(pc))
    && (SawClean(pol, pc) ==> !v.poisoned)
    && (v.writer == Some(t) && v.poisoned && !v.closed ==> pc.RvClose?)
    && (pc.WLock? ==> HasWriteTool(pol))
    && (Snapshot(pc).Some? ==> v.verified <= Snapshot(pc).value <= v.notified)
    && (Accepted(pol) ==> !pc.WLoadNotified? && !pc.WLoadVerified?)
  }

  predicate VarsOk(v: Vars) {
    && v.verified <= v.notified && (v.writer.Some? ==> v.readers == {})
    && (v.poisoned && !v.closed ==> v.writer.Some?)
  }

  ghost predicate Inv(pol: Policy, s: Gateway) {
    VarsOk(s.v) && forall t :: ThreadOk(pol, s.v, t, At(s, t))
  }

  /** What a step of t may do to the shared variables, as other threads see it. */
  predicate Allowed(v: Vars, t: nat, v': Vars) {
    && v'.notified == v.notified
    && (v'.verified != v.verified || v'.poisoned != v.poisoned || v'.closed != v.closed ==> v.writer == Some(t) && v'.writer == v.writer)
    && (v'.writer != v.writer ==> (v.writer.None? && v'.writer == Some(t)) || (v.writer == Some(t) && v'.writer.None?))
    && (v'.readers == v.readers || v'.readers == v.readers + {t} || v'.readers == v.readers - {t})
  }

  lemma StageWalks(pol: Policy, v: Vars, t: nat, pc: Pc, v': Vars, pc': Pc)
    requires VarsOk(v) && ThreadOk(pol, v, t, pc) && StageStep(pol, v, t, pc, v', pc') && v' == v
    ensures ThreadOk(pol, v', t, pc')
  {
    hide HasWriteTool, HasReadTool, VarsOk;
  }

  lemma StageLocks(pol: Policy, v: Vars, t: nat, pc: Pc, v': Vars, pc': Pc)
    requires VarsOk(v) && ThreadOk(pol, v, t, pc) && StageStep(pol, v, t, pc, v', pc') && v' != v
    ensures VarsOk(v') && ThreadOk(pol, v', t, pc') && Allowed(v, t, v')
  {
    hide HasWriteTool, HasReadTool;
  }

  lemma NothingAllowed(v: Vars, t: nat)
    ensures Allowed(v, t, v)
  {
  }

  lemma StageOwn(pol: Policy, v: Vars, t: nat, pc: Pc, v': Vars, pc': Pc)
    requires VarsOk(v) && ThreadOk(pol, v, t, pc) && StageStep(pol, v, t, pc, v', pc')
    ensures VarsOk(v') && ThreadOk(pol, v', t, pc') && Allowed(v, t, v')
  {
    hide *;
    if v' == v {
      StageWalks(pol, v, t, pc, v', pc');
      NothingAllowed(v, t);
    } else {
      StageLocks(pol, v, t, pc, v', pc');
    }
  }

  lemma ReverifyOwn(pol: Policy, v: Vars, t: nat, pc: Pc, v': Vars, pc': Pc)
    requires VarsOk(v) && ThreadOk(pol, v, t, pc) && ReverifyStep(v, t, pc, v', pc')
    ensures VarsOk(v') && ThreadOk(pol, v', t, pc') && Allowed(v, t, v')
  {
  }

  lemma ReadOwn(pol: Policy, v: Vars, t: nat, pc: Pc, v': Vars, pc': Pc)
    requires VarsOk(v) && ThreadOk(pol, v, t, pc) && ReadStep(v, t, pc, v', pc')
    ensures VarsOk(v') && ThreadOk(pol, v', t, pc') && Allowed(v, t, v')
  {
  }

  lemma WriteOwn(pol: Policy, v: Vars, t: nat, pc: Pc, v': Vars, pc': Pc)
    requires VarsOk(v) && ThreadOk(pol, v, t, pc) && WriteStep(pol, v, t, pc, v', pc')
    ensures VarsOk(v') && ThreadOk(pol, v', t, pc') && Allowed(v, t, v')
  {
  }

  lemma OtherKeeps(pol: Policy, v: Vars, t: nat, v': Vars, u: nat, pc: Pc)
    requires VarsOk(v) && Allowed(v, t, v') && u != t && ThreadOk(pol, v, u, pc)
    ensures ThreadOk(pol, v', u, pc)
  {
    hide Snapshot;
    SnapshotIsExclusive(pol, pc);
  }

  lemma SnapshotIsExclusive(pol: Policy, pc: Pc)
    ensures Snapshot(pc).Some? ==> Exclusive(pc)
    ensures SawClean(pol, pc) ==> Exclusive(pc) || Shared(pc)
  {
  }

  lemma NextKeepsInv(pol: Policy, s: Gateway, m: Move, s': Gateway)
    requires Inv(pol, s) && Next(pol, s, m, s')
    ensures Inv(pol, s')
  {
    hide StageStep, ReverifyStep, ReadStep, WriteStep, ThreadOk, VarsOk, Allowed;
    match m
    case Thread(t) =>
      var pc, pc' := At(s, t), At(s', t);
      if StageStep(pol, s.v, t, pc, s'.v, pc') {
        StageOwn(pol, s.v, t, pc, s'.v, pc');
      } else if ReverifyStep(s.v, t, pc, s'.v, pc') {
        ReverifyOwn(pol, s.v, t, pc, s'.v, pc');
      } else if ReadStep(s.v, t, pc, s'.v, pc') {
        ReadOwn(pol, s.v, t, pc, s'.v, pc');
      } else {
        WriteOwn(pol, s.v, t, pc, s'.v, pc');
      }
      forall u ensures ThreadOk(pol, s'.v, u, At(s', u)) {
        if u != t {
          assert At(s', u) == At(s, u);
          OtherKeeps(pol, s.v, t, s'.v, u, At(s, u));
        }
      }
    case Notify => EnvironmentKeeps(pol, s, s');
    case Exit => EnvironmentKeeps(pol, s, s');
  }

  lemma EnvironmentKeeps(pol: Policy, s: Gateway, s': Gateway)
    requires Inv(pol, s)
    requires s' == s.(v := s.v.(notified := s.v.notified + 1)) || s' == s.(v := s.v.(dead := true))
    ensures Inv(pol, s')
  {
    hide Exclusive, Shared, SawClean, Snapshot;
    forall u ensures ThreadOk(pol, s'.v, u, At(s', u)) {
      assert ThreadOk(pol, s.v, u, At(s, u));
    }
  }

  lemma {:induction false} RunInv(pol: Policy, states: seq<Gateway>, moves: seq<Move>, k: nat)
    requires Run(pol, states, moves) && k < |states|
    ensures Inv(pol, states[k])
  {
    hide Next;
    if k > 0 {
      RunInv(pol, states, moves, k - 1);
      assert Next(pol, states[k - 1], moves[k - 1], states[k - 1 + 1]);
      NextKeepsInv(pol, states[k - 1], moves[k - 1], states[k]);
    }
  }

  // ----- counters and poison -----

  lemma NextGrows(pol: Policy, s: Gateway, m: Move, s': Gateway)
    requires Inv(pol, s) && Next(pol, s, m, s')
    ensures s.v.notified <= s'.v.notified && s.v.verified <= s'.v.verified && (s.v.poisoned ==> s'.v.poisoned)
  {
    hide WriteStep, ReadStep, StageStep, VarsOk;
    if m.Thread? {
      var pc, pc' := At(s, m.t), At(s', m.t);
      assert ThreadOk(pol, s.v, m.t, pc);
      StageAndCallsKeep(pol, s.v, m.t, pc, s'.v, pc');
    }
  }

  predicate CountersKept(v: Vars, v': Vars) {
    v'.notified == v.notified && v'.verified == v.verified && v'.poisoned == v.poisoned
  }

  lemma StageKeeps(pol: Policy, v: Vars, t: nat, pc: Pc, v': Vars, pc': Pc)
    requires StageStep(pol, v, t, pc, v', pc')
    ensures CountersKept(v, v')
  {
  }

  lemma ReadKeeps(v: Vars, t: nat, pc: Pc, v': Vars, pc': Pc)
    requires ReadStep(v, t, pc, v', pc')
    ensures CountersKept(v, v')
  {
  }

  lemma WriteKeeps(pol: Policy, v: Vars, t: nat, pc: Pc, v': Vars, pc': Pc)
    requires WriteStep(pol, v, t, pc, v', pc')
    ensures CountersKept(v, v')
  {
  }

  /** Only re-verification touches the counters and the poison flag. */
  lemma StageAndCallsKeep(pol: Policy, v: Vars, t: nat, pc: Pc, v': Vars, pc': Pc)
    requires Local(pol, v, t, pc, v', pc')
    ensures ReverifyStep(v, t, pc, v', pc') || CountersKept(v, v')
  {
    hide ReverifyStep, StageStep, ReadStep, WriteStep, CountersKept;
    if StageStep(pol, v, t, pc, v', pc') {
      StageKeeps(pol, v, t, pc, v', pc');
    } else if ReadStep(v, t, pc, v', pc') {
      ReadKeeps(v, t, pc, v', pc');
    } else if WriteStep(pol, v, t, pc, v', pc') {
      WriteKeeps(pol, v, t, pc, v', pc');
    }
  }

  /** Main result: in every interleaving verifiedGen never passes notifiedGen, both
      only grow, and a poisoned gateway stays poisoned. */
  lemma {:induction false} CountersOnlyGrow(pol: Policy, states: seq<Gateway>, moves: seq<Move>, i: nat, k: nat)
    requires Run(pol, states, moves) && i <= k < |states|
    ensures states[i].v.notified <= states[k].v.notified && states[i].v.verified <= states[k].v.verified
    ensures states[k].v.verified <= states[k].v.notified
    ensures states[i].v.poisoned ==> states[k].v.poisoned
    decreases k
  {
    hide Next, ThreadOk;
    RunInv(pol, states, moves, k);
    if i < k {
      CountersOnlyGrow(pol, states, moves, i, k - 1);
      RunInv(pol, states, moves, k - 1);
      assert Next(pol, states[k - 1], moves[k - 1], states[k - 1 + 1]);
      NextGrows(pol, states[k - 1], moves[k - 1], states[k]);
    }
  }

  /** Main result: under every policy that the loader accepts, no upstream call, read
      or write, overlaps poisoning; read calls do not under any policy. */
  lemma PoisonStopsCalls(pol: Policy, states: seq<Gateway>, moves: seq<Move>, k: nat, t: nat)
    requires Run(pol, states, moves) && k < |states| && states[k].v.poisoned
    ensures !At(states[k], t).RCalling?
    ensures Accepted(pol) ==> !At(states[k], t).WCalling?
  {
    hide Run, VarsOk;
    RunInv(pol, states, moves, k);
    assert ThreadOk(pol, states[k].v, t, At(states[k], t));
  }

  // ----- which tools are called -----

  function BackOf(pc: Pc): Option<Back> {
    match pc
    case Lock(back) => Some(back)
    case RvPoisoned(back) => Some(back)
    case RvDead(back) => Some(back)
    case RvSnapshot(back) => Some(back)
    case RvFetch(back, _) => Some(back)
    case RvFetching(back, _) => Some(back)
    case RvStore(back, _) => Some(back)
    case _ => None
  }

  /** A thread that serves a write call, past its guards, and one that serves a read call. */
  predicate ForWrite(pc: Pc) {
    || pc.WLock? || pc.WLoadNotified? || pc.WLoadVerified? || pc.WCommit? || pc.WCall? || pc.WCalling?
    || BackOf(pc) == Some(ToCommit)
  }

  predicate ForRead(pc: Pc) {
    || pc.RLock? || pc.RPoisoned? || pc.RDead? || pc.RLoadNotified? || pc.RLoadVerified? || pc.RCall? || pc.RCalling?
    || pc == RLeave(true) || pc.UnlockToRead? || BackOf(pc) == Some(ToReadLoop)
  }

  predicate Entitled(pol: Policy, pc: Pc) {
    (ForWrite(pc) ==> HasWriteTool(pol)) && (ForRead(pc) ==> HasReadTool(pol))
  }

  lemma StageEntitled(pol: Policy, v: Vars, t: nat, pc: Pc, v': Vars, pc': Pc)
    requires Entitled(pol, pc) && StageStep(pol, v, t, pc, v', pc')
    ensures Entitled(pol, pc')
  {
    hide HasWriteTool, HasReadTool;
  }

  lemma ReverifyEntitled(pol: Policy, v: Vars, t: nat, pc: Pc, v': Vars, pc': Pc)
    requires Entitled(pol, pc) && ReverifyStep(v, t, pc, v', pc')
    ensures Entitled(pol, pc')
  {
    hide HasWriteTool, HasReadTool;
  }

  lemma ReadEntitled(pol: Policy, v: Vars, t: nat, pc: Pc, v': Vars, pc': Pc)
    requires Entitled(pol, pc) && ReadStep(v, t, pc, v', pc')
    ensures Entitled(pol, pc')
  {
    hide HasWriteTool, HasReadTool;
  }

  lemma WriteEntitled(pol: Policy, v: Vars, t: nat, pc: Pc, v': Vars, pc': Pc)
    requires Entitled(pol, pc) && WriteStep(pol, v, t, pc, v', pc')
    ensures Entitled(pol, pc')
  {
    hide HasWriteTool, HasReadTool;
  }

  lemma NextEntitled(pol: Policy, s: Gateway, m: Move, s': Gateway, t: nat)
    requires Next(pol, s, m, s') && Entitled(pol, At(s, t))
    ensures Entitled(pol, At(s', t))
  {
    hide Entitled, StageStep, ReverifyStep, ReadStep, WriteStep;
    if m == Thread(t) {
      var pc, pc' := At(s, t), At(s', t);
      if StageStep(pol, s.v, t, pc, s'.v, pc') {
        StageEntitled(pol, s.v, t, pc, s'.v, pc');
      } else if ReverifyStep(s.v, t, pc, s'.v, pc') {
        ReverifyEntitled(pol, s.v, t, pc, s'.v, pc');
      } else if ReadStep(s.v, t, pc, s'.v, pc') {
        ReadEntitled(pol, s.v, t, pc, s'.v, pc');
      } else {
        WriteEntitled(pol, s.v, t, pc, s'.v, pc');
      }
    } else {
      assert At(s', t) == At(s, t);
    }
  }

  lemma {:induction false} RunEntitled(pol: Policy, states: seq<Gateway>, moves: seq<Move>, k: nat, t: nat)
    requires Run(pol, states, moves) && k < |states|
    ensures Entitled(pol, At(states[k], t))
  {
    hide Next;
    if k > 0 {
      RunEntitled(pol, states, moves, k - 1, t);
      assert Next(pol, states[k - 1], moves[k - 1], states[k - 1 + 1]);
      NextEntitled(pol, states[k - 1], moves[k - 1], states[k], t);
    }
  }

  /** Only enabled tools are called, as what they are. */
  lemma CalledToolsAreEnabled(pol: Policy, states: seq<Gateway>, moves: seq<Move>, k: nat, t: nat)
    requires Run(pol, states, moves) && k < |states|
    ensures At(states[k], t).RCalling? ==> exists name :: name in pol.tools && pol.tools[name] == Tool(Read, true)
    ensures At(states[k], t).WCalling? ==>
              exists name :: name in pol.tools && pol.tools[name].enabled && pol.tools[name].action != Read
  {
    hide Run;
    RunEntitled(pol, states, moves, k, t);
  }

  // ----- what a read call rests on -----

  ghost predicate ReadHeld(states: seq<Gateway>, j: nat, k: nat, t: nat) {
    j <= k < |states| && forall m | j <= m <= k :: t in states[m].v.readers
  }

  /** The counters were equal at moment j, and t has held the read lock since. */
  ghost predicate SawEqual(states: seq<Gateway>, j: nat, k: nat, t: nat) {
    ReadHeld(states, j, k, t) && states[j].v.notified == states[j].v.verified
  }

  /** notifiedGen was n at moment j, and since then t has held the read lock and
      verifiedGen has not changed. */
  ghost predicate Loaded(states: seq<Gateway>, j: nat, k: nat, t: nat, n: nat) {
    ReadHeld(states, j, k, t) && states[j].v.notified == n && states[j].v.verified == states[k].v.verified
  }

  ghost predicate ReadBasis(states: seq<Gateway>, k: nat, t: nat)
    requires k < |states|
  {
    var pc := At(states[k], t);
    && (pc.RLoadVerified? ==> exists j: nat :: Loaded(states, j, k, t, pc.n))
    && (pc.RCall? || pc.RCalling? ==> exists j: nat :: SawEqual(states, j, k, t))
  }

  lemma ExtendHeld(states: seq<Gateway>, j: nat, k: nat, t: nat)
    requires ReadHeld(states, j, k, t) && k + 1 < |states| && t in states[k + 1].v.readers
    ensures ReadHeld(states, j, k + 1, t)
  {
  }

  lemma ReadersFreezeVerified(pol: Policy, s: Gateway, m: Move, s': Gateway, t: nat)
    requires Inv(pol, s) && Next(pol, s, m, s') && t in s.v.readers
    ensures s'.v.verified == s.v.verified
  {
    hide WriteStep, ReadStep, StageStep;
    if m.Thread? {
      StageAndCallsKeep(pol, s.v, m.t, At(s, m.t), s'.v, At(s', m.t));
      assert ThreadOk(pol, s.v, m.t, At(s, m.t));
    }
  }

  /** How a thread gets to the program points of a read call. */
  lemma ReadPcFrom(pol: Policy, s: Gateway, m: Move, s': Gateway, t: nat)
    requires Inv(pol, s) && Next(pol, s, m, s')
    ensures var pc, pc' := At(s, t), At(s', t);
            && (pc'.RLoadVerified? ==> pc' == pc || (pc.RLoadNotified? && pc'.n == s.v.notified && s'.v == s.v))
            && (pc'.RCall? ==> pc' == pc || (pc.RLoadVerified? && pc.n == s.v.verified && s'.v == s.v))
            && (pc'.RCalling? ==> pc' == pc || (pc.RCall? && s'.v == s.v))
            && (pc'.RLoadVerified? || pc'.RCall? || pc'.RCalling? ==> t in s.v.readers && t in s'.v.readers)
  {
    NextKeepsInv(pol, s, m, s');
    hide Inv, StageStep, ReverifyStep, WriteStep;
    ReadPcOnly(pol, s, m, s', t);
    InvAt(pol, s, t);
    InvAt(pol, s', t);
  }

  lemma InvAt(pol: Policy, s: Gateway, t: nat)
    requires Inv(pol, s)
    ensures ThreadOk(pol, s.v, t, At(s, t))
  {
  }

  /** Only executeReadCall comes to its last check and to its call. */
  lemma OtherStepsStayOut(pol: Policy, v: Vars, t: nat, pc: Pc, v': Vars, pc': Pc)
    requires StageStep(pol, v, t, pc, v', pc') || ReverifyStep(v, t, pc, v', pc') || WriteStep(pol, v, t, pc, v', pc')
    ensures !(pc'.RLoadVerified? || pc'.RCall? || pc'.RCalling?)
  {
  }

  lemma ReadPcOnly(pol: Policy, s: Gateway, m: Move, s': Gateway, t: nat)
    requires Next(pol, s, m, s')
    ensures At(s', t) == At(s, t)
            || ReadStep(s.v, t, At(s, t), s'.v, At(s', t))
            || !(At(s', t).RLoadVerified? || At(s', t).RCall? || At(s', t).RCalling?)
  {
    hide StageStep, ReverifyStep, ReadStep, WriteStep;
    match m
    case Thread(u) =>
      if u == t && !ReadStep(s.v, t, At(s, t), s'.v, At(s', t)) {
        OtherStepsStayOut(pol, s.v, t, At(s, t), s'.v, At(s', t));
      }
    case _ =>
  }

  lemma {:induction false} ReadHasBasis(pol: Policy, states: seq<Gateway>, moves: seq<Move>, k: nat, t: nat)
    requires Run(pol, states, moves) && k < |states|
    ensures ReadBasis(states, k, t)
  {
    if k > 0 {
      ReadHasBasis(pol, states, moves, k - 1, t);
      RunInv(pol, states, moves, k - 1);
      assert Next(pol, states[k - 1], moves[k - 1], states[k - 1 + 1]);
      NextReadBasis(pol, states, k - 1, moves[k - 1], t);
    }
  }

  lemma NextReadBasis(pol: Policy, states: seq<Gateway>, k: nat, m: Move, t: nat)
    requires k + 1 < |states| && Inv(pol, states[k]) && Next(pol, states[k], m, states[k + 1])
    requires ReadBasis(states, k, t)
    ensures ReadBasis(states, k + 1, t)
  {
    hide Next, Inv, ReadHeld;
    var s, s' := states[k], states[k + 1];
    var pc, pc' := At(s, t), At(s', t);
    ReadPcFrom(pol, s, m, s', t);
    if pc'.RLoadVerified? || pc'.RCall? || pc'.RCalling? {
      ReadersFreezeVerified(pol, s, m, s', t);
      if pc'.RLoadVerified? && pc' != pc {
        HeldNow(states, k, t);
        ExtendHeld(states, k, k, t);
        assert Loaded(states, k, k + 1, t, pc'.n);
      } else if pc.RLoadVerified? {
        var j: nat :| Loaded(states, j, k, t, pc.n);
        ExtendHeld(states, j, k, t);
        assert pc' == pc ==> Loaded(states, j, k + 1, t, pc.n);
        assert pc' != pc ==> SawEqual(states, j, k + 1, t);
      } else {
        var j: nat :| SawEqual(states, j, k, t);
        ExtendHeld(states, j, k, t);
        assert SawEqual(states, j, k + 1, t);
      }
    }
  }

  lemma HeldNow(states: seq<Gateway>, k: nat, t: nat)
    requires k < |states| && t in states[k].v.readers
    ensures ReadHeld(states, k, k, t)
  {
  }

  /** Main result: every read call in progress has held the read lock since a
      moment when the two counters were equal. */
  lemma ReadCallsAreVerified(pol: Policy, states: seq<Gateway>, moves: seq<Move>, k: nat, t: nat)
    requires Run(pol, states, moves) && k < |states| && At(states[k], t).RCalling?
    ensures exists j: nat :: SawEqual(states, j, k, t)
  {
    ReadHasBasis(pol, states, moves, k, t);
  }

  // ----- what a write call rests on -----

  ghost predicate WriteHeld(states: seq<Gateway>, i: nat, k: nat, t: nat) {
    i <= k < |states| && forall m | i <= m <= k :: states[m].v.writer == Some(t)
  }

  /** The fetch was about to start at moment i, and t has held the lock since. */
  ghost predicate FetchBegan(states: seq<Gateway>, i: nat, k: nat, t: nat) {
    WriteHeld(states, i, k, t) && At(states[i], t).RvFetch?
  }

  /** ... and it had ended well at moment j. */
  ghost predicate Fetched(states: seq<Gateway>, i: nat, j: nat, k: nat, t: nat) {
    FetchBegan(states, i, k, t) && i < j <= k && At(states[j], t).RvStore?
  }

  ghost predicate WriteBasis(pol: Policy, states: seq<Gateway>, k: nat, t: nat)
    requires k < |states|
  {
    var pc := At(states[k], t);
    && (pc.RvFetching? ==> exists i: nat :: i < k && FetchBegan(states, i, k, t))
    && (pc.RvStore? || (Accepted(pol) && (pc.WCommit? || pc.WCall? || pc.WCalling?)) ==>
          exists i: nat, j: nat :: Fetched(states, i, j, k, t))
  }

  /** A program point between the end of a good fetch and the end of the call. */
  predicate PastFetch(pol: Policy, pc: Pc) {
    pc.RvStore? || (Accepted(pol) && (pc.WCommit? || pc.WCall? || pc.WCalling?))
  }

  /** How a thread gets to the program points of a write call. */
  lemma WritePcFrom(pol: Policy, s: Gateway, m: Move, s': Gateway, t: nat)
    requires Inv(pol, s) && Next(pol, s, m, s')
    ensures var pc, pc' := At(s, t), At(s', t);
            && (pc'.RvFetching? ==> pc' == pc || pc.RvFetch?)
            && (PastFetch(pol, pc') ==> PastFetch(pol, pc) || (pc.RvFetching? && pc'.RvStore?))
  {
    hide StageStep, ReadStep, Inv;
    InvAt(pol, s, t);
    if m.Thread? && m.t == t {
      StageNeverFetches(pol, s.v, t, At(s, t), s'.v, At(s', t));
      ReadNeverFetches(pol, s.v, t, At(s, t), s'.v, At(s', t));
    } else {
      assert At(s', t) == At(s, t);
    }
  }

  lemma StageNeverFetches(pol: Policy, v: Vars, t: nat, pc: Pc, v': Vars, pc': Pc)
    ensures StageStep(pol, v, t, pc, v', pc') ==> !pc'.RvFetching? && !PastFetch(pol, pc')
  {
  }

  lemma ReadNeverFetches(pol: Policy, v: Vars, t: nat, pc: Pc, v': Vars, pc': Pc)
    ensures ReadStep(v, t, pc, v', pc') ==> !pc'.RvFetching? && !PastFetch(pol, pc')
  {
  }

  lemma ExtendWriteHeld(states: seq<Gateway>, i: nat, k: nat, t: nat)
    requires WriteHeld(states, i, k, t) && k + 1 < |states| && states[k + 1].v.writer == Some(t)
    ensures WriteHeld(states, i, k + 1, t)
  {
  }

  lemma ExclusiveHolds(pol: Policy, s: Gateway, t: nat)
    requires Inv(pol, s) && (At(s, t).RvFetch? || At(s, t).RvFetching? || PastFetch(pol, At(s, t)))
    ensures s.v.writer == Some(t)
  {
    InvAt(pol, s, t);
  }

  lemma WriteHeldNow(states: seq<Gateway>, k: nat, t: nat)
    requires k < |states| && states[k].v.writer == Some(t)
    ensures WriteHeld(states, k, k, t)
  {
  }

  lemma NextWriteBasis(pol: Policy, states: seq<Gateway>, k: nat, m: Move, t: nat)
    requires k + 1 < |states| && Inv(pol, states[k]) && Next(pol, states[k], m, states[k + 1])
    requires WriteBasis(pol, states, k, t)
    ensures WriteBasis(pol, states, k + 1, t)
  {
    hide Next, Inv, WriteHeld;
    var s, s' := states[k], states[k + 1];
    var pc, pc' := At(s, t), At(s', t);
    WritePcFrom(pol, s, m, s', t);
    NextKeepsInv(pol, s, m, s');
    if pc'.RvFetching? || PastFetch(pol, pc') {
      ExclusiveHolds(pol, s, t);
      ExclusiveHolds(pol, s', t);
      if pc.RvFetch? {
        WriteHeldNow(states, k, t);
        ExtendWriteHeld(states, k, k, t);
        assert FetchBegan(states, k, k + 1, t);
      } else if pc.RvFetching? {
        var i: nat :| i < k && FetchBegan(states, i, k, t);
        ExtendWriteHeld(states, i, k, t);
        assert FetchBegan(states, i, k + 1, t);
        assert pc'.RvStore? ==> Fetched(states, i, k + 1, k + 1, t);
      } else {
        var i: nat, j: nat :| Fetched(states, i, j, k, t);
        ExtendWriteHeld(states, i, k, t);
        assert Fetched(states, i, j, k + 1, t);
      }
    }
  }

  lemma {:induction false} WriteHasBasis(pol: Policy, states: seq<Gateway>, moves: seq<Move>, k: nat, t: nat)
    requires Run(pol, states, moves) && k < |states|
    ensures WriteBasis(pol, states, k, t)
  {
    hide Next, Inv, FetchBegan, Fetched;
    if k > 0 {
      WriteHasBasis(pol, states, moves, k - 1, t);
      RunInv(pol, states, moves, k - 1);
      assert Next(pol, states[k - 1], moves[k - 1], states[k - 1 + 1]);
      NextWriteBasis(pol, states, k - 1, moves[k - 1], t);
    }
  }

  /** Main result: under every accepted policy the manifest fetch of every write call
      in progress started and ended well inside the exclusive hold that
      the call is still under. */
  lemma WriteCallsAreReverified(pol: Policy, states: seq<Gateway>, moves: seq<Move>, k: nat, t: nat)
    requires Accepted(pol) && Run(pol, states, moves) && k < |states| && At(states[k], t).WCalling?
    ensures exists i: nat, j: nat :: Fetched(states, i, j, k, t)
  {
    WriteHasBasis(pol, states, moves, k, t);
  }

  // ----- why the loader refuses writes without re-verification -----

  ghost predicate Reachable(pol: Policy, s: Gateway) {
    exists states, moves :: Run(pol, states, moves) && states[|moves|] == s
  }

  lemma ReachNext(pol: Policy, s: Gateway, m: Move, s': Gateway)
    requires Reachable(pol, s) && Next(pol, s, m, s')
    ensures Reachable(pol, s')
  {
    hide Next;
    var states, moves :| Run(pol, states, moves) && states[|moves|] == s;
    var states', moves' := states + [s'], moves + [m];
    forall k | 0 <= k < |moves'| ensures Next(pol, states'[k], moves'[k], states'[k + 1]) {
      if k < |moves| {
        assert Next(pol, states[k], moves[k], states[k + 1]);
      }
    }
    assert Run(pol, states', moves') && states'[|moves'|] == s';
  }

  /** From o to s thread t alone has moved. */
  ghost predicate Walk(pol: Policy, o: Gateway, s: Gateway, t: nat) {
    (s == o || s.pcs == o.pcs[t := At(s, t)]) && exists path :: Path(pol, o, s, t, path)
  }

  ghost predicate Path(pol: Policy, o: Gateway, s: Gateway, t: nat, path: seq<Gateway>) {
    && |path| > 0 && path[0] == o && path[|path| - 1] == s
    && forall k | 0 <= k < |path| - 1 :: Next(pol, path[k], Thread(t), path[k + 1])
  }

  lemma PathSnoc(pol: Policy, o: Gateway, s: Gateway, t: nat, path: seq<Gateway>, s': Gateway)
    requires Path(pol, o, s, t, path) && Next(pol, s, Thread(t), s')
    ensures Path(pol, o, s', t, path + [s'])
  {
    hide Next;
    var more := path + [s'];
    forall k | 0 <= k < |more| - 1 ensures Next(pol, more[k], Thread(t), more[k + 1]) {
      if k < |path| - 1 {
        assert Next(pol, path[k], Thread(t), path[k + 1]);
      }
    }
  }

  /** A walk from a reachable state is part of a run. */
  lemma {:induction false} PathReaches(pol: Policy, o: Gateway, s: Gateway, t: nat, path: seq<Gateway>)
    requires Reachable(pol, o) && Path(pol, o, s, t, path)
    ensures Reachable(pol, s)
    decreases |path|
  {
    hide Next, Reachable;
    if |path| > 1 {
      var n := |path| - 1;
      assert Path(pol, o, path[n - 1], t, path[..n]);
      PathReaches(pol, o, path[n - 1], t, path[..n]);
      assert Next(pol, path[n - 1], Thread(t), path[n - 1 + 1]);
      ReachNext(pol, path[n - 1], Thread(t), s);
    }
  }

  lemma WalkReaches(pol: Policy, o: Gateway, s: Gateway, t: nat)
    requires Reachable(pol, o) && Walk(pol, o, s, t)
    ensures Reachable(pol, s)
  {
    hide Reachable, Path;
    var path :| Path(pol, o, s, t, path);
    PathReaches(pol, o, s, t, path);
  }

  /** One step of thread t to the shared variables v and the program point pc. */
  lemma Go(pol: Policy, o: Gateway, s: Gateway, t: nat, v: Vars, pc: Pc) returns (s': Gateway)
    requires Walk(pol, o, s, t) && Local(pol, s.v, t, At(s, t), v, pc)
    ensures s' == Gateway(v, o.pcs[t := pc]) && Walk(pol, o, s', t) && At(s', t) == pc
  {
    hide Local, Path;
    s' := Gateway(v, s.pcs[t := pc]);
    assert Next(pol, s, Thread(t), s');
    var path :| Path(pol, o, s, t, path);
    PathSnoc(pol, o, s, t, path, s');
    assert s'.pcs == o.pcs[t := pc];
  }

  lemma GoStage(pol: Policy, o: Gateway, s: Gateway, t: nat, v: Vars, pc: Pc) returns (s': Gateway)
    requires Walk(pol, o, s, t) && StageStep(pol, s.v, t, At(s, t), v, pc)
    ensures s' == Gateway(v, o.pcs[t := pc]) && Walk(pol, o, s', t) && At(s', t) == pc
  {
    hide StageStep, Walk;
    s' := Go(pol, o, s, t, v, pc);
  }

  lemma GoReverify(pol: Policy, o: Gateway, s: Gateway, t: nat, v: Vars, pc: Pc) returns (s': Gateway)
    requires Walk(pol, o, s, t) && ReverifyStep(s.v, t, At(s, t), v, pc)
    ensures s' == Gateway(v, o.pcs[t := pc]) && Walk(pol, o, s', t) && At(s', t) == pc
  {
    hide ReverifyStep, Walk;
    s' := Go(pol, o, s, t, v, pc);
  }

  lemma GoWrite(pol: Policy, o: Gateway, s: Gateway, t: nat, v: Vars, pc: Pc) returns (s': Gateway)
    requires Walk(pol, o, s, t) && WriteStep(pol, s.v, t, At(s, t), v, pc)
    ensures s' == Gateway(v, o.pcs[t := pc]) && Walk(pol, o, s', t) && At(s', t) == pc
  {
    hide WriteStep, Walk;
    s' := Go(pol, o, s, t, v, pc);
  }

  lemma GoRead(pol: Policy, o: Gateway, s: Gateway, t: nat, v: Vars, pc: Pc) returns (s': Gateway)
    requires Walk(pol, o, s, t) && ReadStep(s.v, t, At(s, t), v, pc)
    ensures s' == Gateway(v, o.pcs[t := pc]) && Walk(pol, o, s', t) && At(s', t) == pc
  {
    hide ReadStep, Walk;
    s' := Go(pol, o, s, t, v, pc);
  }

  lemma Stay(pol: Policy, s: Gateway, t: nat)
    ensures Walk(pol, s, s, t)
  {
    assert Path(pol, s, s, t, [s]);
  }

  /** Thread t passes the first checks and reads the first counter. */
  lemma GoToCounters(pol: Policy, s: Gateway, t: nat) returns (s': Gateway)
    requires At(s, t).Idle? && !s.v.poisoned && !s.v.dead
    ensures s' == Gateway(s.v, s.pcs[t := LoadVerified(s.v.notified)]) && Walk(pol, s, s', t)
    ensures At(s', t) == LoadVerified(s.v.notified)
  {
    hide Walk, At;
    Stay(pol, s, t);
    s' := GoStage(pol, s, s, t, s.v, CheckPoisoned);
    s' := GoStage(pol, s, s', t, s.v, CheckDead);
    s' := GoStage(pol, s, s', t, s.v, LoadNotified);
    s' := GoStage(pol, s, s', t, s.v, LoadVerified(s.v.notified));
  }

  /** Thread t finds the counters apart and goes for the exclusive lock. */
  lemma GoToLock(pol: Policy, s: Gateway, t: nat) returns (s': Gateway)
    requires At(s, t).Idle? && !s.v.poisoned && !s.v.dead && s.v.notified != s.v.verified
    ensures s' == Gateway(s.v, s.pcs[t := Lock(ToGuards)]) && Walk(pol, s, s', t)
  {
    hide Walk, At, HasWriteTool;
    s' := GoToCounters(pol, s, t);
    s' := GoStage(pol, s, s', t, s.v, Lock(ToGuards));
  }

  /** Thread t takes the lock and fetches the manifest. */
  lemma GoFetch(pol: Policy, s: Gateway, t: nat) returns (s': Gateway)
    requires At(s, t) == Lock(ToGuards) && !s.v.poisoned && !s.v.dead && CanLock(s.v)
    ensures s' == Gateway(s.v.(writer := Some(t)), s.pcs[t := RvFetching(ToGuards, s.v.notified)]) && Walk(pol, s, s', t)
  {
    hide Walk, At, HasWriteTool;
    Stay(pol, s, t);
    var v := s.v.(writer := Some(t));
    s' := GoStage(pol, s, s, t, v, RvPoisoned(ToGuards));
    s' := GoReverify(pol, s, s', t, v, RvDead(ToGuards));
    s' := GoReverify(pol, s, s', t, v, RvSnapshot(ToGuards));
    s' := GoReverify(pol, s, s', t, v, RvFetch(ToGuards, v.notified));
    s' := GoReverify(pol, s, s', t, v, RvFetching(ToGuards, v.notified));
  }

  /** A good manifest: the generation is verified and the lock released. */
  lemma GoVerify(pol: Policy, s: Gateway, t: nat, g: nat) returns (s': Gateway)
    requires At(s, t) == RvFetching(ToGuards, g)
    ensures s' == Gateway(s.v.(verified := g, writer := None), s.pcs[t := Guards]) && Walk(pol, s, s', t)
  {
    hide Walk, At, HasWriteTool;
    Stay(pol, s, t);
    s' := GoReverify(pol, s, s, t, s.v, RvStore(ToGuards, g));
    s' := GoReverify(pol, s, s', t, s.v.(verified := g), UnlockToGuards);
    s' := GoStage(pol, s, s', t, s.v.(verified := g, writer := None), Guards);
  }

  /** A bad manifest: the gateway is poisoned, the session closed and the lock released. */
  lemma GoPoison(pol: Policy, s: Gateway, t: nat, g: nat) returns (s': Gateway)
    requires At(s, t) == RvFetching(ToGuards, g)
    ensures s' == Gateway(s.v.(poisoned := true, closed := true, writer := None), s.pcs[t := Idle]) && Walk(pol, s, s', t)
  {
    hide Walk, At, HasWriteTool;
    Stay(pol, s, t);
    s' := GoReverify(pol, s, s, t, s.v, RvPoison);
    s' := GoReverify(pol, s, s', t, s.v.(poisoned := true), RvClose);
    s' := GoReverify(pol, s, s', t, s.v.(poisoned := true, closed := true), UnlockToDeny);
    s' := GoStage(pol, s, s', t, s.v.(poisoned := true, closed := true, writer := None), Idle);
  }

  /** A write call passes stages 0 to 3 and waits for the lock. */
  lemma GoToWrite(pol: Policy, s: Gateway, t: nat) returns (s': Gateway)
    requires HasWriteTool(pol) && At(s, t).Idle? && !s.v.poisoned && !s.v.dead && s.v.notified == s.v.verified
    ensures s' == Gateway(s.v, s.pcs[t := WLock]) && Walk(pol, s, s', t)
  {
    hide Walk, At, HasWriteTool;
    s' := GoToCounters(pol, s, t);
    s' := GoStage(pol, s, s', t, s.v, Guards);
    s' := GoStage(pol, s, s', t, s.v, WLock);
  }

  /** With equal counters the write call goes on to the upstream, poisoned or not. */
  lemma GoCall(pol: Policy, s: Gateway, t: nat) returns (s': Gateway)
    requires !Reverifies(pol) && At(s, t).WLock? && CanLock(s.v) && s.v.notified == s.v.verified
    ensures s' == Gateway(s.v.(writer := Some(t)), s.pcs[t := WCalling]) && Walk(pol, s, s', t)
  {
    hide Walk, At, HasWriteTool;
    Stay(pol, s, t);
    var v := s.v.(writer := Some(t));
    s' := GoWrite(pol, s, s, t, v, WLoadNotified);
    s' := GoWrite(pol, s, s', t, v, WLoadVerified(v.notified));
    s' := GoWrite(pol, s, s', t, v, WCommit);
    s' := GoWrite(pol, s, s', t, v, WCall);
    s' := GoWrite(pol, s, s', t, v, WCalling);
  }

  /** Why the loader's check is needed: under a refused policy, while a write call waits
      for the lock, one notification sends two other threads to re-verify; the first
      succeeds, the second finds a bad manifest under the same generation, so the
      counters are equal and nothing else is checked. */
  lemma WriteOnPoisoned(pol: Policy) returns (s: Gateway)
    requires !Accepted(pol)
    ensures Reachable(pol, s) && s.v.poisoned && s.v.closed && At(s, 0).WCalling?
  {
    hide Reachable;
    hide Walk;
    var s0 := Start(pol);
    var s1 := GoToWrite(pol, s0, 0);
    WalkReaches(pol, s0, s1, 0);
    var s2 := s1.(v := s1.v.(notified := 2));
    ReachNext(pol, s1, Notify, s2);
    var s3 := GoToLock(pol, s2, 1);
    WalkReaches(pol, s2, s3, 1);
    var s4 := GoToLock(pol, s3, 2);
    WalkReaches(pol, s3, s4, 2);
    var s5 := GoFetch(pol, s4, 1);
    WalkReaches(pol, s4, s5, 1);
    var s6 := GoVerify(pol, s5, 1, 2);
    WalkReaches(pol, s5, s6, 1);
    var s7 := GoFetch(pol, s6, 2);
    WalkReaches(pol, s6, s7, 2);
    var s8 := GoPoison(pol, s7, 2, 2);
    WalkReaches(pol, s7, s8, 2);
    s := GoCall(pol, s8, 0);
    WalkReaches(pol, s8, s, 0);
  }

  lemma Start(pol: Policy) returns (s: Gateway)
    ensures Reachable(pol, s) && s == Gateway(Vars(1, 1, false, false, false, None, {}), map[])
  {
    s := Gateway(Vars(1, 1, false, false, false, None, {}), map[]);
    var moves: seq<Move> := [];
    assert Run(pol, [s], moves) && [s][|moves|] == s;
  }

  /** Main result: write calls avoid a poisoned gateway in every interleaving exactly
      under the policies that the loader accepts. */
  lemma WritesAvoidPoisonIff(pol: Policy)
    ensures Accepted(pol) <==> forall s, t :: Reachable(pol, s) && s.v.poisoned ==> !At(s, t).WCalling?
  {
    hide Run, Next, Accepted;
    if Accepted(pol) {
      forall s, t | Reachable(pol, s) && s.v.poisoned ensures !At(s, t).WCalling? {
        var states, moves := RunTo(pol, s);
        PoisonStopsCalls(pol, states, moves, |moves|, t);
      }
    } else {
      var s := WriteOnPoisoned(pol);
      assert Reachable(pol, s) && s.v.poisoned && At(s, 0).WCalling?;
    }
  }

  /** Main result: whatever the policy, a write call that runs on a poisoned gateway
      runs on a session that poisoning has closed. */
  lemma PoisonedCallsMeetClosed(pol: Policy, s: Gateway, t: nat)
    requires Reachable(pol, s) && s.v.poisoned && (At(s, t).WCall? || At(s, t).WCalling?)
    ensures s.v.closed
  {
    hide Next;
    var states, moves := RunTo(pol, s);
    RunInv(pol, states, moves, |moves|);
    InvAt(pol, s, t);
  }

  lemma RunTo(pol: Policy, s: Gateway) returns (states: seq<Gateway>, moves: seq<Move>)
    requires Reachable(pol, s)
    ensures Run(pol, states, moves) && |moves| < |states| && states[|moves|] == s
  {
    hide Next;
    states, moves :| Run(pol, states, moves) && states[|moves|] == s;
  }
}
