/** What calls achieve: under an accepted policy they get through, end, poison or are refused. */
module EpochProgress {
  import opened Epoch

  /** The gateway is in service and its lock is free. */
  predicate InService(v: Vars) {
    !v.poisoned && !v.dead && CanLock(v)
  }

  lemma GoFetching(pol: Policy, o: Gateway, s: Gateway, t: nat, back: Back) returns (s': Gateway)
    requires Walk(pol, o, s, t) && At(s, t) == RvPoisoned(back) && !s.v.poisoned && !s.v.dead
    ensures Walk(pol, o, s', t) && At(s', t) == RvFetching(back, s.v.notified)
    ensures s' == Gateway(s.v, o.pcs[t := RvFetching(back, s.v.notified)])
  {
    hide Walk, At;
    s' := GoReverify(pol, o, s, t, s.v, RvDead(back));
    s' := GoReverify(pol, o, s', t, s.v, RvSnapshot(back));
    s' := GoReverify(pol, o, s', t, s.v, RvFetch(back, s.v.notified));
    s' := GoReverify(pol, o, s', t, s.v, RvFetching(back, s.v.notified));
  }

  /** A re-verification whose fetch ends well, from the lock to what follows it. */
  lemma GoReverified(pol: Policy, o: Gateway, s: Gateway, t: nat, back: Back) returns (s': Gateway)
    requires Walk(pol, o, s, t) && At(s, t) == RvPoisoned(back) && !s.v.poisoned && !s.v.dead
    ensures Walk(pol, o, s', t) && At(s', t) == AfterReverify(back)
    ensures s' == Gateway(s.v.(verified := s.v.notified), o.pcs[t := AfterReverify(back)])
  {
    hide Walk, At;
    s' := GoFetching(pol, o, s, t, back);
    s' := GoReverify(pol, o, s', t, s.v, RvStore(back, s.v.notified));
    s' := GoReverify(pol, o, s', t, s.v.(verified := s.v.notified), AfterReverify(back));
  }

  /** Stage 0 on a gateway in service, whatever its counters. */
  lemma GoToGuards(pol: Policy, s: Gateway, t: nat) returns (s': Gateway)
    requires InService(s.v) && At(s, t).Idle?
    ensures Walk(pol, s, s', t) && At(s', t) == Guards
    ensures s' == Gateway(s.v.(verified := s.v.notified), s.pcs[t := Guards])
  {
    hide Walk, At;
    s' := GoToCounters(pol, s, t);
    if s.v.notified == s.v.verified {
      s' := GoStage(pol, s, s', t, s.v, Guards);
    } else {
      s' := GoStage(pol, s, s', t, s.v, Lock(ToGuards));
      s' := GoStage(pol, s, s', t, s.v.(writer := Some(t)), RvPoisoned(ToGuards));
      s' := GoReverified(pol, s, s', t, ToGuards);
      s' := GoStage(pol, s, s', t, s.v.(verified := s.v.notified), Guards);
    }
  }

  /** The write call from its wait for the lock to the upstream. */
  lemma GoFromWriteLock(pol: Policy, o: Gateway, s: Gateway, t: nat) returns (s': Gateway)
    requires Reverifies(pol) && Walk(pol, o, s, t) && InService(s.v) && At(s, t) == WLock
    ensures Walk(pol, o, s', t) && At(s', t) == WCalling
    ensures s' == Gateway(s.v.(verified := s.v.notified, writer := Some(t)), o.pcs[t := WCalling])
  {
    hide Walk, At;
    s' := GoWrite(pol, o, s, t, s.v.(writer := Some(t)), RvPoisoned(ToCommit));
    s' := GoReverified(pol, o, s', t, ToCommit);
    var v := s.v.(verified := s.v.notified, writer := Some(t));
    s' := GoWrite(pol, o, s', t, v, WCall);
    s' := GoWrite(pol, o, s', t, v, WCalling);
  }

  /** Main result: under every accepted policy with a write tool, on a gateway in service,
      a write call that starts or waits for the lock can go through to the upstream by
      steps of its own thread, with the manifest verified for the last notification. */
  lemma WriteCallsGetThrough(pol: Policy, name: string, s: Gateway, t: nat) returns (s': Gateway)
    requires Accepted(pol) && name in pol.tools && pol.tools[name].enabled && pol.tools[name].action != Read
    requires InService(s.v) && (At(s, t).Idle? || At(s, t).WLock?)
    ensures Walk(pol, s, s', t) && At(s', t).WCalling?
    ensures s'.v == s.v.(verified := s.v.notified, writer := Some(t))
    ensures forall u | u != t :: At(s', u) == At(s, u)
  {
    assert IsWriteTool(pol.tools[name]) && HasWriteTool(pol);
    hide Walk, At, HasWriteTool;
    Stay(pol, s, t);
    s' := s;
    if At(s, t).Idle? {
      s' := GoToGuards(pol, s, t);
      s' := GoStage(pol, s, s', t, s.v.(verified := s.v.notified), WLock);
    }
    s' := GoFromWriteLock(pol, s, s', t);
    OthersStay(s, s', t, WCalling);
  }

  lemma OthersStay(s: Gateway, s': Gateway, t: nat, pc: Pc)
    requires s'.pcs == s.pcs[t := pc]
    ensures forall u | u != t :: At(s', u) == At(s, u)
  {
  }

  /** A read call up to its comparison of the counters. */
  lemma GoReadCheck(pol: Policy, o: Gateway, s: Gateway, t: nat) returns (s': Gateway)
    requires Walk(pol, o, s, t) && InService(s.v) && At(s, t) == RLock
    ensures Walk(pol, o, s', t) && At(s', t) == RLoadVerified(s.v.notified)
    ensures s' == Gateway(s.v.(readers := {t}), o.pcs[t := RLoadVerified(s.v.notified)])
  {
    hide Walk, At;
    var v := s.v.(readers := {t});
    assert s.v.readers + {t} == {t};
    s' := GoRead(pol, o, s, t, v, RPoisoned);
    s' := GoRead(pol, o, s', t, v, RDead);
    s' := GoRead(pol, o, s', t, v, RLoadNotified);
    s' := GoRead(pol, o, s', t, v, RLoadVerified(v.notified));
  }

  /** It finds them equal. */
  lemma GoReadEqual(pol: Policy, o: Gateway, s: Gateway, t: nat) returns (s': Gateway)
    requires Walk(pol, o, s, t) && InService(s.v) && s.v.notified == s.v.verified && At(s, t) == RLock
    ensures Walk(pol, o, s', t) && At(s', t) == RCalling
    ensures s' == Gateway(s.v.(readers := {t}), o.pcs[t := RCalling])
  {
    hide Walk, At;
    s' := GoReadCheck(pol, o, s, t);
    s' := GoRead(pol, o, s', t, s.v.(readers := {t}), RCall);
    s' := GoRead(pol, o, s', t, s.v.(readers := {t}), RCalling);
  }

  /** It finds them apart, gives up its lock and comes back to take the exclusive one. */
  lemma GoReadApart(pol: Policy, o: Gateway, s: Gateway, t: nat) returns (s': Gateway)
    requires Walk(pol, o, s, t) && InService(s.v) && s.v.notified != s.v.verified && At(s, t) == RLock
    ensures Walk(pol, o, s', t) && At(s', t) == Lock(ToReadLoop)
    ensures s' == Gateway(s.v, o.pcs[t := Lock(ToReadLoop)])
  {
    hide Walk, At;
    s' := GoReadCheck(pol, o, s, t);
    var v := s.v.(readers := {t});
    assert v.readers - {t} == {};
    s' := GoRead(pol, o, s', t, v, RLeave(true));
    s' := GoRead(pol, o, s', t, s.v, Lock(ToReadLoop));
  }

  lemma GoFromReadLock(pol: Policy, o: Gateway, s: Gateway, t: nat) returns (s': Gateway)
    requires Walk(pol, o, s, t) && InService(s.v) && At(s, t) == RLock
    ensures Walk(pol, o, s', t) && At(s', t) == RCalling
    ensures s' == Gateway(s.v.(verified := s.v.notified, readers := {t}), o.pcs[t := RCalling])
  {
    hide Walk, At;
    s' := s;
    if s.v.notified != s.v.verified {
      s' := GoReadApart(pol, o, s, t);
      s' := GoStage(pol, o, s', t, s.v.(writer := Some(t)), RvPoisoned(ToReadLoop));
      s' := GoReverified(pol, o, s', t, ToReadLoop);
      s' := GoStage(pol, o, s', t, s.v.(verified := s.v.notified), RLock);
    }
    s' := GoReadEqual(pol, o, s', t);
  }

  /** Main result: the same for read calls, through the loop that re-verifies when a
      notification has come after stage 0. */
  lemma ReadCallsGetThrough(pol: Policy, name: string, s: Gateway, t: nat) returns (s': Gateway)
    requires name in pol.tools && pol.tools[name] == Tool(Read, true)
    requires InService(s.v) && (At(s, t).Idle? || At(s, t).RLock?)
    ensures Walk(pol, s, s', t) && At(s', t).RCalling?
    ensures s'.v == s.v.(verified := s.v.notified, readers := {t})
    ensures forall u | u != t :: At(s', u) == At(s, u)
  {
    assert HasReadTool(pol);
    hide Walk, At, HasReadTool;
    Stay(pol, s, t);
    s' := s;
    if At(s, t).Idle? {
      s' := GoToGuards(pol, s, t);
      s' := GoStage(pol, s, s', t, s.v.(verified := s.v.notified), RLock);
    }
    s' := GoFromReadLock(pol, s, s', t);
    OthersStay(s, s', t, RCalling);
  }

  /** A call that returns gives back its lock and changes nothing else. */
  lemma CallsReturn(pol: Policy, s: Gateway, t: nat) returns (s': Gateway)
    requires At(s, t).WCalling? || At(s, t).RCalling?
    ensures Walk(pol, s, s', t) && At(s', t).Idle?
    ensures s'.v == if At(s, t).WCalling? then s.v.(writer := None) else s.v.(readers := s.v.readers - {t})
  {
    Stay(pol, s, t);
    hide Walk;
    if At(s, t).WCalling? {
      s' := GoWrite(pol, s, s, t, s.v, UnlockToDeny);
      s' := GoStage(pol, s, s', t, s.v.(writer := None), Idle);
    } else {
      s' := GoRead(pol, s, s, t, s.v, RLeave(false));
      s' := GoRead(pol, s, s', t, s.v.(readers := s.v.readers - {t}), Idle);
    }
  }

  /** A fetch that finds another manifest poisons the gateway, closes the session and
      frees the lock; one that loses the upstream marks it dead and frees the lock. */
  lemma BadFetchEnds(pol: Policy, s: Gateway, t: nat, lost: bool) returns (s': Gateway)
    requires At(s, t).RvFetching?
    ensures Walk(pol, s, s', t) && At(s', t).Idle?
    ensures s'.v == if lost then s.v.(dead := true, writer := None) else s.v.(poisoned := true, closed := true, writer := None)
  {
    Stay(pol, s, t);
    hide Walk, At;
    if lost {
      s' := GoReverify(pol, s, s, t, s.v, RvKill);
      s' := GoReverify(pol, s, s', t, s.v.(dead := true), UnlockToDeny);
      s' := GoStage(pol, s, s', t, s.v.(dead := true, writer := None), Idle);
    } else {
      s' := GoReverify(pol, s, s, t, s.v, RvPoison);
      s' := GoReverify(pol, s, s', t, s.v.(poisoned := true), RvClose);
      s' := GoReverify(pol, s, s', t, s.v.(poisoned := true, closed := true), UnlockToDeny);
      s' := GoStage(pol, s, s', t, s.v.(poisoned := true, closed := true, writer := None), Idle);
    }
  }

  // ----- out of service -----

  /** A thread that is idle or in the first two checks. */
  predicate Outside(pc: Pc) {
    pc.Idle? || pc.CheckPoisoned? || pc.CheckDead?
  }

  lemma StaysOutside(pol: Policy, s: Gateway, m: Move, s': Gateway, t: nat)
    requires Next(pol, s, m, s') && s.v.dead && Outside(At(s, t))
    ensures s'.v.dead && Outside(At(s', t))
  {
    if m.Thread? {
      DeadStays(pol, s.v, m.t, At(s, m.t), s'.v, At(s', m.t));
    }
  }

  lemma StageStaysDead(pol: Policy, v: Vars, t: nat, pc: Pc, v': Vars, pc': Pc)
    requires StageStep(pol, v, t, pc, v', pc') && v.dead
    ensures v'.dead
  {
    hide HasReadTool, HasWriteTool;
  }

  lemma ReverifyStaysDead(v: Vars, t: nat, pc: Pc, v': Vars, pc': Pc)
    requires ReverifyStep(v, t, pc, v', pc') && v.dead
    ensures v'.dead
  {
  }

  lemma CallStaysDead(pol: Policy, v: Vars, t: nat, pc: Pc, v': Vars, pc': Pc)
    requires (ReadStep(v, t, pc, v', pc') || WriteStep(pol, v, t, pc, v', pc')) && v.dead
    ensures v'.dead
  {
    hide HasWriteTool;
  }

  lemma DeadStays(pol: Policy, v: Vars, t: nat, pc: Pc, v': Vars, pc': Pc)
    requires Local(pol, v, t, pc, v', pc') && v.dead
    ensures v'.dead
  {
    hide StageStep, ReverifyStep, ReadStep, WriteStep;
    if StageStep(pol, v, t, pc, v', pc') {
      StageStaysDead(pol, v, t, pc, v', pc');
    } else if ReverifyStep(v, t, pc, v', pc') {
      ReverifyStaysDead(v, t, pc, v', pc');
    } else {
      CallStaysDead(pol, v, t, pc, v', pc');
    }
  }

  lemma {:induction false} StaysOutsideLong(pol: Policy, states: seq<Gateway>, moves: seq<Move>, i: nat, k: nat, t: nat)
    requires Run(pol, states, moves) && i <= k < |states| && states[i].v.dead && Outside(At(states[i], t))
    ensures states[k].v.dead && Outside(At(states[k], t))
    decreases k
  {
    hide Next, Outside;
    if i < k {
      StaysOutsideLong(pol, states, moves, i, k - 1, t);
      assert Next(pol, states[k - 1], moves[k - 1], states[k - 1 + 1]);
      StaysOutside(pol, states[k - 1], moves[k - 1], states[k], t);
    }
  }

  /** Main result: once the upstream process has ended, no call that starts afterwards
      reaches the upstream or fetches from it. */
  lemma DeadUpstreamRefusesCalls(pol: Policy, states: seq<Gateway>, moves: seq<Move>, i: nat, k: nat, t: nat)
    requires Run(pol, states, moves) && i < k < |states| && moves[i] == Exit && At(states[i], t).Idle?
    ensures !At(states[k], t).RCalling? && !At(states[k], t).WCalling? && !At(states[k], t).RvFetching?
  {
    assert Next(pol, states[i], moves[i], states[i + 1]);
    StaysOutsideLong(pol, states, moves, i + 1, k, t);
  }
}
