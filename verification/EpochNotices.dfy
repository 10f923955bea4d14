/** Notifications are heeded: no call that starts after one rests on an older manifest. */
module EpochNotices {
  import opened Epoch

  /** The fetch for generation g was about to start at moment i; at moment j it has ended well. */
  ghost predicate GoodFetch(states: seq<Gateway>, i: nat, j: nat, u: nat, g: nat) {
    && i < j < |states|
    && At(states[i], u).RvFetch? && At(states[i], u).g == g
    && At(states[j], u).RvStore? && At(states[j], u).g == g
  }

  /** Some fetch for a generation above n started after moment i and has ended well by k. */
  ghost predicate FetchedSince(states: seq<Gateway>, i: nat, k: nat, n: nat) {
    exists b: nat, e: nat, u: nat, g: nat :: i < b && e <= k && g > n && GoodFetch(states, b, e, u, g)
  }

  /** The fetch that a thread's program point rests on. */
  ghost predicate FetchBasis(states: seq<Gateway>, k: nat, u: nat)
    requires k < |states|
  {
    var pc := At(states[k], u);
    && (pc.RvFetching? ==> exists b: nat :: b < k && At(states[b], u).RvFetch? && At(states[b], u).g == pc.g)
    && (pc.RvStore? ==> exists b: nat :: GoodFetch(states, b, k, u, pc.g))
  }

  /** How a thread comes to fetch, and to store. */
  lemma FetchPcFrom(pol: Policy, s: Gateway, m: Move, s': Gateway, u: nat)
    requires Next(pol, s, m, s')
    ensures var pc, pc' := At(s, u), At(s', u);
            && (pc'.RvFetching? ==> pc' == pc || (pc.RvFetch? && pc.g == pc'.g))
            && (pc'.RvStore? ==> pc' == pc || (pc.RvFetching? && pc.g == pc'.g))
  {
    hide StageStep, ReverifyStep, ReadStep, WriteStep;
    if m.Thread? && m.t == u {
      OthersDoNotFetch(pol, s.v, u, At(s, u), s'.v, At(s', u));
      if ReverifyStep(s.v, u, At(s, u), s'.v, At(s', u)) {
        ReverifyFetches(s.v, u, At(s, u), s'.v, At(s', u));
      }
    }
  }

  lemma ReverifyFetches(v: Vars, t: nat, pc: Pc, v': Vars, pc': Pc)
    requires ReverifyStep(v, t, pc, v', pc')
    ensures pc'.RvFetching? ==> pc.RvFetch? && pc.g == pc'.g
    ensures pc'.RvStore? ==> pc.RvFetching? && pc.g == pc'.g
  {
  }

  lemma OthersDoNotFetch(pol: Policy, v: Vars, t: nat, pc: Pc, v': Vars, pc': Pc)
    ensures StageStep(pol, v, t, pc, v', pc') || ReadStep(v, t, pc, v', pc') ==> !pc'.RvFetching? && !pc'.RvStore?
    ensures WriteStep(pol, v, t, pc, v', pc') ==> !pc'.RvFetching? && !pc'.RvStore?
  {
    hide HasReadTool, HasWriteTool;
  }

  lemma {:induction false} HasFetchBasis(pol: Policy, states: seq<Gateway>, moves: seq<Move>, k: nat, u: nat)
    requires Run(pol, states, moves) && k < |states|
    ensures FetchBasis(states, k, u)
  {
    hide Next;
    if k > 0 {
      HasFetchBasis(pol, states, moves, k - 1, u);
      assert Next(pol, states[k - 1], moves[k - 1], states[k - 1 + 1]);
      FetchPcFrom(pol, states[k - 1], moves[k - 1], states[k], u);
      var pc, before := At(states[k], u), At(states[k - 1], u);
      if pc.RvStore? && before.RvFetching? {
        var b: nat :| b < k - 1 && At(states[b], u).RvFetch? && At(states[b], u).g == before.g;
        assert GoodFetch(states, b, k, u, pc.g);
      }
      if pc.RvStore? && before.RvStore? {
        var b: nat :| GoodFetch(states, b, k - 1, u, before.g);
        assert GoodFetch(states, b, k, u, pc.g);
      }
    }
  }

  /** A store for a generation above notifiedGen at moment i follows a fetch after i. */
  lemma StoredSince(pol: Policy, states: seq<Gateway>, moves: seq<Move>, i: nat, e: nat, k: nat, u: nat)
    requires Run(pol, states, moves) && i < |states| && e <= k < |states|
    requires At(states[e], u).RvStore? && At(states[e], u).g > states[i].v.notified
    ensures FetchedSince(states, i, k, states[i].v.notified)
  {
    hide Next;
    HasFetchBasis(pol, states, moves, e, u);
    var g := At(states[e], u).g;
    var b: nat :| GoodFetch(states, b, e, u, g);
    RunInv(pol, states, moves, b);
    InvAt(pol, states[b], u);
    if b <= i {
      CountersOnlyGrow(pol, states, moves, b, i);
    }
  }

  /** verifiedGen rises only by storing what has been fetched. */
  lemma RisesByStore(pol: Policy, s: Gateway, m: Move, s': Gateway)
    requires Next(pol, s, m, s') && s'.v.verified != s.v.verified
    ensures m.Thread? && At(s, m.t).RvStore? && At(s, m.t).g == s'.v.verified
  {
    hide StageStep, ReverifyStep, ReadStep, WriteStep;
    if m.Thread? {
      StageAndCallsKeep(pol, s.v, m.t, At(s, m.t), s'.v, At(s', m.t));
      StoreRaises(s.v, m.t, At(s, m.t), s'.v, At(s', m.t));
    }
  }

  lemma StoreRaises(v: Vars, t: nat, pc: Pc, v': Vars, pc': Pc)
    requires ReverifyStep(v, t, pc, v', pc') && v'.verified != v.verified
    ensures pc.RvStore? && pc.g == v'.verified
  {
  }

  lemma {:induction false} RoseSince(pol: Policy, states: seq<Gateway>, moves: seq<Move>, i: nat, k: nat)
    requires Run(pol, states, moves) && i <= k < |states| && states[k].v.verified > states[i].v.notified
    ensures FetchedSince(states, i, k, states[i].v.notified)
    decreases k
  {
    hide Next, FetchedSince;
    RunInv(pol, states, moves, i);
    if i < k {
      assert Next(pol, states[k - 1], moves[k - 1], states[k - 1 + 1]);
      if states[k - 1].v.verified > states[i].v.notified {
        RoseSince(pol, states, moves, i, k - 1);
        LaterToo(states, i, k - 1, k, states[i].v.notified);
      } else {
        RisesByStore(pol, states[k - 1], moves[k - 1], states[k]);
        StoredSince(pol, states, moves, i, k - 1, k, moves[k - 1].t);
      }
    }
  }

  lemma LaterToo(states: seq<Gateway>, i: nat, j: nat, k: nat, n: nat)
    requires FetchedSince(states, i, j, n) && j <= k
    ensures FetchedSince(states, i, k, n)
  {
    var b: nat, e: nat, u: nat, g: nat :| i < b && e <= j && g > n && GoodFetch(states, b, e, u, g);
  }

  // ----- write calls -----

  /** A thread that was idle at moment i takes its snapshots later. */
  lemma {:induction false} OwnSnapshots(pol: Policy, states: seq<Gateway>, moves: seq<Move>, i: nat, k: nat, t: nat)
    requires Run(pol, states, moves) && i <= k < |states| && At(states[i], t).Idle?
    ensures Snapshot(At(states[k], t)).Some? ==> exists j :: i <= j < k && Snapshot(At(states[k], t)).value == states[j].v.notified
                                                             && moves[j] == Thread(t)
    decreases k
  {
    hide Next;
    if i < k {
      OwnSnapshots(pol, states, moves, i, k - 1, t);
      assert Next(pol, states[k - 1], moves[k - 1], states[k - 1 + 1]);
      if Snapshot(At(states[k], t)).Some? {
        SnapshotFrom(pol, states[k - 1], moves[k - 1], states[k], t);
      }
    }
  }

  lemma SnapshotFrom(pol: Policy, s: Gateway, m: Move, s': Gateway, t: nat)
    requires Next(pol, s, m, s') && Snapshot(At(s', t)).Some?
    ensures Snapshot(At(s, t)) == Snapshot(At(s', t)) || (m == Thread(t) && Snapshot(At(s', t)).value == s.v.notified)
  {
    hide StageStep, ReadStep, WriteStep, HasReadTool, HasWriteTool;
    if m == Thread(t) {
      NoSnapshot(pol, s.v, t, At(s, t), s'.v, At(s', t));
    }
  }

  lemma NoSnapshot(pol: Policy, v: Vars, t: nat, pc: Pc, v': Vars, pc': Pc)
    ensures StageStep(pol, v, t, pc, v', pc') || ReadStep(v, t, pc, v', pc') ==> Snapshot(pc').None?
    ensures WriteStep(pol, v, t, pc, v', pc') ==> Snapshot(pc').None?
  {
    hide HasReadTool, HasWriteTool;
  }

  /** Main result: when the upstream has announced another tool list, every call that starts
      afterwards reaches the upstream only after a manifest fetch that started after the
      announcement and ended well. */
  lemma NotificationsAreHeeded(pol: Policy, states: seq<Gateway>, moves: seq<Move>, i: nat, k: nat, t: nat)
    requires Run(pol, states, moves) && i < k < |states| && moves[i] == Notify && At(states[i], t).Idle?
    requires At(states[k], t).RCalling? || (Accepted(pol) && At(states[k], t).WCalling?)
    ensures FetchedSince(states, i, k, states[i].v.notified)
  {
    hide Next, FetchedSince, Accepted;
    assert Next(pol, states[i], moves[i], states[i + 1]);
    Noticed(pol, states[i], states[i + 1]);
    RunInv(pol, states, moves, i);
    InvAt(pol, states[i], t);
    if At(states[k], t).RCalling? {
      ReadCallsAreVerified(pol, states, moves, k, t);
      var j: nat :| SawEqual(states, j, k, t);
      if j <= i {
        assert false;
      }
      CountersOnlyGrow(pol, states, moves, i + 1, j);
      RoseSince(pol, states, moves, i, j);
      LaterToo(states, i, j, k, states[i].v.notified);
    } else {
      WriteCallsAreReverified(pol, states, moves, k, t);
      var b: nat, e: nat :| Fetched(states, b, e, k, t);
      if b <= i {
        assert false;
      }
      OwnSnapshots(pol, states, moves, i, e, t);
      var j :| i <= j < e && Snapshot(At(states[e], t)).value == states[j].v.notified && moves[j] == Thread(t);
      CountersOnlyGrow(pol, states, moves, i + 1, j);
      StoredSince(pol, states, moves, i, e, k, t);
    }
  }

  lemma Noticed(pol: Policy, s: Gateway, s': Gateway)
    requires Next(pol, s, Notify, s')
    ensures s'.v.notified > s.v.notified
  {
  }
}
