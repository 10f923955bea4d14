/** Separation of Duties (CheckSoDRules in internal/authz/policy.go). */
module Sod {
  import opened Json

  datatype Rule = Rule(id: string, conflicting: seq<string>, caseInsensitive: bool)

  type Grants = map<string, set<string>>
  type Statics = map<string, seq<string>>

  /** How a rule reads an entitlement: folded to lower case if it says so. */
  function KeyOf(rule: Rule, ent: string): string {
    if rule.caseInsensitive then Lower(ent) else ent
  }

  predicate SubjectMatches(rule: Rule, a: string, b: string) {
    a == b || (rule.caseInsensitive && Lower(a) == Lower(b))
  }

  function Conflicts(rule: Rule): set<string> {
    set c | c in rule.conflicting :: KeyOf(rule, c)
  }

  /** The requested entitlements that meet the rule's conflict set. */
  function Requested(rule: Rule, ents: seq<string>): set<string> {
    set e | e in ents && KeyOf(rule, e) in Conflicts(rule) :: KeyOf(rule, e)
  }

  function StaticHeld(rule: Rule, statics: Statics, subject: string): set<string> {
    set s, e | s in statics && SubjectMatches(rule, s, subject) && e in statics[s] && KeyOf(rule, e) in Conflicts(rule)
      :: KeyOf(rule, e)
  }

  function LedgerHeld(rule: Rule, grants: Grants, subject: string): set<string> {
    set s, e | s in grants && SubjectMatches(rule, s, subject) && e in grants[s] && KeyOf(rule, e) in Conflicts(rule)
      :: KeyOf(rule, e)
  }

  /** The rule as documented: the request meets the conflict set, and the request,
      the static baseline and the ledger together hold two of its members. */
  predicate Violates(rule: Rule, subject: string, ents: seq<string>, statics: Statics, grants: Grants) {
    Requested(rule, ents) != {}
    && |Requested(rule, ents) + StaticHeld(rule, statics, subject) + LedgerHeld(rule, grants, subject)| >= 2
  }

  predicate SubjectConflict(rules: seq<Rule>, statics: Statics, subject: string, ents: seq<string>, grants: Grants) {
    exists j | 0 <= j < |rules| :: Violates(rules[j], subject, ents, statics, grants)
  }

  predicate Conflict(rules: seq<Rule>, statics: Statics, subjects: seq<string>, ents: seq<string>, grants: Grants) {
    exists i | 0 <= i < |subjects| :: SubjectConflict(rules, statics, subjects[i], ents, grants)
  }

  // ----- the nested loops of the source -----

  method ConflictSet(rule: Rule) returns (c: set<string>)
    ensures c == Conflicts(rule)
  {
    c := {};
    for i := 0 to |rule.conflicting|
      invariant c == set x | x in rule.conflicting[..i] :: KeyOf(rule, x)
    {
      var ce := rule.conflicting[i];
      assert rule.conflicting[..i + 1] == rule.conflicting[..i] + [ce];
      c := c + {KeyOf(rule, ce)};
    }
    assert rule.conflicting[..|rule.conflicting|] == rule.conflicting;
  }

  method MatchRequested(rule: Rule, ents: seq<string>, c: set<string>) returns (matched: set<string>)
    requires c == Conflicts(rule)
    ensures matched == Requested(rule, ents)
  {
    matched := {};
    for i := 0 to |ents|
      invariant matched == Requested(rule, ents[..i])
    {
      var key := KeyOf(rule, ents[i]);
      assert ents[..i + 1] == ents[..i] + [ents[i]];
      if key in c {
        matched := matched + {key};
      }
    }
    assert ents[..|ents|] == ents;
  }

  lemma NothingHeld(rule: Rule, subject: string)
    ensures StaticHeld(rule, map[], subject) == {} && LedgerHeld(rule, map[], subject) == {}
  {
  }

  method MatchStatic(rule: Rule, statics: Statics, subject: string, c: set<string>) returns (matched: set<string>)
    requires c == Conflicts(rule)
    ensures matched == StaticHeld(rule, statics, subject)
  {
    hide StaticHeld, Requested;
    NothingHeld(rule, subject);
    matched := {};
    var rest := statics.Keys;
    ghost var seen: Statics := map[];
    while rest != {}
      invariant rest <= statics.Keys
      invariant seen == map s | s in statics && s !in rest :: statics[s]
      invariant matched == StaticHeld(rule, seen, subject)
      decreases |rest|
    {
      var s :| s in rest;
      if SubjectMatches(rule, s, subject) {
        var more := MatchRequested(rule, statics[s], c);
        matched := matched + more;
      }
      rest := rest - {s};
      ghost var before := seen;
      seen := seen[s := statics[s]];
      StaticStep(rule, before, subject, s, statics[s]);
    }
    assert seen == statics;
  }

  lemma StaticStep(rule: Rule, before: Statics, subject: string, s: string, ents: seq<string>)
    requires s !in before
    ensures StaticHeld(rule, before[s := ents], subject)
         == StaticHeld(rule, before, subject) + if SubjectMatches(rule, s, subject) then Requested(rule, ents) else {}
  {
    var after := before[s := ents];
    forall k | k in StaticHeld(rule, before, subject) ensures k in StaticHeld(rule, after, subject) {
      var s', e :| s' in before && SubjectMatches(rule, s', subject) && e in before[s']
                   && KeyOf(rule, e) in Conflicts(rule) && KeyOf(rule, e) == k;
      assert s' in after && e in after[s'];
    }
    if SubjectMatches(rule, s, subject) {
      forall k | k in Requested(rule, ents) ensures k in StaticHeld(rule, after, subject) {
        var e :| e in ents && KeyOf(rule, e) in Conflicts(rule) && KeyOf(rule, e) == k;
        assert s in after && e in after[s];
      }
    }
  }

  method MatchLedger(rule: Rule, grants: Grants, subject: string, c: set<string>) returns (matched: set<string>)
    requires c == Conflicts(rule)
    ensures matched == LedgerHeld(rule, grants, subject)
  {
    hide LedgerHeld, Requested;
    NothingHeld(rule, subject);
    matched := {};
    var rest := grants.Keys;
    ghost var seen: Grants := map[];
    while rest != {}
      invariant rest <= grants.Keys
      invariant seen == map s | s in grants && s !in rest :: grants[s]
      invariant matched == LedgerHeld(rule, seen, subject)
      decreases |rest|
    {
      var s :| s in rest;
      if SubjectMatches(rule, s, subject) {
        matched := matched + set e | e in grants[s] && KeyOf(rule, e) in c :: KeyOf(rule, e);
      }
      rest := rest - {s};
      ghost var before := seen;
      seen := seen[s := grants[s]];
      LedgerStep(rule, before, subject, s, grants[s]);
    }
    assert seen == grants;
  }

  lemma LedgerStep(rule: Rule, before: Grants, subject: string, s: string, ents: set<string>)
    requires s !in before
    ensures LedgerHeld(rule, before[s := ents], subject)
         == LedgerHeld(rule, before, subject)
            + if SubjectMatches(rule, s, subject) then set e | e in ents && KeyOf(rule, e) in Conflicts(rule) :: KeyOf(rule, e) else {}
  {
    var after := before[s := ents];
    forall k | k in LedgerHeld(rule, before, subject) ensures k in LedgerHeld(rule, after, subject) {
      var s', e :| s' in before && SubjectMatches(rule, s', subject) && e in before[s']
                   && KeyOf(rule, e) in Conflicts(rule) && KeyOf(rule, e) == k;
      assert s' in after && e in after[s'];
    }
    if SubjectMatches(rule, s, subject) {
      forall e | e in ents && KeyOf(rule, e) in Conflicts(rule) ensures KeyOf(rule, e) in LedgerHeld(rule, after, subject) {
        assert s in after && e in after[s];
      }
    }
  }

  method CheckRule(rule: Rule, subject: string, ents: seq<string>, statics: Statics, grants: Grants) returns (bad: bool)
    ensures bad <==> Violates(rule, subject, ents, statics, grants)
  {
    var c := ConflictSet(rule);
    var matched := MatchRequested(rule, ents, c);
    if matched == {} {
      return false;
    }
    var baseline := MatchStatic(rule, statics, subject, c);
    var ledger := MatchLedger(rule, grants, subject, c);
    matched := matched + baseline + ledger;
    return |matched| >= 2;
  }

  /** The inner loop, over the rules. */
  method CheckSubject(rules: seq<Rule>, statics: Statics, subject: string, ents: seq<string>, grants: Grants)
    returns (bad: bool)
    ensures bad <==> SubjectConflict(rules, statics, subject, ents, grants)
  {
    hide Violates;
    for j := 0 to |rules|
      invariant forall j' | 0 <= j' < j :: !Violates(rules[j'], subject, ents, statics, grants)
    {
      var v := CheckRule(rules[j], subject, ents, statics, grants);
      if v {
        return true;
      }
    }
    return false;
  }

  /** CheckSoDRules: an error exactly when some subject and rule conflict. */
  method CheckSoDRules(rules: seq<Rule>, statics: Statics, subjects: seq<string>, ents: seq<string>, grants: Grants)
    returns (bad: bool)
    ensures bad <==> Conflict(rules, statics, subjects, ents, grants)
  {
    hide SubjectConflict;
    for i := 0 to |subjects|
      invariant forall i' | 0 <= i' < i :: !SubjectConflict(rules, statics, subjects[i'], ents, grants)
    {
      var v := CheckSubject(rules, statics, subjects[i], ents, grants);
      if v {
        return true;
      }
    }
    return false;
  }

  // ----- what the check keeps true of the ledger -----

  /** A subject that holds something of a conflict set through the ledger holds
      at most one member of it, the static baseline included. */
  ghost predicate SubjectSafe(rule: Rule, statics: Statics, grants: Grants, subject: string) {
    LedgerHeld(rule, grants, subject) != {} ==>
      |StaticHeld(rule, statics, subject) + LedgerHeld(rule, grants, subject)| <= 1
  }

  ghost predicate SodHolds(rules: seq<Rule>, statics: Statics, grants: Grants) {
    forall j, u | 0 <= j < |rules| :: SubjectSafe(rules[j], statics, grants, u)
  }

  predicate Holds(grants: Grants, s: string, e: string) {
    s in grants && e in grants[s]
  }

  ghost predicate IsUpdate(before: Grants, after: Grants, subjects: seq<string>, ents: seq<string>) {
    forall s, e :: Holds(after, s, e) <==> Holds(before, s, e) || (s in subjects && e in ents)
  }

  lemma SubsetCard(a: set<string>, b: set<string>)
    requires a <= b
    ensures |a| <= |b|
  {
    if b - a != {} {
      var x :| x in b - a;
      SubsetCard(a, b - {x});
    } else {
      assert forall x | x in b :: x in b - a || x in a;
      assert a == b;
    }
  }

  lemma HeldIff(rule: Rule, grants: Grants, subject: string, k: string)
    ensures k in LedgerHeld(rule, grants, subject) <==>
            exists s, e :: Holds(grants, s, e) && SubjectMatches(rule, s, subject)
                           && KeyOf(rule, e) in Conflicts(rule) && KeyOf(rule, e) == k
  {
    if k in LedgerHeld(rule, grants, subject) {
      var s, e :| s in grants && SubjectMatches(rule, s, subject) && e in grants[s]
                  && KeyOf(rule, e) in Conflicts(rule) && KeyOf(rule, e) == k;
      assert Holds(grants, s, e);
    }
    if s, e :| Holds(grants, s, e) && SubjectMatches(rule, s, subject)
               && KeyOf(rule, e) in Conflicts(rule) && KeyOf(rule, e) == k {
      assert s in grants && e in grants[s];
    }
  }

  /** Fewer grants cannot break the rule: revocation, or equal grants. */
  lemma FewerGrantsSafe(rules: seq<Rule>, statics: Statics, before: Grants, after: Grants)
    requires SodHolds(rules, statics, before)
    requires forall s, e :: Holds(after, s, e) ==> Holds(before, s, e)
    ensures SodHolds(rules, statics, after)
  {
    forall j, u | 0 <= j < |rules| ensures SubjectSafe(rules[j], statics, after, u) {
      var rule := rules[j];
      assert LedgerHeld(rule, after, u) <= LedgerHeld(rule, before, u) by {
        forall k | k in LedgerHeld(rule, after, u) ensures k in LedgerHeld(rule, before, u) {
          HeldIff(rule, after, u, k);
          HeldIff(rule, before, u, k);
        }
      }
      assert SubjectSafe(rule, statics, before, u);
      SubsetCard(StaticHeld(rule, statics, u) + LedgerHeld(rule, after, u),
                 StaticHeld(rule, statics, u) + LedgerHeld(rule, before, u));
    }
  }

  /** Subjects that a rule identifies hold the same, by ledger and by baseline. */
  lemma MatchingSubjectsHoldSame(rule: Rule, statics: Statics, grants: Grants, a: string, b: string)
    requires SubjectMatches(rule, a, b)
    ensures LedgerHeld(rule, grants, a) == LedgerHeld(rule, grants, b)
    ensures StaticHeld(rule, statics, a) == StaticHeld(rule, statics, b)
  {
    assert forall s :: SubjectMatches(rule, s, a) <==> SubjectMatches(rule, s, b);
  }

  /** What a subject holds after the requested pairs have been added. */
  lemma HeldAfterUpdate(rule: Rule, before: Grants, after: Grants, subjects: seq<string>, ents: seq<string>, u: string)
    requires IsUpdate(before, after, subjects, ents)
    ensures LedgerHeld(rule, after, u)
         == LedgerHeld(rule, before, u)
            + if exists s :: s in subjects && SubjectMatches(rule, s, u) then Requested(rule, ents) else {}
  {
    var touched := exists s :: s in subjects && SubjectMatches(rule, s, u);
    var expected := LedgerHeld(rule, before, u) + if touched then Requested(rule, ents) else {};
    forall k ensures k in LedgerHeld(rule, after, u) <==> k in expected {
      HeldIff(rule, after, u, k);
      HeldIff(rule, before, u, k);
      if k in LedgerHeld(rule, before, u) {
        var s, e :| Holds(before, s, e) && SubjectMatches(rule, s, u)
                    && KeyOf(rule, e) in Conflicts(rule) && KeyOf(rule, e) == k;
        assert Holds(after, s, e);
      }
      if touched && k in Requested(rule, ents) {
        var s :| s in subjects && SubjectMatches(rule, s, u);
        var e :| e in ents && KeyOf(rule, e) in Conflicts(rule) && KeyOf(rule, e) == k;
        assert Holds(after, s, e);
      }
    }
  }

  lemma CommitKeepsSubjectSafe(rule: Rule, statics: Statics, before: Grants, after: Grants,
                               subjects: seq<string>, ents: seq<string>, u: string)
    requires SubjectSafe(rule, statics, before, u) && IsUpdate(before, after, subjects, ents)
    requires forall s | s in subjects :: !Violates(rule, s, ents, statics, before)
    ensures SubjectSafe(rule, statics, after, u)
  {
    hide LedgerHeld, StaticHeld, Requested, IsUpdate;
    HeldAfterUpdate(rule, before, after, subjects, ents, u);
    if s :| s in subjects && SubjectMatches(rule, s, u) {
      MatchingSubjectsHoldSame(rule, statics, before, s, u);
      assert StaticHeld(rule, statics, u) + LedgerHeld(rule, after, u)
          == Requested(rule, ents) + StaticHeld(rule, statics, s) + LedgerHeld(rule, before, s);
      assert Requested(rule, ents) == {} ==> LedgerHeld(rule, after, u) == LedgerHeld(rule, before, u);
    } else {
      assert LedgerHeld(rule, after, u) == LedgerHeld(rule, before, u);
    }
  }

  /** Main result: a commit that passed the check keeps every subject safe, also
      when several subjects of one call are the same subject to the rule. */
  lemma CommitKeepsSod(rules: seq<Rule>, statics: Statics, before: Grants, after: Grants,
                       subjects: seq<string>, ents: seq<string>)
    requires SodHolds(rules, statics, before)
    requires IsUpdate(before, after, subjects, ents)
    requires !Conflict(rules, statics, subjects, ents, before)
    ensures SodHolds(rules, statics, after)
  {
    hide SubjectSafe, Violates, IsUpdate;
    forall j, u | 0 <= j < |rules| ensures SubjectSafe(rules[j], statics, after, u) {
      forall s | s in subjects ensures !Violates(rules[j], s, ents, statics, before) {
        var i :| 0 <= i < |subjects| && subjects[i] == s;
        assert !SubjectConflict(rules, statics, subjects[i], ents, before);
      }
      CommitKeepsSubjectSafe(rules[j], statics, before, after, subjects, ents, u);
    }
  }
}
