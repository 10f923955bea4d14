/** When a request conflicts, spelled out on the rule, the request and what is held
    (CheckSoDRules in internal/authz/policy.go). */
module SodRules {
  import opened Json
  import opened Sod

  predicate SameLetter(a: char, b: char) {
    || a == b
    || ('A' <= a <= 'Z' && b as int == a as int + 32)
    || ('A' <= b <= 'Z' && a as int == b as int + 32)
  }

  /** One name under the rule: ASCII case aside, if the rule says so. */
  predicate Same(rule: Rule, a: string, b: string) {
    if rule.caseInsensitive then |a| == |b| && forall i | 0 <= i < |a| :: SameLetter(a[i], b[i]) else a == b
  }

  /** The subject has x asked for, in the static baseline or in the ledger. */
  ghost predicate Has(rule: Rule, subject: string, ents: seq<string>, statics: Statics, grants: Grants, x: string) {
    exists e :: Same(rule, e, x) &&
      (|| e in ents
       || (exists s :: s in statics && Same(rule, s, subject) && e in statics[s])
       || exists s :: s in grants && Same(rule, s, subject) && e in grants[s])
  }

  lemma LowerIff(a: string, b: string)
    ensures Lower(a) == Lower(b) <==> |a| == |b| && forall i | 0 <= i < |a| :: SameLetter(a[i], b[i])
  {
    if |a| == |b| {
      assert forall i | 0 <= i < |a| :: Lower(a)[i] == Lower(b)[i] <==> SameLetter(a[i], b[i]);
    }
  }

  lemma SameIff(rule: Rule, a: string, b: string)
    ensures Same(rule, a, b) <==> KeyOf(rule, a) == KeyOf(rule, b)
    ensures Same(rule, a, b) <==> SubjectMatches(rule, a, b)
  {
    LowerIff(a, b);
  }


  lemma HasIff(rule: Rule, subject: string, ents: seq<string>, statics: Statics, grants: Grants, x: string)
    requires x in rule.conflicting
    ensures Has(rule, subject, ents, statics, grants, x) <==>
            KeyOf(rule, x) in Requested(rule, ents) + StaticHeld(rule, statics, subject) + LedgerHeld(rule, grants, subject)
  {
    hide KeyOf, SubjectMatches, Same;
    forall a, b ensures Same(rule, a, b) <==> KeyOf(rule, a) == KeyOf(rule, b) {
      SameIff(rule, a, b);
    }
    forall a, b ensures Same(rule, a, b) <==> SubjectMatches(rule, a, b) {
      SameIff(rule, a, b);
    }
    assert KeyOf(rule, x) in Conflicts(rule);
  }

  /** Two different members. */
  ghost predicate Two(rule: Rule, s: set<string>) {
    exists x, y :: x in rule.conflicting && y in rule.conflicting && !Same(rule, x, y) && KeyOf(rule, x) in s && KeyOf(rule, y) in s
  }

  lemma TwoIff(rule: Rule, s: set<string>)
    requires s <= Conflicts(rule)
    ensures |s| >= 2 <==> Two(rule, s)
  {
    hide KeyOf, Same;
    if |s| >= 2 {
      var k :| k in s;
      assert |s - {k}| >= 1;
      var l :| l in s - {k};
      var x :| x in rule.conflicting && KeyOf(rule, x) == k;
      var y :| y in rule.conflicting && KeyOf(rule, y) == l;
      SameIff(rule, x, y);
    }
    if x, y :| x in rule.conflicting && y in rule.conflicting && !Same(rule, x, y) && KeyOf(rule, x) in s && KeyOf(rule, y) in s {
      SameIff(rule, x, y);
      SubsetCard({KeyOf(rule, x), KeyOf(rule, y)}, s);
    }
  }

  /** Main result: a rule refuses a request exactly when the request asks for a
      conflicting entitlement, and the subject would have two different ones. */
  lemma ViolatesIff(rule: Rule, subject: string, ents: seq<string>, statics: Statics, grants: Grants)
    ensures Violates(rule, subject, ents, statics, grants) <==>
            && (exists e, x :: e in ents && x in rule.conflicting && Same(rule, e, x))
            && exists x, y :: x in rule.conflicting && y in rule.conflicting && !Same(rule, x, y)
                              && Has(rule, subject, ents, statics, grants, x) && Has(rule, subject, ents, statics, grants, y)
  {
    hide KeyOf, Same, Has, Requested, StaticHeld, LedgerHeld;
    var all := Requested(rule, ents) + StaticHeld(rule, statics, subject) + LedgerHeld(rule, grants, subject);
    forall x | x in rule.conflicting ensures Has(rule, subject, ents, statics, grants, x) <==> KeyOf(rule, x) in all {
      HasIff(rule, subject, ents, statics, grants, x);
    }
    HeldInConflicts(rule, ents, statics, grants, subject);
    TwoIff(rule, all);
    AnyAsked(rule, ents);
  }

  lemma AnyAsked(rule: Rule, ents: seq<string>)
    ensures Requested(rule, ents) != {} <==> exists e, x :: e in ents && x in rule.conflicting && Same(rule, e, x)
  {
    hide KeyOf, Same;
    forall a, b ensures Same(rule, a, b) <==> KeyOf(rule, a) == KeyOf(rule, b) {
      SameIff(rule, a, b);
    }
    if k :| k in Requested(rule, ents) {
      var e :| e in ents && KeyOf(rule, e) == k;
    }
    if e, x :| e in ents && x in rule.conflicting && Same(rule, e, x) {
      assert KeyOf(rule, e) in Requested(rule, ents);
    }
  }

  /** A request is refused exactly when a rule refuses it for one of its subjects. */
  lemma ConflictIff(rules: seq<Rule>, statics: Statics, subjects: seq<string>, ents: seq<string>, grants: Grants)
    ensures Conflict(rules, statics, subjects, ents, grants) <==>
            exists rule, s :: rule in rules && s in subjects && Violates(rule, s, ents, statics, grants)
  {
    hide Violates;
    if rule, s :| rule in rules && s in subjects && Violates(rule, s, ents, statics, grants) {
      var i :| 0 <= i < |subjects| && subjects[i] == s;
      var j :| 0 <= j < |rules| && rules[j] == rule;
      assert SubjectConflict(rules, statics, subjects[i], ents, grants);
    }
    if Conflict(rules, statics, subjects, ents, grants) {
      var i :| 0 <= i < |subjects| && SubjectConflict(rules, statics, subjects[i], ents, grants);
      var j :| 0 <= j < |rules| && Violates(rules[j], subjects[i], ents, statics, grants);
      assert rules[j] in rules && subjects[i] in subjects;
    }
  }

  lemma GrantedIff(rule: Rule, grants: Grants, subject: string)
    ensures LedgerHeld(rule, grants, subject) != {} <==>
            exists s, e, z :: Same(rule, s, subject) && Holds(grants, s, e) && z in rule.conflicting && Same(rule, e, z)
  {
    hide KeyOf, Same, SubjectMatches;
    forall a, b ensures Same(rule, a, b) <==> KeyOf(rule, a) == KeyOf(rule, b) {
      SameIff(rule, a, b);
    }
    forall a, b ensures Same(rule, a, b) <==> SubjectMatches(rule, a, b) {
      SameIff(rule, a, b);
    }
    if k :| k in LedgerHeld(rule, grants, subject) {
      HeldIff(rule, grants, subject, k);
    }
    if s, e, z :| Same(rule, s, subject) && Holds(grants, s, e) && z in rule.conflicting && Same(rule, e, z) {
      HeldIff(rule, grants, subject, KeyOf(rule, e));
    }
  }

  /** What the ledger's runs keep of a rule: a subject to whom the ledger grants a
      conflicting entitlement never has two different ones. */
  lemma SubjectSafeIff(rule: Rule, statics: Statics, grants: Grants, subject: string)
    ensures SubjectSafe(rule, statics, grants, subject) <==>
            ((exists s, e, z :: Same(rule, s, subject) && Holds(grants, s, e) && z in rule.conflicting && Same(rule, e, z)) ==>
               forall x, y :: x in rule.conflicting && y in rule.conflicting && Has(rule, subject, [], statics, grants, x)
                              && Has(rule, subject, [], statics, grants, y)
                              ==> Same(rule, x, y))
  {
    hide KeyOf, Same, Has, StaticHeld, LedgerHeld;
    GrantedIff(rule, grants, subject);
    var all := StaticHeld(rule, statics, subject) + LedgerHeld(rule, grants, subject);
    forall x | x in rule.conflicting ensures Has(rule, subject, [], statics, grants, x) <==> KeyOf(rule, x) in all {
      HasIff(rule, subject, [], statics, grants, x);
    }
    HeldInConflicts(rule, [], statics, grants, subject);
    TwoIff(rule, all);
  }

  lemma HeldInConflicts(rule: Rule, ents: seq<string>, statics: Statics, grants: Grants, subject: string)
    ensures Requested(rule, ents) + StaticHeld(rule, statics, subject) + LedgerHeld(rule, grants, subject) <= Conflicts(rule)
  {
  }
}
