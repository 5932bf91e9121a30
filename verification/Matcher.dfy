/** The deterministic matcher: independent gates over one vacancy and one set of preferences, and the rule
    that combines its verdict with an untrusted AI answer. Text classification is a parameter. */
module Matcher {
  import opened Decimal
  import opened Assistant

  datatype Specialization = Frontend | Backend | Fullstack | Mobile | DevOps | DataML | OtherField | UnknownField

  datatype Confidence = High | Medium | Low
  datatype Source = FromTitle | FromSkills | FromDescription | Nowhere

  datatype Classification = Classification(
    field: Specialization, leadership: bool, confidence: Confidence, source: Source)

  datatype Vacancy = Vacancy(
    title: string, roleId: string, roleIds: seq<string>, regionId: string, description: string,
    salary: Option<real>, skills: seq<string>, isRemote: Option<bool>,
    publishedAt: Option<int>, firstObservedAt: Option<int>)

  datatype Preferences = Preferences(
    approvedRoles: seq<string>, specialization: Option<Specialization>, includeLeadership: bool,
    minSalary: Option<real>, regions: seq<string>, remoteOnly: bool,
    requiredSkills: seq<string>, excludedSkills: seq<string>, maxAge: int)

  /** The regex and case-folding layer: `fold` decides string equality up to case and edge space,
      `lower` lower-cases, `skill` normalises a skill, `explicit` finds a skill in a vacancy's text. */
  datatype Text = Text(
    classify: Vacancy -> Classification, fold: string -> string, lower: string -> string,
    skill: string -> string, explicit: (Vacancy, string) -> bool, official: string -> bool)

  datatype Result = Result(
    decision: Decision, reasons: seq<string>, unknowns: seq<string>, conflicts: seq<string>, evidence: seq<string>)

  predicate Contains(values: seq<string>, needle: string, t: Text) {
    exists i :: 0 <= i < |values| && t.fold(values[i]) == t.fold(needle)
  }

  predicate Overlaps(left: seq<string>, right: seq<string>, t: Text) {
    exists i :: 0 <= i < |left| && Contains(right, left[i], t)
  }

  function OfficialRoles(v: Vacancy, t: Text): seq<string> {
    var primary := TrimSpace(v.roleId);
    if primary != "" && !Contains(v.roleIds, primary, t) && t.official(primary) then v.roleIds + [primary]
    else v.roleIds
  }

  function SkillSet(v: Vacancy, t: Text): set<string> {
    set s | s in v.skills :: t.skill(s)
  }

  predicate Blank(v: Vacancy) {
    TrimSpace(v.title) == "" && v.skills == [] && TrimSpace(v.description) == ""
  }

  predicate HasSkill(v: Vacancy, skill: string, t: Text) {
    skill != "" && t.explicit(v, skill)
  }

  /* ---- the gates ---- */

  datatype Finding = Passed | Unsure(unknown: string) | Clash(conflict: string)

  function Excluded(v: Vacancy, p: Preferences, t: Text, n: nat): seq<string>
    requires n <= |p.excludedSkills|
  {
    if n == 0 then []
    else
      var skill := p.excludedSkills[n - 1];
      Excluded(v, p, t, n - 1) + (if t.lower(skill) in SkillSet(v, t) then ["excluded_skill:" + skill] else [])
  }

  function LeadershipGate(v: Vacancy, p: Preferences, t: Text): Finding {
    if t.classify(v).leadership && !p.includeLeadership then Clash("leadership_excluded") else Passed
  }

  function FieldName(f: Specialization): string {
    match f
    case Frontend => "frontend" case Backend => "backend" case Fullstack => "fullstack" case Mobile => "mobile"
    case DevOps => "devops_platform" case DataML => "data_ml" case OtherField => "other" case UnknownField => "unknown"
  }

  function FieldGate(v: Vacancy, p: Preferences, t: Text): Finding {
    var c := t.classify(v);
    if p.specialization.None? then Passed
    else if c.field == UnknownField then Unsure("specialization")
    else if c.field != p.specialization.value then Clash("specialization:" + FieldName(c.field))
    else if c.confidence == Low then Unsure("specialization_description_only")
    else Passed
  }

  predicate Proven(c: Classification) {
    c.field != UnknownField && (c.source == FromTitle || c.source == FromSkills)
  }

  function RoleGate(v: Vacancy, p: Preferences, t: Text): Finding {
    var c, roles := t.classify(v), OfficialRoles(v, t);
    if p.approvedRoles == [] then Passed
    else if roles != [] && Overlaps(p.approvedRoles, roles, t) then Passed
    else if p.specialization.Some? && c.field == p.specialization.value && Proven(c) then Passed
    else if p.specialization.Some? then Unsure("role")
    else if roles == [] then Unsure("role")
    else if Contains(p.approvedRoles, "96", t) && c.field == Frontend && Proven(c) then Passed
    else Clash("role")
  }

  function SalaryGate(v: Vacancy, p: Preferences): Finding {
    if p.minSalary.None? then Passed
    else if v.salary.None? then Unsure("salary")
    else if v.salary.value < p.minSalary.value then Clash("minimum_salary")
    else Passed
  }

  function RegionGate(v: Vacancy, p: Preferences, t: Text): Finding {
    if p.regions == [] then Passed
    else if v.regionId == "" then Unsure("region")
    else if !Contains(p.regions, v.regionId, t) then Clash("region")
    else Passed
  }

  function RemoteGate(v: Vacancy, p: Preferences): Finding {
    if !p.remoteOnly then Passed
    else if v.isRemote.None? then Unsure("remote")
    else if !v.isRemote.value then Clash("remote_only")
    else Passed
  }

  function SkillGate(v: Vacancy, required: string, t: Text): Finding {
    if HasSkill(v, t.skill(required), t) then Passed
    else if Blank(v) then Unsure("required_skill:" + required)
    else Clash("required_skill_missing:" + required)
  }

  function AgeGate(v: Vacancy, p: Preferences, now: int): Finding {
    var seen := if v.publishedAt.Some? then v.publishedAt else v.firstObservedAt;
    if p.maxAge <= 0 then Passed
    else if seen.None? then Unsure("freshness")
    else if now - seen.value > p.maxAge then Clash("stale")
    else Passed
  }

  function SkillFindings(v: Vacancy, required: seq<string>, t: Text): seq<Finding> {
    if required == [] then [] else [SkillGate(v, required[0], t)] + SkillFindings(v, required[1..], t)
  }

  function ProfileFindings(v: Vacancy, p: Preferences, t: Text): seq<Finding> {
    [LeadershipGate(v, p, t), FieldGate(v, p, t), RoleGate(v, p, t)]
  }

  function FactFindings(v: Vacancy, p: Preferences, t: Text): seq<Finding> {
    [SalaryGate(v, p), RegionGate(v, p, t), RemoteGate(v, p)]
  }

  /** Every gate's finding, each computed on its own, in the order the code asks them. */
  function Findings(v: Vacancy, p: Preferences, t: Text, now: int): seq<Finding> {
    ProfileFindings(v, p, t) + FactFindings(v, p, t) + SkillFindings(v, p.requiredSkills, t) + [AgeGate(v, p, now)]
  }

  /* ---- the meet of the gates: reject < review < match ---- */

  function Verdict(f: Finding): Decision {
    match f case Passed => Match case Unsure(_) => Review case Clash(_) => Reject
  }

  function Rank(d: Decision): nat {
    match d case Reject => 0 case Review => 1 case Match => 2
  }

  function Meet(a: Decision, b: Decision): Decision {
    if Rank(a) <= Rank(b) then a else b
  }

  function MeetAll(fs: seq<Finding>): Decision {
    if fs == [] then Match else Meet(Verdict(fs[0]), MeetAll(fs[1..]))
  }

  function Unknowns(fs: seq<Finding>): seq<string> {
    if fs == [] then [] else (if fs[0].Unsure? then [fs[0].unknown] else []) + Unknowns(fs[1..])
  }

  /** The verdict of all gates, with no early return anywhere. */
  function GateDecision(v: Vacancy, p: Preferences, t: Text, now: int): Decision {
    if Excluded(v, p, t, |p.excludedSkills|) != [] then Reject else MeetAll(Findings(v, p, t, now))
  }

  lemma {:induction false} MeetConcat(a: seq<Finding>, b: seq<Finding>)
    ensures MeetAll(a + b) == Meet(MeetAll(a), MeetAll(b))
    ensures Unknowns(a + b) == Unknowns(a) + Unknowns(b)
  {
    if a == [] {
      assert a + b == b;
    } else {
      MeetConcat(a[1..], b);
      assert (a + b)[0] == a[0] && (a + b)[1..] == a[1..] + b;
      hide Verdict;
      MeetAssociative(Verdict(a[0]), MeetAll(a[1..]), MeetAll(b));
      hide Meet;
      var one := if a[0].Unsure? then [a[0].unknown] else [];
      assert one + (Unknowns(a[1..]) + Unknowns(b)) == one + Unknowns(a[1..]) + Unknowns(b);
    }
  }

  lemma MeetAssociative(a: Decision, b: Decision, c: Decision)
    ensures Meet(a, Meet(b, c)) == Meet(Meet(a, b), c)
  {
  }

  lemma {:induction false} MeetMeaning(fs: seq<Finding>)
    ensures MeetAll(fs) == Reject <==> exists f :: f in fs && f.Clash?
    ensures MeetAll(fs) == Match <==> forall f :: f in fs ==> f.Passed?
    ensures MeetAll(fs) != Reject ==> (MeetAll(fs) == Match <==> Unknowns(fs) == [])
  {
    if fs != [] {
      MeetMeaning(fs[1..]);
      assert fs == [fs[0]] + fs[1..];
    }
  }

  lemma {:induction false} MeetBelow(fs: seq<Finding>, f: Finding)
    requires f in fs
    ensures Rank(MeetAll(fs)) <= Rank(Verdict(f))
  {
    if f != fs[0] {
      MeetBelow(fs[1..], f);
    }
  }

  ghost predicate Dominated(g: Finding, fs: seq<Finding>) {
    exists f :: f in fs && Rank(Verdict(f)) <= Rank(Verdict(g))
  }

  /** Findings that dominate another list meet lower. */
  lemma {:induction false} MeetMonotone(a: seq<Finding>, b: seq<Finding>)
    requires forall g :: g in b ==> Dominated(g, a)
    ensures Rank(MeetAll(a)) <= Rank(MeetAll(b))
  {
    if b != [] {
      assert b[0] in b;
      var f :| f in a && Rank(Verdict(f)) <= Rank(Verdict(b[0]));
      MeetBelow(a, f);
      assert forall g :: g in b[1..] ==> g in b;
      MeetMonotone(a, b[1..]);
    }
  }

  /* ---- the code, with its early returns ---- */

  /** What the code's result has to look like for the findings of the gates asked so far. */
  predicate Reflects(r: Result, asked: seq<Finding>) {
    && r.decision == Match && r.conflicts == []
    && MeetAll(asked) != Reject
    && r.unknowns == Unknowns(asked)
  }

  /** One more gate was asked and did not clash. */
  lemma Extends(r0: Result, r1: Result, asked: seq<Finding>, f: Finding)
    requires Reflects(r0, asked) && !f.Clash?
    requires r1.decision == Match && r1.conflicts == []
    requires r1.unknowns == r0.unknowns + (if f.Unsure? then [f.unknown] else [])
    ensures Reflects(r1, asked + [f])
  {
    MeetConcat(asked, [f]);
    assert [f][1..] == [];
  }

  /** A clash anywhere decides, whatever the gates after it would say. */
  lemma ClashDecides(asked: seq<Finding>, f: Finding, rest: seq<Finding>)
    requires f.Clash?
    ensures MeetAll(asked + [f] + rest) == Reject
  {
    assert f in asked + [f] + rest;
    MeetBelow(asked + [f] + rest, f);
  }

  function Rejected(r: Result, conflict: string, evidence: seq<string>): Result {
    r.(decision := Reject, conflicts := r.conflicts + [conflict], evidence := r.evidence + evidence)
  }

  /** applyCatalogRoleGate; false means rejected. */
  method ApplyCatalogRoleGate(r0: Result, v: Vacancy, p: Preferences, t: Text, c: Classification)
    returns (r: Result, ok: bool)
    requires c == t.classify(v) && r0.decision == Match && r0.conflicts == []
    ensures ok <==> !RoleGate(v, p, t).Clash?
    ensures ok ==> r.decision == Match && r.conflicts == []
                   && r.unknowns == r0.unknowns + (if RoleGate(v, p, t).Unsure? then [RoleGate(v, p, t).unknown] else [])
    ensures !ok ==> r.decision == Reject && r.conflicts != []
  {
    r := r0;
    var roles := OfficialRoles(v, t);
    if |p.approvedRoles| == 0 {
      return r, true;
    }
    if |roles| > 0 && Overlaps(p.approvedRoles, roles, t) {
      return r.(reasons := r.reasons + ["approved_role"], evidence := r.evidence + ["role"]), true;
    }
    var fieldSet := p.specialization.Some?;
    if fieldSet && c.field == p.specialization.value && Proven(c) {
      return r.(reasons := r.reasons + ["specialization_satisfies_role"]), true;
    }
    if fieldSet {
      return r.(unknowns := r.unknowns + ["role"]), true;
    }
    if |roles| == 0 {
      return r.(unknowns := r.unknowns + ["role"]), true;
    }
    if Contains(p.approvedRoles, "96", t) && c.field == Frontend && Proven(c) {
      return r.(reasons := r.reasons + ["specialization_satisfies_role"]), true;
    }
    return Rejected(r, "role", []), false;
  }

  /** The first part of Match: leadership, specialization, catalog role. */
  method AskProfileGates(r0: Result, v: Vacancy, p: Preferences, t: Text) returns (r: Result, ok: bool)
    requires r0 == Result(Match, [], [], [], [])
    ensures ok ==> Reflects(r, ProfileFindings(v, p, t))
    ensures !ok ==> r.decision == Reject && r.conflicts != [] && MeetAll(ProfileFindings(v, p, t)) == Reject
  {
    hide RoleGate, FieldName;
    r := r0;
    var c := t.classify(v);
    ghost var leadership, field, role := LeadershipGate(v, p, t), FieldGate(v, p, t), RoleGate(v, p, t);
    assert [leadership, field, role] == [] + [leadership] + [field, role];
    if c.leadership && !p.includeLeadership {
      ClashDecides([], leadership, [field, role]);
      return Rejected(r, "leadership_excluded", ["leadership"]), false;
    }
    if c.leadership && p.includeLeadership {
      r := r.(reasons := r.reasons + ["leadership_allowed"], evidence := r.evidence + ["leadership"]);
    }
    Extends(r0, r, [], leadership);
    assert [] + [leadership] == [leadership];
    ghost var r1 := r;
    if p.specialization.Some? {
      if c.field == UnknownField {
        r := r.(unknowns := r.unknowns + ["specialization"]);
      } else if c.field != p.specialization.value {
        ClashDecides([leadership], field, [role]);
        assert [leadership] + [field] + [role] == [leadership, field, role];
        return Rejected(r, "specialization:" + FieldName(c.field), ["specialization"]), false;
      } else if c.confidence == Low {
        r := r.(unknowns := r.unknowns + ["specialization_description_only"],
                evidence := r.evidence + ["specialization:description"]);
      } else {
        r := r.(reasons := r.reasons + ["specialization"], evidence := r.evidence + ["specialization"]);
      }
    }
    Extends(r1, r, [leadership], field);
    assert [leadership] + [field] == [leadership, field];
    ghost var r2 := r;
    r, ok := ApplyCatalogRoleGate(r, v, p, t, c);
    assert [leadership, field] + [role] == [leadership, field, role];
    if ok {
      Extends(r2, r, [leadership, field], role);
    } else {
      ClashDecides([leadership, field], role, []);
      assert [leadership, field] + [role] + [] == [leadership, field, role];
    }
  }

  /** The next part of Match: salary, region, remote. */
  method AskFactGates(r0: Result, ghost asked: seq<Finding>, v: Vacancy, p: Preferences, t: Text)
    returns (r: Result, ok: bool)
    requires Reflects(r0, asked)
    ensures ok ==> Reflects(r, asked + FactFindings(v, p, t))
    ensures !ok ==> r.decision == Reject && r.conflicts != [] && MeetAll(asked + FactFindings(v, p, t)) == Reject
  {
    hide MeetAll, Unknowns;
    r := r0;
    ghost var salary, region, remote := SalaryGate(v, p), RegionGate(v, p, t), RemoteGate(v, p);
    ghost var all := asked + [salary, region, remote];
    if p.minSalary.Some? {
      if v.salary.None? {
        r := r.(unknowns := r.unknowns + ["salary"]);
      } else if v.salary.value < p.minSalary.value {
        ClashDecides(asked, salary, [region, remote]);
        assert asked + [salary] + [region, remote] == all;
        return Rejected(r, "minimum_salary", []), false;
      } else {
        r := r.(reasons := r.reasons + ["salary_meets_minimum"], evidence := r.evidence + ["salary_rub"]);
      }
    }
    Extends(r0, r, asked, salary);
    ghost var r1, asked1 := r, asked + [salary];
    if |p.regions| > 0 {
      if v.regionId == "" {
        r := r.(unknowns := r.unknowns + ["region"]);
      } else if !Contains(p.regions, v.regionId, t) {
        ClashDecides(asked1, region, [remote]);
        assert asked1 + [region] + [remote] == all;
        return Rejected(r, "region", []), false;
      } else {
        r := r.(reasons := r.reasons + ["region"], evidence := r.evidence + ["region"]);
      }
    }
    Extends(r1, r, asked1, region);
    ghost var r2, asked2 := r, asked1 + [region];
    if p.remoteOnly {
      if v.isRemote.None? {
        r := r.(unknowns := r.unknowns + ["remote"]);
      } else if !v.isRemote.value {
        ClashDecides(asked2, remote, []);
        assert asked2 + [remote] + [] == all;
        return Rejected(r, "remote_only", []), false;
      } else {
        r := r.(reasons := r.reasons + ["remote"], evidence := r.evidence + ["remote"]);
      }
    }
    Extends(r2, r, asked2, remote);
    assert asked2 + [remote] == all;
    ok := true;
  }

  /** One turn of the required-skill loop. */
  method AskSkill(r0: Result, ghost asked: seq<Finding>, v: Vacancy, required: string, t: Text)
    returns (r: Result, ok: bool)
    requires Reflects(r0, asked)
    ensures ok ==> Reflects(r, asked + [SkillGate(v, required, t)])
    ensures !ok ==> r.decision == Reject && r.conflicts != [] && SkillGate(v, required, t).Clash?
  {
    hide MeetAll, Unknowns, HasSkill, Blank;
    r := r0;
    if HasSkill(v, t.skill(required), t) {
      r := r.(reasons := r.reasons + ["required_skill:" + required], evidence := r.evidence + ["skill:" + required]);
    } else if Blank(v) {
      r := r.(unknowns := r.unknowns + ["required_skill:" + required]);
    } else {
      return Rejected(r, "required_skill_missing:" + required, []), false;
    }
    Extends(r0, r, asked, SkillGate(v, required, t));
    ok := true;
  }

  lemma SkillSplit(v: Vacancy, required: seq<string>, i: nat, t: Text)
    requires i < |required|
    ensures SkillFindings(v, required[i..], t) == [SkillGate(v, required[i], t)] + SkillFindings(v, required[i + 1..], t)
  {
    assert required[i..][1..] == required[i + 1..];
  }

  /** The required-skill loop of Match. */
  method AskSkillGates(r0: Result, ghost asked: seq<Finding>, v: Vacancy, p: Preferences, t: Text)
    returns (r: Result, ok: bool)
    requires Reflects(r0, asked)
    ensures ok ==> Reflects(r, asked + SkillFindings(v, p.requiredSkills, t))
    ensures !ok ==> r.decision == Reject && r.conflicts != []
                    && MeetAll(asked + SkillFindings(v, p.requiredSkills, t)) == Reject
  {
    r := r0;
    ghost var all := SkillFindings(v, p.requiredSkills, t);
    ghost var done := asked;
    assert p.requiredSkills[0..] == p.requiredSkills;
    for i := 0 to |p.requiredSkills|
      invariant done + SkillFindings(v, p.requiredSkills[i..], t) == asked + all
      invariant Reflects(r, done)
    {
      hide MeetAll, Reflects, SkillFindings, SkillGate;
      ghost var f, rest := SkillGate(v, p.requiredSkills[i], t), SkillFindings(v, p.requiredSkills[i + 1..], t);
      SkillSplit(v, p.requiredSkills, i, t);
      assert done + [f] + rest == asked + all;
      r, ok := AskSkill(r, done, v, p.requiredSkills[i], t);
      if !ok {
        ClashDecides(done, f, rest);
        return;
      }
      done := done + [f];
    }
    assert p.requiredSkills[|p.requiredSkills|..] == [];
    assert done == asked + all;
    ok := true;
  }

  lemma RejectStays(asked: seq<Finding>, rest: seq<Finding>)
    requires MeetAll(asked) == Reject
    ensures MeetAll(asked + rest) == Reject
  {
    MeetConcat(asked, rest);
  }

  /* ---- what the gates ask, in terms of the vacancy and the preferences alone ---- */

  /** The vacancy carries this role: one of its list, or its own role if that is an official one. */
  predicate CarriesRole(v: Vacancy, role: string, t: Text) {
    role in v.roleIds || (role == TrimSpace(v.roleId) && role != "" && t.official(role))
  }

  ghost predicate Approved(v: Vacancy, p: Preferences, t: Text) {
    exists a, role :: a in p.approvedRoles && CarriesRole(v, role, t) && t.fold(a) == t.fold(role)
  }

  /** The field of work is read from the title or the skills. */
  predicate ReadFrom(c: Classification, field: Specialization) {
    c.field == field && field != UnknownField && (c.source == FromTitle || c.source == FromSkills)
  }

  /** When was the vacancy published, or else first seen. */
  function Since(v: Vacancy): Option<int> {
    match v.publishedAt case Some(_) => v.publishedAt case None => v.firstObservedAt
  }

  /** Every reason to reject. */
  ghost predicate Rejects(v: Vacancy, p: Preferences, t: Text, now: int) {
    var c := t.classify(v);
    || (exists x, s :: x in p.excludedSkills && s in v.skills && t.lower(x) == t.skill(s))
    || (c.leadership && !p.includeLeadership)
    || (p.specialization.Some? && c.field != UnknownField && c.field != p.specialization.value)
    || (&& p.specialization.None? && p.approvedRoles != [] && (exists role :: CarriesRole(v, role, t)) && !Approved(v, p, t)
        && !((exists a :: a in p.approvedRoles && t.fold(a) == t.fold("96")) && ReadFrom(c, Frontend)))
    || (p.minSalary.Some? && v.salary.Some? && v.salary.value < p.minSalary.value)
    || (p.regions != [] && v.regionId != "" && !exists x :: x in p.regions && t.fold(x) == t.fold(v.regionId))
    || (p.remoteOnly && v.isRemote == Some(false))
    || (exists x :: x in p.requiredSkills && LacksSkill(v, x, t) && !Empty(v))
    || (p.maxAge > 0 && Since(v).Some? && now - Since(v).value > p.maxAge)
  }

  predicate LacksSkill(v: Vacancy, required: string, t: Text) {
    t.skill(required) == "" || !t.explicit(v, t.skill(required))
  }

  predicate Empty(v: Vacancy) {
    TrimSpace(v.title) == "" && v.skills == [] && TrimSpace(v.description) == ""
  }

  function MissingSkills(v: Vacancy, required: seq<string>, t: Text): seq<string> {
    if required == [] then []
    else (if LacksSkill(v, required[0], t) then ["required_skill:" + required[0]] else []) + MissingSkills(v, required[1..], t)
  }

  function When(b: bool, question: string): seq<string> { if b then [question] else [] }

  /** Every question left open, in the order they are asked. */
  ghost function OpenQuestions(v: Vacancy, p: Preferences, t: Text): seq<string> {
    var c, wanted := t.classify(v), p.specialization;
    When(wanted.Some? && c.field == UnknownField, "specialization")
    + When(wanted.Some? && c.field != UnknownField && c.field == wanted.value && c.confidence == Low, "specialization_description_only")
    + When(p.approvedRoles != [] && !Approved(v, p, t)
           && (if wanted.Some? then !ReadFrom(c, wanted.value) else !exists role :: CarriesRole(v, role, t)), "role")
    + When(p.minSalary.Some? && v.salary.None?, "salary")
    + When(p.regions != [] && v.regionId == "", "region")
    + When(p.remoteOnly && v.isRemote.None?, "remote")
    + (if Empty(v) then MissingSkills(v, p.requiredSkills, t) else [])
    + When(p.maxAge > 0 && Since(v).None?, "freshness")
  }

  lemma OfficialMeaning(v: Vacancy, t: Text)
    ensures OfficialRoles(v, t) != [] <==> exists role :: CarriesRole(v, role, t)
    ensures forall a :: Contains(OfficialRoles(v, t), a, t) <==> exists role :: CarriesRole(v, role, t) && t.fold(a) == t.fold(role)
  {
    var roles, own := OfficialRoles(v, t), TrimSpace(v.roleId);
    forall role | role in roles ensures CarriesRole(v, role, t) {
    }
    if roles != [] {
      assert roles[0] in roles && CarriesRole(v, roles[0], t);
    }
    forall a ensures Contains(roles, a, t) <==> exists role :: CarriesRole(v, role, t) && t.fold(a) == t.fold(role) {
      if Contains(roles, a, t) {
        var i :| 0 <= i < |roles| && t.fold(roles[i]) == t.fold(a);
        assert roles[i] in roles && CarriesRole(v, roles[i], t);
      }
      if role :| CarriesRole(v, role, t) && t.fold(a) == t.fold(role) {
        CarriedIsContained(v, role, t);
        var i :| 0 <= i < |roles| && t.fold(roles[i]) == t.fold(role);
        assert t.fold(roles[i]) == t.fold(a);
      }
    }
    if role :| CarriesRole(v, role, t) {
      CarriedIsContained(v, role, t);
    }
  }

  lemma CarriedIsContained(v: Vacancy, role: string, t: Text)
    requires CarriesRole(v, role, t)
    ensures Contains(OfficialRoles(v, t), role, t)
  {
    var roles := OfficialRoles(v, t);
    if role in v.roleIds {
      var i :| 0 <= i < |v.roleIds| && v.roleIds[i] == role;
      assert roles[i] == role;
    } else if Contains(v.roleIds, role, t) {
      var i :| 0 <= i < |v.roleIds| && t.fold(v.roleIds[i]) == t.fold(role);
      assert roles[i] == v.roleIds[i];
    } else {
      assert roles[|v.roleIds|] == role;
    }
  }

  lemma OverlapMeaning(v: Vacancy, p: Preferences, t: Text)
    ensures Overlaps(p.approvedRoles, OfficialRoles(v, t), t) <==> Approved(v, p, t)
    ensures OfficialRoles(v, t) == [] ==> !Approved(v, p, t)
  {
    OfficialMeaning(v, t);
    hide OfficialRoles, Contains, CarriesRole;
    var approved, roles := p.approvedRoles, OfficialRoles(v, t);
    if Approved(v, p, t) {
      ApprovedOverlaps(v, p, t);
    }
    hide Approved;
    if Overlaps(approved, roles, t) {
      var i :| 0 <= i < |approved| && Contains(roles, approved[i], t);
      ApprovedBy(v, p, approved[i], t);
    }
  }

  lemma ApprovedBy(v: Vacancy, p: Preferences, a: string, t: Text)
    requires a in p.approvedRoles && Contains(OfficialRoles(v, t), a, t)
    ensures Approved(v, p, t)
  {
    OfficialMeaning(v, t);
    hide OfficialRoles, Contains, CarriesRole;
    var role :| CarriesRole(v, role, t) && t.fold(a) == t.fold(role);
  }

  lemma ApprovedOverlaps(v: Vacancy, p: Preferences, t: Text)
    requires Approved(v, p, t)
    ensures Overlaps(p.approvedRoles, OfficialRoles(v, t), t) && OfficialRoles(v, t) != []
  {
    OfficialMeaning(v, t);
    hide OfficialRoles, Contains, CarriesRole, Overlaps;
    var a, role :| a in p.approvedRoles && CarriesRole(v, role, t) && t.fold(a) == t.fold(role);
    OverlapBy(p.approvedRoles, OfficialRoles(v, t), a, t);
  }

  lemma OverlapBy(left: seq<string>, right: seq<string>, x: string, t: Text)
    requires x in left && Contains(right, x, t)
    ensures Overlaps(left, right, t)
  {
    hide Contains;
    var i :| 0 <= i < |left| && left[i] == x;
  }

  lemma ContainsMeaning(values: seq<string>, needle: string, t: Text)
    ensures Contains(values, needle, t) <==> exists x :: x in values && t.fold(x) == t.fold(needle)
  {
    if x :| x in values && t.fold(x) == t.fold(needle) {
      var i :| 0 <= i < |values| && values[i] == x;
    }
    if i :| 0 <= i < |values| && t.fold(values[i]) == t.fold(needle) {
      assert values[i] in values;
    }
  }

  /** When the role gate clashes and when it is unsure. */
  lemma RoleGateMeaning(v: Vacancy, p: Preferences, t: Text)
    ensures var c := t.classify(v);
            && (RoleGate(v, p, t).Clash? <==>
                  && p.specialization.None? && p.approvedRoles != [] && (exists role :: CarriesRole(v, role, t)) && !Approved(v, p, t)
                  && !((exists a :: a in p.approvedRoles && t.fold(a) == t.fold("96")) && ReadFrom(c, Frontend)))
            && (RoleGate(v, p, t).Unsure? <==>
                  && p.approvedRoles != [] && !Approved(v, p, t)
                  && if p.specialization.Some? then !ReadFrom(c, p.specialization.value) else !exists role :: CarriesRole(v, role, t))
            && (RoleGate(v, p, t).Unsure? ==> RoleGate(v, p, t).unknown == "role")
  {
    OfficialMeaning(v, t);
    OverlapMeaning(v, p, t);
    ContainsMeaning(p.approvedRoles, "96", t);
    hide OfficialRoles, Contains, CarriesRole, Overlaps, Approved;
  }

  lemma ExcludedIs(v: Vacancy, p: Preferences, t: Text)
    ensures Excluded(v, p, t, |p.excludedSkills|) != [] <==>
            exists x, s :: x in p.excludedSkills && s in v.skills && t.lower(x) == t.skill(s)
  {
    ExcludedMeaning(v, p, t, |p.excludedSkills|);
    if x, s :| x in p.excludedSkills && s in v.skills && t.lower(x) == t.skill(s) {
      var i :| 0 <= i < |p.excludedSkills| && p.excludedSkills[i] == x;
      assert t.lower(p.excludedSkills[i]) in SkillSet(v, t);
    }
    if i :| 0 <= i < |p.excludedSkills| && t.lower(p.excludedSkills[i]) in SkillSet(v, t) {
      assert p.excludedSkills[i] in p.excludedSkills;
    }
  }

  /** Which findings are among those of all gates. */
  lemma FindingsMembers(v: Vacancy, p: Preferences, t: Text, now: int)
    ensures forall f :: f in Findings(v, p, t, now) <==>
              || f == LeadershipGate(v, p, t) || f == FieldGate(v, p, t) || f == RoleGate(v, p, t)
              || f == SalaryGate(v, p) || f == RegionGate(v, p, t) || f == RemoteGate(v, p)
              || f == AgeGate(v, p, now) || (exists x :: x in p.requiredSkills && f == SkillGate(v, x, t))
  {
    SkillFindingsMembers(v, p.requiredSkills, t);
    hide LeadershipGate, FieldGate, RoleGate, SalaryGate, RegionGate, RemoteGate, AgeGate, SkillGate, SkillFindings;
  }

  lemma ClashIff(v: Vacancy, p: Preferences, t: Text, now: int)
    ensures (exists f :: f in Findings(v, p, t, now) && f.Clash?) <==>
            || LeadershipGate(v, p, t).Clash? || FieldGate(v, p, t).Clash? || RoleGate(v, p, t).Clash?
            || SalaryGate(v, p).Clash? || RegionGate(v, p, t).Clash? || RemoteGate(v, p).Clash?
            || AgeGate(v, p, now).Clash? || (exists x :: x in p.requiredSkills && SkillGate(v, x, t).Clash?)
  {
    FindingsMembers(v, p, t, now);
    hide Findings, LeadershipGate, FieldGate, RoleGate, SalaryGate, RegionGate, RemoteGate, AgeGate, SkillGate;
  }

  /** The gates reject exactly for one of the listed reasons. */
  lemma RejectsIff(v: Vacancy, p: Preferences, t: Text, now: int)
    ensures GateDecision(v, p, t, now) == Reject <==> Rejects(v, p, t, now)
  {
    ExcludedIs(v, p, t);
    MeetMeaning(Findings(v, p, t, now));
    ClashIff(v, p, t, now);
    RoleGateMeaning(v, p, t);
    ContainsMeaning(p.regions, v.regionId, t);
    hide Findings, MeetAll, Excluded, RoleGate, Contains, Approved, CarriesRole, TrimSpace;
  }

  lemma {:induction false} SkillUnknowns(v: Vacancy, required: seq<string>, t: Text)
    ensures Unknowns(SkillFindings(v, required, t)) == if Empty(v) then MissingSkills(v, required, t) else []
  {
    hide TrimSpace;
    if required != [] {
      SkillUnknowns(v, required[1..], t);
      var f, rest := SkillGate(v, required[0], t), SkillFindings(v, required[1..], t);
      assert SkillFindings(v, required, t) == [f] + rest;
      assert ([f] + rest)[0] == f && ([f] + rest)[1..] == rest;
    }
  }

  lemma UnknownsOne(f: Finding)
    ensures Unknowns([f]) == Asked(f)
  {
    assert [f][1..] == [];
  }

  lemma FieldAsks(v: Vacancy, p: Preferences, t: Text)
    ensures var c, wanted := t.classify(v), p.specialization;
            Asked(FieldGate(v, p, t)) ==
            When(wanted.Some? && c.field == UnknownField, "specialization")
            + When(wanted.Some? && c.field != UnknownField && c.field == wanted.value && c.confidence == Low,
                   "specialization_description_only")
  {
  }

  lemma FactsAsk(v: Vacancy, p: Preferences, t: Text, now: int)
    ensures Asked(LeadershipGate(v, p, t)) == []
    ensures Asked(SalaryGate(v, p)) == When(p.minSalary.Some? && v.salary.None?, "salary")
    ensures Asked(RegionGate(v, p, t)) == When(p.regions != [] && v.regionId == "", "region")
    ensures Asked(RemoteGate(v, p)) == When(p.remoteOnly && v.isRemote.None?, "remote")
    ensures Asked(AgeGate(v, p, now)) == When(p.maxAge > 0 && Since(v).None?, "freshness")
  {
  }

  lemma RoleAsks(v: Vacancy, p: Preferences, t: Text)
    ensures var c, wanted := t.classify(v), p.specialization;
            Asked(RoleGate(v, p, t)) ==
            When(p.approvedRoles != [] && !Approved(v, p, t)
                 && (if wanted.Some? then !ReadFrom(c, wanted.value) else !exists role :: CarriesRole(v, role, t)), "role")
  {
    RoleGateMeaning(v, p, t);
    hide RoleGate, Approved, CarriesRole;
  }

  lemma Regroup(a: seq<string>, b: seq<string>, c: seq<string>)
    ensures [] + (a + b) + c == a + b + c
  {
  }

  /** The unknowns of all gates are exactly the open questions. */
  lemma UnknownsAre(v: Vacancy, p: Preferences, t: Text, now: int)
    ensures Unknowns(Findings(v, p, t, now)) == OpenQuestions(v, p, t)
  {
    FindingsInOrder(v, p, t, now);
    RoleAsks(v, p, t);
    FieldAsks(v, p, t);
    FactsAsk(v, p, t, now);
    SkillUnknowns(v, p.requiredSkills, t);
    hide Unknowns, LeadershipGate, FieldGate, RoleGate, SalaryGate, RegionGate, RemoteGate, AgeGate, SkillFindings,
         MissingSkills, Approved, CarriesRole, Since, Empty, ReadFrom, Findings, Asked, When;
    var c, wanted := t.classify(v), p.specialization;
    Regroup(When(wanted.Some? && c.field == UnknownField, "specialization"),
            When(wanted.Some? && c.field != UnknownField && c.field == wanted.value && c.confidence == Low,
                 "specialization_description_only"), Asked(RoleGate(v, p, t)));
  }

  lemma FindingsInOrder(v: Vacancy, p: Preferences, t: Text, now: int)
    ensures Unknowns(Findings(v, p, t, now)) ==
            Asked(LeadershipGate(v, p, t)) + Asked(FieldGate(v, p, t)) + Asked(RoleGate(v, p, t))
            + Asked(SalaryGate(v, p)) + Asked(RegionGate(v, p, t)) + Asked(RemoteGate(v, p))
            + Unknowns(SkillFindings(v, p.requiredSkills, t)) + Asked(AgeGate(v, p, now))
  {
    hide Unknowns, LeadershipGate, FieldGate, RoleGate, SalaryGate, RegionGate, RemoteGate, AgeGate, SkillFindings, Asked;
    var l, f, r := LeadershipGate(v, p, t), FieldGate(v, p, t), RoleGate(v, p, t);
    var s, g, m, a := SalaryGate(v, p), RegionGate(v, p, t), RemoteGate(v, p), AgeGate(v, p, now);
    var skills := SkillFindings(v, p.requiredSkills, t);
    assert Findings(v, p, t, now) == [l, f, r] + [s, g, m] + skills + [a];
    UnknownsSplit(l, f, r, s, g, m, skills, a);
  }

  function Asked(f: Finding): seq<string> { if f.Unsure? then [f.unknown] else [] }

  lemma UnknownsSplit(l: Finding, f: Finding, r: Finding, s: Finding, g: Finding, m: Finding, skills: seq<Finding>, a: Finding)
    ensures Unknowns([l, f, r] + [s, g, m] + skills + [a]) ==
            Asked(l) + Asked(f) + Asked(r) + Asked(s) + Asked(g) + Asked(m) + Unknowns(skills) + Asked(a)
  {
    UnknownsThree(l, f, r);
    UnknownsThree(s, g, m);
    UnknownsOne(a);
    MeetConcat([l, f, r], [s, g, m]);
    MeetConcat([l, f, r] + [s, g, m], skills);
    MeetConcat([l, f, r] + [s, g, m] + skills, [a]);
    hide Unknowns, MeetAll, Asked;
    assert Asked(l) + Asked(f) + Asked(r) + (Asked(s) + Asked(g) + Asked(m)) ==
           Asked(l) + Asked(f) + Asked(r) + Asked(s) + Asked(g) + Asked(m);
  }

  lemma UnknownsThree(a: Finding, b: Finding, c: Finding)
    ensures Unknowns([a, b, c]) == Asked(a) + Asked(b) + Asked(c)
  {
    UnknownsOne(a);
    UnknownsOne(b);
    UnknownsOne(c);
    MeetConcat([a], [b]);
    MeetConcat([a] + [b], [c]);
    assert [a] + [b] + [c] == [a, b, c];
  }

  /** Match: the early returns never change the verdict, and a non-rejected result lists exactly the
      unknown gates in order. */
  method MatchVacancy(v: Vacancy, p: Preferences, now: int, t: Text) returns (r: Result)
    ensures r.decision == GateDecision(v, p, t, now)
    ensures r.decision == Reject <==> r.conflicts != []
    ensures r.decision == Review <==> r.conflicts == [] && r.unknowns != []
    ensures r.decision != Reject ==> r.unknowns == Unknowns(Findings(v, p, t, now))
    ensures r.decision == Match ==> r.reasons != []
    ensures r.decision == Reject <==> Rejects(v, p, t, now)
    ensures r.decision != Reject ==> r.unknowns == OpenQuestions(v, p, t)
  {
    RejectsIff(v, p, t, now);
    UnknownsAre(v, p, t, now);
    hide Rejects, OpenQuestions;
    hide MeetAll, Unknowns, SkillFindings, ProfileFindings, FactFindings;
    r := Result(Match, [], [], [], []);
    var skills := SkillSet(v, t);
    for i := 0 to |p.excludedSkills|
      invariant r == Result(Match, [], [], Excluded(v, p, t, i), [])
    {
      if t.lower(p.excludedSkills[i]) in skills {
        r := r.(conflicts := r.conflicts + ["excluded_skill:" + p.excludedSkills[i]]);
      }
    }
    if |r.conflicts| > 0 {
      r := r.(decision := Reject);
      return;
    }
    ghost var profile, facts, required := ProfileFindings(v, p, t), FactFindings(v, p, t), SkillFindings(v, p.requiredSkills, t);
    ghost var age := AgeGate(v, p, now);
    ghost var all := Findings(v, p, t, now);
    assert all == profile + (facts + required + [age]);
    assert all == (profile + facts) + (required + [age]);
    assert all == (profile + facts + required) + [age];
    var ok;
    r, ok := AskProfileGates(r, v, p, t);
    if !ok {
      RejectStays(profile, facts + required + [age]);
      return;
    }
    r, ok := AskFactGates(r, profile, v, p, t);
    if !ok {
      RejectStays(profile + facts, required + [age]);
      return;
    }
    r, ok := AskSkillGates(r, profile + facts, v, p, t);
    if !ok {
      RejectStays(profile + facts + required, [age]);
      return;
    }
    ghost var before := r;
    if p.maxAge > 0 {
      var seen := if v.publishedAt.Some? then v.publishedAt else v.firstObservedAt;
      if seen.None? {
        r := r.(unknowns := r.unknowns + ["freshness"]);
      } else if now - seen.value > p.maxAge {
        ClashDecides(profile + facts + required, age, []);
        assert all + [] == all;
        r := Rejected(r, "stale", []);
        return;
      }
    }
    Extends(before, r, profile + facts + required, age);
    MeetMeaning(all);
    if |r.unknowns| > 0 {
      r := r.(decision := Review);
    }
    if r.decision == Match && |r.reasons| == 0 {
      r := r.(reasons := r.reasons + ["no_conflicts"]);
    }
  }

  /* ---- tightening the preferences ---- */

  predicate NarrowerList(q: seq<string>, p: seq<string>) {
    p == [] || (q != [] && forall x :: x in q ==> x in p)
  }

  /** `q` asks for at least as much as `p`, with the same specialization. */
  predicate Tighter(q: Preferences, p: Preferences) {
    && q.specialization == p.specialization
    && (q.includeLeadership ==> p.includeLeadership)
    && (forall x :: x in p.excludedSkills ==> x in q.excludedSkills)
    && (forall x :: x in p.requiredSkills ==> x in q.requiredSkills)
    && (p.minSalary.Some? ==> q.minSalary.Some? && q.minSalary.value >= p.minSalary.value)
    && NarrowerList(q.regions, p.regions)
    && NarrowerList(q.approvedRoles, p.approvedRoles)
    && (p.remoteOnly ==> q.remoteOnly)
    && (p.maxAge > 0 ==> 0 < q.maxAge <= p.maxAge)
  }

  lemma {:induction false} ExcludedMeaning(v: Vacancy, p: Preferences, t: Text, n: nat)
    requires n <= |p.excludedSkills|
    ensures Excluded(v, p, t, n) != [] <==>
            exists i :: 0 <= i < n && t.lower(p.excludedSkills[i]) in SkillSet(v, t)
  {
    if n > 0 {
      ExcludedMeaning(v, p, t, n - 1);
    }
  }

  lemma {:induction false} SkillFindingsMembers(v: Vacancy, required: seq<string>, t: Text)
    ensures forall x :: x in required ==> SkillGate(v, x, t) in SkillFindings(v, required, t)
    ensures forall f :: f in SkillFindings(v, required, t) ==> exists x :: x in required && f == SkillGate(v, x, t)
  {
    if required != [] {
      SkillFindingsMembers(v, required[1..], t);
      assert required == [required[0]] + required[1..];
      assert required[0] in required;
    }
  }

  lemma ContainsMore(q: seq<string>, p: seq<string>, x: string, t: Text)
    requires (forall y :: y in q ==> y in p) && Contains(q, x, t)
    ensures Contains(p, x, t)
  {
    var i :| 0 <= i < |q| && t.fold(q[i]) == t.fold(x);
    assert q[i] in p;
  }

  lemma GatesTighten(v: Vacancy, q: Preferences, p: Preferences, t: Text, now: int)
    requires Tighter(q, p)
    ensures Rank(Verdict(LeadershipGate(v, q, t))) <= Rank(Verdict(LeadershipGate(v, p, t)))
    ensures FieldGate(v, q, t) == FieldGate(v, p, t)
    ensures Rank(Verdict(SalaryGate(v, q))) <= Rank(Verdict(SalaryGate(v, p)))
    ensures Rank(Verdict(RegionGate(v, q, t))) <= Rank(Verdict(RegionGate(v, p, t)))
    ensures Rank(Verdict(RemoteGate(v, q))) <= Rank(Verdict(RemoteGate(v, p)))
    ensures Rank(Verdict(AgeGate(v, q, now))) <= Rank(Verdict(AgeGate(v, p, now)))
  {
    if p.regions != [] && v.regionId != "" && Contains(q.regions, v.regionId, t) {
      ContainsMore(q.regions, p.regions, v.regionId, t);
    }
  }

  lemma RoleGateTightens(v: Vacancy, q: Preferences, p: Preferences, t: Text)
    requires Tighter(q, p)
    ensures Rank(Verdict(RoleGate(v, q, t))) <= Rank(Verdict(RoleGate(v, p, t)))
  {
    if p.approvedRoles != [] {
      var roles := OfficialRoles(v, t);
      if Overlaps(q.approvedRoles, roles, t) {
        var i :| 0 <= i < |q.approvedRoles| && Contains(roles, q.approvedRoles[i], t);
        assert q.approvedRoles[i] in p.approvedRoles;
        assert Overlaps(p.approvedRoles, roles, t);
      }
      if Contains(q.approvedRoles, "96", t) {
        ContainsMore(q.approvedRoles, p.approvedRoles, "96", t);
      }
    }
  }

  /** Asking for more, except through the specialization, never raises the decision. */
  lemma TighteningNeverRaises(v: Vacancy, q: Preferences, p: Preferences, t: Text, now: int)
    requires Tighter(q, p)
    ensures Rank(GateDecision(v, q, t, now)) <= Rank(GateDecision(v, p, t, now))
  {
    ExcludedMeaning(v, q, t, |q.excludedSkills|);
    ExcludedMeaning(v, p, t, |p.excludedSkills|);
    if Excluded(v, p, t, |p.excludedSkills|) != [] {
      var i :| 0 <= i < |p.excludedSkills| && t.lower(p.excludedSkills[i]) in SkillSet(v, t);
      assert p.excludedSkills[i] in q.excludedSkills;
    } else {
      TighterFindings(v, q, p, t, now);
      MeetMonotone(Findings(v, q, t, now), Findings(v, p, t, now));
    }
  }

  lemma TighterFindings(v: Vacancy, q: Preferences, p: Preferences, t: Text, now: int)
    requires Tighter(q, p)
    ensures forall g :: g in Findings(v, p, t, now) ==> Dominated(g, Findings(v, q, t, now))
  {
    GatesTighten(v, q, p, t, now);
    RoleGateTightens(v, q, p, t);
    SkillFindingsMembers(v, p.requiredSkills, t);
    SkillFindingsMembers(v, q.requiredSkills, t);
    hide LeadershipGate, FieldGate, RoleGate, SalaryGate, RegionGate, RemoteGate, AgeGate, SkillGate, SkillFindings, Verdict, Rank;
    var all := Findings(v, q, t, now);
    var profile, facts := ProfileFindings(v, q, t), FactFindings(v, q, t);
    assert profile[0] in all && profile[1] in all && profile[2] in all;
    assert facts[0] in all && facts[1] in all && facts[2] in all;
    assert AgeGate(v, q, now) in all;
    forall g | g in Findings(v, p, t, now) ensures Dominated(g, all) {
      if g in ProfileFindings(v, p, t) || g in FactFindings(v, p, t) || g == AgeGate(v, p, now) {
      } else {
        assert g in SkillFindings(v, p.requiredSkills, t);
        assert g in all;
      }
    }
  }

  /* ---- setting a specialization ---- */

  /** Every gate but specialization and catalog role. */
  function OtherGates(v: Vacancy, p: Preferences, t: Text, now: int): Decision {
    if Excluded(v, p, t, |p.excludedSkills|) != [] then Reject
    else MeetAll([LeadershipGate(v, p, t)] + FactFindings(v, p, t) + SkillFindings(v, p.requiredSkills, t) + [AgeGate(v, p, now)])
  }

  lemma GatesSplit(v: Vacancy, p: Preferences, t: Text, now: int)
    ensures GateDecision(v, p, t, now) ==
            Meet(OtherGates(v, p, t, now), Meet(Verdict(FieldGate(v, p, t)), Verdict(RoleGate(v, p, t))))
  {
    hide MeetAll, Excluded, Verdict, Meet, LeadershipGate, FieldGate, RoleGate, SkillFindings, FactFindings, AgeGate;
    var l, f, r := LeadershipGate(v, p, t), FieldGate(v, p, t), RoleGate(v, p, t);
    var facts, skills, age := FactFindings(v, p, t), SkillFindings(v, p.requiredSkills, t), [AgeGate(v, p, now)];
    var rest := facts + skills + age;
    assert [l, f, r] + facts + skills + age == [l, f, r] + rest;
    assert [l] + facts + skills + age == [l] + rest;
    MeetSplit(l, f, r, rest);
    MeetReject(Verdict(f), Verdict(r));
  }

  lemma MeetReject(a: Decision, b: Decision)
    ensures Meet(Reject, Meet(a, b)) == Reject
  {
  }

  /** Two findings can be met last. */
  lemma MeetSplit(l: Finding, f: Finding, r: Finding, rest: seq<Finding>)
    ensures MeetAll([l, f, r] + rest) == Meet(MeetAll([l] + rest), Meet(Verdict(f), Verdict(r)))
  {
    MeetConcat([l, f, r], rest);
    MeetConcat([l], rest);
    MeetConcat([l], [f, r]);
    MeetConcat([f], [r]);
    assert [l] + [f, r] == [l, f, r] && [f] + [r] == [f, r];
    MeetOne(l);
    MeetOne(f);
    MeetOne(r);
    hide MeetAll, Verdict;
  }

  lemma MeetOne(f: Finding)
    ensures MeetAll([f]) == Verdict(f)
  {
    assert [f][1..] == [];
  }

  lemma ExcludedIgnoresField(v: Vacancy, p: Preferences, s: Specialization, t: Text)
    ensures Excluded(v, p.(specialization := Some(s)), t, |p.excludedSkills|) != [] <==>
            Excluded(v, p, t, |p.excludedSkills|) != []
  {
    ExcludedMeaning(v, p, t, |p.excludedSkills|);
    ExcludedMeaning(v, p.(specialization := Some(s)), t, |p.excludedSkills|);
  }

  /** What the vacancy must be for setting specialization `s` to raise its decision: a catalog role clash is lifted
      when no other gate rejects and the field is `s` or unknown; an unsure role is settled when all other gates
      match and the field is `s`, proven and not of low confidence. */
  predicate Raises(v: Vacancy, p: Preferences, s: Specialization, t: Text, now: int) {
    var c := t.classify(v);
    match RoleGate(v, p, t)
    case Passed => false
    case Clash(_) => OtherGates(v, p, t, now) != Reject && (c.field == s || c.field == UnknownField)
    case Unsure(_) => OtherGates(v, p, t, now) == Match && c.field == s && Proven(c) && c.confidence != Low
  }

  lemma SpecializationRaisesIff(v: Vacancy, p: Preferences, s: Specialization, t: Text, now: int)
    requires p.specialization.None?
    ensures Rank(GateDecision(v, p.(specialization := Some(s)), t, now)) > Rank(GateDecision(v, p, t, now)) <==>
            Raises(v, p, s, t, now)
  {
    var q := p.(specialization := Some(s));
    GatesSplit(v, p, t, now);
    GatesSplit(v, q, t, now);
    OtherGatesIgnoreField(v, p, s, t, now);
    NoFieldPasses(v, p, t);
    RoleUnderField(v, p, s, t);
    hide GateDecision, OtherGates, OfficialRoles, Overlaps, Contains, RoleGate;
  }

  /** The role gate once a specialization is set. */
  lemma RoleUnderField(v: Vacancy, p: Preferences, s: Specialization, t: Text)
    requires p.specialization.None?
    ensures var c := t.classify(v);
            RoleGate(v, p.(specialization := Some(s)), t) ==
            if RoleGate(v, p, t).Passed? && (p.approvedRoles == [] || Overlaps(p.approvedRoles, OfficialRoles(v, t), t)) then Passed
            else if c.field == s && Proven(c) then Passed
            else Unsure("role")
  {
    hide OfficialRoles, Overlaps, Contains;
    OverlapsNothing(p.approvedRoles, t);
  }

  lemma OverlapsNothing(a: seq<string>, t: Text)
    ensures !Overlaps(a, [], t)
  {
  }

  lemma NoFieldPasses(v: Vacancy, p: Preferences, t: Text)
    requires p.specialization.None?
    ensures Verdict(FieldGate(v, p, t)) == Match
  {
  }

  lemma OtherGatesIgnoreField(v: Vacancy, p: Preferences, s: Specialization, t: Text, now: int)
    ensures OtherGates(v, p.(specialization := Some(s)), t, now) == OtherGates(v, p, t, now)
  {
    ExcludedIgnoresField(v, p, s, t);
  }

  /** In particular it never raises a decision whose role gate passes without it. */
  lemma SpecializationHarmless(v: Vacancy, p: Preferences, s: Specialization, t: Text, now: int)
    requires p.specialization.None? && RoleGate(v, p, t).Passed?
    ensures Rank(GateDecision(v, p.(specialization := Some(s)), t, now)) <= Rank(GateDecision(v, p, t, now))
  {
    SpecializationRaisesIff(v, p, s, t, now);
  }

  /** And it can turn a reject into a match: a backend vacancy outside the approved roles. */
  lemma SpecializationCanRaise(t: Text, v: Vacancy, p: Preferences)
    requires v == Vacancy("Backend developer", "", ["10"], "", "", None, [], None, None, None)
    requires p == Preferences(["96"], None, false, None, [], false, [], [], 0)
    requires t.classify(v) == Classification(Backend, false, High, FromTitle) && t.fold("10") != t.fold("96")
    ensures GateDecision(v, p, t, 0) == Reject
    ensures GateDecision(v, p.(specialization := Some(Backend)), t, 0) == Match
  {
    var q := p.(specialization := Some(Backend));
    GatesSplit(v, p, t, 0);
    GatesSplit(v, q, t, 0);
    OtherGatesIgnoreField(v, p, Backend, t, 0);
    UnapprovedRole(t, v, p);
    var others := [LeadershipGate(v, p, t)] + FactFindings(v, p, t) + SkillFindings(v, [], t) + [AgeGate(v, p, 0)];
    assert others == [Passed, Passed, Passed, Passed, Passed];
    MeetMeaning(others);
  }

  lemma UnapprovedRole(t: Text, v: Vacancy, p: Preferences)
    requires v.roleId == "" && v.roleIds == ["10"] && p.approvedRoles == ["96"] && p.specialization.None?
    requires t.classify(v) == Classification(Backend, false, High, FromTitle) && t.fold("10") != t.fold("96")
    ensures RoleGate(v, p, t) == Clash("role")
    ensures RoleGate(v, p.(specialization := Some(Backend)), t) == Passed
  {
    assert TrimSpace("") == "";
    assert OfficialRoles(v, t) == ["10"];
    assert !Contains(["10"], "96", t);
    assert !Overlaps(["96"], ["10"], t);
  }
}
