/** Combining the deterministic verdict with an untrusted AI answer. */
module HardGates {
  import opened Decimal
  import opened Assistant
  import opened Matcher
  import Sorting

  const SKILL_PREFIX := "required_skill:"

  /** The criterion whose proof settles an unknown. */
  function CriterionKey(unknown: string, t: Text): string {
    if unknown == "specialization_description_only" then "specialization"
    else if SKILL_PREFIX <= unknown then SKILL_PREFIX + t.skill(unknown[|SKILL_PREFIX|..])
    else unknown
  }

  /** A passing proof with a source. */
  predicate Settles(criteria: map<string, Proof>, key: string) {
    key in criteria && criteria[key].pass && TrimSpace(criteria[key].source) != ""
  }

  /** Enrichment gives an id-list match a proof for every unknown it says nothing about. */
  function Enriched(criteria: map<string, Proof>, unknowns: seq<string>, t: Text): map<string, Proof> {
    if unknowns == [] then criteria
    else
      var n := |unknowns| - 1;
      var r := Enriched(criteria, unknowns[..n], t);
      var key := CriterionKey(unknowns[n], t);
      if key in r then r else r[key := Proof(true, "description")]
  }

  lemma {:induction false} EnrichedMeaning(criteria: map<string, Proof>, unknowns: seq<string>, t: Text)
    ensures var r := Enriched(criteria, unknowns, t);
            && (forall k :: k in criteria ==> k in r && r[k] == criteria[k])
            && (forall k :: k in r && k !in criteria ==> r[k] == Proof(true, "description"))
            && (forall u :: u in unknowns ==> CriterionKey(u, t) in r)
  {
    hide CriterionKey;
    if unknowns != [] {
      var n := |unknowns| - 1;
      EnrichedMeaning(criteria, unknowns[..n], t);
      assert unknowns == unknowns[..n] + [unknowns[n]];
    }
  }

  function Criteria(det: Result, ai: MatchOutput, t: Text): map<string, Proof> {
    if ai.rationale == "id_list_match" then Enriched(ai.criteria, det.unknowns, t) else ai.criteria
  }

  predicate AllSettled(det: Result, ai: MatchOutput, t: Text) {
    forall i :: 0 <= i < |det.unknowns| ==> Settles(Criteria(det, ai, t), CriterionKey(det.unknowns[i], t))
  }

  /** The combined decision. */
  function FinalDecision(det: Result, ai: MatchOutput, t: Text): Decision {
    if det.decision == Reject then Reject
    else if det.decision == Match && det.unknowns == [] then Match
    else if ai.decision != Match then ai.decision
    else if AllSettled(det, ai, t) then Match
    else Review
  }

  /* ---- appendUnique ---- */

  function Appended(values: seq<string>, additions: seq<string>): seq<string>
    decreases |additions|
  {
    if additions == [] then values
    else
      var x := additions[0];
      Appended(if x != "" && x !in values then values + [x] else values, additions[1..])
  }

  /** Nothing is lost, every non-empty addition is there, nothing else is, and no addition doubles. */
  lemma {:induction false} AppendedMeaning(values: seq<string>, additions: seq<string>)
    ensures values <= Appended(values, additions)
    ensures forall x :: x in Appended(values, additions) <==> x in values || (x in additions && x != "")
    ensures Sorting.Distinct(values) ==> Sorting.Distinct(Appended(values, additions))
    decreases |additions|
  {
    if additions != [] {
      var x := additions[0];
      var more := if x != "" && x !in values then values + [x] else values;
      assert Sorting.Distinct(values) ==> Sorting.Distinct(more);
      AppendedMeaning(more, additions[1..]);
      hide Sorting.Distinct;
      assert additions == [x] + additions[1..];
      assert values <= more;
    }
  }

  method AppendUnique(values: seq<string>, additions: seq<string>) returns (r: seq<string>)
    ensures r == Appended(values, additions)
  {
    r := values;
    var seen: set<string> := {};
    for i := 0 to |values|
      invariant seen == set x | x in values[..i]
    {
      seen := seen + {values[i]};
    }
    assert forall x :: x in seen <==> x in values;
    for i := 0 to |additions|
      invariant forall x :: x in seen <==> x in r
      invariant Appended(r, additions[i..]) == Appended(values, additions)
    {
      var x := additions[i];
      assert additions[i..][0] == x && additions[i..][1..] == additions[i + 1..];
      if x != "" && x !in seen {
        r, seen := r + [x], seen + {x};
      }
    }
  }

  /* ---- the combination ---- */

  /** enrichIDListMatchEvidence. */
  method Enrich(det: Result, criteria: map<string, Proof>, t: Text) returns (r: map<string, Proof>)
    ensures r == Enriched(criteria, det.unknowns, t)
  {
    r := criteria;
    for i := 0 to |det.unknowns|
      invariant r == Enriched(criteria, det.unknowns[..i], t)
    {
      var key := CriterionKey(det.unknowns[i], t);
      assert det.unknowns[..i + 1][..i] == det.unknowns[..i];
      if key !in r {
        r := r[key := Proof(true, "description")];
      }
    }
    assert det.unknowns[..|det.unknowns|] == det.unknowns;
  }

  /** The evidence loop: passing criteria in whatever order the map yields them. */
  method CiteCriteria(evidence: seq<string>, criteria: map<string, Proof>) returns (r: seq<string>)
    ensures evidence <= r
    ensures forall x :: x in r <==> x in evidence || (exists k :: k in criteria && criteria[k].pass && x == "criterion:" + k + ":" + criteria[k].source)
  {
    r := evidence;
    var todo := criteria.Keys;
    while todo != {}
      invariant todo <= criteria.Keys && evidence <= r
      invariant forall x ::
                  x in r <==>
                    x in evidence || (exists k :: k in criteria && k !in todo && criteria[k].pass && x == "criterion:" + k + ":" + criteria[k].source)
      decreases todo
    {
      var k :| k in todo;
      todo := todo - {k};
      if criteria[k].pass {
        ghost var before := r;
        r := AppendUnique(r, [Citation(k, criteria[k])]);
        AppendedMeaning(before, [Citation(k, criteria[k])]);
      }
    }
  }

  function Citation(key: string, proof: Proof): string { "criterion:" + key + ":" + proof.source }

  /** ApplyHardGatePrecedence. A gate reject stays a reject and carries the gates' conflicts; a gate match
      stays a match; otherwise the AI's match stands only if every unknown is settled. */
  method ApplyHardGatePrecedence(det: Result, ai: MatchOutput, t: Text) returns (r: MatchOutput)
    ensures det.decision == Reject ==>
              r == ai.(decision := Reject, conflicts := Appended(ai.conflicts, det.conflicts))
    ensures det.decision == Match && det.unknowns == [] ==>
              r.decision == Match && r.criteria == ai.criteria && r.conflicts == ai.conflicts && r.unknowns == ai.unknowns
    ensures det.decision != Reject && !(det.decision == Match && det.unknowns == []) ==>
              && (ai.decision != Match ==> r == ai)
              && (ai.decision == Match ==>
                    && r.decision == (if AllSettled(det, ai, t) then Match else Review)
                    && r.criteria == Criteria(det, ai, t)
                    && r.unknowns == Appended(ai.unknowns, Unsettled(det.unknowns, Criteria(det, ai, t), t)))
    ensures r.decision == FinalDecision(det, ai, t)
    ensures ai.evidence <= r.evidence
  {
    if det.decision == Reject {
      var conflicts := AppendUnique(ai.conflicts, det.conflicts);
      return ai.(decision := Reject, conflicts := conflicts);
    }
    if det.decision == Match && |det.unknowns| == 0 {
      var evidence := CiteCriteria(ai.evidence, ai.criteria);
      return ai.(decision := Match, evidence := evidence);
    }
    if ai.decision != Match {
      return ai;
    }
    r := ai;
    if ai.rationale == "id_list_match" {
      var criteria := Enrich(det, ai.criteria, t);
      r := r.(criteria := criteria);
    }
    var evidence := CiteCriteria(r.evidence, r.criteria);
    UnsettledMeaning(det.unknowns, r.criteria, t);
    r := SettleUnknowns(det, r.(evidence := evidence), t);
  }

  /** The unknowns without a passing, sourced proof, in order. */
  function Unsettled(unknowns: seq<string>, criteria: map<string, Proof>, t: Text): seq<string> {
    if unknowns == [] then []
    else
      var n := |unknowns| - 1;
      Unsettled(unknowns[..n], criteria, t)
      + (if Settles(criteria, CriterionKey(unknowns[n], t)) then [] else [unknowns[n]])
  }

  lemma {:induction false} UnsettledMeaning(unknowns: seq<string>, criteria: map<string, Proof>, t: Text)
    ensures Unsettled(unknowns, criteria, t) == [] <==>
            forall i :: 0 <= i < |unknowns| ==> Settles(criteria, CriterionKey(unknowns[i], t))
  {
    hide Settles, CriterionKey;
    if unknowns != [] {
      UnsettledMeaning(unknowns[..|unknowns| - 1], criteria, t);
    }
  }

  lemma {:induction false} AppendedLast(values: seq<string>, additions: seq<string>, x: string)
    ensures Appended(values, additions + [x]) == Appended(Appended(values, additions), [x])
    decreases |additions|
  {
    if additions == [] {
      assert additions + [x] == [x];
    } else {
      assert (additions + [x])[1..] == additions[1..] + [x];
      var y := additions[0];
      AppendedLast(if y != "" && y !in values then values + [y] else values, additions[1..], x);
    }
  }

  /** The last loop: an unsettled unknown downgrades the answer and is listed. */
  method SettleUnknowns(det: Result, ai: MatchOutput, t: Text) returns (r: MatchOutput)
    requires ai.decision == Match
    ensures var open := Unsettled(det.unknowns, ai.criteria, t);
            r == ai.(decision := if open == [] then Match else Review, unknowns := Appended(ai.unknowns, open))
  {
    hide Settles, CriterionKey, Appended;
    r := ai;
    AppendNothing(ai.unknowns);
    for i := 0 to |det.unknowns|
      invariant var open := Unsettled(det.unknowns[..i], ai.criteria, t);
                r == ai.(decision := if open == [] then Match else Review, unknowns := Appended(ai.unknowns, open))
    {
      var unknown := det.unknowns[i];
      ghost var open := Unsettled(det.unknowns[..i], ai.criteria, t);
      assert det.unknowns[..i + 1][..i] == det.unknowns[..i];
      assert open + [] == open;
      if !Settles(r.criteria, CriterionKey(unknown, t)) {
        AppendedLast(ai.unknowns, open, unknown);
        var listed := AppendUnique(r.unknowns, [unknown]);
        r := r.(decision := Review, unknowns := listed);
      }
    }
    assert det.unknowns[..|det.unknowns|] == det.unknowns;
  }

  lemma AppendNothing(values: seq<string>)
    ensures Appended(values, []) == values
  {
  }

  /** The name under which an answer may prove an open question. */
  ghost predicate Proves(name: string, question: string, t: Text) {
    || (question == "specialization_description_only" && name == "specialization")
    || (exists skill :: question == "required_skill:" + skill && name == "required_skill:" + t.skill(skill))
    || (question != "specialization_description_only" && !("required_skill:" <= question) && name == question)
  }

  /** The answer has a passing proof with a source under that name. */
  ghost predicate Backed(criteria: map<string, Proof>, question: string, t: Text) {
    exists name :: name in criteria && Proves(name, question, t) && criteria[name].pass && TrimSpace(criteria[name].source) != ""
  }

  ghost predicate Mentioned(criteria: map<string, Proof>, question: string, t: Text) {
    exists name :: name in criteria && Proves(name, question, t)
  }

  lemma KeyMeaning(question: string, t: Text)
    ensures forall name :: Proves(name, question, t) <==> name == CriterionKey(question, t)
  {
    if SKILL_PREFIX <= question {
      var skill := question[|SKILL_PREFIX|..];
      assert question == "required_skill:" + skill;
      forall other | question == "required_skill:" + other ensures other == skill {
        assert other == ("required_skill:" + other)[|SKILL_PREFIX|..];
      }
      assert question[0] == 'r' && "specialization_description_only"[0] == 's';
    } else {
      forall skill ensures question != "required_skill:" + skill {
        assert SKILL_PREFIX <= "required_skill:" + skill;
      }
    }
  }

  lemma BackedMeaning(criteria: map<string, Proof>, question: string, t: Text)
    ensures Backed(criteria, question, t) <==> Settles(criteria, CriterionKey(question, t))
    ensures Mentioned(criteria, question, t) <==> CriterionKey(question, t) in criteria
  {
    KeyMeaning(question, t);
    hide CriterionKey, Proves, TrimSpace;
  }

  /** Every open question is backed by the answer; an id-list match need not back those it does not mention. */
  ghost predicate AllBacked(questions: seq<string>, ai: MatchOutput, t: Text) {
    forall q :: q in questions ==>
      Backed(ai.criteria, q, t) || (ai.rationale == "id_list_match" && !Mentioned(ai.criteria, q, t))
  }

  lemma AllBackedMeaning(det: Result, ai: MatchOutput, t: Text)
    ensures AllSettled(det, ai, t) <==> AllBacked(det.unknowns, ai, t)
  {
    forall q ensures Backed(ai.criteria, q, t) <==> Settles(ai.criteria, CriterionKey(q, t)) {
      BackedMeaning(ai.criteria, q, t);
    }
    forall q ensures Mentioned(ai.criteria, q, t) <==> CriterionKey(q, t) in ai.criteria {
      BackedMeaning(ai.criteria, q, t);
    }
    if ai.rationale == "id_list_match" {
      IdListSettlesIff(det, ai, t);
    }
    hide Backed, Mentioned, CriterionKey, Enriched, Settles;
    if AllBacked(det.unknowns, ai, t) {
      assert forall i :: 0 <= i < |det.unknowns| ==> det.unknowns[i] in det.unknowns;
    }
  }

  /** Match followed by the AI: the final decision is match exactly when nothing is left open, or the AI says match and
      backs every open question; a rejected vacancy stays rejected whatever the AI says. */
  method Decide(v: Vacancy, p: Preferences, now: int, t: Text, ai: MatchOutput) returns (final: MatchOutput, det: Result)
    ensures det.decision == GateDecision(v, p, t, now)
    ensures final.decision == Match <==>
              && !Rejects(v, p, t, now)
              && (OpenQuestions(v, p, t) == [] || (ai.decision == Match && AllBacked(OpenQuestions(v, p, t), ai, t)))
    ensures Rejects(v, p, t, now) ==> final.decision == Reject
    ensures !Rejects(v, p, t, now) && OpenQuestions(v, p, t) != [] ==>
              final.decision == if ai.decision != Match then ai.decision
                                else if AllBacked(OpenQuestions(v, p, t), ai, t) then Match else Review
  {
    hide GateDecision, Findings, Criteria, Settles, Rejects, OpenQuestions, AllBacked, AllSettled;
    det := MatchVacancy(v, p, now, t);
    final := ApplyHardGatePrecedence(det, ai, t);
    AllBackedMeaning(det, ai, t);
  }

  /** An answer marked as an id-list match settles the unknowns iff it settles, by its own proofs, those it mentions
      at all: enrichment fills in every other one. */
  lemma IdListSettlesIff(det: Result, ai: MatchOutput, t: Text)
    requires ai.rationale == "id_list_match"
    ensures AllSettled(det, ai, t) <==>
            forall i :: 0 <= i < |det.unknowns| && CriterionKey(det.unknowns[i], t) in ai.criteria ==>
              Settles(ai.criteria, CriterionKey(det.unknowns[i], t))
  {
    var criteria := Criteria(det, ai, t);
    assert TrimSpace("description") == "description" by { TrimSpaceId("description"); }
    hide CriterionKey, TrimSpace, Enriched;
    EnrichedMeaning(ai.criteria, det.unknowns, t);
    forall i | 0 <= i < |det.unknowns|
      ensures Settles(criteria, CriterionKey(det.unknowns[i], t)) <==>
              (CriterionKey(det.unknowns[i], t) in ai.criteria ==> Settles(ai.criteria, CriterionKey(det.unknowns[i], t)))
    {
      assert det.unknowns[i] in det.unknowns;
    }
  }

  /** The code's own id-list match therefore stands, whatever the unknowns are. */
  lemma IdListMatchStands(det: Result, t: Text)
    ensures AllSettled(det, IdListMatch, t)
  {
    IdListSettlesIff(det, IdListMatch, t);
    TrimSpaceId("title");
  }

  /** An answer whose rationale is not the id-list marker needs its own proof of every unknown. */
  lemma PlainMatchNeedsProofs(det: Result, ai: MatchOutput, t: Text, i: nat)
    requires ai.rationale != "id_list_match" && i < |det.unknowns|
    requires !Settles(ai.criteria, CriterionKey(det.unknowns[i], t))
    ensures !AllSettled(det, ai, t)
  {
  }
}
