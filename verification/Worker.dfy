/** The worker's page processing: gates, AI jobs grouped by preferences, and the run counters.
    Rows marked for an AI retry are not part of this model. */
module Worker {
  import opened Assistant
  import opened Matcher
  import opened HardGates
  import opened Packing
  import opened BatchResolver
  import Sorting
  import opened Sums

  datatype Candidate = Candidate(id: string, vacancy: Vacancy, observedAt: int, item: BatchItem)

  datatype User = User(id: string, preferences: Preferences, shared: string)

  datatype Settings = Settings(activationAt: Option<int>, aiEnabled: bool, telegramEnabled: bool)

  /** What the store answers for candidate i and user j, and for job n of a preference group; None or
      false is a store error. `deliver` folds the eligibility check and the delivery row together. */
  datatype Store = Store(
    settings: (nat, nat) -> Option<Settings>,
    saveMatch: (nat, nat) -> Option<bool>,
    deliver: (nat, nat) -> Option<bool>,
    aiResultExists: (nat, nat) -> Option<bool>,
    savePrefilter: (nat, nat) -> bool,
    saveAiResult: (string, nat) -> bool,
    saveAiFailure: (string, nat) -> bool,
    deliverAi: (string, nat) -> Option<bool>)

  datatype Options = Options(now: int, manual: bool, telegramEnabled: bool, hasProvider: bool)

  datatype Counters = Counters(
    processed: int, eligible: int, matched: int, skipped: int, notified: int,
    aiEligible: int, aiCalls: int, aiSucceeded: int, aiMatches: int, aiReviews: int, aiRejects: int,
    aiFailures: int, aiSkipped: int)

  datatype Job = Job(candidate: Candidate, user: User, det: Result, telegram: bool)

  /* ---- what the settings, the gates and the store say about a pair ---- */

  /** The pair counts: a manual run, or an observation from the start of the user's automation on. */
  predicate Eligible(c: Candidate, answer: Option<Settings>, o: Options) {
    && answer.Some?
    && (o.manual || answer.value.activationAt.None? || c.observedAt >= answer.value.activationAt.value)
  }

  ghost predicate GatesMatch(c: Candidate, u: User, o: Options, t: Text) {
    !Rejects(c.vacancy, u.preferences, t, o.now) && OpenQuestions(c.vacancy, u.preferences, t) == []
  }

  ghost predicate PairMatches(c: Candidate, u: User, answer: Option<Settings>, o: Options, t: Text) {
    Eligible(c, answer, o) && GatesMatch(c, u, o, t)
  }

  /** The pair goes to the AI: the user wants it, a provider is there, it has no result yet, and no gate rejects. */
  ghost predicate WantsAI(c: Candidate, u: User, i: nat, j: nat, st: Store, o: Options, t: Text) {
    && Eligible(c, st.settings(i, j), o) && st.settings(i, j).value.aiEnabled
    && o.hasProvider && st.aiResultExists(i, j) == Some(false)
    && !Rejects(c.vacancy, u.preferences, t, o.now)
  }

  /** A gate match is sent straight to the user only when it is new, the AI is off and both Telegram switches are on. */
  ghost predicate Delivers(c: Candidate, u: User, i: nat, j: nat, st: Store, o: Options, t: Text) {
    && PairMatches(c, u, st.settings(i, j), o, t) && st.saveMatch(i, j) == Some(true)
    && !st.settings(i, j).value.aiEnabled && o.telegramEnabled && st.settings(i, j).value.telegramEnabled
  }

  /** The store calls the pair needs all succeed. */
  ghost predicate StoreWorks(c: Candidate, u: User, i: nat, j: nat, st: Store, o: Options, t: Text) {
    && st.settings(i, j).Some?
    && (Eligible(c, st.settings(i, j), o) ==>
          && st.saveMatch(i, j).Some?
          && (Delivers(c, u, i, j, st, o, t) ==> st.deliver(i, j).Some?)
          && (st.settings(i, j).value.aiEnabled && o.hasProvider ==>
                && st.aiResultExists(i, j).Some?
                && (st.aiResultExists(i, j) == Some(false) && Rejects(c.vacancy, u.preferences, t, o.now) ==> st.savePrefilter(i, j))))
  }

  /** The job for the pair, with the gates' verdict on it. */
  ghost predicate JobFor(job: Job, c: Candidate, u: User, i: nat, j: nat, st: Store, t: Text) {
    var open := OpenQuestions(c.vacancy, u.preferences, t);
    && job.candidate == c && job.user == u
    && job.det.decision == (if open == [] then Match else Review) && job.det.unknowns == open
    && st.settings(i, j).Some? && job.telegram == st.settings(i, j).value.telegramEnabled
  }

  ghost function UserMatches(cs: seq<Candidate>, us: seq<User>, st: Store, o: Options, t: Text, i: nat, n: nat): nat
    requires i < |cs| && n <= |us|
  {
    if n == 0 then 0
    else UserMatches(cs, us, st, o, t, i, n - 1)
         + if PairMatches(cs[i], us[n - 1], st.settings(i, n - 1), o, t) then 1 else 0
  }

  ghost function PageMatches(cs: seq<Candidate>, us: seq<User>, st: Store, o: Options, t: Text, n: nat): nat
    requires n <= |cs|
  {
    if n == 0 then 0 else PageMatches(cs, us, st, o, t, n - 1) + UserMatches(cs, us, st, o, t, n - 1, |us|)
  }

  /** The pairs of candidate `i` with the first `n` users that go to the AI, in order. */
  ghost function UserPairs(cs: seq<Candidate>, us: seq<User>, st: Store, o: Options, t: Text, i: nat, n: nat): seq<(nat, nat)>
    requires i < |cs| && n <= |us|
  {
    if n == 0 then []
    else UserPairs(cs, us, st, o, t, i, n - 1) + if WantsAI(cs[i], us[n - 1], i, n - 1, st, o, t) then [(i, n - 1)] else []
  }

  ghost function PagePairs(cs: seq<Candidate>, us: seq<User>, st: Store, o: Options, t: Text, n: nat): seq<(nat, nat)>
    requires n <= |cs|
  {
    if n == 0 then [] else PagePairs(cs, us, st, o, t, n - 1) + UserPairs(cs, us, st, o, t, n - 1, |us|)
  }

  /** One job per pair, in order. */
  ghost predicate JobsFor(jobs: seq<Job>, pairs: seq<(nat, nat)>, cs: seq<Candidate>, us: seq<User>, st: Store, o: Options, t: Text) {
    && |jobs| == |pairs|
    && forall k :: 0 <= k < |jobs| ==>
         && pairs[k].0 < |cs| && pairs[k].1 < |us|
         && WantsAI(cs[pairs[k].0], us[pairs[k].1], pairs[k].0, pairs[k].1, st, o, t)
         && JobFor(jobs[k], cs[pairs[k].0], us[pairs[k].1], pairs[k].0, pairs[k].1, st, t)
  }

  /* ---- the balance of the counters ---- */

  /** After `pairs` candidate-user pairs: each is matched or skipped, each eligible one is a job or was
      kept from the AI, and the AI outcome counters have not moved. */
  predicate PairsBalanced(a: Counters, b: Counters, pairs: int, jobs: int) {
    && b.matched + b.skipped == a.matched + a.skipped + pairs
    && b.eligible - a.eligible == b.aiSkipped - a.aiSkipped + jobs
    && b.aiCalls == a.aiCalls && b.aiSucceeded == a.aiSucceeded && b.aiFailures == a.aiFailures
    && b.aiMatches == a.aiMatches && b.aiReviews == a.aiReviews && b.aiRejects == a.aiRejects
  }

  /** A finished job and what the provider said about it, or nothing if it failed. */
  datatype Finished = Finished(job: Job, answer: Option<MatchOutput>)

  /** The final decision of a finished job; a failed one has none. */
  function FinalOf(f: Finished, t: Text): Option<Decision> {
    match f.answer
    case None => None
    case Some(output) => Some(FinalDecision(f.job.det, output, t))
  }

  function Count(done: seq<Finished>, t: Text, v: Option<Decision>): nat {
    if done == [] then 0 else Count(done[..|done| - 1], t, v) + if FinalOf(done[|done| - 1], t) == v then 1 else 0
  }

  /** After the jobs in `done`: each was a call, counted as a failure or under its own final decision. */
  predicate Tallied(a: Counters, b: Counters, done: seq<Finished>, t: Text) {
    && b.aiCalls == a.aiCalls + |done|
    && b.aiFailures == a.aiFailures + Count(done, t, None)
    && b.aiSucceeded == a.aiSucceeded + |done| - Count(done, t, None)
    && b.aiMatches == a.aiMatches + Count(done, t, Some(Match))
    && b.aiReviews == a.aiReviews + Count(done, t, Some(Review))
    && b.aiRejects == a.aiRejects + Count(done, t, Some(Reject))
    && b.processed == a.processed && b.eligible == a.eligible && b.matched == a.matched
    && b.skipped == a.skipped && b.aiSkipped == a.aiSkipped
  }

  lemma {:induction false} CountAppend(a: seq<Finished>, b: seq<Finished>, t: Text, v: Option<Decision>)
    ensures Count(a + b, t, v) == Count(a, t, v) + Count(b, t, v)
    decreases |b|
  {
    hide FinalOf;
    if b == [] {
      assert a + b == a;
    } else {
      var n := |b| - 1;
      CountAppend(a, b[..n], t, v);
      assert (a + b)[..|a + b| - 1] == a + b[..n];
    }
  }

  /** Every finished job has exactly one outcome. */
  lemma {:induction false} CountTotal(done: seq<Finished>, t: Text)
    ensures Count(done, t, None) + Count(done, t, Some(Match)) + Count(done, t, Some(Review)) + Count(done, t, Some(Reject))
            == |done|
  {
    if done != [] {
      CountTotal(done[..|done| - 1], t);
      hide FinalDecision;
      match FinalOf(done[|done| - 1], t)
      case None =>
      case Some(d) => assert d == Match || d == Review || d == Reject;
    }
  }

  lemma TalliedChain(a: Counters, b: Counters, c: Counters, x: seq<Finished>, y: seq<Finished>, t: Text)
    requires Tallied(a, b, x, t) && Tallied(b, c, y, t)
    ensures Tallied(a, c, x + y, t)
  {
    CountAppend(x, y, t, None);
    CountAppend(x, y, t, Some(Match));
    CountAppend(x, y, t, Some(Review));
    CountAppend(x, y, t, Some(Reject));
  }

  function JobsIn(done: seq<Finished>): seq<Job> {
    seq(|done|, i requires 0 <= i < |done| => done[i].job)
  }

  datatype PairOutcome = StoreError | NoJob | NewJob(job: Job)

  /** The body of the inner loop for one candidate and one user. */
  method ProcessPair(c: Candidate, u: User, i: nat, j: nat, st: Store, o: Options, t: Text, before: Counters)
    returns (stats: Counters, outcome: PairOutcome)
    ensures outcome.StoreError? <==> !StoreWorks(c, u, i, j, st, o, t)
    ensures !outcome.StoreError? ==>
              && PairsBalanced(before, stats, 1, if outcome.NewJob? then 1 else 0)
              && stats.processed == before.processed
              && stats.matched == before.matched + One(PairMatches(c, u, st.settings(i, j), o, t))
              && stats.eligible == before.eligible + One(Eligible(c, st.settings(i, j), o))
              && stats.aiEligible == before.aiEligible + One(Eligible(c, st.settings(i, j), o) && st.settings(i, j).value.aiEnabled)
              && stats.notified == before.notified + One(Delivers(c, u, i, j, st, o, t) && st.deliver(i, j) == Some(true))
    ensures !outcome.StoreError? ==> (outcome.NewJob? <==> WantsAI(c, u, i, j, st, o, t))
    ensures outcome.NewJob? ==> JobFor(outcome.job, c, u, i, j, st, t)
  {
    hide GateDecision, Rejects, OpenQuestions, Findings;
    stats := before;
    var settings := st.settings(i, j);
    if settings.None? {
      return stats, StoreError;
    }
    if !o.manual && settings.value.activationAt.Some? && c.observedAt < settings.value.activationAt.value {
      return stats.(skipped := stats.skipped + 1), NoJob;
    }
    stats := stats.(eligible := stats.eligible + 1);
    var det := MatchVacancy(c.vacancy, u.preferences, o.now, t);
    var created := st.saveMatch(i, j);
    if created.None? {
      return stats, StoreError;
    }
    if det.decision == Match {
      stats := stats.(matched := stats.matched + 1);
      if created.value && !settings.value.aiEnabled && o.telegramEnabled && settings.value.telegramEnabled {
        var delivered := st.deliver(i, j);
        if delivered.None? {
          return stats, StoreError;
        }
        if delivered.value {
          stats := stats.(notified := stats.notified + 1);
        }
      }
    } else {
      stats := stats.(skipped := stats.skipped + 1);
    }
    if !settings.value.aiEnabled {
      return stats.(aiSkipped := stats.aiSkipped + 1), NoJob;
    }
    stats := stats.(aiEligible := stats.aiEligible + 1);
    if !o.hasProvider {
      return stats.(aiSkipped := stats.aiSkipped + 1), NoJob;
    }
    var exists_ := st.aiResultExists(i, j);
    if exists_.None? {
      return stats, StoreError;
    }
    if exists_.value {
      return stats.(aiSkipped := stats.aiSkipped + 1), NoJob;
    }
    if det.decision == Reject {
      stats := stats.(aiSkipped := stats.aiSkipped + 1);
      return stats, if st.savePrefilter(i, j) then NoJob else StoreError;
    }
    return stats, NewJob(Job(c, u, det, settings.value.telegramEnabled));
  }

  lemma CountOne(f: Finished, t: Text)
    ensures forall v :: Count([f], t, v) == if FinalOf(f, t) == v then 1 else 0
  {
    assert [f][..0] == [];
  }

  /** One finished AI job. `answer` is the provider's output, or the failure category. */
  method FinishJob(job: Job, output: Option<MatchOutput>, n: nat, st: Store, o: Options, t: Text, before: Counters)
    returns (stats: Counters, ok: bool)
    ensures ok ==> Tallied(before, stats, [Finished(job, output)], t)
    ensures var sent := output.Some? && FinalDecision(job.det, output.value, t) == Match && o.telegramEnabled && job.telegram;
            && (ok <==> if output.None? then st.saveAiFailure(job.user.shared, n)
                        else st.saveAiResult(job.user.shared, n) && (sent ==> st.deliverAi(job.user.shared, n).Some?))
            && (ok ==> stats.notified == before.notified + One(sent && st.deliverAi(job.user.shared, n) == Some(true)))
  {
    CountOne(Finished(job, output), t);
    hide Count, FinalDecision;
    stats := before.(aiCalls := before.aiCalls + 1);
    if output.None? {
      stats := stats.(aiFailures := stats.aiFailures + 1);
      return stats, st.saveAiFailure(job.user.shared, n);
    }
    var final := ApplyHardGatePrecedence(job.det, output.value, t);
    if !st.saveAiResult(job.user.shared, n) {
      return stats, false;
    }
    stats := stats.(aiSucceeded := stats.aiSucceeded + 1);
    if final.decision == Match {
      stats := stats.(aiMatches := stats.aiMatches + 1);
      if o.telegramEnabled && job.telegram {
        var delivered := st.deliverAi(job.user.shared, n);
        if delivered.None? {
          return stats, false;
        }
        if delivered.value {
          stats := stats.(notified := stats.notified + 1);
        }
      }
    } else if final.decision == Review {
      stats := stats.(aiReviews := stats.aiReviews + 1);
    } else {
      stats := stats.(aiRejects := stats.aiRejects + 1);
    }
    ok := true;
  }

  /* ---- grouping jobs by their shared preferences ---- */

  /** Jobs in arrival order within each group, groups in order of first appearance. */
  datatype Groups = Groups(order: seq<string>, members: map<string, seq<Job>>)

  ghost predicate GroupsOk(g: Groups) {
    (forall k :: k in g.order <==> k in g.members) && Sorting.Distinct(g.order)
  }

  /** The jobs with this preference text, in arrival order. */
  function OfKey(jobs: seq<Job>, key: string): seq<Job> {
    if jobs == [] then []
    else
      var last := jobs[|jobs| - 1];
      OfKey(jobs[..|jobs| - 1], key) + if last.user.shared == key then [last] else []
  }

  /** Every group is exactly the jobs of its key, and every key with jobs has a group. */
  ghost predicate Grouped(g: Groups, jobs: seq<Job>) {
    && GroupsOk(g)
    && (forall k :: k in g.members ==> g.members[k] == OfKey(jobs, k))
    && (forall k :: k !in g.members ==> OfKey(jobs, k) == [])
  }

  function Add(g: Groups, job: Job): Groups {
    var key := job.user.shared;
    if key in g.members then g.(members := g.members[key := g.members[key] + [job]])
    else Groups(g.order + [key], g.members[key := [job]])
  }

  lemma AddKeepsOk(g: Groups, job: Job)
    requires GroupsOk(g)
    ensures GroupsOk(Add(g, job))
  {
    var h, key := Add(g, job), job.user.shared;
    forall k ensures k in h.order <==> k in h.members {
      assert k in h.order <==> k in g.order || k == key;
    }
  }

  lemma OfKeyMore(jobs: seq<Job>, job: Job, key: string)
    ensures OfKey(jobs + [job], key) == OfKey(jobs, key) + if job.user.shared == key then [job] else []
  {
    assert (jobs + [job])[..|jobs|] == jobs;
  }

  lemma AddGroups(g: Groups, jobs: seq<Job>, job: Job)
    requires Grouped(g, jobs)
    ensures Grouped(Add(g, job), jobs + [job])
  {
    AddKeepsOk(g, job);
    hide GroupsOk, OfKey;
    var h, key, more := Add(g, job), job.user.shared, jobs + [job];
    forall k | k in h.members ensures h.members[k] == OfKey(more, k) {
      OfKeyMore(jobs, job, k);
      if k != key {
        assert h.members[k] == g.members[k];
      } else if k in g.members {
        assert h.members[k] == g.members[k] + [job];
      } else {
        assert h.members[k] == [job];
      }
    }
    forall k | k !in h.members ensures OfKey(more, k) == [] {
      OfKeyMore(jobs, job, k);
    }
  }

  method GroupJobs(jobs: seq<Job>) returns (g: Groups)
    ensures Grouped(g, jobs)
    ensures multiset(Pool(g, |g.order|)) == multiset(jobs)
  {
    g := Groups([], map[]);
    for i := 0 to |jobs|
      invariant Grouped(g, jobs[..i])
    {
      hide Grouped, Add;
      assert jobs[..i + 1] == jobs[..i] + [jobs[i]];
      AddGroups(g, jobs[..i], jobs[i]);
      g := Add(g, jobs[i]);
    }
    assert jobs[..|jobs|] == jobs;
    PoolIsJobs(g, jobs);
  }

  /** The groups one after the other. */
  function Pool(g: Groups, n: nat): seq<Job>
    requires n <= |g.order|
  {
    if n == 0 then [] else Pool(g, n - 1) + if g.order[n - 1] in g.members then g.members[g.order[n - 1]] else []
  }

  lemma {:induction false} OfKeyCount(jobs: seq<Job>, key: string, x: Job)
    ensures multiset(OfKey(jobs, key))[x] == if x.user.shared == key then multiset(jobs)[x] else 0
  {
    if jobs != [] {
      var n := |jobs| - 1;
      OfKeyCount(jobs[..n], key, x);
      assert jobs == jobs[..n] + [jobs[n]];
    }
  }

  lemma NextKey(g: Groups, jobs: seq<Job>, n: nat)
    requires Grouped(g, jobs) && 0 < n <= |g.order|
    ensures var key := g.order[n - 1];
            && key in g.members && g.members[key] == OfKey(jobs, key)
            && key !in g.order[..n - 1] && g.order[..n] == g.order[..n - 1] + [key]
  {
    assert g.order[n - 1] in g.order;
  }

  lemma {:induction false} PoolCount(g: Groups, jobs: seq<Job>, n: nat, x: Job)
    requires Grouped(g, jobs) && n <= |g.order|
    ensures multiset(Pool(g, n))[x] == if x.user.shared in g.order[..n] then multiset(jobs)[x] else 0
  {
    PoolNone();
    hide Grouped, OfKey, Pool;
    if n > 0 {
      var key := g.order[n - 1];
      PoolCount(g, jobs, n - 1, x);
      OfKeyCount(jobs, key, x);
      NextKey(g, jobs, n);
      PoolMore(g, n - 1);
      assert multiset(Pool(g, n)) == multiset(Pool(g, n - 1)) + multiset(OfKey(jobs, key));
    }
  }

  /** No job is lost or doubled by the grouping. */
  lemma PoolIsJobs(g: Groups, jobs: seq<Job>)
    requires Grouped(g, jobs)
    ensures multiset(Pool(g, |g.order|)) == multiset(jobs)
  {
    hide Pool, OfKey;
    forall x ensures multiset(Pool(g, |g.order|))[x] == multiset(jobs)[x] {
      PoolCount(g, jobs, |g.order|, x);
      OfKeyCount(jobs, x.user.shared, x);
      assert g.order[..|g.order|] == g.order;
    }
  }

  /** What the worker makes of a batch result for one id. */
  function AnswerFor(id: string, r: BatchResult): Option<MatchOutput> {
    if id in r.errors || id !in r.outputs then None else Some(r.outputs[id])
  }

  function ItemsOf(group: seq<Job>): seq<BatchItem> {
    seq(|group|, i requires 0 <= i < |group| => group[i].candidate.item.(id := group[i].candidate.id))
  }

  /** The requests made for each preference text. */
  type RequestLogs = map<string, seq<Request>>

  /** The answer was given about this job's own candidate in a logged request for these items; a job without an answer
      failed in a request for its candidate alone. */
  ghost predicate FromProvider(f: Finished, log: seq<Request>, items: seq<BatchItem>, pr: Provider) {
    match f.answer
    case Some(output) => Sourced(f.job.candidate.id, output, log, items, pr)
    case None => exists category :: FailedAlone(f.job.candidate.id, category, log, items, pr)
  }

  /** Every finished job got its answer in the requests made for the jobs that share its preference text. */
  ghost predicate AllFromProvider(done: seq<Finished>, jobs: seq<Job>, logs: RequestLogs, pr: Provider) {
    forall f :: f in done ==>
      && f.job.user.shared in logs
      && FromProvider(f, logs[f.job.user.shared], ItemsOf(OfKey(jobs, f.job.user.shared)), pr)
  }

  lemma AnswerFromProvider(job: Job, r: BatchResult, log: seq<Request>, items: seq<BatchItem>, pr: Provider)
    requires AllSourced(r, log, items, pr) && job.candidate.id in Keys(r)
    ensures FromProvider(Finished(job, AnswerFor(job.candidate.id, r)), log, items, pr)
  {
    hide Sourced, FailedAlone;
  }

  lemma ItemIds(group: seq<Job>)
    ensures forall i :: 0 <= i < |group| ==> group[i].candidate.id in IdSet(ItemsOf(group))
  {
    forall i | 0 <= i < |group| ensures group[i].candidate.id in IdSet(ItemsOf(group)) {
      assert ItemsOf(group)[i] in ItemsOf(group);
    }
  }

  /** One group: one provider call, then every job of the group is finished with the answer for its id. */
  method ProcessGroup(group: seq<Job>, shared: string, provider: DeepSeek, st: Store, o: Options, t: Text, before: Counters)
    returns (stats: Counters, ok: bool, ghost done: seq<Finished>)
    requires provider.Configured()
    modifies provider
    ensures ok ==> Tallied(before, stats, done, t) && JobsIn(done) == group
    ensures ok ==> forall f :: f in done ==>
              FromProvider(f, provider.requests, ItemsOf(group), provider.Behaviour())
  {
    hide Tallied, Count, FromProvider, AllSourced, OwnSaid, WaveSizes, Covered, IsSplit, DistinctIds, IdSet, Exclusive;
    ItemIds(group);
    stats, done := before, [];
    TalliedNone(before, t);
    var items := ItemsOf(group);
    var result, answered, _, _, _ := provider.CompleteBatchDetailed(shared, items);
    if !answered {
      return stats, false, done;
    }
    for i := 0 to |group|
      modifies {}
      invariant Tallied(before, stats, done, t) && JobsIn(done) == group[..i]
      invariant forall f :: f in done ==>
                  FromProvider(f, provider.requests, items, provider.Behaviour())
    {
      ghost var earlier := stats;
      var answer := AnswerFor(group[i].candidate.id, result);
      stats, ok := FinishJob(group[i], answer, i, st, o, t, stats);
      if !ok {
        return;
      }
      TalliedChain(before, earlier, stats, done, [Finished(group[i], answer)], t);
      AnswerFromProvider(group[i], result, provider.requests, items, provider.Behaviour());
      done := done + [Finished(group[i], answer)];
    }
    ok := true;
  }

  lemma PoolNone()
    ensures forall g :: Pool(g, 0) == []
    ensures JobsIn([]) == []
  {
  }

  lemma PoolMore(g: Groups, n: nat)
    requires n < |g.order| && g.order[n] in g.members
    ensures Pool(g, n + 1) == Pool(g, n) + g.members[g.order[n]]
  {
  }

  lemma JobsAppend(a: seq<Finished>, b: seq<Finished>)
    ensures JobsIn(a + b) == JobsIn(a) + JobsIn(b)
  {
  }

  lemma TalliedNone(a: Counters, t: Text)
    ensures Tallied(a, a, [], t)
  {
  }

  lemma {:induction false} OfKeyShared(jobs: seq<Job>, key: string)
    ensures forall job :: job in OfKey(jobs, key) ==> job.user.shared == key
  {
    if jobs != [] {
      OfKeyShared(jobs[..|jobs| - 1], key);
    }
  }

  /** A group that was finished with the requests `log` adds its jobs and its log. */
  lemma GroupFromProvider(done: seq<Finished>, finished: seq<Finished>, jobs: seq<Job>, key: string, logs: RequestLogs,
                          log: seq<Request>, pr: Provider)
    requires AllFromProvider(done, jobs, logs, pr) && key !in logs
    requires JobsIn(finished) == OfKey(jobs, key)
    requires forall f :: f in finished ==> FromProvider(f, log, ItemsOf(OfKey(jobs, key)), pr)
    ensures AllFromProvider(done + finished, jobs, logs[key := log], pr)
  {
    OfKeyShared(jobs, key);
    hide FromProvider, OfKey;
    var all, more := done + finished, logs[key := log];
    forall f | f in all
      ensures f.job.user.shared in more
      ensures FromProvider(f, more[f.job.user.shared], ItemsOf(OfKey(jobs, f.job.user.shared)), pr)
    {
      if f in finished {
        var i :| 0 <= i < |finished| && finished[i] == f;
        assert JobsIn(finished)[i] == f.job;
        assert f.job in OfKey(jobs, key);
      }
    }
  }

  /** processAIJobs: every job is finished exactly once, with what the provider said about its candidate in the call
      for its preference group. */
  method ProcessAIJobs(jobs: seq<Job>, provider: DeepSeek, st: Store, o: Options, t: Text, before: Counters)
    returns (stats: Counters, ok: bool, ghost done: seq<Finished>, ghost logs: RequestLogs)
    requires provider.Configured()
    modifies provider
    ensures ok ==> Tallied(before, stats, done, t) && multiset(JobsIn(done)) == multiset(jobs) && |done| == |jobs|
    ensures ok ==> AllFromProvider(done, jobs, logs, provider.Behaviour())
  {
    hide Tallied, Count, Grouped, Pool, FromProvider, OfKey;
    stats, done, logs := before, [], map[];
    TalliedNone(before, t);
    PoolNone();
    var g := GroupJobs(jobs);
    for i := 0 to |g.order|
      invariant Tallied(before, stats, done, t) && JobsIn(done) == Pool(g, i)
      invariant AllFromProvider(done, jobs, logs, provider.Behaviour())
      invariant forall k :: k in logs ==> k in g.order[..i]
    {
      hide JobsIn, AllFromProvider;
      NextKey(g, jobs, i + 1);
      PoolMore(g, i);
      ghost var earlier := stats;
      ghost var finished;
      stats, ok, finished := ProcessGroup(g.members[g.order[i]], g.order[i], provider, st, o, t, stats);
      if !ok {
        return;
      }
      TalliedChain(before, earlier, stats, done, finished, t);
      JobsAppend(done, finished);
      GroupFromProvider(done, finished, jobs, g.order[i], logs, provider.requests, provider.Behaviour());
      done, logs := done + finished, logs[g.order[i] := provider.requests];
    }
    ok := true;
    assert |multiset(JobsIn(done))| == |multiset(jobs)|;
  }

  /** The job is about a pair of the page that goes to the AI: in particular its user has the AI enabled. */
  ghost predicate FromPage(job: Job, cs: seq<Candidate>, us: seq<User>, st: Store, o: Options, t: Text) {
    exists i, j :: 0 <= i < |cs| && 0 <= j < |us| && WantsAI(cs[i], us[j], i, j, st, o, t) && JobFor(job, cs[i], us[j], i, j, st, t)
  }

  lemma JobsFromPage(jobs: seq<Job>, pairs: seq<(nat, nat)>, cs: seq<Candidate>, us: seq<User>, st: Store, o: Options, t: Text)
    requires JobsFor(jobs, pairs, cs, us, st, o, t)
    ensures forall job :: job in jobs ==> FromPage(job, cs, us, st, o, t)
  {
    hide WantsAI, JobFor;
    forall job | job in jobs ensures FromPage(job, cs, us, st, o, t) {
      var k :| 0 <= k < |jobs| && jobs[k] == job;
      var i, j := pairs[k].0, pairs[k].1;
      assert WantsAI(cs[i], us[j], i, j, st, o, t) && JobFor(job, cs[i], us[j], i, j, st, t);
    }
  }

  lemma JobsForAppend(a: seq<Job>, b: seq<Job>, x: seq<(nat, nat)>, y: seq<(nat, nat)>,
                      cs: seq<Candidate>, us: seq<User>, st: Store, o: Options, t: Text)
    requires JobsFor(a, x, cs, us, st, o, t) && JobsFor(b, y, cs, us, st, o, t)
    ensures JobsFor(a + b, x + y, cs, us, st, o, t)
  {
    hide WantsAI, JobFor;
  }

  /** processCandidates. Whatever the users, settings, gate verdicts and provider answers, a page that
      ends without error leaves the counters in balance, Matched moved by exactly the pairs the gates match, and
      the AI counters moved by exactly the final decisions of the finished jobs. */
  method ProcessCandidates(cs: seq<Candidate>, us: seq<User>, provider: DeepSeek, st: Store, o: Options, t: Text, before: Counters)
    returns (stats: Counters, ok: bool, ghost done: seq<Finished>, ghost jobs: seq<Job>, ghost logs: RequestLogs)
    requires provider.Configured()
    modifies provider
    ensures ok ==>
              && JobsFor(jobs, PagePairs(cs, us, st, o, t, |cs|), cs, us, st, o, t)
              && multiset(JobsIn(done)) == multiset(jobs)
              && AllFromProvider(done, jobs, logs, provider.Behaviour())
    ensures ok ==>
              && (forall f :: f in done ==> FromPage(f.job, cs, us, st, o, t))
              && stats.aiCalls == before.aiCalls + |done|
              && stats.aiFailures == before.aiFailures + Count(done, t, None)
              && stats.aiMatches == before.aiMatches + Count(done, t, Some(Match))
              && stats.aiReviews == before.aiReviews + Count(done, t, Some(Review))
              && stats.aiRejects == before.aiRejects + Count(done, t, Some(Reject))
    ensures ok ==>
              && stats.processed == before.processed + |cs|
              && (stats.processed - before.processed) * |us| ==
                 (stats.matched - before.matched) + (stats.skipped - before.skipped)
              && stats.matched == before.matched + PageMatches(cs, us, st, o, t, |cs|)
              && stats.eligible - before.eligible ==
                 (stats.aiCalls - before.aiCalls) + (stats.aiSkipped - before.aiSkipped)
              && stats.aiCalls - before.aiCalls ==
                 (stats.aiSucceeded - before.aiSucceeded) + (stats.aiFailures - before.aiFailures)
              && stats.aiSucceeded - before.aiSucceeded ==
                 (stats.aiMatches - before.aiMatches) + (stats.aiReviews - before.aiReviews) + (stats.aiRejects - before.aiRejects)
  {
    hide FromPage, JobsFor, UserPairs, Count, AllFromProvider, JobsIn;
    NoJobs(cs, us, st, o, t);
    stats, done, jobs, logs := before, [], [], map[];
    NothingDone(jobs, logs, provider.Behaviour());
    var found: seq<Job> := [];
    for i := 0 to |cs|
      modifies {}
      invariant JobsFor(found, PagePairs(cs, us, st, o, t, i), cs, us, st, o, t)
      invariant stats.processed == before.processed + i
      invariant PairsBalanced(before, stats, i * |us|, |found|)
      invariant stats.matched == before.matched + PageMatches(cs, us, st, o, t, i)
    {
      var more;
      stats := stats.(processed := stats.processed + 1);
      stats, more, ok := ProcessUsers(cs, us, i, st, o, t, stats);
      if !ok {
        return;
      }
      assert (i + 1) * |us| == i * |us| + |us|;
      JobsForAppend(found, more, PagePairs(cs, us, st, o, t, i), UserPairs(cs, us, st, o, t, i, |us|), cs, us, st, o, t);
      found := found + more;
    }
    ok := true;
    jobs := found;
    JobsFromPage(jobs, PagePairs(cs, us, st, o, t, |cs|), cs, us, st, o, t);
    TalliedNone(stats, t);
    if |found| > 0 {
      stats, ok, done, logs := ProcessAIJobs(found, provider, st, o, t, stats);
      forall f | ok && f in done ensures FromPage(f.job, cs, us, st, o, t) {
        DoneJob(done, f, found);
      }
    }
    CountTotal(done, t);
  }

  lemma NothingDone(jobs: seq<Job>, logs: RequestLogs, pr: Provider)
    ensures AllFromProvider([], jobs, logs, pr) && JobsIn([]) == []
  {
  }

  lemma NoJobs(cs: seq<Candidate>, us: seq<User>, st: Store, o: Options, t: Text)
    ensures JobsFor([], [], cs, us, st, o, t)
  {
  }

  lemma OneJobFor(job: Job, cs: seq<Candidate>, us: seq<User>, i: nat, j: nat, st: Store, o: Options, t: Text)
    requires i < |cs| && j < |us| && WantsAI(cs[i], us[j], i, j, st, o, t) && JobFor(job, cs[i], us[j], i, j, st, t)
    ensures JobsFor([job], [(i, j)], cs, us, st, o, t)
  {
  }

  lemma DoneJob(done: seq<Finished>, f: Finished, jobs: seq<Job>)
    requires multiset(JobsIn(done)) == multiset(jobs) && f in done
    ensures f.job in jobs
  {
    var i :| 0 <= i < |done| && done[i] == f;
    assert JobsIn(done)[i] == f.job;
    assert f.job in multiset(JobsIn(done));
  }

  /** The inner loop over the users of one candidate. */
  method ProcessUsers(cs: seq<Candidate>, us: seq<User>, i: nat, st: Store, o: Options, t: Text, before: Counters)
    returns (stats: Counters, jobs: seq<Job>, ok: bool)
    requires i < |cs|
    ensures ok ==>
              && JobsFor(jobs, UserPairs(cs, us, st, o, t, i, |us|), cs, us, st, o, t)
              && PairsBalanced(before, stats, |us|, |jobs|) && stats.processed == before.processed
              && stats.matched == before.matched + UserMatches(cs, us, st, o, t, i, |us|)
  {
    hide JobsFor, WantsAI, JobFor, StoreWorks, Delivers, Eligible, PairMatches;
    stats, jobs := before, [];
    NoJobs(cs, us, st, o, t);
    for j := 0 to |us|
      invariant JobsFor(jobs, UserPairs(cs, us, st, o, t, i, j), cs, us, st, o, t)
      invariant PairsBalanced(before, stats, j, |jobs|) && stats.processed == before.processed
      invariant stats.matched == before.matched + UserMatches(cs, us, st, o, t, i, j)
    {
      var outcome;
      stats, outcome := ProcessPair(cs[i], us[j], i, j, st, o, t, stats);
      match outcome
      case StoreError => return stats, jobs, false;
      case NoJob => assert UserPairs(cs, us, st, o, t, i, j) + [] == UserPairs(cs, us, st, o, t, i, j);
      case NewJob(job) =>
        OneJobFor(job, cs, us, i, j, st, o, t);
        JobsForAppend(jobs, [job], UserPairs(cs, us, st, o, t, i, j), [(i, j)], cs, us, st, o, t);
        jobs := jobs + [job];
    }
    ok := true;
  }
}
