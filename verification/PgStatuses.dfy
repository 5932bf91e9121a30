/** Where the two stores can disagree on active vacancies: PostgreSQL keeps the observations of a stale page save,
    and deactivates only vacancies of the listing scope. */
module PgStatuses {
  import opened DiscoveryCycle
  import opened MemoryStore
  import opened PgDiscovery

  /** One SaveDiscoveryPage call with the vacancies on its page. */
  datatype Call = Call(key: string, page: int, ids: set<string>)

  /** A cycle and the vacancies it has observations of. */
  datatype Store = Store(cs: CycleState, seen: set<string>)

  function MemCall(s: Store, c: Call): Store {
    if Stale(s.cs, c.key, c.page) then s else Store(Save(s.cs, c.key, c.page), s.seen + c.ids)
  }

  /** An unknown row or a refused page rolls the whole transaction back. */
  function PgCall(s: Store, c: Call): Store {
    var i := IndexOf(s.cs.parts, c.key);
    if i == |s.cs.parts| then s
    else
      match PgSave(s.cs, i, c.page)
      case Refused => s
      case Accepted(cs) => Store(cs, s.seen + c.ids)
  }

  function MemCalls(s: Store, calls: seq<Call>): Store
    decreases |calls|
  {
    if calls == [] then s else MemCalls(MemCall(s, calls[0]), calls[1..])
  }

  function PgCalls(s: Store, calls: seq<Call>): Store
    decreases |calls|
  {
    if calls == [] then s else PgCalls(PgCall(s, calls[0]), calls[1..])
  }

  /** A driver's call: the next page of an open row, or a page that was saved before. */
  predicate InTurn(cs: CycleState, c: Call) {
    var i := IndexOf(cs.parts, c.key);
    i < |cs.parts| && (c.page < cs.parts[i].nextPage || (c.page == cs.parts[i].nextPage && cs.parts[i].status != Complete))
  }

  predicate AllInTurn(cs: CycleState, calls: seq<Call>)
    decreases |calls|
  {
    calls == [] || (InTurn(cs, calls[0]) && AllInTurn(Save(cs, calls[0].key, calls[0].page), calls[1..]))
  }

  /** The vacancies on the pages that were saved, and on those that came too late. */
  function FreshIds(cs: CycleState, calls: seq<Call>): set<string>
    decreases |calls|
  {
    if calls == [] then {}
    else
      var c := calls[0];
      (if Stale(cs, c.key, c.page) then {} else c.ids) + FreshIds(Save(cs, c.key, c.page), calls[1..])
  }

  function StaleIds(cs: CycleState, calls: seq<Call>): set<string>
    decreases |calls|
  {
    if calls == [] then {}
    else
      var c := calls[0];
      (if Stale(cs, c.key, c.page) then c.ids else {}) + StaleIds(Save(cs, c.key, c.page), calls[1..])
  }

  predicate Live(cs: CycleState) {
    Consistent(cs) && Bounded(cs) && cs.cycle.status == Running
  }

  lemma CallAgrees(cs: CycleState, mem: set<string>, pg: set<string>, c: Call)
    requires Live(cs) && InTurn(cs, c)
    ensures var after := Save(cs, c.key, c.page);
            && Live(after)
            && MemCall(Store(cs, mem), c) == Store(after, if Stale(cs, c.key, c.page) then mem else mem + c.ids)
            && PgCall(Store(cs, pg), c) == Store(after, pg + c.ids)
  {
    var i := IndexOf(cs.parts, c.key);
    SaveKeepsIff(cs, i, c.page);
    hide Consistent;
  }

  /** Over any calls in turn both stores hold the same rows and totals; PostgreSQL has observed the stale pages too. */
  lemma {:induction false} CallsAgree(cs: CycleState, mem: set<string>, pg: set<string>, calls: seq<Call>)
    requires Live(cs) && AllInTurn(cs, calls)
    ensures MemCalls(Store(cs, mem), calls).cs == PgCalls(Store(cs, pg), calls).cs
    ensures MemCalls(Store(cs, mem), calls).seen == mem + FreshIds(cs, calls)
    ensures PgCalls(Store(cs, pg), calls).seen == pg + FreshIds(cs, calls) + StaleIds(cs, calls)
    decreases |calls|
  {
    if calls != [] {
      var c := calls[0];
      CallAgrees(cs, mem, pg, c);
      hide Live, InTurn, Stale, Save, MemCall, PgCall;
      CallsAgree(Save(cs, c.key, c.page), if Stale(cs, c.key, c.page) then mem else mem + c.ids, pg + c.ids, calls[1..]);
    }
  }

  /* ---- reconciliation ---- */

  /** The vacancy has the listing scope and is not deleted. */
  type Listed = VacancyKey -> bool

  function PgReconciledRow(k: VacancyKey, v: Vacancy, seen: set<string>, listed: Listed): Vacancy {
    if v.source != "hh" then v
    else if v.externalId in seen then v.(isActive := true)
    else if listed(k) then v.(isActive := false)
    else v
  }

  function PgReconciled(all: Vacancies, seen: set<string>, listed: Listed): Vacancies {
    map k | k in all :: PgReconciledRow(k, all[k], seen, listed)
  }

  /** A second PostgreSQL reconciliation changes nothing either. */
  lemma PgReconcileTwice(all: Vacancies, seen: set<string>, listed: Listed)
    ensures PgReconciled(PgReconciled(all, seen, listed), seen, listed) == PgReconciled(all, seen, listed)
  {
  }

  /** After the same calls in turn, the stores disagree on whether a vacancy is active exactly for an hh vacancy that
      no saved page held and that a stale page held, or that was active outside the listing scope. */
  lemma StoresDisagreeIff(cs: CycleState, calls: seq<Call>, all: Vacancies, seen: map<string, int>, listed: Listed, k: VacancyKey)
    requires Live(cs) && AllInTurn(cs, calls) && k in all
    requires seen.Keys == MemCalls(Store(cs, {}), calls).seen
    ensures var pg := PgReconciled(all, PgCalls(Store(cs, {}), calls).seen, listed);
            var v := all[k];
            Reconciled(all, seen)[k].isActive != pg[k].isActive <==>
              && v.source == "hh" && v.externalId !in FreshIds(cs, calls)
              && (v.externalId in StaleIds(cs, calls) || (v.isActive && !listed(k)))
  {
    hide Live, AllInTurn;
    CallsAgree(cs, {}, {}, calls);
    hide MemCalls, PgCalls, FreshIds, StaleIds;
  }
}
