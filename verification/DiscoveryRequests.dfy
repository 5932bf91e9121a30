/** The page requests a discovery run makes, row by row. */
module DiscoveryRequests {
  import opened DiscoveryCycle
  import opened DiscoveryProtocol

  /** One search request: the row it is for, what it asks HH, and which page. */
  datatype Query = Query(key: string, roleId: string, dateFrom: nat, dateTo: nat, page: int)

  /** The pages asked for a row, in order. */
  function PagesAsked(log: seq<Query>, key: string): seq<int> {
    if log == [] then []
    else
      var last := log[|log| - 1];
      PagesAsked(log[..|log| - 1], key) + (if last.key == key then [last.page] else [])
  }

  /** from, from + 1, ..., to - 1. */
  function Pages(from: int, to: int): seq<int>
    decreases if from < to then to - from else 0
  {
    if from >= to then [] else Pages(from, to - 1) + [to - 1]
  }

  lemma {:induction false} PagesMeaning(from: int, to: int)
    ensures |Pages(from, to)| == if from < to then to - from else 0
    ensures forall k :: 0 <= k < |Pages(from, to)| ==> Pages(from, to)[k] == from + k
    decreases if from < to then to - from else 0
  {
    if from < to {
      PagesMeaning(from, to - 1);
      assert Pages(from, to) == Pages(from, to - 1) + [to - 1];
    }
  }

  /** What a run must have asked about a row that was `was` when it began and is `now`: nothing if it was complete,
      its first page if HH then reported none, otherwise every page from where it stood. */
  function Due(was: Partition, now: Partition): seq<int> {
    if was.status == Complete then []
    else if now.status == Complete && now.expectedPages == 0 then [0]
    else Pages(was.nextPage, now.nextPage)
  }

  predicate SameSearch(a: Partition, b: Partition) {
    a.key == b.key && a.roleId == b.roleId && a.dateFrom == b.dateFrom && a.dateTo == b.dateTo
  }

  /** The request is about the row's own role and window; a row without a start uses the earliest instant. */
  predicate Asks(q: Query, p: Partition, earliest: nat) {
    && q.key == p.key && q.roleId == p.roleId && q.dateTo == p.dateTo
    && q.dateFrom == (if p.dateFrom == 0 then earliest else p.dateFrom)
  }

  /** Every row was asked for exactly the pages that are due, and nothing else was asked. */
  ghost predicate AskedFor(was: seq<Partition>, now: seq<Partition>, log: seq<Query>, earliest: nat) {
    && |was| == |now|
    && (forall i :: 0 <= i < |now| ==> RowAsked(was[i], now[i], log))
    && (forall q :: q in log ==> exists i :: 0 <= i < |now| && Asks(q, now[i], earliest))
  }

  predicate RowAsked(was: Partition, now: Partition, log: seq<Query>) {
    && SameSearch(was, now) && 0 <= was.nextPage <= now.nextPage
    && (was.status == Complete ==> now == was)
    && PagesAsked(log, now.key) == Due(was, now)
  }

  lemma AskedNothing(parts: seq<Partition>, earliest: nat)
    requires forall i :: 0 <= i < |parts| ==> parts[i].nextPage >= 0 && Settled(parts[i])
    ensures forall i :: 0 <= i < |parts| && parts[i].status != Complete ==> Pages(parts[i].nextPage, parts[i].nextPage) == []
    ensures AskedFor(parts, parts, [], earliest)
  {
  }

  /** The request the driver makes for row `p`. */
  function QueryFor(p: Partition, earliest: nat): Query {
    Query(p.key, p.roleId, if p.dateFrom == 0 then earliest else p.dateFrom, p.dateTo, p.nextPage)
  }

  lemma {:induction false} OtherRowsUnasked(log: seq<Query>, q: Query, key: string)
    ensures PagesAsked(log + [q], key) == PagesAsked(log, key) + if q.key == key then [q.page] else []
  {
    assert (log + [q])[..|log|] == log;
  }

  /** One error-free pass asks for exactly what becomes due. */
  lemma PassAsks(was: seq<Partition>, cs: CycleState, log: seq<Query>, q: Query, earliest: nat, i: nat, reported: int)
    requires i < |cs.parts| && Consistent(cs) && cs.parts[i].status != Complete
    requires reported == cs.parts[i].expectedPages || cs.parts[i].nextPage == 0
    requires reported == 0 ==> cs.parts[i].nextPage == 0
    requires AskedFor(was, cs.parts, log, earliest)
    requires Asks(q, cs.parts[i], earliest) && q.page == cs.parts[i].nextPage
    ensures AskedFor(was, Pass(cs, i, reported).parts, log + [q], earliest)
  {
    var after := Pass(cs, i, reported);
    if reported == 0 {
      PassCloses(cs, i);
    } else {
      PassSaves(cs, i, reported);
    }
    RowPassed(was[i], cs.parts[i], after.parts[i]);
    OneRowAsked(was, cs.parts, after.parts, log, q, earliest, i);
  }

  /** Asking for the next page of one row leaves every other row as it was. */
  lemma OneRowAsked(was: seq<Partition>, from: seq<Partition>, to: seq<Partition>, log: seq<Query>, q: Query,
                    earliest: nat, i: nat)
    requires i < |from| && DistinctKeys(from) && |to| == |from| && to == from[i := to[i]]
    requires AskedFor(was, from, log, earliest)
    requires SameSearch(from[i], to[i]) && from[i].nextPage <= to[i].nextPage && was[i].status != Complete
    requires Asks(q, from[i], earliest) && q.page == from[i].nextPage
    requires Due(was[i], to[i]) == Due(was[i], from[i]) + [from[i].nextPage]
    ensures AskedFor(was, to, log + [q], earliest)
  {
    hide Due, PagesAsked;
    var more := log + [q];
    forall j | 0 <= j < |from| ensures RowAsked(was[j], to[j], more) {
      assert RowAsked(was[j], from[j], log);
      OtherRowsUnasked(log, q, from[j].key);
    }
    forall r | r in more ensures exists j :: 0 <= j < |to| && Asks(r, to[j], earliest) {
      if r == q {
        assert Asks(q, to[i], earliest);
      } else {
        var j :| 0 <= j < |from| && Asks(r, from[j], earliest);
        assert Asks(r, to[j], earliest);
      }
    }
  }

  lemma RowPassed(was: Partition, p: Partition, next: Partition)
    requires 0 <= was.nextPage <= p.nextPage && p.status != Complete && was.status != Complete
    requires
      || (p.nextPage == 0 && next.expectedPages == 0 && next.status == Complete)
      || (next.nextPage == p.nextPage + 1 && next.expectedPages != 0)
    ensures Due(was, next) == Due(was, p) + [p.nextPage]
  {
  }
}
