/** Merging a freshness poll into the vacancy pages the web list has already loaded. */
module PollMerge {
  import opened Sorting

  /** published_at after parsing; a vacancy without one sorts as if published at minus infinity. */
  datatype Published = Never | At(ms: int)

  datatype Vacancy = Vacancy(id: string, source: string, externalId: string, published: Published, title: string)

  datatype VacancyPage = VacancyPage(data: seq<Vacancy>, page: int, pageSize: int, total: int)

  datatype Lookup = Missing | Found(vacancy: Vacancy)

  /** localeCompare as a rank; distinct keys may collate equal. */
  type Collation = string -> int

  function Key(v: Vacancy): string {
    if v.id != "" then v.id else v.source + "-" + v.externalId
  }

  /** Vacancies with ids are told apart by id, those without by source and external id. */
  lemma KeyIdentifies(a: Vacancy, b: Vacancy)
    ensures a.id != "" && b.id != "" ==> (Key(a) == Key(b) <==> a.id == b.id)
    ensures a.id == "" && b.id == "" && a.source == b.source ==> (Key(a) == Key(b) <==> a.externalId == b.externalId)
  {
    if a.id == "" && b.id == "" && a.source == b.source {
      var n := |a.source| + 1;
      assert Key(a)[n..] == a.externalId && Key(b)[n..] == b.externalId;
    }
  }

  predicate Later(a: Published, b: Published) {
    a.At? && (b.At? ==> a.ms > b.ms)
  }

  predicate Newer(a: Vacancy, b: Vacancy, rank: Collation) {
    Later(a.published, b.published) || (a.published == b.published && rank(Key(a)) < rank(Key(b)))
  }

  /** compareNewest as a comparator. */
  function Order(rank: Collation): (Vacancy, Vacancy) -> bool {
    (a: Vacancy, b: Vacancy) => Newer(a, b, rank)
  }

  lemma OrderStrictWeak(rank: Collation)
    ensures StrictWeak(Order(rank))
  {
  }

  function Keys(s: seq<Vacancy>): set<string> {
    set v | v in s :: Key(v)
  }

  predicate DistinctKeys(s: seq<Vacancy>) {
    forall i, j :: 0 <= i < j < |s| ==> Key(s[i]) != Key(s[j])
  }

  // ----- What the loops compute

  function FlatData(pages: seq<VacancyPage>): seq<Vacancy> {
    if pages == [] then [] else pages[0].data + FlatData(pages[1..])
  }

  /** The first vacancy of every key. */
  function Dedupe(s: seq<Vacancy>): seq<Vacancy> {
    if s == [] then []
    else
      var d, last := Dedupe(s[..|s| - 1]), s[|s| - 1];
      if Key(last) in Keys(d) then d else d + [last]
  }

  /** The last vacancy of the poll with this key: later entries of a Map literal win. */
  function Latest(poll: seq<Vacancy>, k: string): Lookup {
    if poll == [] then Missing
    else if Key(poll[|poll| - 1]) == k then Found(poll[|poll| - 1])
    else Latest(poll[..|poll| - 1], k)
  }

  function Version(poll: seq<Vacancy>, v: Vacancy): (r: Vacancy)
    ensures Key(r) == Key(v)
  {
    LatestHasKey(poll, Key(v));
    match Latest(poll, Key(v)) case Found(f) => f case Missing => v
  }

  function Refreshed(current: seq<Vacancy>, poll: seq<Vacancy>): seq<Vacancy> {
    seq(|current|, i requires 0 <= i < |current| => Version(poll, current[i]))
  }

  /** Where the key stands, or the length if it is absent. */
  function IndexOf(s: seq<Vacancy>, k: string): (i: nat)
    ensures i <= |s| && (i < |s| ==> Key(s[i]) == k)
    ensures forall j :: 0 <= j < i ==> Key(s[j]) != k
  {
    if s == [] || Key(s[0]) == k then 0 else 1 + IndexOf(s[1..], k)
  }

  /** Map.set: an existing key keeps its place. */
  function Put(s: seq<Vacancy>, v: Vacancy): seq<Vacancy> {
    var i := IndexOf(s, Key(v));
    if i < |s| then s[i := v] else s + [v]
  }

  function Added(base: seq<Vacancy>, poll: seq<Vacancy>, newIds: set<string>): seq<Vacancy> {
    if poll == [] then base
    else
      var s, v := Added(base, poll[..|poll| - 1], newIds), poll[|poll| - 1];
      if Key(v) in newIds then Put(s, v) else s
  }

  /** The polled rows that are announced as new and not loaded yet, counted with repeats. */
  function AddedCount(poll: seq<Vacancy>, newIds: set<string>, current: set<string>): nat {
    if poll == [] then 0
    else
      var v := poll[|poll| - 1];
      AddedCount(poll[..|poll| - 1], newIds, current) + (if Key(v) in newIds && Key(v) !in current then 1 else 0)
  }

  function Unsorted(pages: seq<VacancyPage>, poll: seq<Vacancy>, newIds: set<string>): seq<Vacancy> {
    Added(Refreshed(Dedupe(FlatData(pages)), poll), poll, newIds)
  }

  function Least(a: nat, b: nat): nat { if a < b then a else b }

  function Paged(pages: seq<VacancyPage>, list: seq<Vacancy>, extra: nat, total: int): seq<VacancyPage> {
    if pages == [] then []
    else
      var n := Least(|pages[0].data| + extra, |list|);
      [pages[0].(data := list[..n], total := total)] + Paged(pages[1..], list[n..], 0, total)
  }

  function Merged(pages: seq<VacancyPage>, poll: VacancyPage, newIds: set<string>, rank: Collation): seq<VacancyPage> {
    if pages == [] then pages
    else
      Paged(pages, Sort(Unsorted(pages, poll.data, newIds), Order(rank)),
            AddedCount(poll.data, newIds, Keys(Dedupe(FlatData(pages)))), poll.total)
  }

  // ----- Facts about the parts

  lemma {:induction false} LatestHasKey(poll: seq<Vacancy>, k: string)
    ensures Latest(poll, k).Found? <==> k in Keys(poll)
    ensures Latest(poll, k).Found? ==> Key(Latest(poll, k).vacancy) == k && Latest(poll, k).vacancy in poll
  {
    if poll != [] {
      LatestHasKey(poll[..|poll| - 1], k);
      assert poll == poll[..|poll| - 1] + [poll[|poll| - 1]];
    }
  }

  /** The vacancy at `i` is the first of its key. */
  predicate First(s: seq<Vacancy>, i: nat)
    requires i < |s|
  {
    forall j :: 0 <= j < i ==> Key(s[j]) != Key(s[i])
  }

  lemma {:induction false} DedupeKeys(s: seq<Vacancy>)
    ensures DistinctKeys(Dedupe(s)) && Keys(Dedupe(s)) == Keys(s) && |Dedupe(s)| <= |s|
  {
    hide Key;
    if s != [] {
      var front, last := s[..|s| - 1], s[|s| - 1];
      DedupeKeys(front);
      assert s == front + [last];
      KeysSnoc(front, last);
      KeysSnoc(Dedupe(front), last);
    }
  }

  /** Dedupe keeps exactly the first vacancy of every key. */
  lemma {:induction false} DedupeFirst(s: seq<Vacancy>, v: Vacancy)
    ensures v in Dedupe(s) <==> exists i :: 0 <= i < |s| && s[i] == v && First(s, i)
  {
    hide Key;
    if s != [] {
      var front, last := s[..|s| - 1], s[|s| - 1];
      DedupeFirst(front, v);
      DedupeKeys(front);
      assert s == front + [last];
      FirstSnoc(front, last);
      hide First, Keys;
      assert forall i :: 0 <= i < |front| ==> s[i] == front[i];
    }
  }

  lemma FirstSnoc(s: seq<Vacancy>, v: Vacancy)
    ensures forall i :: 0 <= i < |s| ==> (First(s + [v], i) <==> First(s, i))
    ensures First(s + [v], |s|) <==> Key(v) !in Keys(s)
  {
    hide Key;
    var t := s + [v];
    assert forall i :: 0 <= i < |s| ==> t[i] == s[i];
    assert forall i :: 0 <= i < |s| ==> Key(s[i]) in Keys(s);
    if First(t, |s|) {
      assert forall i :: 0 <= i < |s| ==> Key(t[i]) != Key(v);
    }
  }

  lemma {:induction false} DedupeDistinct(s: seq<Vacancy>)
    requires DistinctKeys(s)
    ensures Dedupe(s) == s
  {
    hide Key;
    if s != [] {
      var front, last := s[..|s| - 1], s[|s| - 1];
      DedupeDistinct(front);
      assert s == front + [last];
      assert Key(last) !in Keys(front);
    }
  }

  lemma PutMeaning(s: seq<Vacancy>, v: Vacancy)
    requires DistinctKeys(s)
    ensures DistinctKeys(Put(s, v)) && Keys(Put(s, v)) == Keys(s) + {Key(v)}
    ensures |Put(s, v)| == |s| + (if Key(v) in Keys(s) then 0 else 1)
    ensures forall i :: 0 <= i < |s| ==> Put(s, v)[i] == if Key(s[i]) == Key(v) then v else s[i]
    ensures Key(v) !in Keys(s) ==> Put(s, v)[|s|] == v
  {
    hide Key;
    var i, t := IndexOf(s, Key(v)), Put(s, v);
    if i < |s| {
      assert s[i] in s && t[i] in t;
    }
    forall k | k in Keys(s) + {Key(v)} ensures k in Keys(t) {
      if k == Key(v) {
        assert t[i] in t;
      } else {
        var j :| 0 <= j < |s| && Key(s[j]) == k;
        assert t[j] in t;
      }
    }
  }

  /** The entry at place `i` after the announced rows of `poll` were put over `base`. */
  predicate PutOver(s: seq<Vacancy>, i: nat, base: seq<Vacancy>, poll: seq<Vacancy>, newIds: set<string>)
    requires i < |s|
  {
    if Key(s[i]) in newIds && Latest(poll, Key(s[i])).Found? then s[i] == Latest(poll, Key(s[i])).vacancy
    else i < |base| && s[i] == base[i]
  }

  /** `s` is `base` with the announced rows of `poll` put over it. */
  ghost predicate AddedWell(s: seq<Vacancy>, base: seq<Vacancy>, poll: seq<Vacancy>, newIds: set<string>) {
    && DistinctKeys(s) && Keys(s) == Keys(base) + (Keys(poll) * newIds)
    && |base| <= |s| <= |base| + AddedCount(poll, newIds, Keys(base))
    && (forall i :: 0 <= i < |base| ==> Key(s[i]) == Key(base[i]))
    && (forall i :: 0 <= i < |s| ==> PutOver(s, i, base, poll, newIds))
  }

  lemma {:induction false} AddedMeaning(base: seq<Vacancy>, poll: seq<Vacancy>, newIds: set<string>)
    requires DistinctKeys(base)
    ensures AddedWell(Added(base, poll, newIds), base, poll, newIds)
  {
    if poll != [] {
      var front := poll[..|poll| - 1];
      AddedMeaning(base, front, newIds);
      hide AddedWell;
      AddedStep(Added(base, front, newIds), base, poll, newIds);
    }
  }

  lemma AddedStep(s: seq<Vacancy>, base: seq<Vacancy>, poll: seq<Vacancy>, newIds: set<string>)
    requires poll != [] && AddedWell(s, base, poll[..|poll| - 1], newIds)
    ensures var v := poll[|poll| - 1];
            AddedWell(if Key(v) in newIds then Put(s, v) else s, base, poll, newIds)
  {
    hide Key, Put, Keys, DistinctKeys, PutOver;
    var front, v := poll[..|poll| - 1], poll[|poll| - 1];
    var t := if Key(v) in newIds then Put(s, v) else s;
    assert poll == front + [v];
    KeysSnoc(front, v);
    if Key(v) in newIds {
      PutMeaning(s, v);
    }
    forall i | 0 <= i < |t| ensures PutOver(t, i, base, poll, newIds) {
      PutOverStep(s, t, i, base, poll, newIds);
    }
  }

  lemma PutOverStep(s: seq<Vacancy>, t: seq<Vacancy>, i: nat, base: seq<Vacancy>, poll: seq<Vacancy>, newIds: set<string>)
    requires poll != [] && i < |t|
    requires i < |s| ==> PutOver(s, i, base, poll[..|poll| - 1], newIds)
    requires var v := poll[|poll| - 1];
             if Key(v) in newIds && (i >= |s| || Key(s[i]) == Key(v)) then t[i] == v else i < |s| && t[i] == s[i]
    ensures PutOver(t, i, base, poll, newIds)
  {
  }

  lemma KeysSnoc(s: seq<Vacancy>, v: Vacancy)
    ensures Keys(s + [v]) == Keys(s) + {Key(v)}
  {
  }

  lemma {:induction false} FlatSnoc(pages: seq<VacancyPage>, p: VacancyPage)
    ensures FlatData(pages + [p]) == FlatData(pages) + p.data
  {
    if pages == [] {
      assert FlatData([p]) == p.data + FlatData([]);
    } else {
      FlatSnoc(pages[1..], p);
      assert (pages + [p])[1..] == pages[1..] + [p];
    }
  }

  /** Slicing loses nothing when the pages have room. */
  lemma {:induction false} PagedMeaning(pages: seq<VacancyPage>, list: seq<Vacancy>, extra: nat, total: int)
    requires pages != [] || list == []
    requires |list| <= |FlatData(pages)| + extra
    ensures var q := Paged(pages, list, extra, total);
            && FlatData(q) == list && |q| == |pages|
            && forall i :: 0 <= i < |q| ==>
                 q[i].total == total && q[i].page == pages[i].page && q[i].pageSize == pages[i].pageSize
  {
    if pages != [] {
      var n := Least(|pages[0].data| + extra, |list|);
      var rest := pages[1..];
      if rest == [] {
        assert FlatData(pages) == pages[0].data;
        assert list[n..] == [];
      }
      PagedMeaning(rest, list[n..], 0, total);
      assert list == list[..n] + list[n..];
    }
  }

  /** Pages cut to their own contents are themselves. */
  lemma {:induction false} PagedAgain(q: seq<VacancyPage>, total: int)
    requires forall p :: p in q ==> p.total == total
    ensures Paged(q, FlatData(q), 0, total) == q
  {
    if q != [] {
      PagedAgain(q[1..], total);
      var list := FlatData(q);
      assert list[..|q[0].data|] == q[0].data && list[|q[0].data|..] == FlatData(q[1..]);
      assert q == [q[0]] + q[1..];
    }
  }

  // ----- The merge

  /** A dated vacancy never follows an undated or an older one; equal dates are in collation order. */
  predicate NewestFirst(list: seq<Vacancy>, rank: Collation) {
    forall i, j :: 0 <= i < j < |list| ==>
      match (list[i].published, list[j].published)
      case (Never, At(_)) => false
      case (At(a), At(b)) => a > b || (a == b && rank(Key(list[i])) <= rank(Key(list[j])))
      case (At(_), Never) => true
      case (Never, Never) => rank(Key(list[i])) <= rank(Key(list[j]))
  }

  lemma SortedNewestFirst(list: seq<Vacancy>, rank: Collation)
    requires Sorted(list, Order(rank))
    ensures NewestFirst(list, rank)
  {
    hide Key;
    forall i, j | 0 <= i < j < |list| ensures !Newer(list[j], list[i], rank) {
      assert !Order(rank)(list[j], list[i]);
    }
  }

  /** What the merged list promises for pages already loaded and one poll. */
  ghost predicate MergedWell(list: seq<Vacancy>, loaded: seq<Vacancy>, poll: seq<Vacancy>, newIds: set<string>, rank: Collation) {
    && DistinctKeys(list)
    && Keys(list) == Keys(loaded) + (Keys(poll) * newIds)
    && Sorted(list, Order(rank)) && NewestFirst(list, rank)
    && (forall v :: v in list && Key(v) in Keys(poll) ==> Latest(poll, Key(v)) == Found(v))
    && (forall v :: v in list && Key(v) !in Keys(poll) ==> exists i :: 0 <= i < |loaded| && loaded[i] == v && First(loaded, i))
  }

  lemma UnsortedMeaning(pages: seq<VacancyPage>, poll: seq<Vacancy>, newIds: set<string>)
    ensures var list, loaded := Unsorted(pages, poll, newIds), FlatData(pages);
            && DistinctKeys(list)
            && Keys(list) == Keys(loaded) + (Keys(poll) * newIds)
            && |list| <= |loaded| + AddedCount(poll, newIds, Keys(Dedupe(loaded)))
            && (forall v :: v in list && Key(v) in Keys(poll) ==> Latest(poll, Key(v)) == Found(v))
            && (forall v :: v in list && Key(v) !in Keys(poll) ==> v in Dedupe(loaded))
  {
    var loaded := FlatData(pages);
    var current := Dedupe(loaded);
    var base := Refreshed(current, poll);
    DedupeKeys(loaded);
    assert forall i :: 0 <= i < |base| ==> base[i] == Version(poll, current[i]);
    RefreshedKeys(current, poll);
    AddedMeaning(base, poll, newIds);
    var list := Added(base, poll, newIds);
    forall v | v in list
      ensures Key(v) in Keys(poll) ==> Latest(poll, Key(v)) == Found(v)
      ensures Key(v) !in Keys(poll) ==> v in current
    {
      var i :| 0 <= i < |list| && list[i] == v;
      assert PutOver(list, i, base, poll, newIds);
      LatestHasKey(poll, Key(v));
    }
  }

  lemma RefreshedKeys(current: seq<Vacancy>, poll: seq<Vacancy>)
    requires DistinctKeys(current)
    ensures DistinctKeys(Refreshed(current, poll)) && Keys(Refreshed(current, poll)) == Keys(current)
  {
    var base := Refreshed(current, poll);
    forall k ensures k in Keys(base) <==> k in Keys(current) {
      if k in Keys(base) {
        var i :| 0 <= i < |base| && Key(base[i]) == k;
        assert current[i] in current;
      }
      if k in Keys(current) {
        var i :| 0 <= i < |current| && Key(current[i]) == k;
        assert base[i] in base;
      }
    }
  }

  lemma SortKeepsKeys(s: seq<Vacancy>, t: seq<Vacancy>)
    requires multiset(s) == multiset(t) && DistinctKeys(s)
    ensures DistinctKeys(t) && Keys(t) == Keys(s) && |t| == |s|
    ensures forall v :: v in t <==> v in s
  {
    forall v ensures v in t <==> v in s {
      assert v in t <==> v in multiset(t);
      assert v in s <==> v in multiset(s);
    }
    assert Distinct(s);
    DistinctPermutation(s, t);
    forall i, j | 0 <= i < j < |t| ensures Key(t[i]) != Key(t[j]) {
      assert t[i] in s && t[j] in s;
    }
  }

  /** Every loaded key and every announced polled key once, newest first, in the polled version where one exists. */
  lemma MergedMeaning(pages: seq<VacancyPage>, poll: VacancyPage, newIds: set<string>, rank: Collation)
    requires pages != []
    ensures var q := Merged(pages, poll, newIds, rank);
            && MergedWell(FlatData(q), FlatData(pages), poll.data, newIds, rank)
            && |q| == |pages|
            && forall i :: 0 <= i < |q| ==>
                 q[i].total == poll.total && q[i].page == pages[i].page && q[i].pageSize == pages[i].pageSize
    ensures FlatData(Merged(pages, poll, newIds, rank)) == Sort(Unsorted(pages, poll.data, newIds), Order(rank))
  {
    hide NewestFirst, Key, Keys, DistinctKeys, First, Dedupe, Unsorted, AddedCount, Paged, Sort, FlatData, Order;
    var list := Unsorted(pages, poll.data, newIds);
    var sorted := Sort(list, Order(rank));
    UnsortedMeaning(pages, poll.data, newIds);
    OrderStrictWeak(rank);
    SortCorrect(list, Order(rank));
    SortKeepsKeys(list, sorted);
    SortedNewestFirst(sorted, rank);
    var loaded := FlatData(pages);
    forall v | v in sorted && Key(v) !in Keys(poll.data)
      ensures exists i :: 0 <= i < |loaded| && loaded[i] == v && First(loaded, i)
    {
      DedupeFirst(loaded, v);
    }
    PagedMeaning(pages, sorted, AddedCount(poll.data, newIds, Keys(Dedupe(FlatData(pages)))), poll.total);
  }

  lemma {:induction false} NothingToAdd(poll: seq<Vacancy>, newIds: set<string>, current: set<string>)
    requires Keys(poll) * newIds <= current
    ensures AddedCount(poll, newIds, current) == 0
  {
    if poll != [] {
      var front, v := poll[..|poll| - 1], poll[|poll| - 1];
      assert poll == front + [v];
      assert Keys(front) <= Keys(poll) && Key(v) in Keys(poll);
      NothingToAdd(front, newIds, current);
    }
  }

  /** A list that already holds the poll is left as it is. */
  lemma AddedAgain(list: seq<Vacancy>, poll: seq<Vacancy>, newIds: set<string>)
    requires DistinctKeys(list) && Keys(poll) * newIds <= Keys(list)
    requires forall v :: v in list && Key(v) in Keys(poll) ==> Latest(poll, Key(v)) == Found(v)
    ensures Refreshed(list, poll) == list && Added(list, poll, newIds) == list
  {
    forall i | 0 <= i < |list| ensures Version(poll, list[i]) == list[i] {
      LatestHasKey(poll, Key(list[i]));
      assert list[i] in list;
    }
    AddedMeaning(list, poll, newIds);
    NothingToAdd(poll, newIds, Keys(list));
    var s := Added(list, poll, newIds);
    forall i | 0 <= i < |list| ensures s[i] == list[i] {
      assert PutOver(s, i, list, poll, newIds);
      LatestHasKey(poll, Key(list[i]));
      assert list[i] in list;
    }
  }

  /** Merging the same poll again changes nothing. */
  lemma MergeTwice(pages: seq<VacancyPage>, poll: VacancyPage, newIds: set<string>, rank: Collation)
    ensures var q := Merged(pages, poll, newIds, rank);
            Merged(q, poll, newIds, rank) == q
  {
    if pages != [] {
      var q := Merged(pages, poll, newIds, rank);
      MergedMeaning(pages, poll, newIds, rank);
      var list := FlatData(q);
      DedupeDistinct(list);
      AddedAgain(list, poll.data, newIds);
      NothingToAdd(poll.data, newIds, Keys(list));
      SortFixpoint(list, Order(rank));
      PagedAgain(q, poll.total);
    }
  }

  // ----- The source's loops

  lemma DedupeNone()
    ensures FlatData([]) == [] && Dedupe([]) == [] && Keys([]) == {}
  {
  }

  lemma DedupeSnoc(s: seq<Vacancy>, v: Vacancy)
    ensures Dedupe(s + [v]) == if Key(v) in Keys(Dedupe(s)) then Dedupe(s) else Dedupe(s) + [v]
  {
    assert (s + [v])[..|s|] == s;
  }

  method DedupeVacancies(pages: seq<VacancyPage>) returns (r: seq<Vacancy>)
    ensures r == Dedupe(FlatData(pages))
  {
    hide Key, Keys, Dedupe, FlatData;
    DedupeNone();
    var seen: set<string> := {};
    r := [];
    for i := 0 to |pages|
      invariant r == Dedupe(FlatData(pages[..i])) && seen == Keys(r)
    {
      ghost var before := FlatData(pages[..i]);
      var data := pages[i].data;
      assert before + data[..0] == before;
      for j := 0 to |data|
        invariant r == Dedupe(before + data[..j]) && seen == Keys(r)
      {
        DedupeSnoc(before + data[..j], data[j]);
        assert before + data[..j] + [data[j]] == before + data[..j + 1];
        KeysSnoc(r, data[j]);
        var key := Key(data[j]);
        if key !in seen {
          seen := seen + {key};
          r := r + [data[j]];
        }
      }
      assert data[..|data|] == data;
      FlatSnoc(pages[..i], pages[i]);
      assert pages[..i + 1] == pages[..i] + [pages[i]];
    }
    assert pages[..|pages|] == pages;
  }

  /** A Map in insertion order. */
  class OrderedMap {
    var order: seq<string>
    var values: map<string, Vacancy>

    ghost predicate Valid()
      reads this
    {
      && Distinct(order)
      && (forall k :: k in order <==> k in values)
      && (forall k :: k in values ==> Key(values[k]) == k)
    }

    function Values(): seq<Vacancy>
      requires Valid()
      reads this
    {
      ValuesOf(order, values)
    }

    static function ValuesOf(order: seq<string>, values: map<string, Vacancy>): seq<Vacancy>
      requires forall k :: k in order ==> k in values
    {
      seq(|order|, i requires 0 <= i < |order| => values[order[i]])
    }

    constructor ()
      ensures Valid() && Values() == []
    {
      order, values := [], map[];
    }

    method Set(v: Vacancy)
      requires Valid()
      modifies this
      ensures Valid() && Values() == Put(old(Values()), v)
    {
      hide Key, Put, Keys;
      ghost var was := Values();
      ValuesKeys();
      PutMeaning(was, v);
      if Key(v) !in values {
        order := order + [Key(v)];
      }
      values := values[Key(v) := v];
    }

    lemma ValuesKeys()
      requires Valid()
      ensures DistinctKeys(Values()) && Keys(Values()) == values.Keys
    {
      var s := Values();
      forall k ensures k in Keys(s) <==> k in values {
        if k in values {
          var i :| 0 <= i < |order| && order[i] == k;
          assert s[i] in s;
        }
      }
    }
  }

  method MergePolledVacancies(pages: seq<VacancyPage>, poll: VacancyPage, newIds: set<string>, rank: Collation)
    returns (r: seq<VacancyPage>)
    ensures r == Merged(pages, poll, newIds, rank)
    ensures pages == [] ==> r == []
    ensures pages != [] ==> MergedWell(FlatData(r), FlatData(pages), poll.data, newIds, rank) && |r| == |pages|
  {
    if pages == [] {
      return pages;
    }
    hide Merged;
    var current := DedupeVacancies(pages);
    DedupeKeys(FlatData(pages));
    var list, added := MergeLists(current, poll.data, newIds);
    var merged := Sort(list, Order(rank));
    r := CutPages(pages, merged, added, poll.total);
    assert r == Merged(pages, poll, newIds, rank) by {
      MergedIs(pages, poll, newIds, rank);
    }
    MergedMeaning(pages, poll, newIds, rank);
  }

  lemma MergedIs(pages: seq<VacancyPage>, poll: VacancyPage, newIds: set<string>, rank: Collation)
    requires pages != []
    ensures Merged(pages, poll, newIds, rank)
            == Paged(pages, Sort(Unsorted(pages, poll.data, newIds), Order(rank)),
                     AddedCount(poll.data, newIds, Keys(Dedupe(FlatData(pages)))), poll.total)
  {
  }

  method IndexPoll(poll: seq<Vacancy>) returns (byId: map<string, Vacancy>)
    ensures forall k :: Latest(poll, k) == if k in byId then Found(byId[k]) else Missing
  {
    hide Key;
    byId := map[];
    for i := 0 to |poll|
      invariant forall k :: Latest(poll[..i], k) == if k in byId then Found(byId[k]) else Missing
    {
      assert poll[..i + 1][..i] == poll[..i];
      byId := byId[Key(poll[i]) := poll[i]];
    }
    assert poll[..|poll|] == poll;
  }

  method CountAdded(poll: seq<Vacancy>, newIds: set<string>, currentIds: set<string>) returns (added: nat)
    ensures added == AddedCount(poll, newIds, currentIds)
  {
    hide Key;
    added := 0;
    for i := 0 to |poll|
      invariant added == AddedCount(poll[..i], newIds, currentIds)
    {
      assert poll[..i + 1][..i] == poll[..i];
      if Key(poll[i]) in newIds && Key(poll[i]) !in currentIds {
        added := added + 1;
      }
    }
    assert poll[..|poll|] == poll;
  }

  /** The map building: the loaded rows in their polled version, then the announced ones. */
  method MergeLists(current: seq<Vacancy>, poll: seq<Vacancy>, newIds: set<string>)
    returns (list: seq<Vacancy>, added: nat)
    requires DistinctKeys(current)
    ensures list == Added(Refreshed(current, poll), poll, newIds)
    ensures added == AddedCount(poll, newIds, Keys(current))
  {
    hide Key, Put, AddedCount, Keys, DistinctKeys;
    var pollById := IndexPoll(poll);
    added := CountAdded(poll, newIds, Keys(current));
    var merged := new OrderedMap();
    ghost var base := Refreshed(current, poll);
    RefreshedKeys(current, poll);
    for i := 0 to |current|
      invariant merged.Valid()
      invariant merged.Values() == base[..i]
    {
      hide merged.Valid, merged.Values;
      var key := Key(current[i]);
      var v := if key in pollById then pollById[key] else current[i];
      assert v == base[i];
      PutNew(base, i);
      merged.Set(v);
    }
    assert base[..|current|] == base;
    for i := 0 to |poll|
      invariant merged.Valid()
      invariant merged.Values() == Added(base, poll[..i], newIds)
    {
      assert poll[..i + 1][..i] == poll[..i];
      if Key(poll[i]) in newIds {
        merged.Set(poll[i]);
      }
    }
    assert poll[..|poll|] == poll;
    list := merged.Values();
  }

  lemma PutNew(base: seq<Vacancy>, i: nat)
    requires i < |base| && DistinctKeys(base)
    ensures Put(base[..i], base[i]) == base[..i + 1]
  {
    PutMeaning(base[..i], base[i]);
  }

  /** The slice of `merged` from `from` to `to`, clipped as Array.slice does. */
  function Slice(merged: seq<Vacancy>, from: nat, to: nat): seq<Vacancy>
    requires from <= to
  {
    merged[Least(from, |merged|)..Least(to, |merged|)]
  }

  /** The pages cut so far, followed by the ones still to cut, are the whole result. */
  ghost predicate CutSoFar(r: seq<VacancyPage>, pages: seq<VacancyPage>, merged: seq<Vacancy>, i: nat, offset: nat, added: nat, total: int) {
    && i <= |pages|
    && r + Paged(pages[i..], merged[Least(offset, |merged|)..], if i == 0 then added else 0, total)
       == Paged(pages, merged, added, total)
  }

  lemma PagedHead(pages: seq<VacancyPage>, list: seq<Vacancy>, extra: nat, total: int)
    requires pages != []
    ensures var n := Least(|pages[0].data| + extra, |list|);
            Paged(pages, list, extra, total)
            == [pages[0].(data := list[..n], total := total)] + Paged(pages[1..], list[n..], 0, total)
  {
  }

  lemma CutStep(r: seq<VacancyPage>, pages: seq<VacancyPage>, merged: seq<Vacancy>, i: nat, offset: nat, added: nat, total: int)
    requires i < |pages| && CutSoFar(r, pages, merged, i, offset, added, total)
    ensures var to := offset + |pages[i].data| + (if i == 0 then added else 0);
            CutSoFar(r + [pages[i].(data := Slice(merged, offset, to), total := total)], pages, merged, i + 1, to, added, total)
  {
    hide Paged;
    var extra := if i == 0 then added else 0;
    var to := offset + |pages[i].data| + extra;
    var rest, left := merged[Least(offset, |merged|)..], pages[i..];
    var n := Least(|pages[i].data| + extra, |rest|);
    assert rest[..n] == Slice(merged, offset, to);
    assert rest[n..] == merged[Least(to, |merged|)..];
    assert left[0] == pages[i] && left[1..] == pages[i + 1..];
    var head := [pages[i].(data := rest[..n], total := total)];
    var tail := Paged(left[1..], rest[n..], 0, total);
    PagedHead(left, rest, extra, total);
    assert r + (head + tail) == (r + head) + tail;
  }

  lemma CutEnds(r: seq<VacancyPage>, pages: seq<VacancyPage>, merged: seq<Vacancy>, added: nat, total: int)
    ensures CutSoFar([], pages, merged, 0, 0, added, total)
    ensures forall offset: nat :: CutSoFar(r, pages, merged, |pages|, offset, added, total) ==> r == Paged(pages, merged, added, total)
  {
    assert pages[0..] == pages && merged[0..] == merged;
    forall offset: nat | CutSoFar(r, pages, merged, |pages|, offset, added, total)
      ensures r == Paged(pages, merged, added, total)
    {
      assert pages[|pages|..] == [];
    }
  }

  /** The slicing of pages.map. */
  method CutPages(pages: seq<VacancyPage>, merged: seq<Vacancy>, added: nat, total: int) returns (r: seq<VacancyPage>)
    ensures r == Paged(pages, merged, added, total)
  {
    hide CutSoFar, Paged;
    r := [];
    var offset := 0;
    CutEnds(r, pages, merged, added, total);
    for i := 0 to |pages|
      invariant 0 <= offset && CutSoFar(r, pages, merged, i, offset, added, total)
    {
      var size := |pages[i].data| + (if i == 0 then added else 0);
      CutStep(r, pages, merged, i, offset, added, total);
      r := r + [pages[i].(data := Slice(merged, offset, offset + size), total := total)];
      offset := offset + size;
    }
    CutEnds(r, pages, merged, added, total);
  }
}
