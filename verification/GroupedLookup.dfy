/** A lookup by many keys: keys grouped by physical shard, one query for each group, rows restored to input order. */
module GroupedLookup {
  import opened Basics

  datatype Item<K> = Item(key: K, tenantKey: int)

  datatype Pair<K> = Pair(name: string, key: K)

  /** The keys asked of one replica set; `requested` answers membership. */
  datatype KeyGroup<K> = KeyGroup(args: seq<K>, requested: set<K>)

  datatype Reply<R> = Reply(rows: seq<Option<R>>, failed: bool)

  datatype LookupFailure =
    | NilItem(index: nat)
    | RouteFailed(index: nat)
    | CrossShardTransaction
    | ShardsFailed(names: seq<string>)
    | BadRows(names: seq<string>)

  // What is asked

  /** The replica set and key an item asks for; a nil item or one without a route asks for nothing. */
  function PairOf<K>(item: Option<Item<K>>, route: int -> Option<string>): Option<Pair<K>> {
    if item.None? || route(item.value.tenantKey).None? then None
    else Some(Pair(route(item.value.tenantKey).value, item.value.key))
  }

  ghost predicate Usable<K>(items: seq<Option<Item<K>>>, route: int -> Option<string>) {
    forall i :: 0 <= i < |items| ==> PairOf(items[i], route).Some?
  }

  function Pairs<K>(items: seq<Option<Item<K>>>, route: int -> Option<string>): (pairs: seq<Pair<K>>)
    requires Usable(items, route)
    ensures |pairs| == |items|
  {
    if items == [] then []
    else Pairs(items[..|items| - 1], route) + [PairOf(items[|items| - 1], route).value]
  }

  /** The keys asked of one replica set, in order. */
  function KeysOf<K>(pairs: seq<Pair<K>>, name: string): seq<K> {
    if pairs == [] then []
    else
      var last := pairs[|pairs| - 1];
      KeysOf(pairs[..|pairs| - 1], name) + if last.name == name then [last.key] else []
  }

  /** They are the keys of exactly the pairs with that name, in order: `at` is where these stand. */
  lemma {:induction false} KeysInOrder<K>(pairs: seq<Pair<K>>, name: string) returns (at: seq<nat>)
    ensures |at| == |KeysOf(pairs, name)| && forall i, j :: 0 <= i < j < |at| ==> at[i] < at[j]
    ensures forall j :: 0 <= j < |at| ==> at[j] < |pairs| && pairs[at[j]] == Pair(name, KeysOf(pairs, name)[j])
    ensures forall i :: 0 <= i < |pairs| && pairs[i].name == name ==> i in at
  {
    at := [];
    if pairs != [] {
      var k := |pairs| - 1;
      at := KeysInOrder(pairs[..k], name);
      if pairs[k].name == name {
        at := at + [k];
        assert k in at;
      }
    }
  }

  lemma {:induction false} KeysOfMember<K>(pairs: seq<Pair<K>>, name: string, key: K)
    ensures key in KeysOf(pairs, name) <==> Pair(name, key) in pairs
  {
    if pairs != [] {
      var init := pairs[..|pairs| - 1];
      KeysOfMember(init, name, key);
      assert pairs == init + [pairs[|pairs| - 1]];
    }
  }

  ghost predicate Grouped<K>(groups: map<string, KeyGroup<K>>, pairs: seq<Pair<K>>) {
    && (forall name | name in groups ::
          && groups[name].args == KeysOf(pairs, name) != []
          && groups[name].requested == set key | key in KeysOf(pairs, name))
    && (forall name: string | name !in groups :: KeysOf(pairs, name) == [])
  }

  function Requested<K>(groups: map<string, KeyGroup<K>>, name: string): KeyGroup<K> {
    if name in groups then groups[name] else KeyGroup([], {})
  }

  lemma GroupedNext<K>(groups: map<string, KeyGroup<K>>, pairs: seq<Pair<K>>, pair: Pair<K>)
    requires Grouped(groups, pairs)
    ensures var mine := Requested(groups, pair.name);
            Grouped(groups[pair.name := KeyGroup(mine.args + [pair.key], mine.requested + {pair.key})], pairs + [pair])
  {
    hide KeysOf;
    forall name: string
      ensures KeysOf(pairs + [pair], name) == KeysOf(pairs, name) + if pair.name == name then [pair.key] else []
    {
      KeysOfNext(pairs, pair, name);
    }
    var mine := Requested(groups, pair.name);
    var keys := KeysOf(pairs, pair.name);
    assert mine.args == keys && mine.requested == set key | key in keys;
    assert (set key | key in keys + [pair.key]) == mine.requested + {pair.key};
  }

  lemma KeysOfNext<K>(pairs: seq<Pair<K>>, pair: Pair<K>, name: string)
    ensures KeysOf(pairs + [pair], name) == KeysOf(pairs, name) + if pair.name == name then [pair.key] else []
  {
    assert (pairs + [pair])[..|pairs|] == pairs;
  }

  ghost predicate FirstUnusable<K>(items: seq<Option<Item<K>>>, route: int -> Option<string>, index: nat) {
    index < |items| && PairOf(items[index], route).None? && Usable(items[..index], route)
  }

  /** Groups the keys by replica set. A key is asked once of each replica set, where it first occurs. */
  method CollectKeys<K(==)>(items: seq<Option<Item<K>>>, route: int -> Option<string>)
    returns (r: Result<(seq<Pair<K>>, map<string, KeyGroup<K>>), LookupFailure>)
    ensures r.Ok? ==> Usable(items, route) && r.value.0 == Dedup(Pairs(items, route)) && Grouped(r.value.1, r.value.0)
    ensures r.Err? ==>
              && (r.error.NilItem? || r.error.RouteFailed?)
              && FirstUnusable(items, route, r.error.index)
              && (r.error.NilItem? <==> items[r.error.index].None?)
  {
    var pairs: seq<Pair<K>> := [];
    var groups: map<string, KeyGroup<K>> := map[];
    assert Grouped(groups, pairs);
    hide Grouped;
    for i := 0 to |items|
      invariant Usable(items[..i], route) && pairs == Dedup(Pairs(items[..i], route)) && Grouped(groups, pairs)
    {
      var item := items[i];
      if item.None? {
        return Err(NilItem(i));
      }
      var target := route(item.value.tenantKey);
      if target.None? {
        return Err(RouteFailed(i));
      }
      PairsNext(items, route, i);
      var pair := Pair(target.value, item.value.key);
      var mine := Requested(groups, pair.name);
      RequestedMember(groups, pairs, pair);
      if pair.key !in mine.requested {
        GroupedNext(groups, pairs, pair);
        groups := groups[pair.name := KeyGroup(mine.args + [pair.key], mine.requested + {pair.key})];
        pairs := pairs + [pair];
      }
    }
    assert items[..|items|] == items;
    r := Ok((pairs, groups));
  }

  lemma PairsNext<K>(items: seq<Option<Item<K>>>, route: int -> Option<string>, i: nat)
    requires i < |items| && Usable(items[..i], route) && PairOf(items[i], route).Some?
    ensures Usable(items[..i + 1], route)
    ensures Pairs(items[..i + 1], route) == Pairs(items[..i], route) + [PairOf(items[i], route).value]
    ensures var init, pair := Dedup(Pairs(items[..i], route)), PairOf(items[i], route).value;
            Dedup(Pairs(items[..i + 1], route)) == if pair in init then init else init + [pair]
  {
    assert items[..i + 1][..i] == items[..i];
    var was := Pairs(items[..i], route);
    var now := items[..i + 1];
    forall j | 0 <= j < |now| ensures PairOf(now[j], route).Some? {
      assert j < i ==> now[j] == items[..i][j];
    }
    assert (was + [PairOf(items[i], route).value])[..|was|] == was;
  }

  lemma RequestedMember<K>(groups: map<string, KeyGroup<K>>, pairs: seq<Pair<K>>, pair: Pair<K>)
    requires Grouped(groups, pairs)
    ensures pair.key in Requested(groups, pair.name).requested <==> pair in pairs
  {
    KeysOfMember(pairs, pair.name, pair.key);
  }

  // What comes back

  /** The rows with one key, in the order they came back. */
  function RowsWith<K(==), R>(rows: seq<Option<R>>, rowKey: R -> K, key: K): seq<R> {
    if rows == [] then []
    else
      var last := rows[|rows| - 1];
      RowsWith(rows[..|rows| - 1], rowKey, key) + if last.Some? && rowKey(last.value) == key then [last.value] else []
  }

  function HasKey<K(==), R>(rowKey: R -> K, key: K): Option<R> -> bool {
    (row: Option<R>) => row.Some? && rowKey(row.value) == key
  }

  lemma {:induction false} RowsFiltered<K, R>(rows: seq<Option<R>>, rowKey: R -> K, key: K)
    ensures |Filter(rows, HasKey(rowKey, key))| == |RowsWith(rows, rowKey, key)|
    ensures forall j :: 0 <= j < |RowsWith(rows, rowKey, key)| ==>
      Filter(rows, HasKey(rowKey, key))[j] == Some(RowsWith(rows, rowKey, key)[j])
  {
    if rows != [] {
      RowsFiltered(rows[..|rows| - 1], rowKey, key);
    }
  }

  /** They are exactly the rows with that key, each once, in the order they came back: `at` is where they stand. */
  lemma RowsInOrder<K, R>(rows: seq<Option<R>>, rowKey: R -> K, key: K) returns (at: seq<nat>)
    ensures |at| == |RowsWith(rows, rowKey, key)| && forall i, j :: 0 <= i < j < |at| ==> at[i] < at[j]
    ensures forall j :: 0 <= j < |at| ==>
      at[j] < |rows| && rows[at[j]] == Some(RowsWith(rows, rowKey, key)[j]) && rowKey(rows[at[j]].value) == key
    ensures forall i :: 0 <= i < |rows| && rows[i].Some? && rowKey(rows[i].value) == key ==> i in at
  {
    hide RowsWith, Filter;
    at := FilterSelects(rows, HasKey(rowKey, key));
    RowsFiltered(rows, rowKey, key);
    assert forall i :: 0 <= i < |rows| ==>
      (HasKey(rowKey, key)(rows[i]) <==> rows[i].Some? && rowKey(rows[i].value) == key);
  }

  /** All rows that are not nil. */
  function Present<R>(rows: seq<Option<R>>): seq<R> {
    if rows == [] then []
    else
      var last := rows[|rows| - 1];
      Present(rows[..|rows| - 1]) + if last.Some? then [last.value] else []
  }

  /** No row is nil and every row has a key that was asked for. */
  ghost predicate Clean<K, R>(rows: seq<Option<R>>, rowKey: R -> K, keys: seq<K>) {
    forall i :: 0 <= i < |rows| ==> rows[i].Some? && rowKey(rows[i].value) in keys
  }

  ghost predicate Sorted<K, R>(byKey: map<K, seq<R>>, rows: seq<Option<R>>, rowKey: R -> K, requested: set<K>) {
    forall key | key in requested :: (if key in byKey then byKey[key] else []) == RowsWith(rows, rowKey, key)
  }

  lemma SortedNext<K, R>(byKey: map<K, seq<R>>, rows: seq<Option<R>>, i: nat, rowKey: R -> K, requested: set<K>)
    requires i < |rows| && Sorted(byKey, rows[..i], rowKey, requested)
    ensures rows[i].Some? ==>
              var key := rowKey(rows[i].value);
              var mine := if key in byKey then byKey[key] else [];
              Sorted(byKey[key := mine + [rows[i].value]], rows[..i + 1], rowKey, requested)
    ensures rows[i].None? || rowKey(rows[i].value) !in requested ==> Sorted(byKey, rows[..i + 1], rowKey, requested)
  {
    assert rows[..i + 1][..i] == rows[..i];
  }

  lemma CleanNext<K, R>(rows: seq<Option<R>>, i: nat, rowKey: R -> K, keys: seq<K>)
    requires i < |rows|
    ensures Clean(rows[..i + 1], rowKey, keys)
       <==> Clean(rows[..i], rowKey, keys) && rows[i].Some? && rowKey(rows[i].value) in keys
  {
    var now := rows[..i + 1];
    assert now[i] == rows[i] && now[..i] == rows[..i];
    if Clean(now, rowKey, keys) {
      assert forall j :: 0 <= j < i ==> rows[..i][j] == now[j];
    }
  }

  /** Sorts the rows of one group by key; `ok` is false when some row is nil or was not asked for. */
  method SortRows<K(==), R>(rows: seq<Option<R>>, rowKey: R -> K, group: KeyGroup<K>)
    returns (byKey: map<K, seq<R>>, ok: bool)
    requires group.requested == set key | key in group.args
    ensures ok <==> Clean(rows, rowKey, group.args)
    ensures Sorted(byKey, rows, rowKey, group.requested)
  {
    byKey, ok := map[], true;
    assert Sorted(byKey, rows[..0], rowKey, group.requested);
    assert Clean(rows[..0], rowKey, group.args);
    hide Sorted, Clean;
    for i := 0 to |rows|
      invariant ok <==> Clean(rows[..i], rowKey, group.args)
      invariant Sorted(byKey, rows[..i], rowKey, group.requested)
    {
      SortedNext(byKey, rows, i, rowKey, group.requested);
      CleanNext(rows, i, rowKey, group.args);
      var row := rows[i];
      if row.None? || rowKey(row.value) !in group.requested {
        ok := false;
      } else {
        var key := rowKey(row.value);
        var mine := if key in byKey then byKey[key] else [];
        byKey := byKey[key := mine + [row.value]];
      }
    }
    assert rows[..|rows|] == rows;
  }

  /** The rows for every pair, in the order of the pairs. */
  function Restored<K(==), R>(pairs: seq<Pair<K>>, answer: string -> seq<Option<R>>, rowKey: R -> K): seq<R> {
    if pairs == [] then []
    else
      var last := pairs[|pairs| - 1];
      Restored(pairs[..|pairs| - 1], answer, rowKey) + RowsWith(answer(last.name), rowKey, last.key)
  }

  /** The replica sets that are asked something, in their order. */
  function Names<K>(pairs: seq<Pair<K>>, order: seq<string>): seq<string> {
    if order == [] then []
    else
      var last := order[|order| - 1];
      Names(pairs, order[..|order| - 1]) + if KeysOf(pairs, last) != [] then [last] else []
  }

  lemma {:induction false} NamesMember<K>(pairs: seq<Pair<K>>, order: seq<string>, name: string)
    ensures name in Names(pairs, order) <==> name in order && KeysOf(pairs, name) != []
  {
    hide KeysOf;
    if order != [] {
      NamesMember(pairs, order[..|order| - 1], name);
      assert order == order[..|order| - 1] + [order[|order| - 1]];
    }
  }

  /** What each replica set answers when it is asked for all its keys at once. */
  function Answer<K, R>(pairs: seq<Pair<K>>, query: (string, seq<K>) -> Reply<R>): string -> Reply<R> {
    (name: string) => query(name, KeysOf(pairs, name))
  }

  function RowsOf<R>(answer: string -> Reply<R>): string -> seq<Option<R>> {
    (name: string) => answer(name).rows
  }

  method SelectGroups<K>(pairs: seq<Pair<K>>, groups: map<string, KeyGroup<K>>, order: seq<string>)
    returns (names: seq<string>)
    requires Grouped(groups, pairs)
    ensures names == Names(pairs, order)
  {
    hide KeysOf;
    names := [];
    for i := 0 to |order|
      invariant names == Names(pairs, order[..i])
    {
      assert order[..i + 1][..i] == order[..i];
      if order[i] in groups {
        names := names + [order[i]];
      }
    }
    assert order[..|order|] == order;
  }

  function Fails<R>(answer: string -> Reply<R>): string -> bool {
    (name: string) => answer(name).failed
  }

  /** The replica sets that returned a nil row or one that was not asked for. */
  ghost function Unclean<K, R>(pairs: seq<Pair<K>>, answer: string -> Reply<R>, rowKey: R -> K): string -> bool {
    (name: string) => !Clean(answer(name).rows, rowKey, KeysOf(pairs, name))
  }

  method FailedNames<R>(names: seq<string>, replies: seq<Reply<R>>, ghost answer: string -> Reply<R>)
    returns (failed: seq<string>)
    requires |replies| == |names| && forall i :: 0 <= i < |names| ==> replies[i] == answer(names[i])
    ensures failed == Filter(names, Fails(answer))
  {
    failed := [];
    for i := 0 to |names|
      invariant failed == Filter(names[..i], Fails(answer))
    {
      assert names[..i + 1][..i] == names[..i];
      if replies[i].failed {
        failed := failed + [names[i]];
      }
    }
    assert names[..|names|] == names;
  }

  ghost predicate AllSorted<K, R>(byGroup: map<string, map<K, seq<R>>>, pairs: seq<Pair<K>>,
                                  answer: string -> Reply<R>, rowKey: R -> K)
  {
    forall name | name in byGroup ::
      Sorted(byGroup[name], answer(name).rows, rowKey, set key | key in KeysOf(pairs, name))
  }

  method SortGroups<K(==), R>(names: seq<string>, replies: seq<Reply<R>>, groups: map<string, KeyGroup<K>>,
                              rowKey: R -> K, ghost pairs: seq<Pair<K>>, ghost answer: string -> Reply<R>)
    returns (byGroup: map<string, map<K, seq<R>>>, bad: seq<string>)
    requires |replies| == |names| && forall i :: 0 <= i < |names| ==> replies[i] == answer(names[i])
    requires Grouped(groups, pairs) && forall i :: 0 <= i < |names| ==> names[i] in groups
    ensures bad == Filter(names, Unclean(pairs, answer, rowKey))
    ensures AllSorted(byGroup, pairs, answer, rowKey) && forall name :: name in byGroup <==> name in names
  {
    hide KeysOf, Clean, Sorted;
    byGroup, bad := map[], [];
    for i := 0 to |names|
      invariant bad == Filter(names[..i], Unclean(pairs, answer, rowKey))
      invariant AllSorted(byGroup, pairs, answer, rowKey) && forall name :: name in byGroup <==> name in names[..i]
    {
      assert names[..i + 1] == names[..i] + [names[i]] && names[..i + 1][..i] == names[..i];
      var byKey, ok := SortRows(replies[i].rows, rowKey, groups[names[i]]);
      byGroup := byGroup[names[i] := byKey];
      if !ok {
        bad := bad + [names[i]];
      }
    }
    assert names[..|names|] == names;
  }

  method Restore<K(==), R>(pairs: seq<Pair<K>>, byGroup: map<string, map<K, seq<R>>>, rowKey: R -> K,
                           ghost answer: string -> Reply<R>)
    returns (rows: seq<R>)
    requires AllSorted(byGroup, pairs, answer, rowKey)
    requires forall i :: 0 <= i < |pairs| ==> pairs[i].name in byGroup
    ensures rows == Restored(pairs, RowsOf(answer), rowKey)
  {
    hide KeysOf, RowsWith;
    rows := [];
    for i := 0 to |pairs|
      invariant rows == Restored(pairs[..i], RowsOf(answer), rowKey)
    {
      assert pairs[..i + 1][..i] == pairs[..i];
      var name, key := pairs[i].name, pairs[i].key;
      KeysOfMember(pairs, name, key);
      var byKey := byGroup[name];
      assert Sorted(byKey, answer(name).rows, rowKey, set k | k in KeysOf(pairs, name));
      rows := rows + if key in byKey then byKey[key] else [];
    }
    assert pairs[..|pairs|] == pairs;
  }

  /** The distinct (replica set, key) pairs of a request, each where it first occurs. */
  function Asked<K(==)>(items: seq<Option<Item<K>>>, route: int -> Option<string>): seq<Pair<K>>
    requires Usable(items, route)
  {
    Dedup(Pairs(items, route))
  }

  /** What a lookup reports, one case for each outcome; no failure carries rows. */
  ghost predicate Reported<K, R>(items: seq<Option<Item<K>>>, route: int -> Option<string>, order: seq<string>,
                                 inTransaction: bool, query: (string, seq<K>) -> Reply<R>, rowKey: R -> K,
                                 r: Result<seq<R>, LookupFailure>)
  {
    if Usable(items, route) then
      var pairs := Asked(items, route);
      Answered(pairs, Names(pairs, order), inTransaction, Answer(pairs, query), rowKey, r)
    else
      && r.Err? && (r.error.NilItem? || r.error.RouteFailed?)
      && FirstUnusable(items, route, r.error.index)
      && (r.error.NilItem? <==> items[r.error.index].None?)
  }

  ghost predicate Answered<K, R>(pairs: seq<Pair<K>>, names: seq<string>, inTransaction: bool,
                                 answer: string -> Reply<R>, rowKey: R -> K, r: Result<seq<R>, LookupFailure>)
  {
    var failed, bad := Filter(names, Fails(answer)), Filter(names, Unclean(pairs, answer, rowKey));
    if inTransaction && |names| > 1 then r == Err(CrossShardTransaction)
    else if failed != [] then r == Err(ShardsFailed(failed))
    else if bad != [] then r == Err(BadRows(bad))
    else r == Ok(Restored(pairs, RowsOf(answer), rowKey))
  }

  /** Queries every group that has keys and restores the order of the pairs. */
  method AskShards<K(==), R>(pairs: seq<Pair<K>>, groups: map<string, KeyGroup<K>>, order: seq<string>,
                             inTransaction: bool, query: (string, seq<K>) -> Reply<R>, rowKey: R -> K,
                             completion: seq<nat>)
    returns (r: Result<seq<R>, LookupFailure>)
    requires Grouped(groups, pairs) && forall i :: 0 <= i < |pairs| ==> pairs[i].name in Names(pairs, order)
    requires forall i :: 0 <= i < |completion| ==> completion[i] < |Names(pairs, order)|
    requires forall i: nat | i < |Names(pairs, order)| :: i in completion
    ensures Answered(pairs, Names(pairs, order), inTransaction, Answer(pairs, query), rowKey, r)
  {
    hide KeysOf, Clean, Sorted, Restored, Names, Grouped, AllSorted;
    var names := SelectGroups(pairs, groups, order);
    if inTransaction && |names| > 1 {
      return Err(CrossShardTransaction);
    }
    NamesAreGrouped(pairs, groups, order);
    ghost var answer := Answer(pairs, query);
    var replies := Gather(|names|, completion, Reply([], false),
                          (i: nat) => if i < |names| then query(names[i], Requested(groups, names[i]).args)
                                      else Reply([], false));
    var failed := FailedNames(names, replies, answer);
    if failed != [] {
      return Err(ShardsFailed(failed));
    }
    var byGroup, bad := SortGroups(names, replies, groups, rowKey, pairs, answer);
    if bad != [] {
      return Err(BadRows(bad));
    }
    var rows := Restore(pairs, byGroup, rowKey, answer);
    r := Ok(rows);
  }

  /** The lookup itself. `completion` is the order in which the shards answer: it does not show in the result. */
  method Lookup<K(==), R>(items: seq<Option<Item<K>>>, route: int -> Option<string>, order: seq<string>,
                          inTransaction: bool, query: (string, seq<K>) -> Reply<R>, rowKey: R -> K,
                          completion: seq<nat>)
    returns (r: Result<seq<R>, LookupFailure>)
    requires forall tenantKey :: route(tenantKey).Some? ==> route(tenantKey).value in order
    requires Usable(items, route) ==>
               var n := |Names(Asked(items, route), order)|;
               (forall i :: 0 <= i < |completion| ==> completion[i] < n) && (forall i: nat | i < n :: i in completion)
    ensures Reported(items, route, order, inTransaction, query, rowKey, r)
  {
    hide KeysOf, Clean, Sorted, Restored, Names, Answered, Grouped;
    var collected := CollectKeys(items, route);
    if collected.Err? {
      return Err(collected.error);
    }
    AskedNames(items, route, order);
    r := AskShards(collected.value.0, collected.value.1, order, inTransaction, query, rowKey, completion);
  }

  lemma NamesAreGrouped<K>(pairs: seq<Pair<K>>, groups: map<string, KeyGroup<K>>, order: seq<string>)
    requires Grouped(groups, pairs)
    ensures var names := Names(pairs, order);
            forall i :: 0 <= i < |names| ==>
              names[i] in groups && Requested(groups, names[i]).args == KeysOf(pairs, names[i])
  {
    var names := Names(pairs, order);
    forall i | 0 <= i < |names|
      ensures names[i] in groups && Requested(groups, names[i]).args == KeysOf(pairs, names[i])
    {
      NamesMember(pairs, order, names[i]);
    }
  }

  lemma {:induction false} PairsRouted<K>(items: seq<Option<Item<K>>>, route: int -> Option<string>, order: seq<string>)
    requires Usable(items, route)
    requires forall tenantKey :: route(tenantKey).Some? ==> route(tenantKey).value in order
    ensures forall pair | pair in Pairs(items, route) :: pair.name in order
  {
    if items != [] {
      PairsRouted(items[..|items| - 1], route, order);
    }
  }

  /** Every pair belongs to a group that is queried. */
  lemma AskedNames<K>(items: seq<Option<Item<K>>>, route: int -> Option<string>, order: seq<string>)
    requires Usable(items, route)
    requires forall tenantKey :: route(tenantKey).Some? ==> route(tenantKey).value in order
    ensures var pairs := Asked(items, route);
            forall i :: 0 <= i < |pairs| ==> pairs[i].name in Names(pairs, order)
  {
    var pairs := Asked(items, route);
    DedupMembers(Pairs(items, route));
    PairsRouted(items, route, order);
    forall i | 0 <= i < |pairs| ensures pairs[i].name in Names(pairs, order) {
      assert Dedup(Pairs(items, route))[i] in Pairs(items, route);
      assert pairs[i] == Pair(pairs[i].name, pairs[i].key);
      KeysOfMember(pairs, pairs[i].name, pairs[i].key);
      NamesMember(pairs, order, pairs[i].name);
    }
  }

  // The grouped lookup refines one lookup for each key

  /** One query for each pair, one key at a time. */
  function OneByOne<K, R>(pairs: seq<Pair<K>>, query: (string, seq<K>) -> Reply<R>): seq<R> {
    if pairs == [] then []
    else
      var last := pairs[|pairs| - 1];
      OneByOne(pairs[..|pairs| - 1], query) + Present(query(last.name, [last.key]).rows)
  }

  /** The physical query filters by key: it returns only rows with a key it was asked for, and asking for several keys
      returns for each of them what asking for that key alone does. */
  ghost predicate FiltersByKey<K(!new), R>(query: (string, seq<K>) -> Reply<R>, rowKey: R -> K) {
    forall name, keys :: Filters(query, rowKey, name, keys)
  }

  ghost predicate Filters<K, R>(query: (string, seq<K>) -> Reply<R>, rowKey: R -> K, name: string, keys: seq<K>) {
    && !query(name, keys).failed
    && Clean(query(name, keys).rows, rowKey, keys)
    && forall key | key in keys :: RowsWith(query(name, keys).rows, rowKey, key) == Present(query(name, [key]).rows)
  }

  /** For every request, whatever order the shards answer in, the grouped lookup yields the one-key lookups of the
      distinct (replica set, key) pairs in first-occurrence order. */
  lemma RefinesOneByOne<K(!new), R>(items: seq<Option<Item<K>>>, route: int -> Option<string>, order: seq<string>,
                                    inTransaction: bool, query: (string, seq<K>) -> Reply<R>, rowKey: R -> K,
                                    r: Result<seq<R>, LookupFailure>)
    requires Reported(items, route, order, inTransaction, query, rowKey, r)
    requires FiltersByKey(query, rowKey) && Usable(items, route)
    ensures var pairs := Asked(items, route);
            r == if inTransaction && |Names(pairs, order)| > 1 then Err(CrossShardTransaction)
                 else Ok(OneByOne(pairs, query))
  {
    var pairs := Asked(items, route);
    var names, answer := Names(pairs, order), Answer(pairs, query);
    hide Clean, KeysOf, Names, Restored, OneByOne, Asked, RowsWith, Present;
    forall i | 0 <= i < |names|
      ensures !answer(names[i]).failed && Clean(answer(names[i]).rows, rowKey, KeysOf(pairs, names[i]))
    {
      assert Filters(query, rowKey, names[i], KeysOf(pairs, names[i]));
    }
    FilterNone(names, Fails(answer));
    FilterNone(names, Unclean(pairs, answer, rowKey));
    RestoredIsOneByOne(pairs, |pairs|, query, rowKey);
    assert pairs[..|pairs|] == pairs;
  }

  lemma {:induction false} RestoredIsOneByOne<K(!new), R>(pairs: seq<Pair<K>>, n: nat,
                                                          query: (string, seq<K>) -> Reply<R>, rowKey: R -> K)
    requires n <= |pairs| && FiltersByKey(query, rowKey)
    ensures Restored(pairs[..n], RowsOf(Answer(pairs, query)), rowKey) == OneByOne(pairs[..n], query)
  {
    hide KeysOf, RowsWith, Present;
    if n > 0 {
      RestoredIsOneByOne(pairs, n - 1, query, rowKey);
      assert pairs[..n][..n - 1] == pairs[..n - 1];
      var last := pairs[n - 1];
      KeysOfMember(pairs, last.name, last.key);
      assert Filters(query, rowKey, last.name, KeysOf(pairs, last.name));
    }
  }

  // No shard row is lost or duplicated

  function Sum(names: seq<string>, f: string -> nat): nat {
    if names == [] then 0 else Sum(names[..|names| - 1], f) + f(names[|names| - 1])
  }

  lemma {:induction false} SumRemove(names: seq<string>, f: string -> nat, k: nat)
    requires k < |names|
    ensures Sum(names, f) == Sum(names[..k] + names[k + 1..], f) + f(names[k])
  {
    var init, rest := names[..|names| - 1], names[..k] + names[k + 1..];
    if k < |names| - 1 {
      SumRemove(init, f, k);
      assert init[..k] + init[k + 1..] == rest[..|rest| - 1];
    } else {
      assert rest == init;
    }
  }

  lemma {:induction false} SumNone(names: seq<string>, f: string -> nat)
    requires forall i :: 0 <= i < |names| ==> f(names[i]) == 0
    ensures Sum(names, f) == 0
  {
    if names != [] {
      SumNone(names[..|names| - 1], f);
    }
  }

  /** Two lists of names without repetition give the same sum when they agree on the names that weigh something. */
  lemma {:induction false} SumsAgree(a: seq<string>, b: seq<string>, f: string -> nat)
    requires Distinct(a) && Distinct(b)
    requires forall name | f(name) > 0 :: name in a <==> name in b
    ensures Sum(a, f) == Sum(b, f)
  {
    if a == [] {
      SumNone(b, f);
    } else {
      var init, last := a[..|a| - 1], a[|a| - 1];
      assert a == init + [last];
      if f(last) == 0 {
        SumsAgree(init, b, f);
      } else {
        var k :| 0 <= k < |b| && b[k] == last;
        var rest := b[..k] + b[k + 1..];
        SumRemove(b, f, k);
        forall name | f(name) > 0 ensures name in init <==> name in rest {
          assert name in rest <==> name in b && name != last;
        }
        SumsAgree(init, rest, f);
      }
    }
  }

  lemma {:induction false} CountRowsWith<K, R>(rows: seq<Option<R>>, rowKey: R -> K, key: K, row: R)
    ensures Count(RowsWith(rows, rowKey, key), row) == if rowKey(row) == key then Count(Present(rows), row) else 0
  {
    if rows != [] {
      var init, last := rows[..|rows| - 1], rows[|rows| - 1];
      CountRowsWith(init, rowKey, key, row);
      assert RowsWith(init, rowKey, key) + [] == RowsWith(init, rowKey, key) && Present(init) + [] == Present(init);
      if last.Some? {
        CountConcat(RowsWith(init, rowKey, key), [last.value], row);
        CountConcat(Present(init), [last.value], row);
        CountOne(last.value, row);
      }
    }
  }

  /** The replica sets that are asked for one key. */
  function AskedFor<K(==)>(pairs: seq<Pair<K>>, key: K): seq<string> {
    if pairs == [] then []
    else
      var last := pairs[|pairs| - 1];
      AskedFor(pairs[..|pairs| - 1], key) + if last.key == key then [last.name] else []
  }

  lemma {:induction false} AskedForMembers<K>(pairs: seq<Pair<K>>, key: K)
    requires Distinct(pairs)
    ensures forall name: string :: name in AskedFor(pairs, key) <==> Pair(name, key) in pairs
    ensures Distinct(AskedFor(pairs, key))
  {
    if pairs != [] {
      var init, last := pairs[..|pairs| - 1], pairs[|pairs| - 1];
      AskedForMembers(init, key);
      assert pairs == init + [last];
    }
  }

  /** How often a row comes back from one replica set. */
  function Weight<R(==)>(answer: string -> Reply<R>, row: R): string -> nat {
    (name: string) => Count(Present(answer(name).rows), row)
  }

  lemma {:induction false} CountRestored<K, R>(pairs: seq<Pair<K>>, answer: string -> Reply<R>, rowKey: R -> K, row: R)
    ensures Count(Restored(pairs, RowsOf(answer), rowKey), row)
         == Sum(AskedFor(pairs, rowKey(row)), Weight(answer, row))
  {
    hide RowsWith, Present;
    if pairs != [] {
      var init, last := pairs[..|pairs| - 1], pairs[|pairs| - 1];
      CountRestored(init, answer, rowKey, row);
      CountConcat(Restored(init, RowsOf(answer), rowKey), RowsWith(answer(last.name).rows, rowKey, last.key), row);
      CountRowsWith(answer(last.name).rows, rowKey, last.key, row);
      var asked := AskedFor(init, rowKey(row));
      assert asked + [] == asked && (asked + [last.name])[..|asked|] == asked;
    }
  }

  lemma {:induction false} PresentAsked<K, R>(rows: seq<Option<R>>, rowKey: R -> K, keys: seq<K>, row: R)
    requires Clean(rows, rowKey, keys) && Count(Present(rows), row) > 0
    ensures rowKey(row) in keys
  {
    var init, last := rows[..|rows| - 1], rows[|rows| - 1];
    if last.Some? {
      CountConcat(Present(init), [last.value], row);
      CountOne(last.value, row);
    }
    if last != Some(row) {
      PresentAsked(init, rowKey, keys, row);
    }
  }

  lemma {:induction false} NamesDistinct<K>(pairs: seq<Pair<K>>, order: seq<string>)
    requires Distinct(order)
    ensures Distinct(Names(pairs, order))
  {
    hide KeysOf;
    if order != [] {
      var init := order[..|order| - 1];
      NamesDistinct(pairs, init);
      NamesMember(pairs, init, order[|order| - 1]);
    }
  }

  /** A successful lookup returns every row of every shard's answer exactly as often as the shards returned it. */
  lemma NoRowLostOrDuplicated<K, R>(items: seq<Option<Item<K>>>, route: int -> Option<string>, order: seq<string>,
                                    inTransaction: bool, query: (string, seq<K>) -> Reply<R>, rowKey: R -> K,
                                    r: Result<seq<R>, LookupFailure>, row: R)
    requires Distinct(order) && forall tenantKey :: route(tenantKey).Some? ==> route(tenantKey).value in order
    requires Reported(items, route, order, inTransaction, query, rowKey, r) && r.Ok?
    ensures var pairs := Asked(items, route);
            Count(r.value, row) == Sum(Names(pairs, order), Weight(Answer(pairs, query), row))
  {
    var pairs := Asked(items, route);
    var names, answer, key := Names(pairs, order), Answer(pairs, query), rowKey(row);
    hide Restored, KeysOf, Names, RowsWith, Present, Filter, Clean;
    assert forall i :: 0 <= i < |names| ==> Clean(answer(names[i]).rows, rowKey, KeysOf(pairs, names[i])) by {
      AllClean(pairs, names, answer, rowKey);
    }
    DedupMembers(Pairs(items, route));
    CountRestored(pairs, answer, rowKey, row);
    NamesDistinct(pairs, order);
    AskedForMembers(pairs, key);
    AskedNames(items, route, order);
    forall name | Weight(answer, row)(name) > 0 ensures name in AskedFor(pairs, key) <==> name in names {
      KeysOfMember(pairs, name, key);
      if name in names {
        PresentAsked(answer(name).rows, rowKey, KeysOf(pairs, name), row);
      }
    }
    SumsAgree(AskedFor(pairs, key), names, Weight(answer, row));
  }

  lemma AllClean<K, R>(pairs: seq<Pair<K>>, names: seq<string>, answer: string -> Reply<R>, rowKey: R -> K)
    requires Filter(names, Unclean(pairs, answer, rowKey)) == []
    ensures forall i :: 0 <= i < |names| ==> Clean(answer(names[i]).rows, rowKey, KeysOf(pairs, names[i]))
  {
    hide Clean, KeysOf;
    FilterNone(names, Unclean(pairs, answer, rowKey));
    forall i | 0 <= i < |names| ensures Clean(answer(names[i]).rows, rowKey, KeysOf(pairs, names[i])) {
      assert !Unclean(pairs, answer, rowKey)(names[i]);
    }
  }
}
