/** Totals of weighted items filed under an (organization, app) pair, and how they split by key. */
module Totals {

  type Id = string

  /** An (organization, app) pair. */
  type AppKey = (Id, Id)

  datatype Item = Item(key: AppKey, weight: int)

  /** Which items a total takes in. */
  datatype Filter = All | OfOrg(org: Id) | OfApp(key: AppKey) | InOrgs(orgs: set<Id>) | InApps(keys: set<AppKey>)

  predicate Takes(f: Filter, key: AppKey) {
    match f
    case All => true
    case OfOrg(o) => key.0 == o
    case OfApp(k) => key == k
    case InOrgs(orgs) => key.0 in orgs
    case InApps(keys) => key in keys
  }

  function Share(f: Filter, item: Item): int {
    if Takes(f, item.key) then item.weight else 0
  }

  function Total(items: seq<Item>, f: Filter): int {
    if items == [] then 0 else Total(items[..|items| - 1], f) + Share(f, items[|items| - 1])
  }

  lemma TotalSnoc(items: seq<Item>, item: Item, f: Filter)
    ensures Total(items + [item], f) == Total(items, f) + Share(f, item)
  {
    assert (items + [item])[..|items|] == items;
  }

  /** Filters that differ only on weightless items give the same total. */
  lemma {:induction false} TotalAgrees(items: seq<Item>, f: Filter, g: Filter)
    requires forall x | x in items && x.weight != 0 :: Takes(f, x.key) == Takes(g, x.key)
    ensures Total(items, f) == Total(items, g)
  {
    if items == [] {
    } else {
      TotalAgrees(items[..|items| - 1], f, g);
    }
  }

  lemma {:induction false} TotalZero(items: seq<Item>, f: Filter)
    requires forall x | x in items && Takes(f, x.key) :: x.weight == 0
    ensures Total(items, f) == 0
  {
    if items == [] {
    } else {
      TotalZero(items[..|items| - 1], f);
    }
  }

  /** A filter split into two disjoint ones splits the total. */
  lemma {:induction false} TotalSplits(items: seq<Item>, f: Filter, g: Filter, whole: Filter)
    requires forall x | x in items :: Takes(whole, x.key) <==> Takes(f, x.key) || Takes(g, x.key)
    requires forall x | x in items :: !(Takes(f, x.key) && Takes(g, x.key))
    ensures Total(items, whole) == Total(items, f) + Total(items, g)
  {
    if items == [] {
    } else {
      TotalSplits(items[..|items| - 1], f, g, whole);
    }
  }

  ghost predicate Distinct<K>(ks: seq<K>) {
    forall i, j | 0 <= i < j < |ks| :: ks[i] != ks[j]
  }

  function SumOverApps(ks: seq<AppKey>, items: seq<Item>): int {
    if ks == [] then 0 else SumOverApps(ks[..|ks| - 1], items) + Total(items, OfApp(ks[|ks| - 1]))
  }

  function SumOverOrgs(os: seq<Id>, items: seq<Item>): int {
    if os == [] then 0 else SumOverOrgs(os[..|os| - 1], items) + Total(items, OfOrg(os[|os| - 1]))
  }

  lemma {:induction false} AppsAddUp(ks: seq<AppKey>, items: seq<Item>)
    requires Distinct(ks)
    ensures SumOverApps(ks, items) == Total(items, InApps(set k | k in ks))
  {
    if ks == [] {
      assert (set k | k in ks) == {};
      TotalZero(items, InApps({}));
    } else {
      var front, k := ks[..|ks| - 1], ks[|ks| - 1];
      AppsAddUp(front, items);
      assert ks == front + [k];
      TotalSplits(items, InApps(set c | c in front), OfApp(k), InApps(set c | c in ks));
    }
  }

  lemma {:induction false} OrgsAddUp(os: seq<Id>, items: seq<Item>)
    requires Distinct(os)
    ensures SumOverOrgs(os, items) == Total(items, InOrgs(set o | o in os))
  {
    if os == [] {
      assert (set o | o in os) == {};
      TotalZero(items, InOrgs({}));
    } else {
      var front, o := os[..|os| - 1], os[|os| - 1];
      OrgsAddUp(front, items);
      assert os == front + [o];
      TotalSplits(items, InOrgs(set c | c in front), OfOrg(o), InOrgs(set c | c in os));
    }
  }
}
