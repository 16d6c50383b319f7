/**
 * The helpers that the templates of gui/server.go call: running balances
 * of a list of flows, and the book's accounts ordered by type and name.
 */
module Gui {
  import opened Wrappers
  import opened Amounts
  import opened Sorting
  import L = Ledger

  type GUID = L.GUID

  /**
   * cumulFlows: one new amount per flow, holding the running total up to
   * and including that flow. Each entry is a copy made by SetRat, so adding
   * later flows to the accumulator leaves the earlier entries alone.
   */
  method CumulFlows(flows: seq<L.Flow>) returns (bals: seq<Amount>)
    ensures |bals| == |flows|
    ensures forall i :: 0 <= i < |flows| ==> Value(bals[i].rat) == L.PriceTotal(flows[..i + 1])
    ensures |flows| > 0 ==> Value(bals[|flows| - 1].rat) == L.PriceTotal(flows)
    ensures forall i, j :: 0 <= i < j < |bals| ==> bals[i] != bals[j]
    ensures forall i :: 0 <= i < |bals| ==> fresh(bals[i])
  {
    var x := new Amount();
    bals := [];
    for i := 0 to |flows|
      invariant fresh(x) && |bals| == i
      invariant Value(x.rat) == L.PriceTotal(flows[..i])
      invariant forall k :: 0 <= k < i ==> fresh(bals[k]) && bals[k] != x
      invariant forall k :: 0 <= k < i ==> Value(bals[k].rat) == L.PriceTotal(flows[..k + 1])
      invariant forall k, l :: 0 <= k < l < i ==> bals[k] != bals[l]
    {
      assert flows[..i + 1][..i] == flows[..i];
      x := x.Add(flows[i].price);
      var b := new Amount();
      b := b.SetRat(x.rat);
      bals := bals + [b];
    }
    if |flows| > 0 {
      assert flows[..|flows|] == flows;
    }
  }

  /** Go's string comparison a < b: lexicographic, a proper prefix first. */
  predicate StrLess(a: string, b: string)
  {
    if a == [] then b != []
    else b != [] && (a[0] < b[0] || (a[0] == b[0] && StrLess(a[1..], b[1..])))
  }

  lemma {:induction false} StrLessIrreflexive(a: string)
    ensures !StrLess(a, a)
  {
    if a != [] {
      StrLessIrreflexive(a[1..]);
    }
  }

  lemma {:induction false} StrLessTransitive(a: string, b: string, c: string)
    requires StrLess(a, b) && StrLess(b, c)
    ensures StrLess(a, c)
  {
    if a != [] && a[0] == b[0] && b[0] == c[0] {
      StrLessTransitive(a[1..], b[1..], c[1..]);
    }
  }

  lemma {:induction false} StrLessTotal(a: string, b: string)
    requires a != b
    ensures StrLess(a, b) || StrLess(b, a)
  {
    if a != [] && b != [] && a[0] == b[0] {
      assert a == [a[0]] + a[1..] && b == [b[0]] + b[1..];
      StrLessTotal(a[1..], b[1..]);
    }
  }

  /** byTypeAndName.Less: by Type, then by Name. */
  predicate AccountLess(x: L.Account, y: L.Account)
  {
    if x.typ != y.typ then StrLess(x.typ, y.typ) else StrLess(x.name, y.name)
  }

  /** AccountLess is a strict order that compares any two accounts of different type or name. */
  lemma AccountLessOrder(x: L.Account, y: L.Account, z: L.Account)
    ensures !AccountLess(x, x)
    ensures AccountLess(x, y) && AccountLess(y, z) ==> AccountLess(x, z)
    ensures (x.typ, x.name) != (y.typ, y.name) ==> AccountLess(x, y) || AccountLess(y, x)
    ensures !(AccountLess(x, y) && AccountLess(y, x))
  {
    StrLessIrreflexive(x.name);
    if AccountLess(x, y) && AccountLess(y, z) {
      if x.typ != y.typ && y.typ != z.typ {
        StrLessTransitive(x.typ, y.typ, z.typ);
        if x.typ == z.typ {
          StrLessIrreflexive(x.typ);
        }
      } else if x.typ == y.typ && y.typ == z.typ {
        StrLessTransitive(x.name, y.name, z.name);
      }
    }
    if x.typ != y.typ {
      StrLessTotal(x.typ, y.typ);
    } else if x.name != y.name {
      StrLessTotal(x.name, y.name);
    }
    if AccountLess(x, y) && AccountLess(y, x) {
      if x.typ != y.typ {
        StrLessTransitive(x.typ, y.typ, x.typ);
        StrLessIrreflexive(x.typ);
      } else {
        StrLessTransitive(x.name, y.name, x.name);
        StrLessIrreflexive(x.name);
      }
    }
  }

  /** The account a key stands for (an absent key has none and sorts as an empty account). */
  function AccountOf(accounts: map<GUID, L.Account>, g: GUID): L.Account
  {
    if g in accounts then accounts[g] else L.Account("", "", "", "", 0, "", None, [])
  }

  /** The order sort.Sort produces for byTypeAndName: g before h unless h's account is less. */
  function ByTypeAndName(accounts: map<GUID, L.Account>): (GUID, GUID) -> bool
  {
    (g: GUID, h: GUID) => !AccountLess(AccountOf(accounts, h), AccountOf(accounts, g))
  }

  lemma ByTypeAndNameIsTotal(accounts: map<GUID, L.Account>)
    ensures TotalPreorder(ByTypeAndName(accounts))
  {
    var le := ByTypeAndName(accounts);
    forall g, h ensures le(g, h) || le(h, g) {
      AccountLessOrder(AccountOf(accounts, g), AccountOf(accounts, h), AccountOf(accounts, g));
    }
    forall g, h, k | le(g, h) && le(h, k) ensures le(g, k) {
      var x, y, z := AccountOf(accounts, g), AccountOf(accounts, h), AccountOf(accounts, k);
      AccountLessOrder(z, y, x);
      AccountLessOrder(z, x, y);
      AccountLessOrder(y, z, x);
      AccountLessOrder(x, z, y);
      AccountLessOrder(x, y, z);
    }
  }

  /** The first loop of sortAccts: every account of the book once, in map order. */
  method AccountList(accounts: map<GUID, L.Account>) returns (ids: seq<GUID>)
    ensures Distinct(ids)
    ensures forall g :: g in ids <==> g in accounts
  {
    ids := [];
    var todo := accounts.Keys;
    while todo != {}
      invariant todo <= accounts.Keys
      invariant forall g :: g in ids <==> g in accounts && g !in todo
      invariant forall i, j :: 0 <= i < j < |ids| ==> ids[i] != ids[j]
      decreases todo
    {
      var g :| g in todo;
      ids := ids + [g];
      todo := todo - {g};
    }
  }

  /**
   * sortAccts: the book's accounts, each once, ordered by type and then by
   * name. Accounts are named by their keys in the book.
   */
  method SortAccts(b: L.Book) returns (ids: seq<GUID>)
    ensures Distinct(ids)
    ensures forall g :: g in ids <==> g in b.accounts
    ensures |ids| == |b.accounts|
    ensures forall i, j :: 0 <= i < j < |ids| ==> !AccountLess(b.accounts[ids[j]], b.accounts[ids[i]])
  {
    var accts := AccountList(b.accounts);
    ByTypeAndNameIsTotal(b.accounts);
    ids := SortSeq(accts, ByTypeAndName(b.accounts));
    DistinctPermutation(accts, ids);
    CardinalityOfKeys(ids, b.accounts);
  }

  /** A list of distinct keys that holds every key of a map is as long as the map. */
  lemma {:induction false} CardinalityOfKeys(ids: seq<GUID>, m: map<GUID, L.Account>)
    requires Distinct(ids)
    requires forall g :: g in ids <==> g in m
    ensures |ids| == |m|
  {
    if ids == [] {
      assert m.Keys == {};
    } else {
      var g := ids[|ids| - 1];
      var init := ids[..|ids| - 1];
      var m' := map k | k in m && k != g :: m[k];
      assert m'.Keys == m.Keys - {g};
      assert forall k :: k in init <==> k in ids && k != g;
      CardinalityOfKeys(init, m');
    }
  }

  /**
   * Read back as the source states it: types non-decreasing, and within a
   * type, names non-decreasing.
   */
  lemma SortedByTypeThenName(accounts: map<GUID, L.Account>, ids: seq<GUID>)
    requires forall g :: g in ids ==> g in accounts
    requires forall i, j :: 0 <= i < j < |ids| ==> !AccountLess(accounts[ids[j]], accounts[ids[i]])
    ensures forall i, j :: 0 <= i < j < |ids| ==>
      accounts[ids[i]].typ == accounts[ids[j]].typ || StrLess(accounts[ids[i]].typ, accounts[ids[j]].typ)
    ensures forall i, j :: 0 <= i < j < |ids| && accounts[ids[i]].typ == accounts[ids[j]].typ ==>
      accounts[ids[i]].name == accounts[ids[j]].name || StrLess(accounts[ids[i]].name, accounts[ids[j]].name)
  {
    forall i, j | 0 <= i < j < |ids|
      ensures accounts[ids[i]].typ == accounts[ids[j]].typ || StrLess(accounts[ids[i]].typ, accounts[ids[j]].typ)
      ensures accounts[ids[i]].typ == accounts[ids[j]].typ ==>
        accounts[ids[i]].name == accounts[ids[j]].name || StrLess(accounts[ids[i]].name, accounts[ids[j]].name)
    {
      var x, y := accounts[ids[i]], accounts[ids[j]];
      if x.typ != y.typ {
        StrLessTotal(x.typ, y.typ);
      } else if x.name != y.name {
        StrLessTotal(x.name, y.name);
      }
    }
  }
}
