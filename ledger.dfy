/**
 * The accounting book of types/types.go: accounts, transactions split into
 * flows, and the derived per-account flow lists and balances that
 * Book.Recompute fills in.
 *
 * Go addresses are modelled by keys: a flow names its account by the account's
 * key in the book, a flow list holds FlowRef(t, i) for &Transactions[t].Flows[i],
 * and a flow's Parent is the key of its transaction. Instants are integers
 * (nanoseconds); an absent instant (Go's zero time.Time) is None.
 */
module Ledger {
  import opened Wrappers
  import opened Amounts
  import opened Sorting
  import opened Sums
  import Guid

  type GUID = Guid.GUID

  datatype Account = Account(
    id: GUID,
    name: string,          // a slash separated hierarchy of words
    typ: string,           // BANK, EXPENSE, INCOME, ASSET, CASH
    unit: string,
    denom: int,
    description: string,
    lastReconcile: Option<int>,
    children: seq<GUID>)

  /** A part of a split transaction: positive for a debit, negative for a credit. */
  datatype Flow = Flow(
    id: GUID,
    memo: string,
    account: GUID,
    price: Rat,
    reconciled: bool,
    reconciledTime: Option<int>,
    parent: Option<GUID>)

  datatype Transaction = Transaction(
    id: GUID,
    date: int,             // the value date
    stamp: int,            // when the transaction was entered
    description: string,
    notes: string,
    number: string,
    flows: seq<Flow>)

  /** The address of the index-th flow of the transaction stored under tx. */
  datatype FlowRef = FlowRef(tx: GUID, index: nat)

  function FlowValue(f: Flow): real
  {
    Value(f.price)
  }

  /** The exact sum of the prices of a list of flows. */
  function PriceTotal(flows: seq<Flow>): real
  {
    SeqSum(flows, FlowValue)
  }

  predicate ValidRef(txs: map<GUID, Transaction>, r: FlowRef)
  {
    r.tx in txs && r.index < |txs[r.tx].flows|
  }

  function Deref(txs: map<GUID, Transaction>, r: FlowRef): Flow
    requires ValidRef(txs, r)
  {
    txs[r.tx].flows[r.index]
  }

  /** The price of the flow r points to (0 for a dangling reference). */
  function RefValue(txs: map<GUID, Transaction>, r: FlowRef): real
  {
    if ValidRef(txs, r) then FlowValue(Deref(txs, r)) else 0.0
  }

  function Weight(txs: map<GUID, Transaction>): FlowRef -> real
  {
    r => RefValue(txs, r)
  }

  /** Every flow of every transaction. */
  ghost function AllRefs(txs: map<GUID, Transaction>): (R: set<FlowRef>)
    ensures forall r :: r in R <==> ValidRef(txs, r)
  {
    set t, i | t in txs.Keys && 0 <= i < |txs[t].flows| :: FlowRef(t, i)
  }

  /** The flows, across all transactions, that belong to account a. */
  ghost function RefsOf(txs: map<GUID, Transaction>, a: GUID): (R: set<FlowRef>)
    ensures forall r :: r in R <==> ValidRef(txs, r) && Deref(txs, r).account == a
  {
    set r | r in AllRefs(txs) && Deref(txs, r).account == a
  }

  /** The flows that refs point to, in order. */
  function DerefAll(txs: map<GUID, Transaction>, refs: seq<FlowRef>): (fs: seq<Flow>)
    requires forall r :: r in refs ==> ValidRef(txs, r)
    ensures |fs| == |refs|
    ensures forall i :: 0 <= i < |refs| ==> fs[i] == Deref(txs, refs[i])
  {
    seq(|refs|, i requires 0 <= i < |refs| => Deref(txs, refs[i]))
  }

  lemma {:induction false} DerefTotal(txs: map<GUID, Transaction>, refs: seq<FlowRef>)
    requires forall r :: r in refs ==> ValidRef(txs, r)
    ensures PriceTotal(DerefAll(txs, refs)) == SeqSum(refs, Weight(txs))
    decreases |refs|
  {
    if refs != [] {
      var init := refs[..|refs| - 1];
      assert DerefAll(txs, refs)[..|refs| - 1] == DerefAll(txs, init);
      DerefTotal(txs, init);
    }
  }

  /** The transaction stored under t with every flow's Parent pointing back to t. */
  function Adopt(t: GUID, trn: Transaction): (r: Transaction)
    ensures r.(flows := trn.flows) == trn
    ensures |r.flows| == |trn.flows|
    ensures forall i :: 0 <= i < |trn.flows| ==> r.flows[i] == trn.flows[i].(parent := Some(t))
  {
    trn.(flows := seq(|trn.flows|, i requires 0 <= i < |trn.flows| => trn.flows[i].(parent := Some(t))))
  }

  /** All transactions with their flows' Parent back-references written. */
  function WithParents(txs: map<GUID, Transaction>): (r: map<GUID, Transaction>)
    ensures r.Keys == txs.Keys
    ensures forall t :: t in r ==> r[t] == Adopt(t, txs[t])
  {
    map t | t in txs :: Adopt(t, txs[t])
  }

  /** Writing the back-references a second time changes nothing. */
  lemma WithParentsIdempotent(txs: map<GUID, Transaction>)
    ensures WithParents(WithParents(txs)) == WithParents(txs)
  {
    var once := WithParents(txs);
    forall t | t in once
      ensures Adopt(t, once[t]) == once[t]
    {
      assert Adopt(t, once[t]).flows == once[t].flows;
    }
  }

  /** After the back-references are written, each flow's Parent is the transaction holding it. */
  lemma ParentIsContainer(txs: map<GUID, Transaction>, r: FlowRef)
    requires ValidRef(WithParents(txs), r)
    ensures Deref(WithParents(txs), r).parent == Some(r.tx)
    ensures Deref(WithParents(txs), r).(parent := None) == Deref(txs, r).(parent := None)
  {
  }

  /** Writing Parent moves no flow to another account and changes no price. */
  lemma WithParentsKeepsFlows(txs: map<GUID, Transaction>, a: GUID)
    ensures RefsOf(WithParents(txs), a) == RefsOf(txs, a)
    ensures AllRefs(WithParents(txs)) == AllRefs(txs)
    ensures forall r :: RefValue(WithParents(txs), r) == RefValue(txs, r)
  {
  }

  /** Parent.Date of the flow r points to (0 if it has no parent). */
  function ParentDate(txs: map<GUID, Transaction>, r: FlowRef): int
  {
    if ValidRef(txs, r) && Deref(txs, r).parent.Some? && Deref(txs, r).parent.value in txs
    then txs[Deref(txs, r).parent.value].date
    else 0
  }

  /**
   * flowsByDate order: r comes before s unless s's parent date is before
   * r's (Less is Parent.Date.Before).
   */
  function ByDate(txs: map<GUID, Transaction>): (FlowRef, FlowRef) -> bool
  {
    (r: FlowRef, s: FlowRef) => ParentDate(txs, r) <= ParentDate(txs, s)
  }

  lemma ByDateIsTotal(txs: map<GUID, Transaction>)
    ensures TotalPreorder(ByDate(txs))
  {
  }

  /** Once Parent is written, the sort key of a flow is its own transaction's date. */
  lemma ParentDateIsDate(txs: map<GUID, Transaction>, r: FlowRef)
    requires ValidRef(txs, r)
    ensures ParentDate(WithParents(txs), r) == txs[r.tx].date
  {
  }

  /**
   * What sortFlows promises of its result: exactly the accounts that have
   * flows get a list, and each list holds every flow of that account once.
   */
  ghost predicate Buckets(txs: map<GUID, Transaction>, fl: map<GUID, seq<FlowRef>>)
  {
    (forall a :: a in fl <==> RefsOf(txs, a) != {}) &&
    (forall a :: a in fl ==> multiset(fl[a]) == multiset(RefsOf(txs, a)))
  }

  /** sumFlows: adds up the prices into a fresh amount, which starts at zero. */
  method SumFlows(flows: seq<Flow>) returns (total: Rat)
    ensures Value(total) == PriceTotal(flows)
    ensures flows == [] ==> total == Zero
  {
    var acc := new Amount();
    for i := 0 to |flows|
      invariant Value(acc.rat) == PriceTotal(flows[..i])
      invariant i == 0 ==> acc.rat == Zero
      invariant fresh(acc)
    {
      assert flows[..i + 1][..i] == flows[..i];
      acc := acc.Add(flows[i].price);
    }
    assert flows[..|flows|] == flows;
    total := acc.rat;
  }

  /**
   * The flows of account a met so far by sortFlows: those of the
   * transactions in done, and the first i flows of transaction it.
   */
  ghost function Seen(txs: map<GUID, Transaction>, done: set<GUID>, it: GUID, i: int, a: GUID): (R: set<FlowRef>)
    ensures R <= RefsOf(txs, a)
  {
    set r | r in RefsOf(txs, a) && (r.tx in done || (r.tx == it && r.index < i))
  }

  lemma SeenNothing(txs: map<GUID, Transaction>, it: GUID, a: GUID)
    ensures Seen(txs, {}, it, 0, a) == {}
  {
  }

  lemma SeenAll(txs: map<GUID, Transaction>, it: GUID, a: GUID)
    ensures Seen(txs, txs.Keys, it, 0, a) == RefsOf(txs, a)
  {
  }

  /** Meeting flow i of transaction it adds it to its own account's list only. */
  lemma SeenStep(txs: map<GUID, Transaction>, done: set<GUID>, it: GUID, i: nat, a: GUID)
    requires it in txs && it !in done && i < |txs[it].flows|
    ensures FlowRef(it, i) !in Seen(txs, done, it, i, a)
    ensures Seen(txs, done, it, i + 1, a) ==
      Seen(txs, done, it, i, a) + (if txs[it].flows[i].account == a then {FlowRef(it, i)} else {})
  {
  }

  /** Having met every flow of it is having finished it. */
  lemma SeenFinish(txs: map<GUID, Transaction>, done: set<GUID>, it: GUID, other: GUID, a: GUID)
    requires it in txs
    ensures Seen(txs, done, it, |txs[it].flows|, a) == Seen(txs, done + {it}, other, 0, a)
  {
  }

  lemma MultisetAddNew<T>(s: seq<T>, S: set<T>, x: T)
    requires multiset(s) == multiset(S) && x !in S
    ensures multiset(s + [x]) == multiset(S + {x})
  {
    assert multiset(S + {x}) == multiset(S) + multiset{x};
  }

  lemma InMultiset<T>(s: seq<T>, S: set<T>)
    requires multiset(s) == multiset(S)
    ensures forall x :: x in s <==> x in S
  {
    forall x
      ensures x in s <==> x in S
    {
      assert x in s <==> x in multiset(s);
      assert x in S <==> x in multiset(S);
    }
  }

  /** The state of sortFlows after the transactions in done: lists so far. */
  ghost predicate Collected(txs: map<GUID, Transaction>, done: set<GUID>, it: GUID, i: int, fl: map<GUID, seq<FlowRef>>)
  {
    (forall a :: a in fl <==> Seen(txs, done, it, i, a) != {}) &&
    (forall a :: a in fl ==> multiset(fl[a]) == multiset(Seen(txs, done, it, i, a)))
  }

  /**
   * The inner loop of sortFlows for transaction it: appends &Flows[i] to the
   * list of its account and writes its Parent, for every i in order.
   */
  method AdoptFlows(txs: map<GUID, Transaction>, ghost done: set<GUID>, it: GUID, trn: Transaction,
                    fl0: map<GUID, seq<FlowRef>>) returns (adopted: Transaction, fl: map<GUID, seq<FlowRef>>)
    requires it in txs && it !in done && trn == txs[it]
    requires Collected(txs, done, it, 0, fl0)
    ensures adopted == Adopt(it, trn)
    ensures Collected(txs, done, it, |trn.flows|, fl)
  {
    adopted := trn;
    fl := fl0;
    var n := |trn.flows|;
    for i := 0 to n
      invariant |adopted.flows| == n && adopted.(flows := trn.flows) == trn
      invariant forall j :: 0 <= j < i ==> adopted.flows[j] == trn.flows[j].(parent := Some(it))
      invariant forall j :: i <= j < n ==> adopted.flows[j] == trn.flows[j]
      invariant Collected(txs, done, it, i, fl)
    {
      var f := adopted.flows[i];
      var prev := if f.account in fl then fl[f.account] else [];
      CollectedStep(txs, done, it, i, fl);
      fl := fl[f.account := prev + [FlowRef(it, i)]];
      adopted := adopted.(flows := adopted.flows[i := f.(parent := Some(it))]);
    }
  }

  /** Appending flow i of transaction it to its account's list keeps the lists collected. */
  lemma CollectedStep(txs: map<GUID, Transaction>, done: set<GUID>, it: GUID, i: nat, fl: map<GUID, seq<FlowRef>>)
    requires it in txs && it !in done && i < |txs[it].flows|
    requires Collected(txs, done, it, i, fl)
    ensures var a := txs[it].flows[i].account;
      Collected(txs, done, it, i + 1, fl[a := (if a in fl then fl[a] else []) + [FlowRef(it, i)]])
  {
    var a := txs[it].flows[i].account;
    var prev := if a in fl then fl[a] else [];
    var fl' := fl[a := prev + [FlowRef(it, i)]];
    forall b
      ensures b in fl' <==> Seen(txs, done, it, i + 1, b) != {}
      ensures b in fl' ==> multiset(fl'[b]) == multiset(Seen(txs, done, it, i + 1, b))
    {
      SeenStep(txs, done, it, i, b);
      if b == a {
        MultisetAddNew(prev, Seen(txs, done, it, i, a), FlowRef(it, i));
      }
    }
  }

  lemma CollectedStart(txs: map<GUID, Transaction>)
    ensures Collected(txs, {}, "", 0, map[])
  {
    forall a ensures Seen(txs, {}, "", 0, a) == {} { SeenNothing(txs, "", a); }
  }

  lemma CollectedEnter(txs: map<GUID, Transaction>, done: set<GUID>, it: GUID, fl: map<GUID, seq<FlowRef>>)
    requires Collected(txs, done, "", 0, fl)
    ensures Collected(txs, done, it, 0, fl)
  {
    forall a ensures Seen(txs, done, it, 0, a) == Seen(txs, done, "", 0, a) { }
  }

  lemma CollectedLeave(txs: map<GUID, Transaction>, done: set<GUID>, it: GUID, fl: map<GUID, seq<FlowRef>>)
    requires it in txs && Collected(txs, done, it, |txs[it].flows|, fl)
    ensures Collected(txs, done + {it}, "", 0, fl)
  {
    forall a ensures Seen(txs, done, it, |txs[it].flows|, a) == Seen(txs, done + {it}, "", 0, a) {
      SeenFinish(txs, done, it, "", a);
    }
  }

  lemma CollectedAll(txs: map<GUID, Transaction>, fl: map<GUID, seq<FlowRef>>)
    requires Collected(txs, txs.Keys, "", 0, fl)
    ensures Buckets(WithParents(txs), fl)
  {
    forall a ensures Seen(txs, txs.Keys, "", 0, a) == RefsOf(WithParents(txs), a) {
      SeenAll(txs, "", a);
      WithParentsKeepsFlows(txs, a);
    }
  }

  /**
   * The outer loop of sortFlows: every transaction, in any order (Go's map
   * order), has its flows listed and adopted.
   */
  method CollectFlows(txs: map<GUID, Transaction>) returns (out: map<GUID, Transaction>, fl: map<GUID, seq<FlowRef>>)
    ensures out == WithParents(txs)
    ensures Buckets(out, fl)
  {
    out := txs;
    fl := map[];
    var todo := txs.Keys;
    CollectedStart(txs);
    while todo != {}
      invariant todo <= txs.Keys && out.Keys == txs.Keys
      invariant forall t :: t in txs.Keys - todo ==> out[t] == Adopt(t, txs[t])
      invariant forall t :: t in todo ==> out[t] == txs[t]
      invariant Collected(txs, txs.Keys - todo, "", 0, fl)
      decreases todo
    {
      var it :| it in todo;
      ghost var done := txs.Keys - todo;
      CollectedEnter(txs, done, it, fl);
      var adopted;
      adopted, fl := AdoptFlows(txs, done, it, out[it], fl);
      out := out[it := adopted];
      CollectedLeave(txs, done, it, fl);
      todo := todo - {it};
      assert txs.Keys - todo == done + {it};
    }
    assert txs.Keys - todo == txs.Keys;
    CollectedAll(txs, fl);
  }

  /** The final loop of sortFlows: sort.Sort(flowsByDate(list)) for every list. */
  method SortBuckets(fl0: map<GUID, seq<FlowRef>>, txs: map<GUID, Transaction>) returns (fl: map<GUID, seq<FlowRef>>)
    ensures fl.Keys == fl0.Keys
    ensures forall a :: a in fl ==> multiset(fl[a]) == multiset(fl0[a])
    ensures forall a :: a in fl ==> SortedBy(fl[a], ByDate(txs))
  {
    ByDateIsTotal(txs);
    fl := fl0;
    var keys := fl.Keys;
    while keys != {}
      invariant keys <= fl.Keys && fl.Keys == fl0.Keys
      invariant forall a :: a in fl ==> multiset(fl[a]) == multiset(fl0[a])
      invariant forall a :: a in fl && a !in keys ==> SortedBy(fl[a], ByDate(txs))
      decreases keys
    {
      var a :| a in keys;
      var sorted := SortSeq(fl[a], ByDate(txs));
      fl := fl[a := sorted];
      keys := keys - {a};
    }
  }

  /** An accounting book; Balance and Flows are computed by Recompute. */
  class Book {
    var accounts: map<GUID, Account>
    var transactions: map<GUID, Transaction>
    var balance: map<GUID, Rat>
    var flows: map<GUID, seq<FlowRef>>

    constructor (accounts: map<GUID, Account>, transactions: map<GUID, Transaction>)
      ensures this.accounts == accounts && this.transactions == transactions
      ensures balance == map[] && flows == map[]
    {
      this.accounts := accounts;
      this.transactions := transactions;
      balance := map[];
      flows := map[];
    }

    /**
     * sortFlows: lists the flows of every transaction under their account,
     * writes each flow's Parent, then sorts every list by parent date.
     */
    method SortFlows() returns (fl: map<GUID, seq<FlowRef>>)
      modifies this
      ensures accounts == old(accounts) && balance == old(balance) && flows == old(flows)
      ensures transactions == WithParents(old(transactions))
      ensures Buckets(transactions, fl)
      ensures forall a :: a in fl ==> SortedBy(fl[a], ByDate(transactions))
    {
      var out, collected := CollectFlows(transactions);
      fl := SortBuckets(collected, out);
      transactions := out;
    }

    /**
     * Recompute: fills Flows by sortFlows, then Balance with the sum of the
     * flows of every account of the book (zero for one without flows).
     */
    method Recompute()
      modifies this
      ensures accounts == old(accounts)
      ensures transactions == WithParents(old(transactions))
      ensures Buckets(transactions, flows)
      ensures forall a :: a in flows ==> SortedBy(flows[a], ByDate(transactions))
      ensures balance.Keys == accounts.Keys
      ensures forall a :: a in balance ==> Value(balance[a]) == SetSum(RefsOf(transactions, a), Weight(transactions))
    {
      var fl := SortFlows();
      flows := fl;
      balance := Balances(accounts, transactions, fl);
    }
  }

  /** The balance loop of Recompute: sumFlows of every account's list. */
  method Balances(accounts: map<GUID, Account>, txs: map<GUID, Transaction>, fl: map<GUID, seq<FlowRef>>)
    returns (bal: map<GUID, Rat>)
    requires Buckets(txs, fl)
    ensures bal.Keys == accounts.Keys
    ensures forall a :: a in bal ==> Value(bal[a]) == SetSum(RefsOf(txs, a), Weight(txs))
  {
    bal := map[];
    var todo := accounts.Keys;
    while todo != {}
      invariant todo <= accounts.Keys
      invariant bal.Keys == accounts.Keys - todo
      invariant forall a :: a in bal ==> Value(bal[a]) == SetSum(RefsOf(txs, a), Weight(txs))
      decreases todo
    {
      var a :| a in todo;
      var total := AccountBalance(txs, fl, a);
      bal := bal[a := total];
      todo := todo - {a};
    }
  }

  /** sumFlows of one account's list (an account without flows has an empty list). */
  method AccountBalance(txs: map<GUID, Transaction>, fl: map<GUID, seq<FlowRef>>, a: GUID) returns (total: Rat)
    requires Buckets(txs, fl)
    ensures Value(total) == SetSum(RefsOf(txs, a), Weight(txs))
  {
    var s := if a in fl then fl[a] else [];
    assert multiset(s) == multiset(RefsOf(txs, a));
    InMultiset(s, RefsOf(txs, a));
    total := SumFlows(DerefAll(txs, s));
    DerefTotal(txs, s);
    SeqSumOfSet(s, RefsOf(txs, a), Weight(txs));
  }

  /**
   * Recompute a second time: the book again meets Recompute's contract, with
   * the same transactions and balance values as after one call; flows of the
   * same date may come in another order.
   */
  method RecomputeTwice(book: Book)
    modifies book
    ensures book.accounts == old(book.accounts)
    ensures book.transactions == WithParents(old(book.transactions))
    ensures Buckets(book.transactions, book.flows)
    ensures forall a :: a in book.flows ==> SortedBy(book.flows[a], ByDate(book.transactions))
    ensures book.balance.Keys == book.accounts.Keys
    ensures forall a :: a in book.balance ==>
      Value(book.balance[a]) == SetSum(RefsOf(WithParents(old(book.transactions)), a), Weight(WithParents(old(book.transactions))))
  {
    book.Recompute();
    WithParentsIdempotent(old(book.transactions));
    book.Recompute();
  }

  function TxKey(r: FlowRef): GUID
  {
    r.tx
  }

  function AccountKey(txs: map<GUID, Transaction>): FlowRef -> GUID
  {
    r => if ValidRef(txs, r) then Deref(txs, r).account else ""
  }

  function BalanceValue(balance: map<GUID, Rat>): GUID -> real
  {
    a => if a in balance then Value(balance[a]) else 0.0
  }

  /** The first m flows of transaction t. */
  ghost function FirstRefs(t: GUID, m: nat): (R: set<FlowRef>)
    ensures forall r :: r in R <==> r.tx == t && r.index < m
  {
    set i | 0 <= i < m :: FlowRef(t, i)
  }

  lemma {:induction false} FirstRefsTotal(txs: map<GUID, Transaction>, t: GUID, m: nat)
    requires t in txs && m <= |txs[t].flows|
    ensures SetSum(FirstRefs(t, m), Weight(txs)) == PriceTotal(txs[t].flows[..m])
  {
    var fs := txs[t].flows;
    if m == 0 {
      assert FirstRefs(t, 0) == {};
    } else {
      FirstRefsTotal(txs, t, m - 1);
      assert FirstRefs(t, m) - {FlowRef(t, m - 1)} == FirstRefs(t, m - 1);
      SetSumRemove(FirstRefs(t, m), FlowRef(t, m - 1), Weight(txs));
      assert fs[..m][..m - 1] == fs[..m - 1];
    }
  }

  /** The flows of one transaction sum to the total of its prices. */
  lemma TransactionTotal(txs: map<GUID, Transaction>, t: GUID)
    requires t in txs
    ensures SetSum(Filter(AllRefs(txs), TxKey, t), Weight(txs)) == PriceTotal(txs[t].flows)
  {
    assert Filter(AllRefs(txs), TxKey, t) == FirstRefs(t, |txs[t].flows|);
    FirstRefsTotal(txs, t, |txs[t].flows|);
    assert txs[t].flows[..|txs[t].flows|] == txs[t].flows;
  }

  /** Grouped by account, the flows of the book sum to the sum of the balances. */
  lemma {:induction false} BalancesAreGroups(accounts: map<GUID, Account>, txs: map<GUID, Transaction>, balance: map<GUID, Rat>)
    requires forall r :: r in AllRefs(txs) ==> Deref(txs, r).account in accounts
    requires balance.Keys == accounts.Keys
    requires forall a :: a in balance ==> Value(balance[a]) == SetSum(RefsOf(txs, a), Weight(txs))
    ensures SetSum(balance.Keys, BalanceValue(balance)) == SetSum(AllRefs(txs), Weight(txs))
  {
    var all := AllRefs(txs);
    var w := Weight(txs);
    Partition(all, balance.Keys, AccountKey(txs), w);
    var byAccount := k => SetSum(Filter(all, AccountKey(txs), k), w);
    forall a | a in balance.Keys
      ensures byAccount(a) == BalanceValue(balance)(a)
    {
      FilterIsRefs(txs, a);
    }
    SetSumExt(balance.Keys, byAccount, BalanceValue(balance));
  }

  lemma FilterIsRefs(txs: map<GUID, Transaction>, a: GUID)
    ensures Filter(AllRefs(txs), AccountKey(txs), a) == RefsOf(txs, a)
  {
  }

  /** Grouped by transaction, the flows of balanced transactions sum to zero. */
  lemma {:induction false} BalancedTransactions(txs: map<GUID, Transaction>)
    requires forall t :: t in txs ==> PriceTotal(txs[t].flows) == 0.0
    ensures SetSum(AllRefs(txs), Weight(txs)) == 0.0
  {
    var all := AllRefs(txs);
    var w := Weight(txs);
    Partition(all, txs.Keys, TxKey, w);
    var byTransaction := t => SetSum(Filter(all, TxKey, t), w);
    forall t | t in txs.Keys
      ensures byTransaction(t) == 0.0
    {
      TransactionTotal(txs, t);
    }
    SetSumZero(txs.Keys, byTransaction);
  }

  /**
   * Double-entry bookkeeping: when every transaction balances and every
   * flow belongs to an account of the book, the balances Recompute stores
   * add up to zero.
   */
  lemma {:induction false} BalancesSumToZero(accounts: map<GUID, Account>, txs: map<GUID, Transaction>, balance: map<GUID, Rat>)
    requires forall t :: t in txs ==> PriceTotal(txs[t].flows) == 0.0
    requires forall r :: r in AllRefs(txs) ==> Deref(txs, r).account in accounts
    requires balance.Keys == accounts.Keys
    requires forall a :: a in balance ==> Value(balance[a]) == SetSum(RefsOf(txs, a), Weight(txs))
    ensures SetSum(balance.Keys, BalanceValue(balance)) == 0.0
  {
    BalancesAreGroups(accounts, txs, balance);
    BalancedTransactions(txs);
  }
}
