/**
 * The aggregation the Dashboard component (src/components/Dashboard.tsx)
 * computes over the transaction list the database query returned: income,
 * expense and balance totals, debit totals grouped by category and by
 * merchant, the five largest groups of each, the width of each group's bar,
 * and the ten most recent rows.
 */
module Dashboard {
  import opened Wrappers
  import opened Records

  function Min(a: int, b: int): int
  {
    if a <= b then a else b
  }

  /** Every stored amount is non-negative (the prompt asks for positive values; nothing enforces it). */
  predicate NonNegativeAmounts(ts: seq<Transaction>)
  {
    forall k :: 0 <= k < |ts| ==> ts[k].amount >= 0
  }

  // ---------------------------------------------------------------------
  // Totals
  // ---------------------------------------------------------------------

  /** `transactions.filter(t => t.type === ty).reduce((sum, t) => sum + t.amount, 0)`. */
  function TotalOfType(ts: seq<Transaction>, ty: TxType): int
  {
    if ts == [] then 0
    else TotalOfType(ts[..|ts| - 1], ty) + (if ts[|ts| - 1].txType == ty then ts[|ts| - 1].amount else 0)
  }

  /** Total income. */
  function TotalCredit(ts: seq<Transaction>): int
  {
    TotalOfType(ts, Credit)
  }

  /** Total expenses. */
  function TotalDebit(ts: seq<Transaction>): int
  {
    TotalOfType(ts, Debit)
  }

  /** The balance card. */
  function Balance(ts: seq<Transaction>): int
  {
    TotalCredit(ts) - TotalDebit(ts)
  }

  /** The sum of every amount, whatever its type. */
  function TotalAmount(ts: seq<Transaction>): int
  {
    if ts == [] then 0 else TotalAmount(ts[..|ts| - 1]) + ts[|ts| - 1].amount
  }

  /** A transaction's effect on the balance: income adds, expense subtracts. */
  function SignedAmount(t: Transaction): int
  {
    if t.txType == Credit then t.amount else -t.amount
  }

  /** A reference definition of the balance: one left-to-right pass over signed amounts. */
  function SignedTotal(ts: seq<Transaction>): int
  {
    if ts == [] then 0 else SignedAmount(ts[0]) + SignedTotal(ts[1..])
  }

  /** Per-type totals distribute over concatenation of transaction lists. */
  lemma {:induction false} TotalOfTypeAppend(a: seq<Transaction>, b: seq<Transaction>, ty: TxType)
    ensures TotalOfType(a + b, ty) == TotalOfType(a, ty) + TotalOfType(b, ty)
  {
    if b != [] {
      assert (a + b)[..|a + b| - 1] == a + b[..|b| - 1];
      TotalOfTypeAppend(a, b[..|b| - 1], ty);
    } else {
      assert a + b == a;
    }
  }

  /** Every transaction is counted in exactly one of the two totals. */
  lemma {:induction false} CreditDebitPartition(ts: seq<Transaction>)
    ensures TotalCredit(ts) + TotalDebit(ts) == TotalAmount(ts)
  {
    if ts != [] {
      CreditDebitPartition(ts[..|ts| - 1]);
    }
  }

  /** The balance card equals the signed sum of all amounts. */
  lemma {:induction false} BalanceIsSignedTotal(ts: seq<Transaction>)
    ensures Balance(ts) == SignedTotal(ts)
  {
    if ts != [] {
      assert ts == [ts[0]] + ts[1..];
      TotalOfTypeAppend([ts[0]], ts[1..], Credit);
      TotalOfTypeAppend([ts[0]], ts[1..], Debit);
      assert TotalOfType([ts[0]], Credit) == if ts[0].txType == Credit then ts[0].amount else 0 by {
        assert [ts[0]][..0] == [];
      }
      assert TotalOfType([ts[0]], Debit) == if ts[0].txType == Debit then ts[0].amount else 0 by {
        assert [ts[0]][..0] == [];
      }
      BalanceIsSignedTotal(ts[1..]);
    }
  }

  /** With non-negative amounts both totals are non-negative. */
  lemma {:induction false} TotalsNonNegative(ts: seq<Transaction>, ty: TxType)
    requires NonNegativeAmounts(ts)
    ensures TotalOfType(ts, ty) >= 0
  {
    if ts != [] {
      TotalsNonNegative(ts[..|ts| - 1], ty);
    }
  }

  // ---------------------------------------------------------------------
  // Grouped debit totals
  // ---------------------------------------------------------------------

  /** `categoryTotals` groups by category, `merchantTotals` by merchant. */
  datatype Grouping = ByCategory | ByMerchant

  /** One `[key, total]` pair of `Object.entries`. */
  datatype Entry = Entry(key: string, total: int)

  /** The filter before the reduce: debits only, and for merchants a non-empty merchant. */
  predicate Counted(g: Grouping, t: Transaction)
  {
    t.txType == Debit && (g.ByMerchant? ==> t.merchant != "")
  }

  /** The accumulator key of a transaction. */
  function KeyOf(g: Grouping, t: Transaction): string
  {
    match g
    case ByCategory => t.category
    case ByMerchant => t.merchant
  }

  /** The sum of the counted amounts whose key is `key`. */
  function GroupTotal(ts: seq<Transaction>, g: Grouping, key: string): int
  {
    if ts == [] then 0
    else
      var t := ts[|ts| - 1];
      GroupTotal(ts[..|ts| - 1], g, key) + (if Counted(g, t) && KeyOf(g, t) == key then t.amount else 0)
  }

  /** The sum of all counted amounts, whatever their key. */
  function CountedTotal(ts: seq<Transaction>, g: Grouping): int
  {
    if ts == [] then 0
    else
      var t := ts[|ts| - 1];
      CountedTotal(ts[..|ts| - 1], g) + (if Counted(g, t) then t.amount else 0)
  }

  /** The distinct keys of the counted transactions, in order of first occurrence. */
  function SeenKeys(ts: seq<Transaction>, g: Grouping): seq<string>
  {
    if ts == [] then []
    else
      var t := ts[|ts| - 1];
      var before := SeenKeys(ts[..|ts| - 1], g);
      if Counted(g, t) && KeyOf(g, t) !in before then before + [KeyOf(g, t)] else before
  }

  predicate Distinct(keys: seq<string>)
  {
    forall i, j :: 0 <= i < j < |keys| ==> keys[i] != keys[j]
  }

  /** The keys seen are distinct, and they are exactly the keys of the counted transactions. */
  lemma {:induction false} SeenKeysSpec(ts: seq<Transaction>, g: Grouping)
    ensures Distinct(SeenKeys(ts, g))
    ensures forall k :: k in SeenKeys(ts, g) <==> exists i :: 0 <= i < |ts| && Counted(g, ts[i]) && KeyOf(g, ts[i]) == k
  {
    if ts != [] {
      var init := ts[..|ts| - 1];
      SeenKeysSpec(init, g);
      forall k ensures k in SeenKeys(ts, g) <==> exists i :: 0 <= i < |ts| && Counted(g, ts[i]) && KeyOf(g, ts[i]) == k {
        if exists i :: 0 <= i < |ts| && Counted(g, ts[i]) && KeyOf(g, ts[i]) == k {
          var i :| 0 <= i < |ts| && Counted(g, ts[i]) && KeyOf(g, ts[i]) == k;
          if i < |ts| - 1 {
            assert init[i] == ts[i];
          }
        }
        if k in SeenKeys(init, g) {
          var i :| 0 <= i < |init| && Counted(g, init[i]) && KeyOf(g, init[i]) == k;
          assert ts[i] == init[i];
        }
      }
    }
  }

  /** A key no counted transaction carries has total zero (`acc[k] || 0` starts from zero). */
  lemma {:induction false} UnseenKeyTotalZero(ts: seq<Transaction>, g: Grouping, key: string)
    requires key !in SeenKeys(ts, g)
    ensures GroupTotal(ts, g, key) == 0
  {
    if ts != [] {
      UnseenKeyTotalZero(ts[..|ts| - 1], g, key);
    }
  }

  /** The entries for the given keys, each with its exact group total. */
  function EntriesFor(keys: seq<string>, ts: seq<Transaction>, g: Grouping): (r: seq<Entry>)
    ensures |r| == |keys|
    ensures forall j :: 0 <= j < |keys| ==> r[j] == Entry(keys[j], GroupTotal(ts, g, keys[j]))
  {
    if keys == [] then []
    else
      var k := keys[|keys| - 1];
      EntriesFor(keys[..|keys| - 1], ts, g) + [Entry(k, GroupTotal(ts, g, k))]
  }

  /** `Object.entries(categoryTotals)` (resp. `merchantTotals`): one entry per key, in insertion order. */
  function GroupEntries(ts: seq<Transaction>, g: Grouping): seq<Entry>
  {
    EntriesFor(SeenKeys(ts, g), ts, g)
  }

  /**
   * The two `reduce` calls that fill an accumulator object in place,
   * followed by `Object.entries`. The accumulator is a map; `order` records
   * the order in which keys were first assigned, which is the order
   * `Object.entries` reports them in.
   */
  method GroupTotals(ts: seq<Transaction>, g: Grouping) returns (entries: seq<Entry>)
    ensures entries == GroupEntries(ts, g)
  {
    var acc: map<string, int> := map[];
    var order: seq<string> := [];
    for i := 0 to |ts|
      invariant order == SeenKeys(ts[..i], g)
      invariant forall k :: k in acc <==> k in order
      invariant forall k :: k in acc ==> acc[k] == GroupTotal(ts[..i], g, k)
    {
      var t := ts[i];
      assert ts[..i + 1][..i] == ts[..i];
      if t.txType == Debit && (g == ByCategory || t.merchant != "") {
        var k := if g == ByCategory then t.category else t.merchant;
        var previous := if k in acc then acc[k] else 0;
        if k !in acc {
          UnseenKeyTotalZero(ts[..i], g, k);
          order := order + [k];
        }
        acc := acc[k := previous + t.amount];
      }
    }
    assert ts[..|ts|] == ts;
    entries := seq(|order|, j requires 0 <= j < |order| => Entry(order[j], acc[order[j]]));
  }

  /** The sum of the totals of a list of entries. */
  function SumTotals(es: seq<Entry>): int
  {
    if es == [] then 0 else SumTotals(es[..|es| - 1]) + es[|es| - 1].total
  }

  /** The sum of the group totals of the given keys. */
  function KeysSum(keys: seq<string>, ts: seq<Transaction>, g: Grouping): int
  {
    if keys == [] then 0
    else KeysSum(keys[..|keys| - 1], ts, g) + GroupTotal(ts, g, keys[|keys| - 1])
  }

  lemma {:induction false} SumTotalsOfEntries(keys: seq<string>, ts: seq<Transaction>, g: Grouping)
    ensures SumTotals(EntriesFor(keys, ts, g)) == KeysSum(keys, ts, g)
  {
    if keys != [] {
      var es := EntriesFor(keys, ts, g);
      assert es[..|es| - 1] == EntriesFor(keys[..|keys| - 1], ts, g);
      SumTotalsOfEntries(keys[..|keys| - 1], ts, g);
    }
  }

  /** Adding one transaction adds its amount to exactly the one key that it carries, if that key is listed. */
  lemma {:induction false} KeysSumAddOne(keys: seq<string>, ts: seq<Transaction>, t: Transaction, g: Grouping)
    requires Distinct(keys)
    ensures KeysSum(keys, ts + [t], g)
         == KeysSum(keys, ts, g) + (if Counted(g, t) && KeyOf(g, t) in keys then t.amount else 0)
  {
    if keys != [] {
      var init := keys[..|keys| - 1];
      var last := keys[|keys| - 1];
      assert keys == init + [last];
      KeysSumAddOne(init, ts, t, g);
      assert (ts + [t])[..|ts|] == ts;
      assert KeyOf(g, t) in keys <==> KeyOf(g, t) in init || KeyOf(g, t) == last;
      assert last !in init;
    }
  }

  /** The grouped totals sum to the total of the counted transactions. */
  lemma {:induction false} SeenKeysSum(ts: seq<Transaction>, g: Grouping)
    ensures KeysSum(SeenKeys(ts, g), ts, g) == CountedTotal(ts, g)
  {
    if ts != [] {
      var init := ts[..|ts| - 1];
      var t := ts[|ts| - 1];
      assert ts == init + [t];
      SeenKeysSum(init, g);
      SeenKeysSpec(init, g);
      var keys := SeenKeys(init, g);
      KeysSumAddOne(keys, init, t, g);
      if Counted(g, t) && KeyOf(g, t) !in keys {
        var k := KeyOf(g, t);
        assert SeenKeys(ts, g) == keys + [k];
        assert (keys + [k])[..|keys|] == keys;
        UnseenKeyTotalZero(init, g, k);
      }
    }
  }

  /** The grouped totals sum to the total of the counted transactions. */
  lemma GroupTotalsSum(ts: seq<Transaction>, g: Grouping)
    ensures SumTotals(GroupEntries(ts, g)) == CountedTotal(ts, g)
  {
    SumTotalsOfEntries(SeenKeys(ts, g), ts, g);
    SeenKeysSum(ts, g);
  }

  /** Every debit is counted by category. */
  lemma {:induction false} CategoryCountsEveryDebit(ts: seq<Transaction>)
    ensures CountedTotal(ts, ByCategory) == TotalDebit(ts)
  {
    if ts != [] {
      CategoryCountsEveryDebit(ts[..|ts| - 1]);
    }
  }

  /** The sum of the debits that the merchant grouping skips (empty merchant). */
  function UnnamedDebitTotal(ts: seq<Transaction>): int
  {
    if ts == [] then 0
    else
      var t := ts[|ts| - 1];
      UnnamedDebitTotal(ts[..|ts| - 1]) + (if t.txType == Debit && t.merchant == "" then t.amount else 0)
  }

  /** The merchant grouping misses exactly the debits without a merchant. */
  lemma {:induction false} MerchantCountsNamedDebits(ts: seq<Transaction>)
    ensures CountedTotal(ts, ByMerchant) + UnnamedDebitTotal(ts) == TotalDebit(ts)
  {
    if ts != [] {
      MerchantCountsNamedDebits(ts[..|ts| - 1]);
    }
  }

  /** The category totals sum to exactly the total expenses. */
  lemma CategoryTotalsSumToDebit(ts: seq<Transaction>)
    ensures SumTotals(GroupEntries(ts, ByCategory)) == TotalDebit(ts)
  {
    GroupTotalsSum(ts, ByCategory);
    CategoryCountsEveryDebit(ts);
  }

  /** The merchant totals fall short of the total expenses by the debits without a merchant. */
  lemma MerchantTotalsSum(ts: seq<Transaction>)
    ensures SumTotals(GroupEntries(ts, ByMerchant)) == TotalDebit(ts) - UnnamedDebitTotal(ts)
    ensures NonNegativeAmounts(ts) ==> SumTotals(GroupEntries(ts, ByMerchant)) <= TotalDebit(ts)
  {
    GroupTotalsSum(ts, ByMerchant);
    MerchantCountsNamedDebits(ts);
    if NonNegativeAmounts(ts) {
      UnnamedNonNegative(ts);
    }
  }

  lemma {:induction false} UnnamedNonNegative(ts: seq<Transaction>)
    requires NonNegativeAmounts(ts)
    ensures UnnamedDebitTotal(ts) >= 0
  {
    if ts != [] {
      UnnamedNonNegative(ts[..|ts| - 1]);
    }
  }

  /** With non-negative amounts, one group's total lies between zero and the total expenses. */
  lemma {:induction false} GroupTotalBounded(ts: seq<Transaction>, g: Grouping, key: string)
    requires NonNegativeAmounts(ts)
    ensures 0 <= GroupTotal(ts, g, key) <= CountedTotal(ts, g) <= TotalDebit(ts)
  {
    if ts != [] {
      GroupTotalBounded(ts[..|ts| - 1], g, key);
    }
  }

  // ---------------------------------------------------------------------
  // Top five
  // ---------------------------------------------------------------------

  /** How many groups each card lists (`.slice(0, 5)`). */
  const TOP_COUNT := 5

  /** Non-increasing by total. */
  predicate SortedDesc(es: seq<Entry>)
  {
    forall i, j :: 0 <= i < j < |es| ==> es[i].total >= es[j].total
  }

  predicate DistinctKeys(es: seq<Entry>)
  {
    forall i, j :: 0 <= i < j < |es| ==> es[i].key != es[j].key
  }

  /** The entries whose total is `v`, in their order. */
  function WithTotal(es: seq<Entry>, v: int): seq<Entry>
  {
    if es == [] then []
    else (if es[0].total == v then [es[0]] else []) + WithTotal(es[1..], v)
  }

  /**
   * Places `e` in front of the first entry whose total is not larger,
   * hence in front of every entry of equal total.
   */
  function Insert(e: Entry, es: seq<Entry>): seq<Entry>
  {
    if es == [] then [e]
    else if es[0].total > e.total then [es[0]] + Insert(e, es[1..])
    else [e] + es
  }

  lemma {:induction false} InsertPermutes(e: Entry, es: seq<Entry>)
    ensures multiset(Insert(e, es)) == multiset(es) + multiset{e}
  {
    if es != [] && es[0].total > e.total {
      var tail := es[1..];
      InsertPermutes(e, tail);
      assert es == [es[0]] + tail;
      assert multiset(Insert(e, es)) == multiset([es[0]]) + multiset(Insert(e, tail));
    }
  }

  /** The entries of `Insert(e, es)` are `e` and those of `es`. */
  lemma {:induction false} InsertElements(e: Entry, es: seq<Entry>)
    ensures forall x :: x in Insert(e, es) <==> x == e || x in es
  {
    if es != [] && es[0].total > e.total {
      InsertElements(e, es[1..]);
      assert es == [es[0]] + es[1..];
    }
  }

  /** An entry no smaller than every entry of a sorted list may go in front of it. */
  lemma ConsSorted(h: Entry, rest: seq<Entry>)
    requires SortedDesc(rest)
    requires forall x :: x in rest ==> x.total <= h.total
    ensures SortedDesc([h] + rest)
  {
    var r := [h] + rest;
    forall i, j | 0 <= i < j < |r| ensures r[i].total >= r[j].total {
      if i > 0 {
        assert r[i] == rest[i - 1] && r[j] == rest[j - 1];
      } else {
        assert r[j] in rest;
      }
    }
  }

  lemma {:induction false} InsertSorted(e: Entry, es: seq<Entry>)
    requires SortedDesc(es)
    ensures SortedDesc(Insert(e, es))
  {
    if es == [] {
    } else if es[0].total > e.total {
      var tail := es[1..];
      assert SortedDesc(tail) by {
        forall i, j | 0 <= i < j < |tail| ensures tail[i].total >= tail[j].total {
          assert tail[i] == es[i + 1] && tail[j] == es[j + 1];
        }
      }
      InsertSorted(e, tail);
      InsertElements(e, tail);
      forall x | x in Insert(e, tail) ensures x.total <= es[0].total {
        if x != e {
          var k :| 0 <= k < |tail| && tail[k] == x;
          assert x == es[k + 1];
        }
      }
      ConsSorted(es[0], Insert(e, tail));
    } else {
      forall x | x in es ensures x.total <= e.total {
        var k :| 0 <= k < |es| && es[k] == x;
        assert es[0].total >= es[k].total;
      }
      ConsSorted(e, es);
    }
  }

  lemma WithTotalCons(h: Entry, xs: seq<Entry>, v: int)
    ensures WithTotal([h] + xs, v) == (if h.total == v then [h] else []) + WithTotal(xs, v)
  {
    assert ([h] + xs)[0] == h;
    assert ([h] + xs)[1..] == xs;
  }

  lemma {:induction false} InsertStable(e: Entry, es: seq<Entry>, v: int)
    ensures WithTotal(Insert(e, es), v) == (if e.total == v then [e] else []) + WithTotal(es, v)
  {
    if es == [] {
      WithTotalCons(e, [], v);
      assert [e] + [] == [e];
    } else if es[0].total > e.total {
      var tail := es[1..];
      InsertStable(e, tail, v);
      WithTotalCons(es[0], Insert(e, tail), v);
      WithTotalCons(es[0], tail, v);
      assert es == [es[0]] + tail;
      var h := if es[0].total == v then [es[0]] else [];
      var x := if e.total == v then [e] else [];
      assert h == [] || x == [];
      assert h + (x + WithTotal(tail, v)) == x + (h + WithTotal(tail, v));
    } else {
      WithTotalCons(e, es, v);
    }
  }

  /**
   * `Array.prototype.sort` with comparator `(a, b) => b - a`: a stable sort
   * into non-increasing order of total.
   */
  function SortByTotal(es: seq<Entry>): (r: seq<Entry>)
    ensures multiset(r) == multiset(es)
    ensures SortedDesc(r)
  {
    if es == [] then []
    else
      var rest := SortByTotal(es[1..]);
      assert es == [es[0]] + es[1..];
      InsertPermutes(es[0], rest);
      InsertSorted(es[0], rest);
      Insert(es[0], rest)
  }

  /** The sort is stable: the entries of any one total keep their relative order. */
  lemma {:induction false} SortStable(es: seq<Entry>, v: int)
    ensures WithTotal(SortByTotal(es), v) == WithTotal(es, v)
  {
    if es != [] {
      SortStable(es[1..], v);
      InsertStable(es[0], SortByTotal(es[1..]), v);
    }
  }

  /** An entry whose key is new may go in front of a list of distinct keys. */
  lemma ConsDistinct(h: Entry, rest: seq<Entry>)
    requires DistinctKeys(rest)
    requires forall x :: x in rest ==> x.key != h.key
    ensures DistinctKeys([h] + rest)
  {
    var r := [h] + rest;
    forall i, j | 0 <= i < j < |r| ensures r[i].key != r[j].key {
      if i > 0 {
        assert r[i] == rest[i - 1] && r[j] == rest[j - 1];
      } else {
        assert r[j] in rest;
      }
    }
  }

  /** Inserting a fresh key into a list of distinct keys keeps the keys distinct. */
  lemma {:induction false} InsertKeepsKeysDistinct(e: Entry, es: seq<Entry>)
    requires DistinctKeys(es)
    requires forall x :: x in es ==> x.key != e.key
    ensures DistinctKeys(Insert(e, es))
  {
    if es == [] {
    } else if es[0].total > e.total {
      var tail := es[1..];
      assert DistinctKeys(tail) by {
        forall i, j | 0 <= i < j < |tail| ensures tail[i].key != tail[j].key {
          assert tail[i] == es[i + 1] && tail[j] == es[j + 1];
        }
      }
      assert forall x :: x in tail ==> x in es;
      InsertKeepsKeysDistinct(e, tail);
      InsertElements(e, tail);
      forall x | x in Insert(e, tail) ensures x.key != es[0].key {
        if x != e {
          var k :| 0 <= k < |tail| && tail[k] == x;
          assert x == es[k + 1];
        }
      }
      ConsDistinct(es[0], Insert(e, tail));
    } else {
      ConsDistinct(e, es);
    }
  }

  /** Sorting keeps the keys distinct. */
  lemma {:induction false} SortKeepsKeysDistinct(es: seq<Entry>)
    requires DistinctKeys(es)
    ensures DistinctKeys(SortByTotal(es))
  {
    if es != [] {
      SortKeepsKeysDistinct(es[1..]);
      var rest := SortByTotal(es[1..]);
      forall x | x in rest ensures x.key != es[0].key {
        assert x in multiset(rest);
        var j :| 1 <= j < |es| && es[j] == x;
      }
      InsertKeepsKeysDistinct(es[0], rest);
      assert es == [es[0]] + es[1..];
    }
  }

  /** `Object.entries(totals).sort((a, b) => b - a).slice(0, 5)`. */
  function TopGroups(ts: seq<Transaction>, g: Grouping): seq<Entry>
  {
    var sorted := SortByTotal(GroupEntries(ts, g));
    sorted[..Min(TOP_COUNT, |sorted|)]
  }

  lemma SortedLength(es: seq<Entry>)
    ensures |SortByTotal(es)| == |es|
  {
    assert |SortByTotal(es)| == |multiset(SortByTotal(es))| == |multiset(es)| == |es|;
  }

  /** The top list has five entries, or all groups when there are fewer. */
  lemma TopGroupsLength(ts: seq<Transaction>, g: Grouping)
    ensures |TopGroups(ts, g)| == Min(TOP_COUNT, |SeenKeys(ts, g)|)
    ensures |SeenKeys(ts, g)| <= TOP_COUNT ==> TopGroups(ts, g) == SortByTotal(GroupEntries(ts, g))
  {
    SortedLength(GroupEntries(ts, g));
  }

  /** The top list is ordered non-increasingly and names no group twice. */
  lemma TopGroupsOrdered(ts: seq<Transaction>, g: Grouping)
    ensures SortedDesc(TopGroups(ts, g)) && DistinctKeys(TopGroups(ts, g))
  {
    var entries := GroupEntries(ts, g);
    SeenKeysSpec(ts, g);
    assert DistinctKeys(entries) by {
      forall i, j | 0 <= i < j < |entries| ensures entries[i].key != entries[j].key {
        assert entries[i].key == SeenKeys(ts, g)[i];
      }
    }
    SortKeepsKeysDistinct(entries);
  }

  /** Every entry of the top list is a group that occurs, with that group's exact total. */
  lemma TopGroupsExact(ts: seq<Transaction>, g: Grouping)
    ensures forall e :: e in TopGroups(ts, g) ==> e.key in SeenKeys(ts, g) && e.total == GroupTotal(ts, g, e.key)
  {
    var entries := GroupEntries(ts, g);
    var sorted := SortByTotal(entries);
    forall e | e in TopGroups(ts, g) ensures e.key in SeenKeys(ts, g) && e.total == GroupTotal(ts, g, e.key) {
      assert e in sorted;
      assert e in multiset(entries);
      var j :| 0 <= j < |entries| && entries[j] == e;
    }
  }

  /** Every group left out of the top list has a total no larger than any group kept. */
  lemma TopGroupsKeepLargest(ts: seq<Transaction>, g: Grouping)
    ensures forall e, i :: e in GroupEntries(ts, g) && e !in TopGroups(ts, g) && 0 <= i < |TopGroups(ts, g)|
              ==> e.total <= TopGroups(ts, g)[i].total
  {
    var entries := GroupEntries(ts, g);
    var sorted := SortByTotal(entries);
    var top := TopGroups(ts, g);
    forall e, i | e in entries && e !in top && 0 <= i < |top| ensures e.total <= top[i].total {
      assert e in multiset(sorted);
      var j :| 0 <= j < |sorted| && sorted[j] == e;
      assert top[i] == sorted[i];
    }
  }

  lemma {:induction false} WithTotalAppend(a: seq<Entry>, b: seq<Entry>, v: int)
    ensures WithTotal(a + b, v) == WithTotal(a, v) + WithTotal(b, v)
  {
    if a != [] {
      assert (a + b)[1..] == a[1..] + b;
      WithTotalAppend(a[1..], b, v);
    } else {
      assert a + b == b;
    }
  }

  /** Among groups of equal total, the top list keeps the first-occurring ones, in order of first occurrence. */
  lemma TopGroupsStable(ts: seq<Transaction>, g: Grouping, v: int)
    ensures WithTotal(TopGroups(ts, g), v) <= WithTotal(GroupEntries(ts, g), v)
  {
    var sorted := SortByTotal(GroupEntries(ts, g));
    var top := TopGroups(ts, g);
    assert sorted == top + sorted[|top|..];
    WithTotalAppend(top, sorted[|top|..], v);
    SortStable(GroupEntries(ts, g), v);
  }

  // ---------------------------------------------------------------------
  // Bar widths
  // ---------------------------------------------------------------------

  /**
   * `(amount / totalDebit) * 100`, the width in percent of a group's bar.
   * `None` stands for the NaN or Infinity JavaScript produces when the
   * expense total is zero.
   */
  function BarWidth(amount: int, totalDebit: int): (w: Option<real>)
    ensures w.None? <==> totalDebit == 0
  {
    if totalDebit == 0 then None else Some((amount as real / totalDebit as real) * 100.0)
  }

  lemma RatioAtMostOne(a: real, t: real)
    requires 0.0 <= a <= t && 0.0 < t
    ensures 0.0 <= a / t <= 1.0
  {
    var q := a / t;
    assert q * t == a;
  }

  /** With non-negative amounts and some expense, every bar of both cards is between 0% and 100% wide. */
  lemma TopBarWidthsBounded(ts: seq<Transaction>, g: Grouping)
    requires NonNegativeAmounts(ts) && TotalDebit(ts) > 0
    ensures forall e :: e in TopGroups(ts, g) ==>
              BarWidth(e.total, TotalDebit(ts)).Some? && 0.0 <= BarWidth(e.total, TotalDebit(ts)).value <= 100.0
  {
    TopGroupsExact(ts, g);
    forall e | e in TopGroups(ts, g)
      ensures BarWidth(e.total, TotalDebit(ts)).Some? && 0.0 <= BarWidth(e.total, TotalDebit(ts)).value <= 100.0
    {
      GroupTotalBounded(ts, g, e.key);
      RatioAtMostOne(e.total as real, TotalDebit(ts) as real);
    }
  }

  // ---------------------------------------------------------------------
  // Recent transactions
  // ---------------------------------------------------------------------

  /** How many rows the Recent Transactions card shows (`.slice(0, 10)`). */
  const RECENT_COUNT := 10

  /** The data one row of the Recent Transactions card shows. */
  datatype RecentRow = RecentRow(
    id: string,
    title: string,
    description: string,
    date: string,
    sign: char,
    amount: int,
    category: string)

  /** One row: `merchant || category` as its title, `+` for income and `-` for expense. */
  function RecentRowOf(t: Transaction): RecentRow
  {
    RecentRow(t.id, if t.merchant != "" then t.merchant else t.category, t.description,
              t.transactionDate, if t.txType == Credit then '+' else '-', t.amount, t.category)
  }

  /** `.map` of the row renderer. */
  function RowsOf(ts: seq<Transaction>): (r: seq<RecentRow>)
    ensures |r| == |ts|
    ensures forall k :: 0 <= k < |ts| ==> r[k] == RecentRowOf(ts[k])
  {
    if ts == [] then [] else [RecentRowOf(ts[0])] + RowsOf(ts[1..])
  }

  /** `transactions.slice(0, 10).map(...)`. */
  function RecentView(ts: seq<Transaction>): (r: seq<RecentRow>)
    ensures |r| == Min(RECENT_COUNT, |ts|)
    ensures forall k :: 0 <= k < |r| ==>
              && r[k].id == ts[k].id
              && r[k].amount == ts[k].amount
              && r[k].title == (if ts[k].merchant != "" then ts[k].merchant else ts[k].category)
              && (r[k].sign == '+' <==> ts[k].txType == Credit)
              && (r[k].sign == '-' <==> ts[k].txType == Debit)
  {
    RowsOf(ts[..Min(RECENT_COUNT, |ts|)])
  }

  /** Transactions after the tenth never reach the Recent Transactions card. */
  lemma RecentIgnoresLater(ts: seq<Transaction>, later: seq<Transaction>)
    requires |ts| >= RECENT_COUNT
    ensures RecentView(ts + later) == RecentView(ts)
  {
    assert (ts + later)[..RECENT_COUNT] == ts[..RECENT_COUNT];
  }
}
