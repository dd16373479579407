/**
 The billing transaction listing: three tables are each queried newest-id-first with a limit,
 the results are appended, stably sorted by creation time (newest first) and truncated.

 Cutting each table before the sort is a limit pushdown; the module proves exactly when it
 gives the same list as sorting everything.
 */
module TransactionList {

  const LIMIT := 100

  datatype TxId = Trade(tradeNo: string) | LogId(id: int)

  datatype Transaction = Transaction(id: TxId, kind: string, status: string, amount: real, createdAt: int)

  /** A row of `top_ups` or `subscription_orders`, with its status already in transaction terms. */
  datatype Order = Order(tradeNo: string, status: string, money: real, createTime: int)

  datatype LogType = Consume | Manage | Refund | Other

  datatype Log = Log(id: int, logType: LogType, quota: real, createdAt: int)

  function FromOrder(kind: string, o: Order): Transaction {
    Transaction(Trade(o.tradeNo), kind, o.status, o.money, o.createTime)
  }

  function FromLog(l: Log): Transaction {
    match l.logType
    case Refund =>
      Transaction(LogId(l.id), "refund", "refunded", if l.quota > 0.0 then -l.quota else l.quota, l.createdAt)
    case Manage => Transaction(LogId(l.id), "adjustment", "paid", 0.0, l.createdAt)
    case _ => Transaction(LogId(l.id), "usage", "paid", l.quota, l.createdAt)
  }

  predicate Listed(l: Log) {
    !l.logType.Other?
  }

  function Take<T>(xs: seq<T>, n: nat): seq<T> {
    if |xs| <= n then xs else xs[..n]
  }

  /** Newest first. */
  ghost predicate Desc(xs: seq<Transaction>) {
    forall i, j :: 0 <= i < j < |xs| ==> xs[i].createdAt >= xs[j].createdAt
  }

  /** The transactions created at `k`, in order. */
  function At(xs: seq<Transaction>, k: int): seq<Transaction> {
    if xs == [] then []
    else (if xs[0].createdAt == k then [xs[0]] else []) + At(xs[1..], k)
  }

  /** `ys` is `xs` sorted newest first, equal times kept in their original order. */
  ghost predicate IsStableSort(xs: seq<Transaction>, ys: seq<Transaction>) {
    Desc(ys) && forall k :: At(ys, k) == At(xs, k)
  }

  lemma AtFirst(x: Transaction, xs: seq<Transaction>, k: int)
    ensures At([x] + xs, k) == (if x.createdAt == k then [x] else []) + At(xs, k)
  {
    assert ([x] + xs)[1..] == xs;
  }

  lemma {:induction false} AtConcat(a: seq<Transaction>, b: seq<Transaction>, k: int)
    ensures At(a + b, k) == At(a, k) + At(b, k)
  {
    if a == [] {
      assert a + b == b;
    } else {
      var x, rest := a[0], a[1..];
      AtConcat(rest, b, k);
      hide At;
      AtFirst(x, rest, k);
      AtFirst(x, rest + b, k);
      assert a == [x] + rest && a + b == [x] + (rest + b);
    }
  }

  lemma {:induction false} AtMember(xs: seq<Transaction>, i: nat)
    requires i < |xs|
    ensures At(xs, xs[i].createdAt) != []
  {
    if i > 0 {
      AtMember(xs[1..], i - 1);
    }
  }

  lemma {:induction false} AtOccurs(xs: seq<Transaction>, k: int)
    requires At(xs, k) != []
    ensures exists i :: 0 <= i < |xs| && xs[i].createdAt == k
  {
    if xs[0].createdAt != k {
      AtOccurs(xs[1..], k);
      var i :| 0 <= i < |xs[1..]| && xs[1..][i].createdAt == k;
      assert xs[i + 1].createdAt == k;
    }
  }

  lemma AtTail(xs: seq<Transaction>, k: int)
    requires xs != []
    ensures xs[0].createdAt == k ==> At(xs, k) != [] && At(xs[1..], k) == At(xs, k)[1..]
    ensures xs[0].createdAt != k ==> At(xs[1..], k) == At(xs, k)
  {
  }

  lemma SameFirst(ys: seq<Transaction>, zs: seq<Transaction>)
    requires Desc(ys) && Desc(zs) && ys != [] && forall k :: At(ys, k) == At(zs, k)
    ensures zs != [] && ys[0] == zs[0]
  {
    AtMember(ys, 0);
    AtOccurs(zs, ys[0].createdAt);
    AtMember(zs, 0);
    AtOccurs(ys, zs[0].createdAt);
    assert At(ys, ys[0].createdAt)[0] == ys[0];
    assert At(zs, zs[0].createdAt)[0] == zs[0];
  }

  /** A stable sort is unique, so any implementation of one computes the same list. */
  lemma {:induction false} StableSortUnique(ys: seq<Transaction>, zs: seq<Transaction>)
    requires Desc(ys) && Desc(zs) && forall k :: At(ys, k) == At(zs, k)
    ensures ys == zs
  {
    if ys == [] {
      if zs != [] {
        AtMember(zs, 0);
      }
    } else {
      hide At;
      SameFirst(ys, zs);
      forall k
        ensures At(ys[1..], k) == At(zs[1..], k)
      {
        AtTail(ys, k);
        AtTail(zs, k);
      }
      StableSortUnique(ys[1..], zs[1..]);
      assert ys == [ys[0]] + ys[1..] && zs == [zs[0]] + zs[1..];
    }
  }

  /** Merge preferring the left list on equal times. */
  function Merge(a: seq<Transaction>, b: seq<Transaction>): seq<Transaction>
    decreases |a| + |b|
  {
    if a == [] then b
    else if b == [] then a
    else if a[0].createdAt >= b[0].createdAt then [a[0]] + Merge(a[1..], b)
    else [b[0]] + Merge(a, b[1..])
  }

  function Sorted(xs: seq<Transaction>): seq<Transaction> {
    if xs == [] then [] else Merge([xs[0]], Sorted(xs[1..]))
  }

  lemma {:induction false} AtAbsent(a: seq<Transaction>, k: int)
    requires Desc(a) && (a == [] || a[0].createdAt < k)
    ensures At(a, k) == []
  {
    if At(a, k) != [] {
      AtOccurs(a, k);
    }
  }

  lemma {:induction false} MergeAt(a: seq<Transaction>, b: seq<Transaction>, k: int)
    requires Desc(a) && Desc(b)
    ensures At(Merge(a, b), k) == At(a, k) + At(b, k)
    decreases |a| + |b|
  {
    if a != [] && b != [] {
      if a[0].createdAt >= b[0].createdAt {
        MergeAt(a[1..], b, k);
        assert Merge(a, b)[1..] == Merge(a[1..], b);
      } else {
        MergeAt(a, b[1..], k);
        assert Merge(a, b)[1..] == Merge(a, b[1..]);
        if b[0].createdAt == k {
          AtAbsent(a, k);
        }
      }
    }
  }

  lemma {:induction false} MergeDesc(a: seq<Transaction>, b: seq<Transaction>, top: int)
    requires Desc(a) && Desc(b)
    requires a != [] ==> a[0].createdAt <= top
    requires b != [] ==> b[0].createdAt <= top
    ensures Desc(Merge(a, b)) && forall i :: 0 <= i < |Merge(a, b)| ==> Merge(a, b)[i].createdAt <= top
    decreases |a| + |b|
  {
    if a != [] && b != [] {
      if a[0].createdAt >= b[0].createdAt {
        MergeDesc(a[1..], b, a[0].createdAt);
      } else {
        MergeDesc(a, b[1..], b[0].createdAt);
      }
    }
  }

  lemma MergeIsStableSort(a: seq<Transaction>, b: seq<Transaction>)
    requires Desc(a) && Desc(b)
    ensures IsStableSort(a + b, Merge(a, b))
  {
    var x := if a != [] then a[0].createdAt else 0;
    var y := if b != [] then b[0].createdAt else 0;
    MergeDesc(a, b, if x > y then x else y);
    forall k
      ensures At(Merge(a, b), k) == At(a + b, k)
    {
      MergeAt(a, b, k);
      AtConcat(a, b, k);
    }
  }

  lemma {:induction false} SortedIsStableSort(xs: seq<Transaction>)
    ensures IsStableSort(xs, Sorted(xs))
  {
    if xs != [] {
      var rest := Sorted(xs[1..]);
      SortedIsStableSort(xs[1..]);
      MergeIsStableSort([xs[0]], rest);
      forall k
        ensures At(Sorted(xs), k) == At(xs, k)
      {
        AtConcat([xs[0]], rest, k);
        AtConcat([xs[0]], xs[1..], k);
        assert [xs[0]] + xs[1..] == xs;
      }
    }
  }

  /** Sorting an appended list merges the sorted parts. */
  lemma SortedConcat(a: seq<Transaction>, b: seq<Transaction>)
    ensures Sorted(a + b) == Merge(Sorted(a), Sorted(b))
  {
    SortedIsStableSort(a);
    SortedIsStableSort(b);
    SortedIsStableSort(a + b);
    MergeIsStableSort(Sorted(a), Sorted(b));
    forall k
      ensures At(Sorted(a + b), k) == At(Merge(Sorted(a), Sorted(b)), k)
    {
      AtConcat(Sorted(a), Sorted(b), k);
      AtConcat(a, b, k);
    }
    StableSortUnique(Sorted(a + b), Merge(Sorted(a), Sorted(b)));
  }

  lemma MergeStep(a: seq<Transaction>, b: seq<Transaction>)
    requires a != [] && b != []
    ensures Merge(a, b) ==
            if a[0].createdAt >= b[0].createdAt then [a[0]] + Merge(a[1..], b) else [b[0]] + Merge(a, b[1..])
  {
  }

  /** The first `n` of a merge need at most the first `n` of each side. */
  lemma {:induction false} TakeMerge(a: seq<Transaction>, b: seq<Transaction>, p: nat, q: nat, n: nat)
    requires n <= p && n <= q
    ensures Take(Merge(a, b), n) == Take(Merge(Take(a, p), Take(b, q)), n)
    decreases n
  {
    if n > 0 && a != [] && b != [] {
      hide Take, Merge;
      MergeStep(a, b);
      TakeSplit(a, p);
      TakeSplit(b, q);
      MergeStep(Take(a, p), Take(b, q));
      if a[0].createdAt >= b[0].createdAt {
        TakeMerge(a[1..], b, p - 1, q, n - 1);
        TakeCons(a[0], Merge(a[1..], b), n);
        TakeCons(a[0], Merge(Take(a[1..], p - 1), Take(b, q)), n);
      } else {
        TakeMerge(a, b[1..], p, q - 1, n - 1);
        TakeCons(b[0], Merge(a, b[1..]), n);
        TakeCons(b[0], Merge(Take(a, p), Take(b[1..], q - 1)), n);
      }
    }
  }

  lemma TakeSplit(xs: seq<Transaction>, n: nat)
    requires xs != [] && n > 0
    ensures Take(xs, n) != [] && Take(xs, n)[0] == xs[0] && Take(xs, n)[1..] == Take(xs[1..], n - 1)
  {
  }

  lemma TakeTake(xs: seq<Transaction>, n: nat)
    ensures Take(Take(xs, n), n) == Take(xs, n)
  {
  }

  lemma TakeCons(x: Transaction, xs: seq<Transaction>, n: nat)
    requires n > 0
    ensures Take([x] + xs, n) == [x] + Take(xs, n - 1)
  {
  }

  lemma {:induction false} MergeLength(a: seq<Transaction>, b: seq<Transaction>)
    ensures |Merge(a, b)| == |a| + |b|
    decreases |a| + |b|
  {
    if a != [] && b != [] {
      if a[0].createdAt >= b[0].createdAt {
        MergeLength(a[1..], b);
      } else {
        MergeLength(a, b[1..]);
      }
    }
  }

  lemma {:induction false} SortedLength(xs: seq<Transaction>)
    ensures |Sorted(xs)| == |xs|
  {
    if xs != [] {
      SortedLength(xs[1..]);
      MergeLength([xs[0]], Sorted(xs[1..]));
    }
  }

  // ---------------------------------------------------------------- the pushdown

  /** No row cut off by the limit is newer than a row that was kept. */
  ghost predicate NoStraggler(xs: seq<Transaction>, n: nat) {
    forall i, j :: 0 <= i < n <= j < |xs| ==> xs[i].createdAt >= xs[j].createdAt
  }

  lemma {:induction false} SortedBound(xs: seq<Transaction>, k: int)
    requires forall i :: 0 <= i < |xs| ==> xs[i].createdAt >= k
    ensures forall i :: 0 <= i < |Sorted(xs)| ==> Sorted(xs)[i].createdAt >= k
  {
    SortedIsStableSort(xs);
    forall i | 0 <= i < |Sorted(xs)|
      ensures Sorted(xs)[i].createdAt >= k
    {
      AtMember(Sorted(xs), i);
      AtOccurs(xs, Sorted(xs)[i].createdAt);
    }
  }

  /** A merge with nothing newer on the right is an append. */
  lemma {:induction false} MergeAppends(a: seq<Transaction>, b: seq<Transaction>)
    requires forall i :: 0 <= i < |a| && b != [] ==> a[i].createdAt >= b[0].createdAt
    ensures Merge(a, b) == a + b
  {
    if a != [] && b != [] {
      MergeAppends(a[1..], b);
      hide Merge;
      MergeStep(a, b);
      assert a == [a[0]] + a[1..];
    }
  }

  lemma SortThenTake(xs: seq<Transaction>, n: nat)
    requires NoStraggler(xs, n)
    ensures Take(Sorted(xs), n) == Sorted(Take(xs, n))
  {
    if |xs| <= n {
      SortedLength(xs);
    } else {
      var kept, cut := xs[..n], xs[n..];
      assert xs == kept + cut;
      SortedConcat(kept, cut);
      SortedLength(kept);
      SortedLength(cut);
      var k := Sorted(cut)[0].createdAt;
      SortedIsStableSort(cut);
      AtMember(Sorted(cut), 0);
      AtOccurs(cut, k);
      var j :| 0 <= j < |cut| && cut[j].createdAt == k;
      forall i | 0 <= i < |kept|
        ensures kept[i].createdAt >= k
      {
        assert xs[i].createdAt >= xs[n + j].createdAt;
      }
      SortedBound(kept, k);
      MergeAppends(Sorted(kept), Sorted(cut));
    }
  }

  /** How many were created at `k` or later. */
  function Newer(xs: seq<Transaction>, k: int): nat {
    if xs == [] then 0 else (if xs[0].createdAt >= k then 1 else 0) + Newer(xs[1..], k)
  }

  lemma NewerFirst(x: Transaction, xs: seq<Transaction>, k: int)
    ensures Newer([x] + xs, k) == (if x.createdAt >= k then 1 else 0) + Newer(xs, k)
  {
    assert ([x] + xs)[1..] == xs;
  }

  lemma {:induction false} NewerConcat(a: seq<Transaction>, b: seq<Transaction>, k: int)
    ensures Newer(a + b, k) == Newer(a, k) + Newer(b, k)
  {
    if a == [] {
      assert a + b == b;
    } else {
      var x, rest := a[0], a[1..];
      NewerConcat(rest, b, k);
      hide Newer;
      NewerFirst(x, rest, k);
      NewerFirst(x, rest + b, k);
      assert a == [x] + rest && a + b == [x] + (rest + b);
    }
  }

  lemma {:induction false} NewerMerge(a: seq<Transaction>, b: seq<Transaction>, k: int)
    ensures Newer(Merge(a, b), k) == Newer(a, k) + Newer(b, k)
    decreases |a| + |b|
  {
    if a != [] && b != [] {
      if a[0].createdAt >= b[0].createdAt {
        NewerMerge(a[1..], b, k);
        assert Merge(a, b)[1..] == Merge(a[1..], b);
      } else {
        NewerMerge(a, b[1..], k);
        assert Merge(a, b)[1..] == Merge(a, b[1..]);
      }
    }
  }

  lemma {:induction false} NewerSorted(xs: seq<Transaction>, k: int)
    ensures Newer(Sorted(xs), k) == Newer(xs, k)
  {
    if xs != [] {
      NewerSorted(xs[1..], k);
      NewerMerge([xs[0]], Sorted(xs[1..]), k);
      assert Newer([xs[0]], k) == if xs[0].createdAt >= k then 1 else 0;
    }
  }

  lemma {:induction false} NewerTake(ys: seq<Transaction>, k: int, n: nat)
    requires Desc(ys)
    ensures Newer(Take(ys, n), k) == if Newer(ys, k) < n then Newer(ys, k) else if |ys| < n then Newer(ys, k) else n
    ensures Newer(ys, k) <= |ys|
  {
    if ys == [] {
    } else if ys[0].createdAt < k {
      assert Newer(ys, k) == 0 by { NewerZero(ys, k); }
      NewerZero(Take(ys, n), k);
    } else if n > 0 {
      NewerTake(ys[1..], k, n - 1);
      assert Take(ys, n)[1..] == Take(ys[1..], n - 1);
    } else {
      NewerTake(ys[1..], k, 0);
    }
  }

  lemma {:induction false} NewerZero(ys: seq<Transaction>, k: int)
    requires forall i :: 0 <= i < |ys| ==> ys[i].createdAt < k
    ensures Newer(ys, k) == 0
  {
    if ys != [] {
      NewerZero(ys[1..], k);
    }
  }

  lemma {:induction false} NewerAll(ys: seq<Transaction>, k: int, i: nat)
    requires i < |ys|
    ensures ys[i].createdAt < k ==> Newer(ys, k) < |ys|
    ensures ys[i].createdAt >= k ==> Newer(ys, k) > 0
    ensures Newer(ys, k) <= |ys|
  {
    if i > 0 {
      NewerAll(ys[1..], k, i - 1);
    } else if |ys| > 1 {
      NewerAll(ys[1..], k, 0);
    }
  }

  /** Exact condition for one table: cutting before the sort is unobservable if and only if no
      cut row is newer than a kept one. */
  lemma PushdownExact(xs: seq<Transaction>, n: nat)
    ensures Take(Sorted(xs), n) == Take(Sorted(Take(xs, n)), n) <==> NoStraggler(xs, n)
  {
    SortedLength(Take(xs, n));
    if NoStraggler(xs, n) {
      SortThenTake(xs, n);
    } else {
      var i, j :| 0 <= i < n <= j < |xs| && xs[i].createdAt < xs[j].createdAt;
      var k := xs[j].createdAt;
      var kept, cut := xs[..n], xs[n..];
      assert xs == kept + cut;
      NewerConcat(kept, cut, k);
      NewerAll(kept, k, i);
      NewerAll(cut, k, j - n);
      NewerSorted(xs, k);
      NewerSorted(kept, k);
      SortedIsStableSort(xs);
      SortedLength(xs);
      NewerTake(Sorted(xs), k, n);
      assert Newer(Take(Sorted(xs), n), k) > Newer(Sorted(kept), k);
    }
  }

  /** Limit pushdown over the three tables: without stragglers, cutting each table first and
      sorting gives the very list that sorting everything gives. */
  lemma LimitPushdown(a: seq<Transaction>, b: seq<Transaction>, c: seq<Transaction>, n: nat)
    requires NoStraggler(a, n) && NoStraggler(b, n) && NoStraggler(c, n)
    ensures Take(Sorted(a + b + c), n) == Take(Sorted(Take(a, n) + Take(b, n) + Take(c, n)), n)
  {
    SortedConcat(a + b, c);
    SortedConcat(a, b);
    SortedConcat(Take(a, n) + Take(b, n), Take(c, n));
    SortedConcat(Take(a, n), Take(b, n));
    SortThenTake(a, n);
    SortThenTake(b, n);
    SortThenTake(c, n);
    var ab, ab' := Merge(Sorted(a), Sorted(b)), Merge(Sorted(Take(a, n)), Sorted(Take(b, n)));
    TakeMerge(Sorted(a), Sorted(b), n, n, n);
    TakeMerge(ab, Sorted(c), n, n, n);
    TakeMerge(ab', Sorted(Take(c, n)), n, n, n);
    TakeTake(Sorted(c), n);
  }

  /** Creation time never decreasing with the id is enough: rows come newest id first. */
  lemma MonotoneTimes(xs: seq<Transaction>, n: nat)
    requires Desc(xs)
    ensures NoStraggler(xs, n)
  {
  }

  // ---------------------------------------------------------------- the pushdown over three tables, exactly

  /** The members of `kept`, in order. */
  function Keep(xs: seq<Transaction>, kept: set<Transaction>): seq<Transaction> {
    if xs == [] then [] else (if xs[0] in kept then [xs[0]] else []) + Keep(xs[1..], kept)
  }

  lemma KeepFirst(x: Transaction, xs: seq<Transaction>, kept: set<Transaction>)
    ensures Keep([x] + xs, kept) == (if x in kept then [x] else []) + Keep(xs, kept)
  {
    assert ([x] + xs)[1..] == xs;
  }

  lemma {:induction false} KeepConcat(a: seq<Transaction>, b: seq<Transaction>, kept: set<Transaction>)
    ensures Keep(a + b, kept) == Keep(a, kept) + Keep(b, kept)
  {
    if a == [] {
      assert a + b == b;
    } else {
      var x, rest := a[0], a[1..];
      KeepConcat(rest, b, kept);
      hide Keep;
      KeepFirst(x, rest, kept);
      KeepFirst(x, rest + b, kept);
      assert a == [x] + rest && a + b == [x] + (rest + b);
    }
  }

  lemma {:induction false} KeepAll(xs: seq<Transaction>, kept: set<Transaction>)
    requires forall i :: 0 <= i < |xs| ==> xs[i] in kept
    ensures Keep(xs, kept) == xs
  {
    if xs != [] {
      KeepAll(xs[1..], kept);
    }
  }

  lemma {:induction false} KeepNone(xs: seq<Transaction>, kept: set<Transaction>)
    requires forall i :: 0 <= i < |xs| ==> xs[i] !in kept
    ensures Keep(xs, kept) == []
  {
    if xs != [] {
      KeepNone(xs[1..], kept);
    }
  }

  lemma {:induction false} KeepMember(xs: seq<Transaction>, kept: set<Transaction>, i: nat)
    requires i < |Keep(xs, kept)|
    ensures Keep(xs, kept)[i] in kept && Keep(xs, kept)[i] in xs
  {
    if xs[0] !in kept {
      KeepMember(xs[1..], kept, i);
    } else if i > 0 {
      assert Keep(xs, kept)[i] == Keep(xs[1..], kept)[i - 1];
      KeepMember(xs[1..], kept, i - 1);
    }
  }

  lemma {:induction false} KeepAt(xs: seq<Transaction>, kept: set<Transaction>, k: int)
    ensures At(Keep(xs, kept), k) == Keep(At(xs, k), kept)
  {
    if xs != [] {
      var x := xs[0];
      KeepAt(xs[1..], kept, k);
      AtConcat(if x in kept then [x] else [], Keep(xs[1..], kept), k);
      KeepConcat(if x.createdAt == k then [x] else [], At(xs[1..], k), kept);
    }
  }

  lemma {:induction false} KeepDesc(xs: seq<Transaction>, kept: set<Transaction>)
    requires Desc(xs)
    ensures Desc(Keep(xs, kept))
  {
    if xs != [] {
      KeepDesc(xs[1..], kept);
      var rest := Keep(xs[1..], kept);
      forall i | 0 <= i < |rest| ensures xs[0].createdAt >= rest[i].createdAt {
        KeepMember(xs[1..], kept, i);
      }
    }
  }

  /** Dropping rows commutes with the stable sort. */
  lemma KeepSorted(xs: seq<Transaction>, kept: set<Transaction>)
    ensures Sorted(Keep(xs, kept)) == Keep(Sorted(xs), kept)
  {
    SortedIsStableSort(xs);
    SortedIsStableSort(Keep(xs, kept));
    KeepDesc(Sorted(xs), kept);
    forall k ensures At(Sorted(Keep(xs, kept)), k) == At(Keep(Sorted(xs), kept), k) {
      KeepAt(xs, kept, k);
      KeepAt(Sorted(xs), kept, k);
    }
    StableSortUnique(Sorted(Keep(xs, kept)), Keep(Sorted(xs), kept));
  }

  /** At least `n` kept rows stand before position `p`. */
  predicate Crowded(ys: seq<Transaction>, p: nat, kept: set<Transaction>, n: nat)
    requires p <= |ys|
  {
    |Keep(ys[..p], kept)| >= n
  }

  /** Every dropped row has at least `n` kept ones before it. */
  ghost predicate LateEnough(ys: seq<Transaction>, kept: set<Transaction>, n: nat) {
    forall p :: 0 <= p < |ys| && ys[p] !in kept ==> Crowded(ys, p, kept, n)
  }

  /** The first `n` are unchanged by dropping rows if and only if every dropped row comes too late. */
  lemma {:induction false} DropUnseenIff(ys: seq<Transaction>, kept: set<Transaction>, n: nat)
    ensures Take(ys, n) == Take(Keep(ys, kept), n) <==> LateEnough(ys, kept, n)
  {
    if ys != [] && n > 0 {
      var rest := ys[1..];
      if ys[0] in kept {
        DropUnseenIff(rest, kept, n - 1);
        assert ys == [ys[0]] + rest;
        TakeCons(ys[0], rest, n);
        TakeCons(ys[0], Keep(rest, kept), n);
        ConsEqual(ys[0], Take(rest, n - 1), Take(Keep(rest, kept), n - 1));
        forall p | 0 < p < |ys|
          ensures ys[p] == rest[p - 1] && (Crowded(ys, p, kept, n) <==> Crowded(rest, p - 1, kept, n - 1))
        {
          assert ys[..p][1..] == rest[..p - 1];
        }
        if LateEnough(ys, kept, n) {
          forall q | 0 <= q < |rest| && rest[q] !in kept ensures Crowded(rest, q, kept, n - 1) {
            assert ys[q + 1] == rest[q];
          }
        }
      } else {
        assert !Crowded(ys, 0, kept, n);
        if Take(ys, n) == Take(Keep(ys, kept), n) {
          assert Take(ys, n)[0] == ys[0];
          assert Keep(ys, kept)[0] == ys[0];
          KeepMember(ys, kept, 0);
        }
      }
    }
  }

  lemma ConsEqual(x: Transaction, a: seq<Transaction>, b: seq<Transaction>)
    ensures [x] + a == [x] + b <==> a == b
  {
    assert ([x] + a)[1..] == a && ([x] + b)[1..] == b;
  }

  lemma {:induction false} AtIn(xs: seq<Transaction>, k: int, x: Transaction)
    ensures x in At(xs, k) <==> x in xs && x.createdAt == k
  {
    if xs != [] {
      AtIn(xs[1..], k, x);
      assert xs == [xs[0]] + xs[1..];
    }
  }

  lemma SortedIn(xs: seq<Transaction>, x: Transaction)
    ensures x in Sorted(xs) <==> x in xs
  {
    SortedIsStableSort(xs);
    AtIn(xs, x.createdAt, x);
    AtIn(Sorted(xs), x.createdAt, x);
  }

  lemma {:induction false} NewerSplit(xs: seq<Transaction>, k: int)
    ensures Newer(xs, k) == Newer(xs, k + 1) + |At(xs, k)|
  {
    if xs != [] {
      NewerSplit(xs[1..], k);
    }
  }

  lemma {:induction false} NewerEvery(xs: seq<Transaction>, k: int)
    requires forall i :: 0 <= i < |xs| ==> xs[i].createdAt >= k
    ensures Newer(xs, k) == |xs|
  {
    if xs != [] {
      NewerEvery(xs[1..], k);
    }
  }

  /** A sequence in which `x` occurs once can be split around it in one way only. */
  lemma OneOccurrence(u: seq<Transaction>, v: seq<Transaction>, u': seq<Transaction>, v': seq<Transaction>,
                      x: Transaction)
    requires u + [x] + v == u' + [x] + v' && x !in u && x !in v
    ensures u == u'
  {
    var s := u + [x] + v;
    assert s[|u'|] == x;
    assert forall i :: 0 <= i < |s| && i != |u| ==> s[i] in u || s[i] in v;
    assert s[..|u|] == u && s[..|u'|] == u';
  }

  /** Of a sorted list, what is kept before position `p`: everything newer, and part of what is equally old. */
  lemma KeptBefore(ys: seq<Transaction>, p: nat, kept: set<Transaction>)
    requires Desc(ys) && p < |ys|
    ensures var k := ys[p].createdAt;
            |Keep(ys[..p], kept)| == Newer(Keep(ys, kept), k + 1) + |Keep(At(ys[..p], k), kept)|
  {
    var k := ys[p].createdAt;
    var front, back := ys[..p], ys[p..];
    assert ys == front + back;
    KeepConcat(front, back, kept);
    NewerConcat(Keep(front, kept), Keep(back, kept), k + 1);
    forall i | 0 <= i < |Keep(back, kept)| ensures Keep(back, kept)[i].createdAt < k + 1 {
      KeepMember(back, kept, i);
    }
    NewerZero(Keep(back, kept), k + 1);
    forall i | 0 <= i < |Keep(front, kept)| ensures Keep(front, kept)[i].createdAt >= k {
      KeepMember(front, kept, i);
    }
    NewerEvery(Keep(front, kept), k);
    NewerSplit(Keep(front, kept), k);
    KeepAt(front, kept, k);
  }

  lemma SortedBefore(l: seq<Transaction>, x: Transaction, r: seq<Transaction>, p: nat)
    requires x !in l && x !in r && p < |Sorted(l + [x] + r)| && Sorted(l + [x] + r)[p] == x
    ensures At(Sorted(l + [x] + r)[..p], x.createdAt) == At(l, x.createdAt)
  {
    var k, xs := x.createdAt, l + [x] + r;
    var ys := Sorted(xs);
    SortedIsStableSort(xs);
    var front, back := ys[..p], ys[p + 1..];
    assert ys == front + [x] + back;
    AtConcat(front + [x], back, k);
    AtConcat(front, [x], k);
    AtConcat(l + [x], r, k);
    AtConcat(l, [x], k);
    assert At([x], k) == [x];
    AtIn(l, k, x);
    AtIn(r, k, x);
    OneOccurrence(At(l, k), At(r, k), At(front, k), At(back, k), x);
  }

  /** How many kept rows precede the dropped row `x` in the stable order. */
  lemma AheadOf(l: seq<Transaction>, x: Transaction, r: seq<Transaction>, kept: set<Transaction>, p: nat)
    requires x !in l && x !in r && p < |Sorted(l + [x] + r)| && Sorted(l + [x] + r)[p] == x
    ensures |Keep(Sorted(l + [x] + r)[..p], kept)|
            == Newer(Keep(l + [x] + r, kept), x.createdAt + 1) + |At(Keep(l, kept), x.createdAt)|
  {
    hide Sorted, Keep, Newer, At;
    var k, xs := x.createdAt, l + [x] + r;
    SortedIsStableSort(xs);
    KeptBefore(Sorted(xs), p, kept);
    SortedBefore(l, x, r, p);
    KeepAt(l, kept, k);
    KeepSorted(xs, kept);
    NewerSorted(Keep(xs, kept), k + 1);
  }

  ghost predicate Distinct(xs: seq<Transaction>) {
    forall i, j :: 0 <= i < j < |xs| ==> xs[i] != xs[j]
  }

  /** For every row that the limit cuts off, at least `n` kept rows precede it in the stable order:
      those of earlier tables and of its own when at least as new, those of later tables when newer. */
  ghost predicate PageComplete(a: seq<Transaction>, b: seq<Transaction>, c: seq<Transaction>, n: nat) {
    var (ka, kb, kc) := (Take(a, n), Take(b, n), Take(c, n));
    && (forall i :: n <= i < |a| ==>
          Newer(ka, a[i].createdAt) + Newer(kb, a[i].createdAt + 1) + Newer(kc, a[i].createdAt + 1) >= n)
    && (forall i :: n <= i < |b| ==>
          Newer(ka, b[i].createdAt) + Newer(kb, b[i].createdAt) + Newer(kc, b[i].createdAt + 1) >= n)
    && (forall i :: n <= i < |c| ==>
          Newer(ka, c[i].createdAt) + Newer(kb, c[i].createdAt) + Newer(kc, c[i].createdAt) >= n)
  }

  function Rows(xs: seq<Transaction>): set<Transaction> {
    set x | x in xs
  }

  lemma KeepTake(xs: seq<Transaction>, n: nat, i: nat, kept: set<Transaction>)
    requires n <= i <= |xs|
    requires forall j :: 0 <= j < |xs| ==> (xs[j] in kept <==> j < n)
    ensures Keep(xs[..i], kept) == Take(xs, n)
  {
    assert xs[..i] == xs[..n] + xs[n..i];
    KeepConcat(xs[..n], xs[n..i], kept);
    KeepAll(xs[..n], kept);
    KeepNone(xs[n..i], kept);
  }

  /** All of a table is kept up to the limit. */
  lemma KeepTable(xs: seq<Transaction>, n: nat, kept: set<Transaction>)
    requires forall j :: 0 <= j < |xs| ==> (xs[j] in kept <==> j < n)
    ensures Keep(xs, kept) == Take(xs, n)
  {
    if |xs| <= n {
      KeepAll(xs, kept);
    } else {
      KeepTake(xs, n, |xs|, kept);
      assert xs[..|xs|] == xs;
    }
  }

  ghost predicate KeptTable(xs: seq<Transaction>, n: nat, kept: set<Transaction>) {
    forall j :: 0 <= j < |xs| ==> (xs[j] in kept <==> j < n)
  }

  /** A cut row of the table in the middle comes too late exactly if enough kept rows precede it. */
  lemma CutRow(l: seq<Transaction>, t: seq<Transaction>, r: seq<Transaction>, n: nat, kept: set<Transaction>, i: nat,
               p: nat)
    requires Distinct(l + t + r) && KeptTable(t, n, kept) && n <= i < |t|
    requires p < |Sorted(l + t + r)| && Sorted(l + t + r)[p] == t[i]
    ensures var k := t[i].createdAt;
            |Keep(Sorted(l + t + r)[..p], kept)|
            == Newer(Keep(l, kept), k) + Newer(Take(t, n), k) + Newer(Keep(r, kept), k + 1)
  {
    hide Keep, Newer, Take, At, Sorted;
    var x, k := t[i], t[i].createdAt;
    var l', r' := l + t[..i], t[i + 1..] + r;
    var xs := l + t + r;
    assert xs == l' + [x] + r';
    assert forall j :: 0 <= j < |l'| ==> l'[j] == xs[j];
    assert forall j :: 0 <= j < |r'| ==> r'[j] == xs[|l'| + 1 + j];
    assert xs[|l'|] == x;
    assert x !in l' && x !in r';
    AheadOf(l', x, r', kept, p);
    CutCount(l, t, r, n, kept, i, k);
  }

  lemma CutCount(l: seq<Transaction>, t: seq<Transaction>, r: seq<Transaction>, n: nat, kept: set<Transaction>,
                 i: nat, k: int)
    requires KeptTable(t, n, kept) && n <= i < |t|
    ensures Newer(Keep(l + t + r, kept), k + 1) + |At(Keep(l + t[..i], kept), k)|
            == Newer(Keep(l, kept), k) + Newer(Take(t, n), k) + Newer(Keep(r, kept), k + 1)
  {
    KeepTake(t, n, i, kept);
    KeepTable(t, n, kept);
    hide Keep, Newer, Take, At;
    KeepConcat(l, t[..i], kept);
    KeepConcat(l + t, r, kept);
    KeepConcat(l, t, kept);
    NewerConcat(Keep(l, kept) + Take(t, n), Keep(r, kept), k + 1);
    NewerConcat(Keep(l, kept), Take(t, n), k + 1);
    NewerConcat(Keep(l, kept), Take(t, n), k);
    NewerSplit(Keep(l, kept) + Take(t, n), k);
  }

  /** Distinct rows are told apart by the table they are in and their place in it. */
  lemma MiddleTable(l: seq<Transaction>, t: seq<Transaction>, r: seq<Transaction>, n: nat, kl: seq<Transaction>,
                    kr: seq<Transaction>)
    requires Distinct(l + t + r) && (forall x :: x in kl ==> x in l) && (forall x :: x in kr ==> x in r)
    ensures KeptTable(t, n, Rows(kl + Take(t, n) + kr))
  {
    var xs := l + t + r;
    assert forall i :: 0 <= i < |t| ==> xs[|l| + i] == t[i];
    forall j | 0 <= j < |t| ensures t[j] in Rows(kl + Take(t, n) + kr) <==> j < n {
      assert t[j] !in l && t[j] !in r by { ApartFrom(l, t, r, j); }
      if j < n {
        assert Take(t, n)[j] == t[j];
      }
    }
  }

  lemma ApartFrom(l: seq<Transaction>, t: seq<Transaction>, r: seq<Transaction>, j: nat)
    requires Distinct(l + t + r) && j < |t|
    ensures t[j] !in l && t[j] !in r
  {
    var xs := l + t + r;
    assert xs[|l| + j] == t[j];
    assert forall i :: 0 <= i < |l| ==> xs[i] == l[i];
    assert forall i :: 0 <= i < |r| ==> xs[|l| + |t| + i] == r[i];
  }

  lemma DistinctTables(a: seq<Transaction>, b: seq<Transaction>, c: seq<Transaction>, n: nat)
    requires Distinct(a + b + c)
    ensures var kept := Rows(Take(a, n) + Take(b, n) + Take(c, n));
            KeptTable(a, n, kept) && KeptTable(b, n, kept) && KeptTable(c, n, kept)
  {
    TakeWithin(a, n);
    TakeWithin(b, n);
    TakeWithin(c, n);
    hide Distinct, Take, KeptTable, Rows;
    var ka, kb, kc := Take(a, n), Take(b, n), Take(c, n);
    assert [] + a + (b + c) == a + b + c && [] + ka + (kb + kc) == ka + kb + kc;
    MiddleTable([], a, b + c, n, [], kb + kc);
    MiddleTable(a, b, c, n, ka, kc);
    assert (a + b) + c + [] == a + b + c && (ka + kb) + kc + [] == ka + kb + kc;
    MiddleTable(a + b, c, [], n, ka + kb, []);
  }

  lemma TakeWithin(xs: seq<Transaction>, n: nat)
    ensures forall x :: x in Take(xs, n) ==> x in xs
  {
  }

  /** A cut row of any of the three tables, at its place in the sorted history. */
  lemma CutRows(a: seq<Transaction>, b: seq<Transaction>, c: seq<Transaction>, n: nat, p: nat)
    requires Distinct(a + b + c) && PageComplete(a, b, c, n) && p < |Sorted(a + b + c)|
    ensures var ys, kept := Sorted(a + b + c), Rows(Take(a, n) + Take(b, n) + Take(c, n));
            ys[p] !in kept ==> Crowded(ys, p, kept, n)
  {
    hide Sorted, Take, Newer, Rows, Distinct, Keep;
    var xs, kept := a + b + c, Rows(Take(a, n) + Take(b, n) + Take(c, n));
    var x := Sorted(xs)[p];
    if x !in kept {
      SortedIn(xs, x);
      DistinctTables(a, b, c, n);
      KeepTable(a, n, kept);
      KeepTable(b, n, kept);
      KeepTable(c, n, kept);
      KeepConcat(b, c, kept);
      KeepConcat(a, b, kept);
      var k := x.createdAt;
      NewerConcat(Take(b, n), Take(c, n), k + 1);
      NewerConcat(Take(a, n), Take(b, n), k);
      if i :| 0 <= i < |a| && a[i] == x {
        assert [] + a + (b + c) == xs;
        CutRow([], a, b + c, n, kept, i, p);
      } else if i :| 0 <= i < |b| && b[i] == x {
        CutRow(a, b, c, n, kept, i, p);
      } else {
        var i :| 0 <= i < |c| && c[i] == x;
        assert (a + b) + c + [] == xs;
        CutRow(a + b, c, [], n, kept, i, p);
      }
    }
  }

  /** The other way round, for a row of one table between `l` and `r`. */
  lemma CutRowCrowded(l: seq<Transaction>, t: seq<Transaction>, r: seq<Transaction>, n: nat, kept: set<Transaction>,
                      i: nat)
    requires Distinct(l + t + r) && KeptTable(t, n, kept) && n <= i < |t|
    requires LateEnough(Sorted(l + t + r), kept, n)
    ensures var k := t[i].createdAt;
            Newer(Keep(l, kept), k) + Newer(Take(t, n), k) + Newer(Keep(r, kept), k + 1) >= n
  {
    hide Sorted, Take, Newer, Distinct, Keep;
    var xs := l + t + r;
    assert xs[|l| + i] == t[i];
    SortedIn(xs, t[i]);
    var p :| 0 <= p < |Sorted(xs)| && Sorted(xs)[p] == t[i];
    CutRow(l, t, r, n, kept, i, p);
    assert Crowded(Sorted(xs), p, kept, n);
  }

  /** What is kept of the tables around a table. */
  lemma KeptAround(a: seq<Transaction>, b: seq<Transaction>, c: seq<Transaction>, n: nat, kept: set<Transaction>,
                   k: int)
    requires KeptTable(a, n, kept) && KeptTable(b, n, kept) && KeptTable(c, n, kept)
    ensures Newer(Keep([], kept), k) == 0
    ensures Newer(Keep(a, kept), k) == Newer(Take(a, n), k) && Newer(Keep(c, kept), k) == Newer(Take(c, n), k)
    ensures Newer(Keep(a + b, kept), k) == Newer(Take(a, n), k) + Newer(Take(b, n), k)
    ensures Newer(Keep(b + c, kept), k) == Newer(Take(b, n), k) + Newer(Take(c, n), k)
  {
    KeepTable(a, n, kept);
    KeepTable(b, n, kept);
    KeepTable(c, n, kept);
    KeepConcat(a, b, kept);
    KeepConcat(b, c, kept);
    NewerConcat(Take(a, n), Take(b, n), k);
    NewerConcat(Take(b, n), Take(c, n), k);
  }

  lemma AllCrowded(a: seq<Transaction>, b: seq<Transaction>, c: seq<Transaction>, n: nat)
    requires Distinct(a + b + c) && LateEnough(Sorted(a + b + c), Rows(Take(a, n) + Take(b, n) + Take(c, n)), n)
    ensures PageComplete(a, b, c, n)
  {
    hide Sorted, Take, Rows, Distinct, Keep, Newer, KeptTable, LateEnough;
    var kept := Rows(Take(a, n) + Take(b, n) + Take(c, n));
    DistinctTables(a, b, c, n);
    forall i | n <= i < |a|
      ensures Newer(Take(a, n), a[i].createdAt) + Newer(Take(b, n), a[i].createdAt + 1) + Newer(Take(c, n),
              a[i].createdAt + 1) >= n
    {
      assert [] + a + (b + c) == a + b + c;
      CutRowCrowded([], a, b + c, n, kept, i);
      KeptAround(a, b, c, n, kept, a[i].createdAt);
      KeptAround(a, b, c, n, kept, a[i].createdAt + 1);
    }
    forall i | n <= i < |b|
      ensures Newer(Take(a, n), b[i].createdAt) + Newer(Take(b, n), b[i].createdAt) + Newer(Take(c, n),
              b[i].createdAt + 1) >= n
    {
      CutRowCrowded(a, b, c, n, kept, i);
      KeptAround(a, b, c, n, kept, b[i].createdAt);
      KeptAround(a, b, c, n, kept, b[i].createdAt + 1);
    }
    forall i | n <= i < |c|
      ensures Newer(Take(a, n), c[i].createdAt) + Newer(Take(b, n), c[i].createdAt) + Newer(Take(c, n),
              c[i].createdAt) >= n
    {
      assert (a + b) + c + [] == a + b + c;
      CutRowCrowded(a + b, c, [], n, kept, i);
      KeptAround(a, b, c, n, kept, c[i].createdAt);
      KeptAround(a, b, c, n, kept, c[i].createdAt + 1);
    }
  }

  /** Limit pushdown over the three tables, exactly: with distinct rows, cutting each table first gives
      the page of the whole history if and only if every cut row would come too late anyway. */
  lemma PushdownIff(a: seq<Transaction>, b: seq<Transaction>, c: seq<Transaction>, n: nat)
    requires Distinct(a + b + c)
    ensures Take(Sorted(a + b + c), n) == Take(Sorted(Take(a, n) + Take(b, n) + Take(c, n)), n)
            <==> PageComplete(a, b, c, n)
  {
    hide Sorted, Distinct, PageComplete, Take, Crowded;
    var kept := Rows(Take(a, n) + Take(b, n) + Take(c, n));
    DistinctTables(a, b, c, n);
    KeepTable(a, n, kept);
    KeepTable(b, n, kept);
    KeepTable(c, n, kept);
    KeepConcat(a + b, c, kept);
    KeepConcat(a, b, kept);
    KeepSorted(a + b + c, kept);
    DropUnseenIff(Sorted(a + b + c), kept, n);
    if PageComplete(a, b, c, n) {
      forall p | 0 <= p < |Sorted(a + b + c)| && Sorted(a + b + c)[p] !in kept
        ensures Crowded(Sorted(a + b + c), p, kept, n)
      {
        CutRows(a, b, c, n, p);
      }
    } else if LateEnough(Sorted(a + b + c), kept, n) {
      AllCrowded(a, b, c, n);
    }
  }

  // ---------------------------------------------------------------- the listing

  function OrderTxs(kind: string, orders: seq<Order>): seq<Transaction> {
    seq(|orders|, i requires 0 <= i < |orders| => FromOrder(kind, orders[i]))
  }

  function LogTxs(logs: seq<Log>): seq<Transaction> {
    seq(|logs|, i requires 0 <= i < |logs| => FromLog(logs[i]))
  }

  lemma PagesCommute(kind: string, orders: seq<Order>, logs: seq<Log>, n: nat)
    ensures OrderTxs(kind, Take(orders, n)) == Take(OrderTxs(kind, orders), n)
    ensures LogTxs(Take(logs, n)) == Take(LogTxs(logs), n)
  {
  }

  function ListedLogs(logs: seq<Log>): seq<Log> {
    if logs == [] then [] else (if Listed(logs[0]) then [logs[0]] else []) + ListedLogs(logs[1..])
  }

  lemma InsertAt(ys: seq<Transaction>, i: nat, x: Transaction, k: int)
    requires i <= |ys| && Desc(ys) && forall j :: i <= j < |ys| ==> ys[j].createdAt < x.createdAt
    ensures At(ys[..i] + [x] + ys[i..], k) == At(ys + [x], k)
  {
    var l, r := ys[..i], ys[i..];
    assert ys == l + r;
    AtConcat(l + [x], r, k);
    AtConcat(l, [x], k);
    AtConcat(l, r, k);
    AtConcat(ys, [x], k);
    if k == x.createdAt {
      AtAbsent(r, k);
    } else {
      assert At([x], k) == [];
    }
  }

  /** Insert `x` behind everything at least as new: one round of a stable insertion sort. */
  method Insert(x: Transaction, ys: seq<Transaction>) returns (zs: seq<Transaction>)
    requires Desc(ys)
    ensures Desc(zs) && forall k :: At(zs, k) == At(ys + [x], k)
  {
    var i := |ys|;
    while i > 0 && ys[i - 1].createdAt < x.createdAt
      invariant 0 <= i <= |ys|
      invariant forall j :: i <= j < |ys| ==> ys[j].createdAt < x.createdAt
    {
      i := i - 1;
    }
    zs := ys[..i] + [x] + ys[i..];
    forall k
      ensures At(zs, k) == At(ys + [x], k)
    {
      InsertAt(ys, i, x, k);
    }
  }

  /** `sort.SliceStable` by creation time descending. */
  method StableSort(xs: seq<Transaction>) returns (ys: seq<Transaction>)
    ensures ys == Sorted(xs)
  {
    ys := [];
    for i := 0 to |xs|
      invariant Desc(ys)
      invariant forall k :: At(ys, k) == At(xs[..i], k)
    {
      ghost var before := ys;
      ys := Insert(xs[i], ys);
      forall k
        ensures At(ys, k) == At(xs[..i + 1], k)
      {
        AtConcat(before, [xs[i]], k);
        AtConcat(xs[..i], [xs[i]], k);
        assert xs[..i + 1] == xs[..i] + [xs[i]];
      }
    }
    assert xs[..|xs|] == xs;
    SortedIsStableSort(xs);
    StableSortUnique(ys, Sorted(xs));
  }

  /** Trade numbers are unique in their tables, ids in the log. */
  ghost predicate KeysDistinct(topUps: seq<Order>, orders: seq<Order>, logs: seq<Log>) {
    && (forall i, j :: 0 <= i < j < |topUps| ==> topUps[i].tradeNo != topUps[j].tradeNo)
    && (forall i, j :: 0 <= i < j < |orders| ==> orders[i].tradeNo != orders[j].tradeNo)
    && (forall i, j :: 0 <= i < j < |logs| ==> logs[i].id != logs[j].id)
  }

  lemma {:induction false} ListedIn(logs: seq<Log>, k: nat)
    requires k < |ListedLogs(logs)|
    ensures ListedLogs(logs)[k] in logs
  {
    if !Listed(logs[0]) {
      ListedIn(logs[1..], k);
    } else if k > 0 {
      ListedIn(logs[1..], k - 1);
      assert ListedLogs(logs)[k] == ListedLogs(logs[1..])[k - 1];
    }
  }

  lemma {:induction false} ListedDistinct(logs: seq<Log>)
    requires forall i, j :: 0 <= i < j < |logs| ==> logs[i].id != logs[j].id
    ensures forall i, j :: 0 <= i < j < |ListedLogs(logs)| ==> ListedLogs(logs)[i].id != ListedLogs(logs)[j].id
  {
    if logs != [] {
      ListedDistinct(logs[1..]);
      forall k | 0 <= k < |ListedLogs(logs[1..])| ensures ListedLogs(logs[1..])[k].id != logs[0].id {
        ListedIn(logs[1..], k);
      }
    }
  }

  lemma RowsDistinct(topUps: seq<Order>, orders: seq<Order>, logs: seq<Log>)
    requires KeysDistinct(topUps, orders, logs)
    ensures Distinct(OrderTxs("topup", topUps) + OrderTxs("subscription", orders) + LogTxs(ListedLogs(logs)))
  {
    ListedDistinct(logs);
    hide ListedLogs;
    var a, b, c := OrderTxs("topup", topUps), OrderTxs("subscription", orders), LogTxs(ListedLogs(logs));
    forall i | 0 <= i < |c| ensures c[i].id == LogId(ListedLogs(logs)[i].id) {
    }
    assert forall i :: 0 <= i < |a| ==> a[i].kind == "topup" && a[i].id == Trade(topUps[i].tradeNo);
    assert forall i :: 0 <= i < |b| ==> b[i].kind == "subscription" && b[i].id == Trade(orders[i].tradeNo);
    assert "topup" != "subscription";
  }

  /** A refund is listed with a negative amount whatever sign it was logged with, an adjustment with none, and
      anything else that is listed as usage. */
  lemma LogLaw(l: Log)
    ensures var t := FromLog(l);
      && t.id == LogId(l.id) && t.createdAt == l.createdAt
      && (l.logType == Refund ==>
            && t.kind == "refund" && t.status == "refunded"
            && t.amount <= 0.0 && (t.amount == l.quota || t.amount == -l.quota))
      && (l.logType == Manage ==> t.kind == "adjustment" && t.status == "paid" && t.amount == 0.0)
      && (l.logType == Consume ==> t.kind == "usage" && t.status == "paid" && t.amount == l.quota)
  {
  }

  /** Each order and each log becomes one transaction in its place. */
  lemma RowsLaw(kind: string, orders: seq<Order>, logs: seq<Log>)
    ensures |OrderTxs(kind, orders)| == |orders| && |LogTxs(logs)| == |logs|
    ensures forall i :: 0 <= i < |orders| ==>
              OrderTxs(kind, orders)[i] == Transaction(Trade(orders[i].tradeNo), kind, orders[i].status,
                                                       orders[i].money, orders[i].createTime)
    ensures forall i :: 0 <= i < |logs| ==> LogTxs(logs)[i] == FromLog(logs[i])
  {
  }

  /** The logs listed are those of consumption, refunds and adjustments. */
  lemma {:induction false} ListedMember(logs: seq<Log>, l: Log)
    ensures l in ListedLogs(logs) <==> l in logs && l.logType in {Consume, Refund, Manage}
  {
    if logs != [] {
      ListedMember(logs[1..], l);
      assert logs == [logs[0]] + logs[1..];
    }
  }

  /** And they are listed in their order. */
  lemma {:induction false} ListedInOrder(a: seq<Log>, b: seq<Log>)
    ensures ListedLogs(a + b) == ListedLogs(a) + ListedLogs(b)
  {
    if a == [] {
      assert a + b == b;
    } else {
      ListedInOrder(a[1..], b);
      ListedFirst(a[0], a[1..]);
      ListedFirst(a[0], a[1..] + b);
      hide ListedLogs;
      assert a == [a[0]] + a[1..] && a + b == [a[0]] + (a[1..] + b);
    }
  }

  lemma ListedFirst(l: Log, logs: seq<Log>)
    ensures ListedLogs([l] + logs) == (if Listed(l) then [l] else []) + ListedLogs(logs)
  {
    assert ([l] + logs)[1..] == logs;
  }

  /** `listGasterCodeBillingTransactions` over the user's rows, each table newest id first.  It is the
      page of the whole history if and only if no cut row belongs on it. */
  method ListTransactions(topUps: seq<Order>, orders: seq<Order>, logs: seq<Log>)
    returns (transactions: seq<Transaction>)
    ensures |transactions| <= 100 && transactions ==
            Take(Sorted(Take(OrderTxs("topup", topUps), 100) + Take(OrderTxs("subscription", orders), 100)
                        + Take(LogTxs(ListedLogs(logs)), 100)), 100)
    ensures NoStraggler(OrderTxs("topup", topUps), 100) && NoStraggler(OrderTxs("subscription", orders), 100)
            && NoStraggler(LogTxs(ListedLogs(logs)), 100) ==>
              transactions == Take(Sorted(OrderTxs("topup", topUps) + OrderTxs("subscription", orders)
                                          + LogTxs(ListedLogs(logs))), 100)
    ensures KeysDistinct(topUps, orders, logs) ==>
              (transactions == Take(Sorted(OrderTxs("topup", topUps) + OrderTxs("subscription", orders)
                                           + LogTxs(ListedLogs(logs))), 100)
               <==> PageComplete(OrderTxs("topup", topUps), OrderTxs("subscription", orders),
                   LogTxs(ListedLogs(logs)), 100))
  {
    transactions := [];
    var page := Take(topUps, LIMIT);
    for i := 0 to |page|
      invariant transactions == OrderTxs("topup", page[..i])
    {
      transactions := transactions + [FromOrder("topup", page[i])];
    }
    assert page[..|page|] == page;
    ghost var first := transactions;
    page := Take(orders, LIMIT);
    for i := 0 to |page|
      invariant transactions == first + OrderTxs("subscription", page[..i])
    {
      transactions := transactions + [FromOrder("subscription", page[i])];
    }
    assert page[..|page|] == page;
    ghost var second := transactions;
    var logPage := Take(ListedLogs(logs), LIMIT);
    for i := 0 to |logPage|
      invariant transactions == second + LogTxs(logPage[..i])
    {
      transactions := transactions + [FromLog(logPage[i])];
    }
    assert logPage[..|logPage|] == logPage;
    transactions := StableSort(transactions);
    if |transactions| > LIMIT {
      transactions := transactions[..LIMIT];
    }
    ghost var a, b, c := OrderTxs("topup", topUps), OrderTxs("subscription", orders), LogTxs(ListedLogs(logs));
    PagesCommute("topup", topUps, ListedLogs(logs), LIMIT);
    PagesCommute("subscription", orders, ListedLogs(logs), LIMIT);
    hide OrderTxs, LogTxs, ListedLogs, Sorted, PageComplete, NoStraggler, Distinct;
    if NoStraggler(a, LIMIT) && NoStraggler(b, LIMIT) && NoStraggler(c, LIMIT) {
      LimitPushdown(a, b, c, LIMIT);
    }
    if KeysDistinct(topUps, orders, logs) {
      RowsDistinct(topUps, orders, logs);
      PushdownIff(a, b, c, LIMIT);
    }
  }

  /** An input on which the listing misses a transaction.  Completing a subscription order inserts a
      top-up with the order's own, older creation time, so a hundred such top-ups can carry newer ids
      than `x` and yet be older: then `x` heads the history and is not listed. */
  lemma LateInsertsHide(late: seq<Order>, x: Order)
    requires |late| == LIMIT && forall i :: 0 <= i < LIMIT ==> late[i].createTime < x.createTime
    ensures var a := OrderTxs("topup", late + [x]);
            && Sorted(a + [] + [])[0] == FromOrder("topup", x)
            && Take(Sorted(a + [] + []), LIMIT) != Take(Sorted(Take(a, LIMIT) + Take([], LIMIT) + Take([], LIMIT)),
                LIMIT)
            && FromOrder("topup", x) !in Take(Sorted(Take(a, LIMIT) + Take([], LIMIT) + Take([], LIMIT)), LIMIT)
  {
    var kept, t := OrderTxs("topup", late), FromOrder("topup", x);
    var a := OrderTxs("topup", late + [x]);
    assert a == kept + [t] && Take(a, LIMIT) == kept;
    assert a + [] + [] == a && Take(a, LIMIT) + Take([], LIMIT) + Take([], LIMIT) == kept;
    SortedConcat(kept, [t]);
    SortedLength(kept);
    SortedIn(kept, t);
    assert forall i :: 0 <= i < LIMIT ==> kept[i].createdAt < t.createdAt;
    assert Sorted(kept)[0] in Sorted(kept);
    SortedIn(kept, Sorted(kept)[0]);
    assert [t][1..] == [] && Sorted([t]) == [t];
    MergeStep(Sorted(kept), [t]);
    assert Sorted(a)[0] == t;
    SortedLength(a);
    TakeWithin(Sorted(kept), LIMIT);
    assert Take(Sorted(a), LIMIT)[0] == t;
  }
}
