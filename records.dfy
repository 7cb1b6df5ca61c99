/** The one persisted entity, a transaction record, and the views of it that
    several components share. */
module Records {
  import opened Wrappers
  import opened Text
  import Seqs

  const INCOME := "income"
  const EXPENSE := "expense"

  /** A transaction. `kind` is the record's `type` field: `None` when the field
      is absent (records created by the form of src/App.tsx and legacy records
      carry none); any string may appear in imported data. Amounts are
      integers. */
  datatype Transaction = Transaction(
    id: string,
    date: string,
    amount: int,
    category: string,
    description: string,
    kind: Option<string>,
    createdAt: int)

  predicate IsIncome(t: Transaction) {
    t.kind == Some(INCOME)
  }

  predicate IsExpense(t: Transaction) {
    t.kind == Some(EXPENSE)
  }

  function AmountOf(t: Transaction): int {
    t.amount
  }

  /** `ts.reduce((sum, t) => sum + t.amount, 0)`. */
  function Total(ts: seq<Transaction>): int {
    Seqs.SumOf(ts, AmountOf)
  }

  function IdSet(ts: seq<Transaction>): set<string> {
    set t | t in ts :: t.id
  }

  predicate DistinctIds(ts: seq<Transaction>) {
    forall i, j :: 0 <= i < j < |ts| ==> ts[i].id != ts[j].id
  }

  /** `a` may come before `b` under `(a, b) => b.date.localeCompare(a.date)`,
      the date-descending order used after imports and by the preset data. */
  predicate DateDescLe(a: Transaction, b: Transaction) {
    LexLe(b.date, a.date)
  }

  lemma DateDescIsPreorder()
    ensures forall a, b :: DateDescLe(a, b) || DateDescLe(b, a)
    ensures forall a, b, c :: DateDescLe(a, b) && DateDescLe(b, c) ==> DateDescLe(a, c)
  {
    forall a, b ensures DateDescLe(a, b) || DateDescLe(b, a) {
      LexLeTotal(a.date, b.date);
    }
    forall a, b, c | DateDescLe(a, b) && DateDescLe(b, c) ensures DateDescLe(a, c) {
      LexLeTransitive(c.date, b.date, a.date);
    }
  }

  /** `[...ts].sort((a, b) => b.date.localeCompare(a.date))`. */
  function SortByDateDesc(ts: seq<Transaction>): (r: seq<Transaction>)
    ensures multiset(r) == multiset(ts)
    ensures forall i, j :: 0 <= i < j < |r| ==> LexLe(r[j].date, r[i].date)
  {
    DateDescIsPreorder();
    Seqs.SortBySorted(ts, DateDescLe);
    Seqs.SortBy(ts, DateDescLe)
  }

  /** Sorting neither drops nor adds a record. */
  lemma SortKeepsRecords(ts: seq<Transaction>)
    ensures |SortByDateDesc(ts)| == |ts|
    ensures forall t :: t in SortByDateDesc(ts) <==> t in ts
  {
    var r := SortByDateDesc(ts);
    assert |r| == |multiset(r)| == |multiset(ts)| == |ts|;
    forall t
      ensures t in r <==> t in ts
    {
      assert t in r <==> t in multiset(r);
      assert t in ts <==> t in multiset(ts);
    }
  }

  /** Appending a record adds its id to the id set. */
  lemma IdSetAppend(ts: seq<Transaction>, t: Transaction)
    ensures IdSet(ts + [t]) == IdSet(ts) + {t.id}
  {
    forall x | x in IdSet(ts + [t]) ensures x in IdSet(ts) + {t.id} {
      var u :| u in ts + [t] && u.id == x;
      if u != t {
        assert u in ts;
      }
    }
    forall x | x in IdSet(ts) ensures x in IdSet(ts + [t]) {
      var u :| u in ts && u.id == x;
      assert u in ts + [t];
    }
    assert t in ts + [t];
  }

  /** Records that are a permutation of each other have the same id set. */
  lemma IdSetOfPermutation(a: seq<Transaction>, b: seq<Transaction>)
    requires multiset(a) == multiset(b)
    ensures IdSet(a) == IdSet(b)
  {
    forall x | x in IdSet(a) ensures x in IdSet(b) {
      var t :| t in a && t.id == x;
      assert t in multiset(b);
    }
    forall x | x in IdSet(b) ensures x in IdSet(a) {
      var t :| t in b && t.id == x;
      assert t in multiset(a);
    }
  }

  function IdOf(t: Transaction): string {
    t.id
  }

  /** Reordering records keeps their ids pairwise distinct. */
  lemma DistinctIdsOfPermutation(a: seq<Transaction>, b: seq<Transaction>)
    requires multiset(a) == multiset(b) && DistinctIds(a)
    ensures DistinctIds(b)
  {
    assert Seqs.DistinctBy(a, IdOf);
    Seqs.DistinctByOfPermutation(a, b, IdOf);
  }
}
