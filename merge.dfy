/** src/utils/transactions.ts: merging imported records into the existing
    list, renaming every imported id that collides with an id already in use
    to `<id>_import_<n>`, with one counter `n` shared by the whole merge. */
module Merge {
  import opened Text
  import opened Records

  const IMPORT_INFIX := "_import_"

  /** The template `${id}_import_${suffix}`. */
  function ImportId(base: string, n: nat): string {
    base + IMPORT_INFIX + NatToString(n)
  }

  lemma ImportIdInjective(base: string, j: nat, k: nat)
    ensures ImportId(base, j) == ImportId(base, k) ==> j == k
  {
    if ImportId(base, j) == ImportId(base, k) {
      assert ImportId(base, j)[|base| + 8..] == NatToString(j);
      assert ImportId(base, k)[|base| + 8..] == NatToString(k);
      NatToStringInjective(j, k);
    }
  }

  /** The ids in `used` that the renaming loop may still try once the counter
      has reached `k`: `ImportId(base, j)` for some `j >= k`. */
  ghost function ImportsFrom(used: set<string>, base: string, k: nat): set<string> {
    set u | u in used && exists j: nat :: j >= k && u == ImportId(base, j)
  }

  /** Trying a used candidate takes it out of what is left to try. */
  lemma ImportsFromShrinks(used: set<string>, base: string, k: nat)
    requires ImportId(base, k) in used
    ensures ImportsFrom(used, base, k + 1) < ImportsFrom(used, base, k)
  {
    assert ImportId(base, k) in ImportsFrom(used, base, k);
    if ImportId(base, k) in ImportsFrom(used, base, k + 1) {
      var j: nat :| j >= k + 1 && ImportId(base, k) == ImportId(base, j);
      ImportIdInjective(base, j, k);
    }
  }

  /** The `while` of lines 9-12, started from `candidate` with the counter
      at `suffix`: the first candidate not in `used`, and the counter then. */
  function Probe(used: set<string>, base: string, candidate: string, suffix: nat): (string, nat)
    requires candidate == base || candidate == ImportId(base, suffix)
    decreases if candidate == base then 1 else 0, ImportsFrom(used, base, suffix)
  {
    if candidate !in used then (candidate, suffix)
    else
      assert |ImportId(base, suffix + 1)| > |base|;
      if candidate == base then Probe(used, base, ImportId(base, suffix + 1), suffix + 1)
      else
        ImportsFromShrinks(used, base, suffix);
        Probe(used, base, ImportId(base, suffix + 1), suffix + 1)
  }

  /** The new id of one incoming record whose id is `base`, and the counter
      afterwards. */
  function Rename(used: set<string>, base: string, suffix: nat): (string, nat) {
    Probe(used, base, base, suffix)
  }

  /** Once renaming has started, the result is an import id with a counter
      no smaller than the current one, and it is free. */
  lemma {:induction false} ProbeImport(used: set<string>, base: string, suffix: nat)
    ensures var (id, n) := Probe(used, base, ImportId(base, suffix), suffix);
      id !in used && n >= suffix && id == ImportId(base, n)
    decreases ImportsFrom(used, base, suffix)
  {
    assert |ImportId(base, suffix)| > |base|;
    if ImportId(base, suffix) in used {
      ImportsFromShrinks(used, base, suffix);
      ProbeImport(used, base, suffix + 1);
    }
  }

  /** What one pass of the `map` callback does: an id keeps its value exactly
      when it is free, otherwise it becomes `<id>_import_<n>` with the counter
      advanced to `n`; either way the new id is free. */
  lemma RenameSpec(used: set<string>, base: string, suffix: nat)
    ensures var (id, n) := Rename(used, base, suffix);
      && id !in used
      && (id == base <==> base !in used)
      && (base !in used ==> n == suffix)
      && (base in used ==> n > suffix && id == ImportId(base, n))
  {
    if base in used {
      assert |ImportId(base, suffix + 1)| > |base|;
      ProbeImport(used, base, suffix + 1);
    }
  }

  /** The state after the `map` of lines 7-15 has handled `incoming`:
      the renamed records, the used-id set, the counter, and the counter's
      value after each record. */
  datatype Renaming = Renaming(records: seq<Transaction>, used: set<string>, suffix: nat, counters: seq<nat>)

  function RenameAll(used: set<string>, incoming: seq<Transaction>): (r: Renaming)
    ensures |r.records| == |incoming| == |r.counters|
    ensures forall k :: 0 <= k < |incoming| ==> r.records[k] == incoming[k].(id := r.records[k].id)
    decreases |incoming|
  {
    if incoming == [] then Renaming([], used, 0, [])
    else
      var prev := RenameAll(used, incoming[..|incoming| - 1]);
      var t := incoming[|incoming| - 1];
      var (id, suffix) := Rename(prev.used, t.id, prev.suffix);
      Renaming(prev.records + [t.(id := id)], prev.used + {id}, suffix, prev.counters + [suffix])
  }

  /** `mergeTransactions(existing, incoming)`. */
  function Merged(existing: seq<Transaction>, incoming: seq<Transaction>): seq<Transaction> {
    RenameAll(IdSet(existing), incoming).records + existing
  }

  /** The merge as the source performs it: a used-id set and a counter updated
      record by record, with the renaming `while` nested in the loop over the
      incoming records. */
  method MergeTransactions(existing: seq<Transaction>, incoming: seq<Transaction>)
    returns (merged: seq<Transaction>)
    ensures merged == Merged(existing, incoming)
    ensures |merged| == |incoming| + |existing| && merged[|incoming|..] == existing
  {
    var usedIds := IdSet(existing);
    var suffix := 0;
    var normalized := [];
    for i := 0 to |incoming|
      invariant RenameAll(IdSet(existing), incoming[..i]) == Renaming(normalized, usedIds, suffix, RenameAll(IdSet(existing), incoming[..i]).counters)
    {
      var t := incoming[i];
      assert incoming[..i + 1][..i] == incoming[..i];
      ghost var start := suffix;
      var nextId := t.id;
      while nextId in usedIds
        invariant nextId == t.id || nextId == ImportId(t.id, suffix)
        invariant Probe(usedIds, t.id, nextId, suffix) == Rename(usedIds, t.id, start)
        decreases if nextId == t.id then 1 else 0, ImportsFrom(usedIds, t.id, suffix)
      {
        assert |ImportId(t.id, suffix + 1)| > |t.id|;
        if nextId != t.id {
          ImportsFromShrinks(usedIds, t.id, suffix);
        }
        suffix := suffix + 1;
        nextId := ImportId(t.id, suffix);
      }
      usedIds := usedIds + {nextId};
      normalized := normalized + [t.(id := nextId)];
    }
    assert incoming[..|incoming|] == incoming;
    merged := normalized + existing;
  }

  // ----- Properties of the renaming -----

  /** The used set is the starting set plus every assigned id, and no
      assigned id is in the starting set or repeated. */
  lemma {:induction false} RenameAllFresh(used: set<string>, incoming: seq<Transaction>)
    ensures var r := RenameAll(used, incoming);
      && r.used == used + IdSet(r.records)
      && (forall k :: 0 <= k < |r.records| ==> r.records[k].id !in used)
      && DistinctIds(r.records)
    decreases |incoming|
  {
    if incoming != [] {
      var prev := RenameAll(used, incoming[..|incoming| - 1]);
      RenameAllFresh(used, incoming[..|incoming| - 1]);
      var t := incoming[|incoming| - 1];
      RenameSpec(prev.used, t.id, prev.suffix);
      var (id, _) := Rename(prev.used, t.id, prev.suffix);
      var records := prev.records + [t.(id := id)];
      IdSetAppend(prev.records, t.(id := id));
      forall k | 0 <= k < |prev.records| ensures prev.records[k].id != id {
        assert prev.records[k] in prev.records;
      }
    }
  }

  /** An incoming id is kept exactly when it is neither an existing id nor
      one assigned to an earlier incoming record. */
  lemma {:induction false} RenameAllKeeps(used: set<string>, incoming: seq<Transaction>)
    ensures var r := RenameAll(used, incoming);
      forall k :: 0 <= k < |incoming| ==>
        (r.records[k].id == incoming[k].id <==> incoming[k].id !in used + IdSet(r.records[..k]))
    decreases |incoming|
  {
    if incoming != [] {
      var n := |incoming| - 1;
      var prev := RenameAll(used, incoming[..n]);
      var r := RenameAll(used, incoming);
      RenameAllKeeps(used, incoming[..n]);
      RenameLastKept(used, incoming);
      assert r.records[..n] == prev.records;
      forall k | 0 <= k < n
        ensures r.records[k].id == incoming[k].id <==> incoming[k].id !in used + IdSet(r.records[..k])
      {
        assert r.records[..k] == prev.records[..k];
        assert incoming[..n][k] == incoming[k];
      }
    }
  }

  /** The last incoming record keeps its id exactly when it is free. */
  lemma RenameLastKept(used: set<string>, incoming: seq<Transaction>)
    requires incoming != []
    ensures var n, r := |incoming| - 1, RenameAll(used, incoming);
      r.records[n].id == incoming[n].id <==> incoming[n].id !in used + IdSet(r.records[..n])
  {
    var n := |incoming| - 1;
    var prev := RenameAll(used, incoming[..n]);
    var r := RenameAll(used, incoming);
    RenameAllFresh(used, incoming[..n]);
    RenameSpec(prev.used, incoming[n].id, prev.suffix);
    assert r.records[..n] == prev.records;
  }

  /** A renamed record's id is `<original>_import_<n>`, where `n >= 1` is
      the counter's value after that record. */
  lemma {:induction false} RenameAllImportForm(used: set<string>, incoming: seq<Transaction>)
    ensures var r := RenameAll(used, incoming);
      forall k :: 0 <= k < |incoming| && r.records[k].id != incoming[k].id ==>
        r.counters[k] >= 1 && r.records[k].id == ImportId(incoming[k].id, r.counters[k])
    decreases |incoming|
  {
    if incoming != [] {
      var n := |incoming| - 1;
      var prev := RenameAll(used, incoming[..n]);
      var r := RenameAll(used, incoming);
      RenameAllImportForm(used, incoming[..n]);
      RenameLastImportForm(used, incoming);
      forall k | 0 <= k < n
        ensures incoming[..n][k] == incoming[k] && r.records[k] == prev.records[k] && r.counters[k] == prev.counters[k]
      {
      }
    }
  }

  /** A renamed last record's id is `<original>_import_<n>` for its counter. */
  lemma RenameLastImportForm(used: set<string>, incoming: seq<Transaction>)
    requires incoming != []
    ensures var n, r := |incoming| - 1, RenameAll(used, incoming);
      r.records[n].id != incoming[n].id ==> r.counters[n] >= 1 && r.records[n].id == ImportId(incoming[n].id, r.counters[n])
  {
    var n := |incoming| - 1;
    var prev := RenameAll(used, incoming[..n]);
    RenameSpec(prev.used, incoming[n].id, prev.suffix);
  }

  /** The counter never goes down: each record's counter is at most the
      final one. */
  lemma {:induction false} RenameAllCountersBounded(used: set<string>, incoming: seq<Transaction>)
    ensures var r := RenameAll(used, incoming);
      forall k :: 0 <= k < |incoming| ==> r.counters[k] <= r.suffix
    decreases |incoming|
  {
    if incoming != [] {
      var n := |incoming| - 1;
      var prev := RenameAll(used, incoming[..n]);
      var r := RenameAll(used, incoming);
      RenameAllCountersBounded(used, incoming[..n]);
      RenameSpec(prev.used, incoming[n].id, prev.suffix);
      assert forall k :: 0 <= k < |incoming[..n]| ==>
        RenameAll(used, incoming[..n]).counters[k] <= RenameAll(used, incoming[..n]).suffix;
      assert r.counters == prev.counters + [r.suffix];
    }
  }

  /** The counter is shared by the whole merge and goes up at every renamed
      record, so a renamed record's counter is larger than that of every
      record before it: renamed records get strictly increasing suffixes. */
  lemma {:induction false} RenameAllCounters(used: set<string>, incoming: seq<Transaction>)
    ensures var r := RenameAll(used, incoming);
      forall k, l :: 0 <= k < l < |incoming| && r.records[l].id != incoming[l].id ==>
        r.counters[k] < r.counters[l]
    decreases |incoming|
  {
    if incoming != [] {
      var n := |incoming| - 1;
      var prev := RenameAll(used, incoming[..n]);
      var r := RenameAll(used, incoming);
      RenameAllCounters(used, incoming[..n]);
      RenameAllCountersBounded(used, incoming[..n]);
      RenameSpec(prev.used, incoming[n].id, prev.suffix);
      assert forall k :: 0 <= k < |incoming[..n]| ==>
        RenameAll(used, incoming[..n]).counters[k] <= RenameAll(used, incoming[..n]).suffix;
      assert forall k, l :: 0 <= k < l < |incoming[..n]| && RenameAll(used, incoming[..n]).records[l].id != incoming[..n][l].id ==>
        RenameAll(used, incoming[..n]).counters[k] < RenameAll(used, incoming[..n]).counters[l];
      assert r.counters == prev.counters + [r.suffix];
      forall k, l | 0 <= k < l < |incoming| && r.records[l].id != incoming[l].id
        ensures r.counters[k] < r.counters[l]
      {
        if l < n {
          assert incoming[..n][l] == incoming[l] && r.records[l] == prev.records[l];
        }
      }
    }
  }

  /** Consequence: two renamed records never share a suffix. */
  lemma RenamedSuffixesDistinct(used: set<string>, incoming: seq<Transaction>, k: nat, l: nat)
    requires k < l < |incoming|
    requires var r := RenameAll(used, incoming);
      r.records[k].id != incoming[k].id && r.records[l].id != incoming[l].id
    ensures var r := RenameAll(used, incoming);
      exists n, m :: 1 <= n < m
        && r.records[k].id == ImportId(incoming[k].id, n)
        && r.records[l].id == ImportId(incoming[l].id, m)
  {
    var r := RenameAll(used, incoming);
    RenameAllImportForm(used, incoming);
    RenameAllCounters(used, incoming);
    RenameAllCountersBounded(used, incoming);
    assert r.records[k].id == ImportId(incoming[k].id, r.counters[k]);
    assert r.records[l].id == ImportId(incoming[l].id, r.counters[l]);
  }

  /** Merging keeps every record: the renamed incoming records first, in
      their order, then the existing records unchanged; all ids are distinct
      when the existing ones are. */
  lemma MergedProperties(existing: seq<Transaction>, incoming: seq<Transaction>)
    ensures var m := Merged(existing, incoming);
      && |m| == |incoming| + |existing|
      && m[|incoming|..] == existing
      && (forall k :: 0 <= k < |incoming| ==> m[k] == incoming[k].(id := m[k].id))
      && (forall k :: 0 <= k < |incoming| ==> m[k].id !in IdSet(existing))
      && (DistinctIds(existing) ==> DistinctIds(m))
  {
    var r := RenameAll(IdSet(existing), incoming);
    var m := Merged(existing, incoming);
    RenameAllFresh(IdSet(existing), incoming);
    if DistinctIds(existing) {
      forall i, j | 0 <= i < j < |m| ensures m[i].id != m[j].id {
        if j >= |incoming| && i < |incoming| {
          assert m[j] == existing[j - |incoming|];
          assert m[j].id in IdSet(existing);
        } else if i >= |incoming| {
          assert m[i] == existing[i - |incoming|] && m[j] == existing[j - |incoming|];
        }
      }
    }
  }

  // ----- The scenarios of src/utils/transactions.test.ts -----

  function Sample(id: string): Transaction {
    Transaction(id, "2025-01-01", 1000, "Продукты", "", Wrappers.Some(EXPENSE), 1)
  }

  lemma MergeAppendsImported()
    ensures var m := Merged([Sample("e1")], [Sample("i1"), Sample("i2")]);
      && |m| == 3 && m[0].id == "i1" && m[1].id == "i2" && m[2].id == "e1"
  {
    var used := IdSet([Sample("e1")]);
    assert used == {"e1"} by {
      assert Sample("e1") in [Sample("e1")];
    }
    var incoming := [Sample("i1"), Sample("i2")];
    assert incoming[..1] == [Sample("i1")] && [Sample("i1")][..0] == [];
    RenameSpec(used, "i1", 0);
    var first := RenameAll(used, [Sample("i1")]);
    assert first.records == [Sample("i1")] && first.used == used + {"i1"} && first.suffix == 0;
    RenameSpec(used + {"i1"}, "i2", 0);
    var both := RenameAll(used, incoming);
    assert both.records == [Sample("i1"), Sample("i2")];
  }

  lemma MergeRenamesDuplicate()
    ensures var m := Merged([Sample("same")], [Sample("same")]);
      && |m| == 2 && m[0].id == ImportId("same", 1) && m[1].id == "same"
      && StartsWith(m[0].id, "same_import_")
  {
    var used := IdSet([Sample("same")]);
    assert used == {"same"} by {
      assert Sample("same") in [Sample("same")];
    }
    assert [Sample("same")][..0] == [];
    assert "same" in used;
    assert ImportId("same", 1) !in used by {
      assert |ImportId("same", 1)| > 4;
    }
    assert ImportId("same", 1) == "same_import_1" by {
      assert NatToString(1) == [DigitChar(1)];
    }
  }
}
