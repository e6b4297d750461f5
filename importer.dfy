/** The import command's batch: every identified record of the CRM payload
    is mapped, validated and stored under its reference, with a count of
    successes and failures; a TypeError ends the run. */
module Importer {
  import opened Php
  import opened Extraction
  import opened Mapper
  import opened Validation

  /** What one turn of the loop makes of a record, with the stored references
      left out: the run stops (a TypeError), the record is counted as an
      error, or it is a candidate for the store under `key`, which it enters
      unless `key` is already stored. */
  datatype Verdict<R> = Halt | Reject | Candidate(key: string, rec: R)

  /** The listings table keyed by reference, the two counters, and whether a
      TypeError has ended the run. */
  datatype Progress<R> = Progress(store: map<string, R>, success: nat, errors: nat, halted: bool)

  /** One turn of the loop; once halted nothing changes. */
  function Step<R>(p: Progress<R>, v: Verdict<R>): (q: Progress<R>)
    ensures p.halted ==> q == p
    ensures q.halted <==> p.halted || v.Halt?
    ensures !q.halted ==> q.success + q.errors == p.success + p.errors + 1
    ensures q.success == p.success + 1 <==> !p.halted && v.Candidate? && v.key !in p.store
    ensures q.success == p.success + 1 ==> q.store == p.store[v.key := v.rec]
    ensures q.success != p.success + 1 ==> q.success == p.success && q.store == p.store
  {
    if p.halted then p
    else match v
      case Halt => p.(halted := true)
      case Reject => p.(errors := p.errors + 1)
      case Candidate(key, rec) =>
        if key !in p.store then p.(store := p.store[key := rec], success := p.success + 1)
        else p.(errors := p.errors + 1)
  }

  /** The run over the verdicts, in order, starting from `store` with both
      counters at zero. */
  function ImportAll<R>(vs: seq<Verdict<R>>, store: map<string, R>): (p: Progress<R>)
    ensures p.success + p.errors <= |vs|
    ensures !p.halted ==> p.success + p.errors == |vs|
    ensures |p.store| == |store| + p.success
    ensures store.Keys <= p.store.Keys
    decreases |vs|
  {
    if |vs| == 0 then Progress(store, 0, 0, false)
    else
      var n := |vs| - 1;
      Step(ImportAll(vs[..n], store), vs[n])
  }

  /** One more verdict is one more turn of the loop. */
  lemma ImportAllSnoc<R>(vs: seq<Verdict<R>>, i: nat, store: map<string, R>)
    requires i < |vs|
    ensures ImportAll(vs[..i + 1], store) == Step(ImportAll(vs[..i], store), vs[i])
  {
    assert vs[..i + 1][..i] == vs[..i];
  }

  /** Every listing the run adds was a candidate under its own key, and what
      was stored before keeps its entry. */
  lemma {:induction false} StoredListings<R>(vs: seq<Verdict<R>>, store: map<string, R>)
    ensures var p := ImportAll(vs, store);
      forall k :: k in p.store ==>
        (k in store && p.store[k] == store[k]) || Candidate(k, p.store[k]) in vs
    decreases |vs|
  {
    if |vs| > 0 {
      var n := |vs| - 1;
      StoredListings(vs[..n], store);
      forall k | k in ImportAll(vs, store).store
        ensures (k in store && ImportAll(vs, store).store[k] == store[k]) ||
                Candidate(k, ImportAll(vs, store).store[k]) in vs
      {
        var p := ImportAll(vs[..n], store);
        if k in p.store {
          assert ImportAll(vs, store).store[k] == p.store[k];
          if Candidate(k, p.store[k]) in vs[..n] {
            assert vs[..n] <= vs;
          }
        }
      }
    }
  }

  /** A rejected record between two new ones costs only itself: both others
      are stored and counted. */
  lemma IsolationExample<R>(store: map<string, R>, k1: string, r1: R, k3: string, r3: R)
    requires k1 != k3 && k1 !in store && k3 !in store
    ensures var p := ImportAll([Candidate(k1, r1), Reject, Candidate(k3, r3)], store);
      p.success == 2 && p.errors == 1 && !p.halted && p.store == store[k1 := r1][k3 := r3]
  {
    var vs := [Candidate(k1, r1), Reject, Candidate(k3, r3)];
    assert vs[..2][..1] == [Candidate(k1, r1)] && vs[..2][..1][..0] == [];
    assert ImportAll(vs[..2][..1], store) == Progress(store[k1 := r1], 1, 0, false);
  }

  /** A TypeError on the middle record instead ends the run there: the third
      record is neither stored nor counted. */
  lemma HaltExample<R>(store: map<string, R>, k1: string, r1: R, k3: string, r3: R)
    requires k1 != k3 && k1 !in store && k3 !in store
    ensures var p := ImportAll([Candidate(k1, r1), Halt, Candidate(k3, r3)], store);
      p.success == 1 && p.errors == 0 && p.halted && p.store == store[k1 := r1] && k3 !in p.store
  {
    var vs := [Candidate(k1, r1), Halt, Candidate(k3, r3)];
    assert vs[..2][..1] == [Candidate(k1, r1)] && vs[..2][..1][..0] == [];
    assert ImportAll(vs[..2][..1], store) == Progress(store[k1 := r1], 1, 0, false);
  }

  /** A TypeError ends the run: the records after it change nothing. */
  lemma {:induction false} HaltedStays<R>(vs: seq<Verdict<R>>, j: nat, store: map<string, R>)
    requires j <= |vs|
    requires ImportAll(vs[..j], store).halted
    ensures ImportAll(vs, store) == ImportAll(vs[..j], store)
    decreases |vs| - j
  {
    if j < |vs| {
      var n := |vs| - 1;
      assert vs[..n][..j] == vs[..j];
      HaltedStays(vs[..n], j, store);
    } else {
      assert vs[..j] == vs;
    }
  }

  /** The store only grows along the run. */
  lemma {:induction false} StoreGrows<R>(vs: seq<Verdict<R>>, j: nat, store: map<string, R>)
    requires j <= |vs|
    ensures ImportAll(vs[..j], store).store.Keys <= ImportAll(vs, store).store.Keys
    decreases |vs| - j
  {
    if j < |vs| {
      var n := |vs| - 1;
      assert vs[..n][..j] == vs[..j];
      StoreGrows(vs[..n], j, store);
    } else {
      assert vs[..j] == vs;
    }
  }

  /** Running the same verdicts a second time, on the store the first run
      left, stores nothing new: each candidate either entered the store the
      first time or found its key taken, and keys stay taken. */
  lemma ReimportAddsNothing<R>(vs: seq<Verdict<R>>, store: map<string, R>)
    ensures var first := ImportAll(vs, store);
      var second := ImportAll(vs, first.store);
      second.success == 0 && second.store == first.store
  {
    var first := ImportAll(vs, store);
    ReimportPrefix(vs, |vs|, store, first.store);
    assert vs[..|vs|] == vs;
  }

  /** A run whose candidates all carry references the store already holds,
      as a later import of the same CRM records does whatever its clock reads,
      stores nothing and counts no success. */
  lemma {:induction false} KnownKeysAddNothing<R>(vs: seq<Verdict<R>>, store: map<string, R>)
    requires forall k :: 0 <= k < |vs| && vs[k].Candidate? ==> vs[k].key in store
    ensures ImportAll(vs, store).success == 0 && ImportAll(vs, store).store == store
    decreases |vs|
  {
    if |vs| > 0 {
      var n := |vs| - 1;
      forall k | 0 <= k < n && vs[..n][k].Candidate?
        ensures vs[..n][k].key in store
      {
        assert vs[..n][k] == vs[k];
      }
      KnownKeysAddNothing(vs[..n], store);
    }
  }

  lemma {:induction false} ReimportPrefix<R>(vs: seq<Verdict<R>>, j: nat, store: map<string, R>, done: map<string, R>)
    requires j <= |vs|
    requires done == ImportAll(vs, store).store
    ensures var second := ImportAll(vs[..j], done);
      second.success == 0 && second.store == done &&
      second.halted == ImportAll(vs[..j], store).halted
    decreases j
  {
    if j > 0 {
      var n := j - 1;
      assert vs[..j][..n] == vs[..n];
      ReimportPrefix(vs, n, store, done);
      var before := ImportAll(vs[..n], store);
      assert vs[..j][n] == vs[n];
      if !before.halted && vs[n].Candidate? && vs[n].key !in done {
        StoreGrows(vs, n, store);
        StoreGrows(vs, j, store);
        assert false;
      }
    }
  }

  // ---------------------------------------------------------------------------
  // The command's own records

  /** What outside the program a run takes: the `uniqid()` value and the
      clock reading for the record at each position, and the date parser. */
  datatype Env = Env(uniq: nat -> string, now: nat -> string, parseDate: string -> Option<string>)

  /** The verdict on a mapping outcome: a TypeError halts, a mapping
      exception or a listing that breaks a rule other than `unique` is an
      error, and any other listing is a candidate under its reference. */
  function Judge(out: MapOutcome): (v: Verdict<Record>)
    ensures v.Halt? <==> out.Crashed?
    ensures v.Candidate? <==> out.Mapped? && Conforms(out.rec)
    ensures v.Candidate? ==> v.rec == out.rec && out.rec.refNo == JStr(v.key)
  {
    match out
    case Crashed(_) => Halt
    case Failed(_) => Reject
    case Mapped(rec) => if Conforms(rec) then Candidate(rec.refNo.s, rec) else Reject
  }

  /** The verdict reproduces the validator: a mapped listing passes exactly
      when it is a candidate whose key is not yet stored. */
  lemma JudgeValid(out: MapOutcome, refs: set<string>)
    requires out.Mapped?
    ensures Valid(out.rec, refs) <==> Judge(out).Candidate? && Judge(out).key !in refs
  {
  }

  /** The outcome of mapping each keyed record, the one at position `k` with
      the `uniqid()` value and clock reading of turn `k`. */
  function Outcomes(records: seq<Keyed>, env: Env): (outs: seq<MapOutcome>)
    ensures |outs| == |records|
    ensures forall k :: 0 <= k < |records| && Classify(records[k].0).IntegerString? ==>
      outs[k] == MapProperty(FieldMap(records[k].1), env.uniq(k), env.now(k), env.parseDate)
  {
    seq(|records|, k requires 0 <= k < |records| =>
      MapEntry(records[k].0, FieldMap(records[k].1), env.uniq(k), env.now(k), env.parseDate))
  }

  function Verdicts(outs: seq<MapOutcome>): (vs: seq<Verdict<Record>>)
    ensures |vs| == |outs|
  {
    seq(|outs|, k requires 0 <= k < |outs| => Judge(outs[k]))
  }

  /** Every listing a run stores passed validation when it was stored, and
      is stored under its own reference. */
  lemma StoredAreValid(outs: seq<MapOutcome>, store: map<string, Record>)
    ensures var p := ImportAll(Verdicts(outs), store);
      forall k :: k in p.store && k !in store ==> p.store[k].refNo == JStr(k) && Conforms(p.store[k])
  {
    var vs := Verdicts(outs);
    StoredListings(vs, store);
    forall k | k in ImportAll(vs, store).store && k !in store
      ensures ImportAll(vs, store).store[k].refNo == JStr(k) && Conforms(ImportAll(vs, store).store[k])
    {
      var i :| 0 <= i < |vs| && vs[i] == Candidate(k, ImportAll(vs, store).store[k]);
      assert vs[i] == Judge(outs[i]);
    }
  }

  /** The records a payload yields for the loop: the identified elements of
      the extracted list, in order, with their keys. */
  function Batch(payload: Entries): (records: seq<Keyed>)
    ensures |records| <= |Extracted(payload)|
    ensures forall k :: 0 <= k < |records| ==> (records[k].0, JMap(records[k].1)) in Extracted(payload)
  {
    FilterRecords(Extracted(payload))
  }

  /** A batch whose first record is keyed by a name, such as the records of
      an object `{"U7": {...}}` under `data`, halts on that record: nothing is
      stored and nothing is counted. */
  lemma NamedFirstKeyHalts(records: seq<Keyed>, env: Env, store: map<string, Record>)
    requires |records| > 0 && IsName(records[0].0)
    ensures ImportAll(Verdicts(Outcomes(records, env)), store) == Progress(store, 0, 0, true)
  {
    var vs := Verdicts(Outcomes(records, env));
    assert vs[0] == Halt by {
      NameNotNumeric(records[0].0);
      assert Outcomes(records, env)[0] == MapEntry(records[0].0, FieldMap(records[0].1), env.uniq(0), env.now(0), env.parseDate);
    }
    HaltFirst(vs, store);
  }

  /** A run whose first verdict is a TypeError stores and counts nothing. */
  lemma HaltFirst<R>(vs: seq<Verdict<R>>, store: map<string, R>)
    requires |vs| > 0 && vs[0] == Halt
    ensures ImportAll(vs, store) == Progress(store, 0, 0, true)
  {
    assert vs[..1][..0] == [];
    HaltedStays(vs, 1, store);
  }

  /** The import command: the listings table, which outlives a run, and the
      counters of the current run. */
  class Importer {
    var store: map<string, Record>
    var successCount: nat
    var errorCount: nat
    var halted: bool

    constructor (store: map<string, Record>)
      ensures this.store == store
      ensures successCount == 0 && errorCount == 0 && !halted
    {
      this.store := store;
      successCount := 0;
      errorCount := 0;
      halted := false;
    }

    function State(): Progress<Record>
      reads this
    {
      Progress(store, successCount, errorCount, halted)
    }

    /** One turn of the `foreach` on a mapped record: a TypeError ends the
        run, a mapping exception or a failed validation counts an error, and
        a valid listing is stored under its reference and counts a success. */
    method Settle(outcome: MapOutcome)
      requires !halted
      modifies this
      ensures State() == Step(old(State()), Judge(outcome))
    {
      match outcome {
        case Crashed(_) =>
          halted := true;
        case Failed(_) =>
          errorCount := errorCount + 1;
        case Mapped(rec) =>
          JudgeValid(outcome, store.Keys);
          if Valid(rec, store.Keys) {
            store := store[rec.refNo.s := rec];
            successCount := successCount + 1;
          } else {
            errorCount := errorCount + 1;
          }
      }
    }

    /** The body of the `foreach` for the record at position `i`: map it,
        then settle the outcome. */
    method ImportAt(records: seq<Keyed>, i: nat, env: Env)
      requires i < |records| && !halted
      modifies this
      ensures State() == Step(old(State()), Verdicts(Outcomes(records, env))[i])
    {
      var outcome := MapEntry(records[i].0, FieldMap(records[i].1), env.uniq(i), env.now(i), env.parseDate);
      assert outcome == Outcomes(records, env)[i];
      Settle(outcome);
    }

    /** The `foreach` over the identified records, stopping at a TypeError. */
    method ImportRecords(records: seq<Keyed>, env: Env)
      modifies this
      ensures State() == ImportAll(Verdicts(Outcomes(records, env)), old(store))
    {
      ghost var vs := Verdicts(Outcomes(records, env));
      successCount, errorCount, halted := 0, 0, false;
      var i := 0;
      while i < |records| && !halted
        invariant 0 <= i <= |records|
        invariant State() == ImportAll(vs[..i], old(store))
        decreases |records| - i
      {
        ImportAllSnoc(vs, i, old(store));
        ImportAt(records, i, env);
        i := i + 1;
      }
      if halted {
        HaltedStays(vs, i, old(store));
      } else {
        assert vs[..i] == vs;
      }
    }

    /** handle(), from the decoded response on: extraction, the empty-result
      early return, the record filter and the loop. */
    method Run(payload: Entries, env: Env)
      modifies this
      ensures State() == ImportAll(Verdicts(Outcomes(Batch(payload), env)), old(store))
    {
      var props := ExtractProperties(payload);
      if props == [] {
        successCount, errorCount, halted := 0, 0, false;
        return;
      }
      var records := FilterRecords(props);
      ImportRecords(records, env);
    }
  }
}
