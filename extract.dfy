/** Shape extraction and the record filter of the CRM import: locating the list
    of property records inside a payload whose envelope varies, and keeping the
    entries that carry an identity key. */
module Extraction {
  import opened Php

  /** The key paths probed, in order: `data.data`, `data`, `properties`,
      `units`, `results`, and the first positional element. */
  const CandidatePaths: seq<seq<string>> :=
    [["data", "data"], ["data"], ["properties"], ["units"], ["results"], ["0"]]

  /** Keys whose presence in the first element marks an array as a list of
      property records. */
  const PropertyKeys: set<string> :=
    {"id", "unit_code", "title", "price", "area", "city_id", "name", "reference", "code"}

  predicate HasPropertyKey(record: Entries) {
    exists k :: 0 <= k < |record| && record[k].0 in PropertyKeys
  }

  /** The acceptance test: a non-empty array whose first element is itself an
      array with at least one property key (the key's value may be null). */
  predicate IsPropertiesArray(m: Entries) {
    |m| > 0 && m[0].1.JMap? && HasPropertyKey(m[0].1.entries)
  }

  /** Only the first element is inspected, and a property key counts even
      when its value is null (`array_key_exists`, not `isset`); an array whose
      first element is a scalar is refused whatever follows. */
  lemma PropertiesArrayFirst(m: Entries, more: Entries, key: string, k: string, rest: Entries)
    requires k in PropertyKeys
    ensures |m| > 0 ==> IsPropertiesArray(m + more) == IsPropertiesArray(m)
    ensures IsPropertiesArray([(key, JMap([(k, JNull)] + rest))] + more)
    ensures !IsPropertiesArray([(key, JStr(k))] + more)
  {
    if |m| > 0 {
      assert (m + more)[0] == m[0];
    }
    var first := [(k, JNull)] + rest;
    assert first[0].0 == k;
  }

  /** Descends `m` along `path`; gives up as soon as a segment is missing,
      null, or not an array. */
  function Resolve(m: Entries, path: seq<string>): Option<Entries>
    decreases |path|
  {
    if |path| == 0 then Some(m)
    else match Get(m, path[0])
      case Some(JMap(inner)) => Resolve(inner, path[1..])
      case _ => None
  }

  /** Candidate `k` exists in `payload` and passes the acceptance test. */
  predicate AcceptedAt(payload: Entries, k: nat)
    requires k < |CandidatePaths|
  {
    var found := Resolve(payload, CandidatePaths[k]);
    found.Some? && IsPropertiesArray(found.value)
  }

  /** What the extractor returns, trying candidates from `k` on: the first
      accepted candidate, else the payload itself if it passes, else nothing. */
  function ExtractFrom(payload: Entries, k: nat): Entries
    requires k <= |CandidatePaths|
    decreases |CandidatePaths| - k
  {
    if k == |CandidatePaths| then (if IsPropertiesArray(payload) then payload else [])
    else if AcceptedAt(payload, k) then Resolve(payload, CandidatePaths[k]).value
    else ExtractFrom(payload, k + 1)
  }

  function Extracted(payload: Entries): Entries {
    ExtractFrom(payload, 0)
  }

  /** The extractor's result is either empty or a list of property records. */
  lemma {:induction false} ExtractFromShape(payload: Entries, k: nat)
    requires k <= |CandidatePaths|
    ensures ExtractFrom(payload, k) == [] || IsPropertiesArray(ExtractFrom(payload, k))
    decreases |CandidatePaths| - k
  {
    if k < |CandidatePaths| && !AcceptedAt(payload, k) {
      ExtractFromShape(payload, k + 1);
    }
  }

  lemma ExtractedShape(payload: Entries)
    ensures Extracted(payload) == [] || IsPropertiesArray(Extracted(payload))
  {
    ExtractFromShape(payload, 0);
  }

  /** Candidates are tried in order: the first accepted one wins, and no later
      one is consulted. */
  lemma {:induction false} ExtractFromFirstAccepted(payload: Entries, k: nat, j: nat)
    requires k <= j < |CandidatePaths|
    requires AcceptedAt(payload, j)
    requires forall i :: k <= i < j ==> !AcceptedAt(payload, i)
    ensures ExtractFrom(payload, k) == Resolve(payload, CandidatePaths[j]).value
    decreases j - k
  {
    if k < j {
      ExtractFromFirstAccepted(payload, k + 1, j);
    }
  }

  /** When no candidate is accepted, the top level is the fallback. */
  lemma {:induction false} ExtractFromFallback(payload: Entries, k: nat)
    requires k <= |CandidatePaths|
    requires forall i :: k <= i < |CandidatePaths| ==> !AcceptedAt(payload, i)
    ensures ExtractFrom(payload, k) == if IsPropertiesArray(payload) then payload else []
    decreases |CandidatePaths| - k
  {
    if k < |CandidatePaths| {
      ExtractFromFallback(payload, k + 1);
    }
  }

  /** extractPropertiesFromResponse: probes each candidate path, abandoning it
      at the first missing or non-array segment (`continue 2`). */
  method ExtractProperties(payload: Entries) returns (props: Entries)
    ensures props == Extracted(payload)
    ensures props == [] || IsPropertiesArray(props)
  {
    ExtractedShape(payload);
    var p := 0;
    while p < |CandidatePaths|
      invariant 0 <= p <= |CandidatePaths|
      invariant ExtractFrom(payload, p) == Extracted(payload)
    {
      var path := CandidatePaths[p];
      var current := payload;
      var i := 0;
      var descended := true;
      while i < |path| && descended
        invariant 0 <= i <= |path|
        invariant descended ==> Resolve(payload, path) == Resolve(current, path[i..])
        invariant !descended ==> Resolve(payload, path).None?
        decreases |path| - i, descended
      {
        var next := Get(current, path[i]);
        if next.Some? && next.value.JMap? {
          current := next.value.entries;
          i := i + 1;
        } else {
          descended := false;
        }
      }
      if descended && IsPropertiesArray(current) {
        return current;
      }
      p := p + 1;
    }
    if IsPropertiesArray(payload) {
      return payload;
    }
    return [];
  }

  // ---------------------------------------------------------------------------
  // Record filter

  /** An element worth mapping: an array with a non-null `id`, `unit_code` or
      `title`. */
  predicate HasIdentity(item: Json) {
    item.JMap? &&
    (Get(item.entries, "id").Some? || Get(item.entries, "unit_code").Some? || Get(item.entries, "title").Some?)
  }

  /** A kept record with the key it had in the extracted array. */
  type Keyed = (string, Entries)

  /** The `array_filter` over the extracted elements (`ARRAY_FILTER_USE_BOTH`
      keeps the keys): keeps the identified records, in order, each with its
      key. */
  function FilterRecords(items: Entries): (records: seq<Keyed>)
    ensures |records| <= |items|
    ensures forall k :: 0 <= k < |records| ==> HasIdentity(JMap(records[k].1))
    ensures forall k :: 0 <= k < |records| ==> (records[k].0, JMap(records[k].1)) in items
    ensures forall k :: 0 <= k < |items| && HasIdentity(items[k].1) ==> (items[k].0, items[k].1.entries) in records
  {
    if |items| == 0 then []
    else
      var rest := FilterRecords(items[1..]);
      assert forall k :: 1 <= k < |items| ==> items[k] == items[1..][k - 1];
      (if HasIdentity(items[0].1) then [(items[0].0, items[0].1.entries)] else []) + rest
  }

  /** Filtering distributes over concatenation, so kept records keep their
      relative order and each element is judged on its own. */
  lemma {:induction false} FilterRecordsAppend(a: Entries, b: Entries)
    ensures FilterRecords(a + b) == FilterRecords(a) + FilterRecords(b)
  {
    if |a| > 0 {
      assert (a + b)[1..] == a[1..] + b;
      FilterRecordsAppend(a[1..], b);
    } else {
      assert a + b == b;
    }
  }

  lemma FilterRecordsSingle(key: string, x: Json)
    ensures FilterRecords([(key, x)]) == if HasIdentity(x) then [(key, x.entries)] else []
  {
    assert [(key, x)][1..] == [];
  }
}
