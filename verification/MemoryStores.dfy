/** The in-memory stores (crates/securedeploy-infra/src/memory.rs) and the event
    sink, whose publish always succeeds (crates/securedeploy-infra/src/events.rs). */
module MemoryStores {
  import opened Machine
  import opened GovernanceRules
  import opened Domain

  ghost predicate KeyedById(m: map<u64, ProposalRecord>) {
    forall id :: id in m ==> m[id].id == id
  }

  /** `l` holds every value of `m` once, each value naming its own key. */
  ghost predicate Lists<K, V>(m: map<K, V>, l: seq<V>, key: V -> K) {
    && |l| == |m|
    && (forall i, j :: 0 <= i < j < |l| ==> key(l[i]) != key(l[j]))
    && forall i :: 0 <= i < |l| ==> key(l[i]) in m && m[key(l[i])] == l[i]
  }

  /** A list of everything mentions every key. */
  lemma ListCovers<K, V>(m: map<K, V>, l: seq<V>, key: V -> K, k: K) returns (i: nat)
    requires Lists(m, l, key) && k in m
    ensures i < |l| && key(l[i]) == k && l[i] == m[k]
  {
    var keys := seq(|l|, i requires 0 <= i < |l| => key(l[i]));
    DistinctCardinality(keys);
    var listed := Members(keys);
    if k !in listed {
      assert |m.Keys - {k}| == |m.Keys| - 1;
      SubsetCardinality(listed, m.Keys - {k});
      assert false;
    }
    assert k in keys;
    i :| 0 <= i < |keys| && keys[i] == k;
  }

  function ProposalKey(r: ProposalRecord): u64 {
    r.id
  }

  function FindingKey(r: FindingRecord): string {
    r.id
  }

  ghost predicate Ascending(l: seq<ProposalRecord>) {
    forall i, j :: 0 <= i < j < |l| ==> l[i].id < l[j].id
  }

  /** `l` holds every record of `m` once, in increasing id order. */
  ghost predicate IsListing(m: map<u64, ProposalRecord>, l: seq<ProposalRecord>) {
    Lists(m, l, ProposalKey) && Ascending(l)
  }

  ghost predicate DistinctIds(l: seq<ProposalRecord>) {
    forall i, j :: 0 <= i < j < |l| ==> l[i].id != l[j].id
  }

  lemma SameLast(m: map<u64, ProposalRecord>, a: seq<ProposalRecord>, b: seq<ProposalRecord>)
    requires IsListing(m, a) && IsListing(m, b) && |a| > 0
    ensures a[|a| - 1] == b[|b| - 1]
  {
    var i := ListCovers(m, a, ProposalKey, b[|b| - 1].id);
    var j := ListCovers(m, b, ProposalKey, a[|a| - 1].id);
  }

  lemma ListingWithoutLast(m: map<u64, ProposalRecord>, l: seq<ProposalRecord>)
    requires IsListing(m, l) && |l| > 0
    ensures IsListing(m - {l[|l| - 1].id}, l[..|l| - 1])
  {
    var rest := m - {l[|l| - 1].id};
    assert rest.Keys == m.Keys - {l[|l| - 1].id};
    assert |rest| == |rest.Keys| && |m| == |m.Keys|;
  }

  /** The listing of a store is unique, so List's contract fixes its answer. */
  lemma {:induction false} ListingUnique(m: map<u64, ProposalRecord>, a: seq<ProposalRecord>, b: seq<ProposalRecord>)
    requires IsListing(m, a) && IsListing(m, b)
    ensures a == b
    decreases |a|
  {
    if |a| == 0 {
    } else {
      var n := |a| - 1;
      SameLast(m, a, b);
      ListingWithoutLast(m, a);
      ListingWithoutLast(m, b);
      ListingUnique(m - {a[n].id}, a[..n], b[..n]);
      assert a == a[..n] + [a[n]] && b == b[..n] + [b[n]];
    }
  }

  method Swap(v: array<ProposalRecord>, i: nat, j: nat)
    requires i < v.Length && j < v.Length
    modifies v
    ensures v[..] == old(v[..])[i := old(v[j])][j := old(v[i])]
    ensures multiset(v[..]) == multiset(old(v[..]))
  {
    v[i], v[j] := v[j], v[i];
  }

  /** `sort_by_key(|r| r.id.0)` in place. */
  method SortById(v: array<ProposalRecord>)
    modifies v
    ensures multiset(v[..]) == multiset(old(v[..]))
    ensures forall i, j :: 0 <= i < j < v.Length ==> v[i].id <= v[j].id
    ensures DistinctIds(old(v[..])) ==> DistinctIds(v[..])
  {
    for i := 0 to v.Length
      invariant multiset(v[..]) == multiset(old(v[..]))
      invariant forall p, q :: 0 <= p < i && p < q < v.Length ==> v[p].id <= v[q].id
      invariant DistinctIds(old(v[..])) ==> DistinctIds(v[..])
    {
      var least := i;
      for j := i + 1 to v.Length
        invariant i <= least < v.Length
        invariant forall q :: i <= q < j ==> v[least].id <= v[q].id
      {
        if v[j].id < v[least].id {
          least := j;
        }
      }
      Swap(v, i, least);
    }
  }

  class InMemoryProposalStore {
    var records: map<u64, ProposalRecord>

    ghost predicate Valid()
      reads this
    {
      KeyedById(records)
    }

    constructor ()
      ensures Valid() && records == map[]
    {
      records := map[];
    }

    method Upsert(record: ProposalRecord)
      requires Valid()
      modifies this
      ensures Valid()
      ensures records == old(records)[record.id := record]
    {
      records := records[record.id := record];
    }

    method Get(id: u64) returns (r: Option<ProposalRecord>)
      ensures r == if id in records then Some(records[id]) else None
    {
      r := if id in records then Some(records[id]) else None;
    }

    /** As many as `List` returns. */
    method Count() returns (n: nat)
      ensures n == |records|
      ensures forall l :: IsListing(records, l) ==> n == |l|
    {
      n := |records|;
    }

    /** Clones the records in whatever order the map yields them. */
    method Collect() returns (v: array<ProposalRecord>)
      requires Valid()
      ensures fresh(v) && v.Length == |records|
      ensures DistinctIds(v[..])
      ensures forall r :: r in v[..] ==> r.id in records && records[r.id] == r
    {
      var pending := records.Keys;
      v := new ProposalRecord[|pending|];
      var i := 0;
      while pending != {}
        invariant pending <= records.Keys
        invariant 0 <= i && i + |pending| == v.Length == |records.Keys|
        invariant forall p :: 0 <= p < i ==> v[p].id in records && v[p].id !in pending && records[v[p].id] == v[p]
        invariant forall p, q :: 0 <= p < q < i ==> v[p].id != v[q].id
        decreases pending
      {
        var id :| id in pending;
        v[i] := records[id];
        pending := pending - {id};
        i := i + 1;
      }
    }

    /** Sorts the collected records by id. */
    method List() returns (l: seq<ProposalRecord>)
      requires Valid()
      ensures IsListing(records, l)
    {
      var v := Collect();
      ghost var unsorted := v[..];
      SortById(v);
      l := v[..];
      forall p | 0 <= p < |l|
        ensures l[p] in unsorted
      {
        assert l[p] in multiset(l);
      }
    }
  }

  class InMemoryFindingStore {
    var records: map<string, FindingRecord>

    ghost predicate Valid()
      reads this
    {
      forall id :: id in records ==> records[id].id == id
    }

    constructor ()
      ensures Valid() && records == map[]
    {
      records := map[];
    }

    method Insert(record: FindingRecord) returns (r: Result<Unit, EngineError>)
      requires Valid()
      modifies this
      ensures Valid()
      ensures record.id in old(records) ==> r == Err(Store(record.id)) && records == old(records)
      ensures record.id !in old(records) ==> r == Ok(Unit) && records == old(records)[record.id := record]
    {
      if record.id in records {
        return Err(Store(record.id));
      }
      records := records[record.id := record];
      return Ok(Unit);
    }

    /** Every finding once, in no particular order. */
    method List() returns (l: seq<FindingRecord>)
      requires Valid()
      ensures Lists(records, l, FindingKey)
    {
      var pending := records.Keys;
      l := [];
      while pending != {}
        invariant pending <= records.Keys
        invariant |l| + |pending| == |records.Keys|
        invariant forall i :: 0 <= i < |l| ==> l[i].id in records && l[i].id !in pending && records[l[i].id] == l[i]
        invariant forall i, j :: 0 <= i < j < |l| ==> l[i].id != l[j].id
        decreases pending
      {
        var id :| id in pending;
        l := l + [records[id]];
        pending := pending - {id};
      }
    }
  }

  class EventLog {
    var published: seq<DomainEvent>

    constructor ()
      ensures published == []
    {
      published := [];
    }

    method Publish(event: DomainEvent)
      modifies this
      ensures published == old(published) + [event]
    {
      published := published + [event];
    }
  }
}
