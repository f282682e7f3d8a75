/** The Cassandra handler's cache of prepared statements: a map from CQL text to the statement the
    session prepared for it, kept in insertion order, that drops its eldest entry as soon as it
    holds more than 10000. */
module StatementCache {

  /** RECORD_INSERT_STATEMENTS_CACHE_SIZE. */
  const CacheSize: nat := 10000

  /** A statement the session prepared: its CQL text and the number of the preparation that
      produced it (preparations are counted from 0). */
  datatype Prepared = Prepared(query: string, serial: nat)

  /** The cache's insertion order lists each cached query once, the cached queries are exactly
      the ones listed, and there are at most 10000. */
  ghost predicate Consistent(order: seq<string>, entries: map<string, Prepared>) {
    && |order| <= CacheSize
    && (forall i, j :: 0 <= i < j < |order| ==> order[i] != order[j])
    && (forall q :: q in entries <==> q in order)
    && (forall q :: q in entries ==> entries[q].query == q)
  }

  /** `put` of a query that is not cached, then `removeEldestEntry`: the query becomes the newest
      entry, and when that makes 10001 entries the eldest one goes. */
  function Put(order: seq<string>, entries: map<string, Prepared>, query: string, s: Prepared)
    : (r: (seq<string>, map<string, Prepared>))
    requires Consistent(order, entries) && query !in entries && s.query == query
    ensures Consistent(r.0, r.1)
    ensures query in r.1 && r.1[query] == s && r.0[|r.0| - 1] == query
    ensures |r.0| == if |order| < CacheSize then |order| + 1 else CacheSize
    ensures forall q :: q in r.1 && q != query ==> q in entries && r.1[q] == entries[q]
    ensures forall q :: q in entries ==> (q in r.1 <==> !(|order| == CacheSize && q == order[0]))
  {
    var o := order + [query];
    if |o| > CacheSize then
      var r := (o[1..], (entries - {o[0]})[query := s]);
      assert forall q :: q in r.1 <==> q in r.0 by {
        forall q ensures q in r.1 <==> q in r.0 {
          assert r.0[|r.0| - 1] == query;
          assert order[0] in entries;
          if q in order && q != order[0] {
            var k :| 0 <= k < |order| && order[k] == q;
            assert r.0[k - 1] == q;
          }
          if q in r.0 {
            var i :| 0 <= i < |r.0| && r.0[i] == q;
            assert q == o[i + 1];
            if i + 1 < |order| {
              assert q == order[i + 1] && q != order[0];
            }
          }
        }
      }
      r
    else
      (o, entries[query := s])
  }

  /** Entries a full cache evicts are the eldest ones: a query stays cached for the next
      10000 - 1 puts of other queries, whatever they are. */
  lemma PutKeepsRecent(order: seq<string>, entries: map<string, Prepared>, query: string, s: Prepared, k: nat)
    requires Consistent(order, entries) && query !in entries && s.query == query
    requires 0 < k < |order|
    ensures order[k] in Put(order, entries, query, s).1
    ensures Put(order, entries, query, s).0[k - (if |order| == CacheSize then 1 else 0)] == order[k]
  {
    assert order[k] in entries;
  }

  /** `preparedStatementMap` together with the session that fills it. */
  class PreparedStatementCache {
    /** The cached queries, eldest first (a LinkedHashMap's insertion order). */
    var order: seq<string>
    var entries: map<string, Prepared>
    /** Every query the session was asked to prepare, in order. */
    var preparations: seq<string>

    ghost predicate Valid()
      reads this
    {
      Consistent(order, entries)
    }

    constructor()
      ensures Valid()
      ensures order == [] && entries == map[] && preparations == []
    {
      order := [];
      entries := map[];
      preparations := [];
    }

    /** The statement lookup every write and keyed read makes: a cached statement is reused
        without preparing; otherwise the session prepares the query and the cache stores it. */
    method GetOrPrepare(query: string) returns (s: Prepared)
      requires Valid()
      modifies this
      ensures Valid()
      ensures query in entries && entries[query] == s
      ensures query in old(entries) ==>
        s == old(entries)[query] && order == old(order) && entries == old(entries)
        && preparations == old(preparations)
      ensures query !in old(entries) ==>
        s == Prepared(query, |old(preparations)|) && preparations == old(preparations) + [query]
        && (order, entries) == Put(old(order), old(entries), query, s)
    {
      if query in entries {
        s := entries[query];
      } else {
        s := Prepared(query, |preparations|);
        preparations := preparations + [query];
        var r := Put(order, entries, query, s);
        order, entries := r.0, r.1;
      }
    }
  }
}
