/** The queries of a seed: its URIs, and what their answers leave behind for the image URIs. */
module SeedQueries {
  import opened Wrappers
  import opened UriSpec
  import opened SeedUriSpec

  /** A URI and the seed NFTs that have it. */
  type Query = (nat, seq<nat>)

  /** The seed's NFTs with a URI, in order. */
  function SeedNfts(t: Table, seed: nat, d: Dimension, uri: nat, k: nat): seq<nat>
    requires k <= |t.nfts|
  {
    if k == 0 then []
    else
      SeedNfts(t, seed, d, uri, k - 1) +
      if t.nfts[k - 1].contract == seed && t.nfts[k - 1].Uri(d) == Some(uri) then [k - 1] else []
  }

  lemma {:induction false} SeedNftsMean(t: Table, seed: nat, d: Dimension, uri: nat, k: nat)
    requires k <= |t.nfts|
    ensures forall s :: s in SeedNfts(t, seed, d, uri, k) <==> 0 <= s < k && t.nfts[s].contract == seed && t.nfts[s].Uri(d) == Some(uri)
  {
    if k > 0 {
      SeedNftsMean(t, seed, d, uri, k - 1);
    }
  }

  /** One query for each URI of the seed, in order of URI. */
  ghost predicate Queries(t: Table, seed: nat, d: Dimension, qs: seq<Query>) {
    && (forall i, j :: 0 <= i < j < |qs| ==> qs[i].0 < qs[j].0)
    && (forall i :: 0 <= i < |qs| ==> qs[i].1 == SeedNfts(t, seed, d, qs[i].0, |t.nfts|) && qs[i].1 != [])
    && (forall uri: nat :: SeedUri(t, seed, d, uri) ==> Asked(qs, uri))
  }

  ghost predicate Asked(qs: seq<Query>, uri: nat) {
    exists i :: 0 <= i < |qs| && qs[i].0 == uri
  }

  lemma AskedIsSeedUri(t: Table, seed: nat, d: Dimension, qs: seq<Query>, i: nat)
    requires Queries(t, seed, d, qs) && i < |qs|
    ensures SeedUri(t, seed, d, qs[i].0)
    ensures forall s :: s in qs[i].1 <==> 0 <= s && Shares(t, d, qs[i].0, s) && t.nfts[s].contract == seed
  {
    SeedNftsMean(t, seed, d, qs[i].0, |t.nfts|);
    assert qs[i].1[0] in qs[i].1;
    assert Shares(t, d, qs[i].0, qs[i].1[0]);
  }

  lemma NextAsked(t: Table, seed: nat, d: Dimension, a: seq<Query>, b: seq<Query>, k: nat)
    requires Queries(t, seed, d, a) && Queries(t, seed, d, b) && k < |a| && k <= |b| && a[..k] == b[..k]
    ensures k < |b| && b[k].0 <= a[k].0
  {
    AskedIsSeedUri(t, seed, d, a, k);
    hide SeedNfts, SeedUri;
    var j :| 0 <= j < |b| && b[j].0 == a[k].0;
    forall i | 0 <= i < k ensures b[i].0 < a[k].0 {
      assert a[..k][i] == b[..k][i];
    }
  }

  /** The queries are determined by the tables. */
  lemma {:induction false} SameQueries(t: Table, seed: nat, d: Dimension, a: seq<Query>, b: seq<Query>, k: nat)
    requires Queries(t, seed, d, a) && Queries(t, seed, d, b) && k <= |a|
    ensures k <= |b| && a[..k] == b[..k]
  {
    hide SeedNfts, SeedUri, Asked;
    if k > 0 {
      SameQueries(t, seed, d, a, b, k - 1);
      NextAsked(t, seed, d, a, b, k - 1);
      NextAsked(t, seed, d, b, a, k - 1);
      assert a[..k] == a[..k - 1] + [a[k - 1]] && b[..k] == b[..k - 1] + [b[k - 1]];
    }
  }

  // ----- what the token queries leave behind

  type HitScopes = map<nat, set<UriScope>>

  type HitCandidates = map<UriScope, set<nat>>

  function ScopesOf(scopes: HitScopes, s: nat): set<UriScope> {
    if s in scopes then scopes[s] else {}
  }

  ghost predicate HitBy(t: Table, seed: nat, qs: seq<Query>, scope: UriScope, n: nat)
    requires Seeded(t, seed)
  {
    exists i :: 0 <= i < |qs| && Candidate(t, seed, TokenUri, qs[i].0, scope, n)
  }

  ghost predicate ScopeHit(t: Table, seed: nat, uri: nat, scope: UriScope)
    requires Seeded(t, seed)
  {
    exists n: nat :: Candidate(t, seed, TokenUri, uri, scope, n)
  }

  ghost predicate MatchedBy(t: Table, seed: nat, qs: seq<Query>, scope: UriScope, s: nat)
    requires Seeded(t, seed)
  {
    exists i :: 0 <= i < |qs| && s in qs[i].1 && ScopeHit(t, seed, qs[i].0, scope)
  }

  /** The buffers record the hits of these queries. */
  ghost predicate Records(t: Table, seed: nat, qs: seq<Query>, scopes: HitScopes, candidates: HitCandidates)
    requires Seeded(t, seed)
  {
    && (forall scope, n: nat :: n in Excluded(candidates, scope) <==> HitBy(t, seed, qs, scope, n))
    && (forall scope, s: nat :: scope in ScopesOf(scopes, s) <==> MatchedBy(t, seed, qs, scope, s))
  }

  lemma RecordsNothing(t: Table, seed: nat)
    requires Seeded(t, seed)
    ensures Records(t, seed, [], map[], map[])
  {}

  lemma HitByJoin(t: Table, seed: nat, a: seq<Query>, b: seq<Query>, scope: UriScope, n: nat)
    requires Seeded(t, seed)
    ensures HitBy(t, seed, a + b, scope, n) <==> HitBy(t, seed, a, scope, n) || HitBy(t, seed, b, scope, n)
    ensures MatchedBy(t, seed, a + b, scope, n) <==> MatchedBy(t, seed, a, scope, n) || MatchedBy(t, seed, b, scope, n)
  {
    hide Candidate, ScopeHit;
    var q := a + b;
    assert forall i :: 0 <= i < |a| ==> q[i] == a[i];
    assert forall i :: 0 <= i < |b| ==> q[|a| + i] == b[i];
    if HitBy(t, seed, a, scope, n) {
      var i :| 0 <= i < |a| && Candidate(t, seed, TokenUri, a[i].0, scope, n);
      assert Candidate(t, seed, TokenUri, q[i].0, scope, n);
    }
    if MatchedBy(t, seed, a, scope, n) {
      var i :| 0 <= i < |a| && n in a[i].1 && ScopeHit(t, seed, a[i].0, scope);
      assert n in q[i].1 && ScopeHit(t, seed, q[i].0, scope);
    }
  }

  /** The records of all token queries are the hits of the seed. */
  lemma RecordsMean(t: Table, seed: nat, qs: seq<Query>, scopes: HitScopes, candidates: HitCandidates)
    requires Seeded(t, seed) && Queries(t, seed, TokenUri, qs) && Records(t, seed, qs, scopes, candidates)
    ensures forall scope, n: nat :: n in Excluded(candidates, scope) <==> TokenHit(t, seed, scope, n)
    ensures forall scope, s: nat :: scope in ScopesOf(scopes, s) <==> Matched(t, seed, scope, s)
  {
    hide Excluded, ScopesOf, SeedUri, Candidate;
    forall scope, n: nat ensures HitBy(t, seed, qs, scope, n) <==> TokenHit(t, seed, scope, n) {
      if HitBy(t, seed, qs, scope, n) {
        var i :| 0 <= i < |qs| && Candidate(t, seed, TokenUri, qs[i].0, scope, n);
        AskedIsSeedUri(t, seed, TokenUri, qs, i);
      }
      if TokenHit(t, seed, scope, n) {
        var uri: nat :| SeedUri(t, seed, TokenUri, uri) && Candidate(t, seed, TokenUri, uri, scope, n);
        assert Asked(qs, uri);
      }
    }
    forall scope, s: nat ensures MatchedBy(t, seed, qs, scope, s) <==> Matched(t, seed, scope, s) {
      MatchedMeans(t, seed, qs, scope, s);
    }
  }

  lemma MatchedMeans(t: Table, seed: nat, qs: seq<Query>, scope: UriScope, s: nat)
    requires Seeded(t, seed) && Queries(t, seed, TokenUri, qs)
    ensures MatchedBy(t, seed, qs, scope, s) <==> Matched(t, seed, scope, s)
  {
    hide Candidate;
    if MatchedBy(t, seed, qs, scope, s) {
      var i :| 0 <= i < |qs| && s in qs[i].1 && ScopeHit(t, seed, qs[i].0, scope);
      AskedIsSeedUri(t, seed, TokenUri, qs, i);
      var n: nat :| Candidate(t, seed, TokenUri, qs[i].0, scope, n);
    }
    if Matched(t, seed, scope, s) {
      var uri: nat, n: nat :| Shares(t, TokenUri, uri, s) && t.nfts[s].contract == seed && Candidate(t, seed, TokenUri, uri, scope, n);
      assert SeedUri(t, seed, TokenUri, uri) && Asked(qs, uri);
      var i :| 0 <= i < |qs| && qs[i].0 == uri;
      AskedIsSeedUri(t, seed, TokenUri, qs, i);
      assert ScopeHit(t, seed, uri, scope);
    }
  }

  // ----- the edges of all queries

  /** The scopes in which all these NFTs were matched by token URI. */
  function SkipOf(scopes: HitScopes, nfts: seq<nat>): set<UriScope> {
    if nfts == [] then {}
    else set scope | scope in ScopesOf(scopes, nfts[0]) && forall k :: 0 <= k < |nfts| ==> scope in ScopesOf(scopes, nfts[k])
  }

  lemma SkipNothing(nfts: seq<nat>)
    ensures SkipOf(map[], nfts) == {}
  {}

  /** The edges of some queries, given what the token queries left behind. */
  function QueryEdges(t: Table, seed: nat, d: Dimension, qs: seq<Query>, scopes: HitScopes, candidates: HitCandidates): seq<HitEdge>
    requires Seeded(t, seed)
  {
    if qs == [] then []
    else
      QueryEdges(t, seed, d, qs[..|qs| - 1], scopes, candidates) +
      UriEdges(t, seed, d, qs[|qs| - 1].0, SkipOf(scopes, qs[|qs| - 1].1), candidates)
  }

  lemma {:induction false} QueryEdgesJoin(t: Table, seed: nat, d: Dimension, a: seq<Query>, b: seq<Query>, scopes: HitScopes,
                                          candidates: HitCandidates)
    requires Seeded(t, seed)
    ensures QueryEdges(t, seed, d, a + b, scopes, candidates) ==
            QueryEdges(t, seed, d, a, scopes, candidates) + QueryEdges(t, seed, d, b, scopes, candidates)
  {
    hide UriEdges, SkipOf;
    if b == [] {
      assert a + b == a;
    } else {
      assert (a + b)[..|a + b| - 1] == a + b[..|b| - 1];
      QueryEdgesJoin(t, seed, d, a, b[..|b| - 1], scopes, candidates);
    }
  }
}
