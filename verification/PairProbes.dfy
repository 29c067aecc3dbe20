/** Sampling the pairs of a large group by random probes, or all of them if they are few. */
module PairProbes {
  import opened PairReservoir
  import opened Samplers = PairSampler
  import opened UnbiasedIndex

  /** The pair of two different contracts, the smaller first. */
  ghost predicate PairIs(p: ContractPair, x: nat, y: nat) {
    p.left < p.right && ((p.left == x && p.right == y) || (p.left == y && p.right == x))
  }

  /** Draws an index below `len`, as `random_index` does. */
  ghost predicate Draws(draw: (nat, nat) -> nat) {
    forall ordinal, len :: len > 0 ==> draw(ordinal, len) < len
  }

  predicate Registered(sampler: PairSampler, members: seq<nat>) {
    forall i :: 0 <= i < |members| ==> members[i] < |sampler.contractChains|
  }

  ghost predicate CliquePair(members: seq<nat>, p: ContractPair) {
    exists i, j :: 0 <= i < j < |members| && PairIs(p, members[i], members[j])
  }

  ghost predicate CrossPair(left: seq<nat>, right: seq<nat>, p: ContractPair) {
    exists i, j :: 0 <= i < |left| && 0 <= j < |right| && PairIs(p, left[i], right[j])
  }

  /** The probe of a clique: two different members, the second drawn from the others. */
  ghost predicate CliqueProbe(members: seq<nat>, draw: (nat, nat) -> nat, attempt: nat, p: ContractPair) {
    var n := |members|;
    && n >= 2
    && var a, b := draw(2 * attempt, n), draw(2 * attempt + 1, n - 1);
       && a < n && b < n - 1
       && PairIs(p, members[a], members[if b < a then b else b + 1])
  }

  ghost predicate CrossProbe(left: seq<nat>, right: seq<nat>, draw: (nat, nat) -> nat, attempt: nat, p: ContractPair) {
    && draw(2 * attempt, |left|) < |left| && draw(2 * attempt + 1, |right|) < |right|
    && PairIs(p, left[draw(2 * attempt, |left|)], right[draw(2 * attempt + 1, |right|)])
  }

  /** Observing two contracts adds their pair, if they differ. */
  method ObserveTwo(sampler: PairSampler, x: nat, y: nat)
    requires sampler.Valid() && sampler.capacity > 0 && x < |sampler.contractChains| && y < |sampler.contractChains|
    modifies sampler
    ensures sampler.Valid() && forall p :: p in sampler.seen <==> p in old(sampler.seen) || PairIs(p, x, y)
  {
    hide PairSampler.Valid;
    var _ := sampler.Observe(x, y);
  }

  /** `probe_clique`: all pairs of the group if they fit the room that remains, otherwise six
      random probes for each place of it, and twelve at least. */
  method ProbeClique(sampler: PairSampler, members: seq<nat>, remaining: nat, draw: (nat, nat) -> nat)
    requires sampler.Valid() && sampler.capacity > 0 && Registered(sampler, members) && |members| >= 2 && Draws(draw)
    modifies sampler
    ensures sampler.Valid()
    ensures |members| * (|members| - 1) / 2 <= remaining ==>
              forall p :: p in sampler.seen <==> p in old(sampler.seen) || CliquePair(members, p)
    ensures |members| * (|members| - 1) / 2 > remaining ==>
              forall p :: p in sampler.seen <==>
                p in old(sampler.seen)
                || exists k: nat :: k < (if remaining <= 2 then 12 else 6 * remaining) && CliqueProbe(members, draw, k, p)
  {
    hide PairSampler.Valid, PairIs;
    var pairCount := |members| * (|members| - 1) / 2;
    if pairCount <= remaining {
      for left := 0 to |members| - 1
        invariant sampler.Valid()
        invariant forall p :: p in sampler.seen <==>
                    p in old(sampler.seen) || exists i, j :: 0 <= i < left && i < j < |members| && PairIs(p, members[i], members[j])
      {
        ghost var was := sampler.seen;
        for right := left + 1 to |members|
          invariant sampler.Valid()
          invariant forall p :: p in sampler.seen <==> p in was || exists j :: left < j < right && PairIs(p, members[left], members[j])
        {
          ObserveTwo(sampler, members[left], members[right]);
        }
      }
      return;
    }
    var attempts := if remaining * 6 > 12 then remaining * 6 else 12;
    for attempt: nat := 0 to attempts
      invariant sampler.Valid()
      invariant forall p :: p in sampler.seen <==>
                  p in old(sampler.seen) || exists k: nat :: k < attempt && CliqueProbe(members, draw, k, p)
    {
      var left := draw(attempt * 2, |members|);
      var right := Shift(left, draw(attempt * 2 + 1, |members| - 1));
      ShiftIsBijection(|members|, left, draw(attempt * 2 + 1, |members| - 1), 0);
      ObserveTwo(sampler, members[left], members[right]);
      assert forall p :: CliqueProbe(members, draw, attempt, p) <==> PairIs(p, members[left], members[right]);
    }
  }

  /** `probe_cross`: the same between two groups, with four probes for each place, and eight
      at least. */
  method ProbeCross(sampler: PairSampler, left: seq<nat>, right: seq<nat>, remaining: nat, draw: (nat, nat) -> nat)
    requires sampler.Valid() && sampler.capacity > 0 && Registered(sampler, left) && Registered(sampler, right)
    requires left != [] && right != [] && Draws(draw)
    modifies sampler
    ensures sampler.Valid()
    ensures |left| * |right| <= remaining ==>
              forall p :: p in sampler.seen <==> p in old(sampler.seen) || CrossPair(left, right, p)
    ensures |left| * |right| > remaining ==>
              forall p :: p in sampler.seen <==>
                p in old(sampler.seen)
                || exists k: nat :: k < (if remaining <= 2 then 8 else 4 * remaining) && CrossProbe(left, right, draw, k, p)
  {
    hide PairSampler.Valid, PairIs;
    var pairCount := |left| * |right|;
    if pairCount <= remaining {
      for a := 0 to |left|
        invariant sampler.Valid()
        invariant forall p :: p in sampler.seen <==>
                    p in old(sampler.seen) || exists i, j :: 0 <= i < a && 0 <= j < |right| && PairIs(p, left[i], right[j])
      {
        ghost var was := sampler.seen;
        for b := 0 to |right|
          invariant sampler.Valid()
          invariant forall p :: p in sampler.seen <==> p in was || exists j :: 0 <= j < b && PairIs(p, left[a], right[j])
        {
          ObserveTwo(sampler, left[a], right[b]);
        }
      }
      return;
    }
    var attempts := if remaining * 4 > 8 then remaining * 4 else 8;
    for attempt: nat := 0 to attempts
      invariant sampler.Valid()
      invariant forall p :: p in sampler.seen <==>
                  p in old(sampler.seen) || exists k: nat :: k < attempt && CrossProbe(left, right, draw, k, p)
    {
      var x, y := left[draw(attempt * 2, |left|)], right[draw(attempt * 2 + 1, |right|)];
      ObserveTwo(sampler, x, y);
      assert forall p :: CrossProbe(left, right, draw, attempt, p) <==> PairIs(p, x, y);
    }
  }
}
