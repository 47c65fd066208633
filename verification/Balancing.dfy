/** Two-level round robin: a rule draws a ticket to pick a backend by weight, the backend
    draws one of its own to pick an endpoint. */
module Balancing {
  import opened Arithmetic
  import opened Indices
  import opened Strings
  import Matching

  type Backend = Matching.Backend

  /** A backend that takes part in the round robin. */
  type Live = b: Backend | b.weight > 0 witness Matching.Backend("", "", 0, 1, true)

  // -------------------------------------------------------------- building --

  function Kept(backends: seq<Backend>): seq<Live> {
    if backends == [] then []
    else
      var n := |backends| - 1;
      Kept(backends[..n]) + if backends[n].weight > 0 then [backends[n]] else []
  }

  function Total(backends: seq<Live>): nat {
    if backends == [] then 0 else Total(backends[..|backends| - 1]) + backends[|backends| - 1].weight
  }

  /** The backend list and weight sum of a rule: weights of zero or less are left out. */
  method BuildBackends(configured: seq<Backend>) returns (backends: seq<Live>, total: nat)
    ensures backends == Kept(configured) && total == Total(backends)
  {
    backends, total := [], 0;
    for i := 0 to |configured|
      invariant backends == Kept(configured[..i]) && total == Total(backends)
    {
      assert configured[..i + 1][..i] == configured[..i];
      if configured[i].weight > 0 {
        assert (backends + [configured[i]])[..|backends|] == backends;
        backends, total := backends + [configured[i]], total + configured[i].weight;
      }
    }
    assert configured[..|configured|] == configured;
  }

  /** What is kept is exactly the backends of positive weight, in their order. */
  lemma {:induction false} KeptArePositive(backends: seq<Backend>) returns (indices: seq<nat>)
    ensures Ascending(indices) && forall i :: i in indices <==> 0 <= i < |backends| && backends[i].weight > 0
    ensures |indices| == |Kept(backends)|
    ensures forall x | 0 <= x < |indices| :: indices[x] < |backends| && Kept(backends)[x] == backends[indices[x]]
  {
    indices := [];
    if backends != [] {
      var n := |backends| - 1;
      var before := KeptArePositive(backends[..n]);
      if backends[n].weight > 0 {
        AscendingGrows(before, n);
        indices := before + [n];
      } else {
        indices := before;
      }
    }
  }

  // ----------------------------------------------------------- one pick --

  /** The backend whose weight interval holds a slot. */
  function Bucket(backends: seq<Live>, slot: int): Option<nat>
    decreases |backends|
  {
    if backends == [] then None
    else
      var n := |backends| - 1;
      if slot < Total(backends[..n]) then Bucket(backends[..n], slot)
      else if slot < Total(backends) then Some(n)
      else None
  }

  /** The pick of a ticket; `total` is the rule's stored weight sum. */
  function Choice(backends: seq<Live>, total: nat, ticket: nat): Option<nat> {
    if total == 0 then None else Bucket(backends, Rest(ticket, total))
  }

  lemma {:induction false} TotalGrows(backends: seq<Live>, i: int)
    requires 0 <= i <= |backends|
    ensures 0 <= Total(backends[..i]) <= Total(backends)
    ensures i < |backends| ==> Total(backends[..i + 1]) == Total(backends[..i]) + backends[i].weight
  {
    if i < |backends| {
      assert backends[..i + 1][..i] == backends[..i];
    }
    if i == |backends| {
      assert backends[..i] == backends;
      if i > 0 {
        TotalGrows(backends[..i - 1], i - 1);
      }
    } else {
      var n := |backends| - 1;
      TotalGrows(backends[..n], i);
      assert backends[..n][..i] == backends[..i];
    }
  }

  /** Backend i answers for exactly the slots of its own interval. */
  lemma {:induction false} BucketIsInterval(backends: seq<Live>, slot: int, i: int)
    requires 0 <= i < |backends| && slot >= 0
    ensures Bucket(backends, slot) == Some(i) <==> Total(backends[..i]) <= slot < Total(backends[..i]) + backends[i].weight
  {
    var n := |backends| - 1;
    TotalGrows(backends, i);
    TotalGrows(backends, n);
    if i == n {
      if slot < Total(backends[..n]) && Bucket(backends[..n], slot).Some? {
        BucketInRange(backends[..n], slot);
      }
    } else {
      TotalGrows(backends[..n], i + 1);
      assert backends[..n][..i] == backends[..i] && backends[..n][..i + 1] == backends[..i + 1];
      BucketIsInterval(backends[..n], slot, i);
    }
  }

  lemma {:induction false} BucketInRange(backends: seq<Live>, slot: int)
    requires Bucket(backends, slot).Some?
    ensures Bucket(backends, slot).value < |backends|
  {
    var n := |backends| - 1;
    if slot < Total(backends[..n]) {
      BucketInRange(backends[..n], slot);
    }
  }

  lemma {:induction false} BeyondTotalIsNone(backends: seq<Live>, slot: int)
    requires slot >= Total(backends)
    ensures Bucket(backends, slot) == None
  {
  }

  /** `pickBucket`: walk the backends, taking each weight off the slot. */
  method PickBucket(ticket: nat, backends: seq<Live>, total: nat) returns (picked: Option<nat>)
    ensures picked == Choice(backends, total, ticket)
  {
    if total <= 0 {
      return None;
    }

    RestIsModulo(ticket, total);
    var start := ticket % total;
    var slot := start;
    for i := 0 to |backends|
      invariant slot == start - Total(backends[..i]) && slot >= 0
    {
      TotalGrows(backends, i);
      slot := slot - backends[i].weight;
      if slot < 0 {
        BucketIsInterval(backends, start, i);
        return Some(i);
      }
    }
    assert backends[..|backends|] == backends;
    BeyondTotalIsNone(backends, start);
    picked := None;
  }

  class RuleTable {
    const backends: seq<Live>
    const total: nat
    var counter: nat

    constructor (configured: seq<Backend>)
      ensures backends == Kept(configured) && total == Total(backends) && counter == 0
    {
      var kept, sum := BuildBackends(configured);
      backends, total, counter := kept, sum, 0;
    }

    /** One atomic ticket draw, then the walk. */
    method PickBackend() returns (picked: Option<nat>)
      modifies this`counter
      ensures counter == old(counter) + 1
      ensures picked == Choice(backends, total, old(counter))
    {
      counter := counter + 1;
      picked := PickBucket(counter - 1, backends, total);
    }
  }

  class BackendTable {
    var counter: nat

    /** Round robin over the current endpoint list; an empty list draws no ticket. */
    method Pick<Endpoint>(endpoints: seq<Endpoint>) returns (picked: Option<Endpoint>)
      modifies this
      ensures counter == if |endpoints| == 0 then old(counter) else old(counter) + 1
      ensures picked == if |endpoints| == 0 then None else Some(endpoints[Rest(old(counter), |endpoints|)])
    {
      if |endpoints| == 0 {
        return None;
      }
      counter := counter + 1;
      RestIsModulo(counter - 1, |endpoints|);
      picked := Some(endpoints[(counter - 1) % |endpoints|]);
    }
  }

  // -------------------------------------------------------------- counting --

  /** How many of the n tickets from `from` on satisfy p. */
  function Count(p: nat -> bool, from: nat, n: nat): (c: nat)
    ensures c <= n
  {
    if n == 0 then 0 else Count(p, from, n - 1) + if p(from + n - 1) then 1 else 0
  }

  lemma {:induction false} CountSplits(p: nat -> bool, from: nat, m: nat, n: nat)
    ensures Count(p, from, m + n) == Count(p, from, m) + Count(p, from + m, n)
  {
    if n > 0 {
      CountSplits(p, from, m, n - 1);
    }
  }

  ghost predicate Periodic(p: nat -> bool, period: nat) {
    forall t: nat :: p(t + period) == p(t)
  }

  /** A window as long as the period counts the same wherever it starts. */
  lemma {:induction false} WindowsCountAlike(p: nat -> bool, period: nat, from: nat)
    requires period >= 1 && Periodic(p, period)
    ensures Count(p, from, period) == Count(p, 0, period)
  {
    if from > 0 {
      WindowsCountAlike(p, period, from - 1);
      CountSplits(p, from - 1, 1, period - 1);
      CountSplits(p, from, period - 1, 1);
      assert p(from - 1 + period) == p(from - 1);
      assert Count(p, from - 1, 1) == Count(p, from + period - 1, 1) by {
        assert Count(p, from - 1, 0) == 0 && Count(p, from + period - 1, 0) == 0;
      }
    }
  }

  lemma {:induction false} RepeatedWindows(p: nat -> bool, period: nat, from: nat, times: nat)
    requires period >= 1 && Periodic(p, period)
    ensures Times(times, period) >= 0
    ensures Count(p, from, Times(times, period)) == Times(times, Count(p, 0, period))
    decreases times
  {
    if times > 0 {
      RepeatedWindows(p, period, from + period, times - 1);
      CountSplits(p, from, period, Times(times - 1, period));
      WindowsCountAlike(p, period, from);
    }
  }

  /** Exactly `width` of the first n tickets fall in an interval inside them. */
  lemma {:induction false} IntervalCounts(p: nat -> bool, low: nat, width: nat, n: nat)
    requires forall t: nat | t < n :: p(t) <==> low <= t < low + width
    ensures Count(p, 0, n) == if n <= low then 0 else if n <= low + width then n - low else width
  {
    if n > 0 {
      IntervalCounts(p, low, width, n - 1);
    }
  }

  // ------------------------------------------------------------- fairness --

  function Picks(backends: seq<Live>, i: nat): nat -> bool {
    (ticket: nat) => Choice(backends, Total(backends), ticket) == Some(i)
  }

  lemma PicksArePeriodic(backends: seq<Live>, i: nat)
    requires Total(backends) >= 1
    ensures Periodic(Picks(backends, i), Total(backends))
  {
    forall t: nat
      ensures Picks(backends, i)(t + Total(backends)) == Picks(backends, i)(t)
    {
      assert Rest(t + Total(backends), Total(backends)) == Rest(t, Total(backends));
    }
  }

  lemma FirstWindowIsFair(backends: seq<Live>, i: nat)
    requires i < |backends|
    ensures Total(backends) >= 1
    ensures Count(Picks(backends, i), 0, Total(backends)) == backends[i].weight
  {
    TotalGrows(backends, i);
    TotalGrows(backends, i + 1);
    var p, low, total := Picks(backends, i), Total(backends[..i]), Total(backends);
    forall t: nat | t < total
      ensures p(t) <==> low <= t < low + backends[i].weight
    {
      BucketIsInterval(backends, t, i);
    }
    IntervalCounts(p, low, backends[i].weight, total);
  }

  /** Any `total` consecutive tickets, whoever draws them, pick every backend exactly its
      weight's number of times. */
  lemma WeightsAreExact(backends: seq<Live>, i: nat, from: nat)
    requires i < |backends|
    ensures Count(Picks(backends, i), from, Total(backends)) == backends[i].weight
  {
    FirstWindowIsFair(backends, i);
    PicksArePeriodic(backends, i);
    WindowsCountAlike(Picks(backends, i), Total(backends), from);
  }

  lemma {:induction false} EverySlotHasBackend(backends: seq<Live>, slot: int)
    requires 0 <= slot < Total(backends)
    ensures Bucket(backends, slot).Some? && Bucket(backends, slot).value < |backends|
  {
    var n := |backends| - 1;
    if slot < Total(backends[..n]) {
      EverySlotHasBackend(backends[..n], slot);
    }
  }

  /** No ticket goes unserved as long as one backend has a weight. */
  lemma EveryTicketPicks(backends: seq<Live>, ticket: nat)
    requires backends != []
    ensures Choice(backends, Total(backends), ticket).Some? && Choice(backends, Total(backends), ticket).value < |backends|
  {
    TotalGrows(backends, 1);
    TotalGrows(backends, 0);
    EverySlotHasBackend(backends, Rest(ticket, Total(backends)));
  }

  // ------------------------------------------------------- both levels --

  /** Steps k at which p holds of c + k and q of the position, from b on, that this step takes
      among the steps at which p holds. */
  function Composed(p: nat -> bool, q: nat -> bool, c: nat, b: nat): nat -> bool {
    (k: nat) => p(c + k) && q(b + Count(p, c, k))
  }

  lemma {:induction false} ComposedCounts(p: nat -> bool, q: nat -> bool, c: nat, b: nat, n: nat)
    ensures Count(Composed(p, q, c, b), 0, n) == Count(q, b, Count(p, c, n))
  {
    if n > 0 {
      ComposedCounts(p, q, c, b, n - 1);
    }
  }

  function LandsOn(endpoints: nat, e: nat): nat -> bool
    requires endpoints >= 1
  {
    (t: nat) => Rest(t, endpoints) == e
  }

  /** Requests handled one after another: request k draws rule ticket c + k, and when it lands
      on backend i the backend draws its own next ticket, starting from b. This is request k
      reaching endpoint e of the L endpoints of backend i. */
  function Reaches(backends: seq<Live>, i: nat, c: nat, b: nat, endpoints: nat, e: nat): nat -> bool
    requires endpoints >= 1
  {
    Composed(Picks(backends, i), LandsOn(endpoints, e), c, b)
  }

  lemma LandingIsFair(endpoints: nat, e: nat, from: nat, times: nat)
    requires e < endpoints
    ensures Times(times, endpoints) >= 0
    ensures Count(LandsOn(endpoints, e), from, Times(times, endpoints)) == times
  {
    var p := LandsOn(endpoints, e);
    assert Periodic(p, endpoints) by {
      assert forall t: nat :: Rest(t + endpoints, endpoints) == Rest(t, endpoints);
    }
    IntervalCounts(p, e, 1, endpoints);
    RepeatedWindows(p, endpoints, from, times);
    TimesIsProduct(times, 1);
  }

  /** With a fixed list of L endpoints, total * L consecutive requests send every endpoint of a
      backend exactly as many requests as the backend's weight, from any counter values. */
  lemma EndpointsAreExact(backends: seq<Live>, i: nat, c: nat, b: nat, endpoints: nat, e: nat)
    requires i < |backends| && e < endpoints
    ensures endpoints * Total(backends) >= 0
    ensures Count(Reaches(backends, i, c, b, endpoints, e), 0, endpoints * Total(backends)) == backends[i].weight
  {
    var total, weight: nat := Total(backends), backends[i].weight;
    FirstWindowIsFair(backends, i);
    PicksArePeriodic(backends, i);
    RepeatedWindows(Picks(backends, i), total, c, endpoints);
    TimesIsProduct(endpoints, total);
    ComposedCounts(Picks(backends, i), LandsOn(endpoints, e), c, b, Times(endpoints, total));
    TimesCommutes(endpoints, weight);
    LandingIsFair(endpoints, e, b, weight);
  }

  lemma TimesCommutes(m: nat, n: nat)
    ensures Times(m, n) == Times(n, m)
  {
    TimesIsProduct(m, n);
    TimesIsProduct(n, m);
  }
}
