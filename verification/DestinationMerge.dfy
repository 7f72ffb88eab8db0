/**
 The destinations of a discovery scan: the enumerations of all eligible subnets, merged
 round-robin without duplicates and capped at 1024 addresses.
 */
module DestinationMerge {
  import opened Common
  import opened SubnetWindow

  datatype InterfaceKind = Wireless | Wired | OtherKind

  /** `scanned` is the verdict of `ShouldScanInterface` on the interface's type and names. */
  datatype Subnet = Subnet(address: Address, mask: Address, kind: InterfaceKind, scanned: bool, hasGateway: bool)

  // ----- choosing and ordering the candidates -----

  predicate Eligible(subnet: Subnet) { subnet.scanned && PrivateAddress(subnet.address) }

  function Priority(kind: InterfaceKind): nat {
    match kind case Wireless => 0 case Wired => 1 case OtherKind => 2
  }

  /** Sort key: gateways first, then interface priority. */
  function Rank(subnet: Subnet): nat {
    (if subnet.hasGateway then 0 else 3) + Priority(subnet.kind)
  }

  /** A stable sort by a key below `ranks` is the concatenation of the groups of equal key. */
  function Ordered(subnets: seq<Subnet>, ranks: nat): seq<Subnet> {
    if ranks == 0 then [] else Ordered(subnets, ranks - 1) + OfRank(subnets, ranks - 1)
  }

  function OfRank(subnets: seq<Subnet>, rank: nat): seq<Subnet> {
    if subnets == [] then []
    else (if Eligible(subnets[0]) && Rank(subnets[0]) == rank then [subnets[0]] else []) + OfRank(subnets[1..], rank)
  }

  lemma {:induction false} OfRankMembers(subnets: seq<Subnet>, rank: nat)
    ensures forall s :: s in OfRank(subnets, rank) <==> s in subnets && Eligible(s) && Rank(s) == rank
  {
    if subnets != [] {
      OfRankMembers(subnets[1..], rank);
    }
  }

  /** The candidates are the eligible subnets, gateways first, then by interface priority. */
  lemma {:induction false} OrderedMembers(subnets: seq<Subnet>, ranks: nat)
    ensures forall s :: s in Ordered(subnets, ranks) <==> s in subnets && Eligible(s) && Rank(s) < ranks
    ensures forall i, j | 0 <= i < j < |Ordered(subnets, ranks)| :: Rank(Ordered(subnets, ranks)[i]) <= Rank(Ordered(subnets, ranks)[j])
  {
    if ranks > 0 {
      OrderedMembers(subnets, ranks - 1);
      OfRankMembers(subnets, ranks - 1);
      AppendKeepsOrder(Ordered(subnets, ranks - 1), OfRank(subnets, ranks - 1), ranks - 1);
    }
  }

  /** A subnet without a gateway never comes before one with; among equals Wi-Fi is first, then cable. */
  lemma GatewaysComeFirst(subnets: seq<Subnet>, i: nat, j: nat)
    requires i < j < |Ordered(subnets, 6)|
    ensures var a, b := Ordered(subnets, 6)[i], Ordered(subnets, 6)[j];
            && (b.hasGateway ==> a.hasGateway)
            && (a.hasGateway == b.hasGateway && b.kind == Wireless ==> a.kind == Wireless)
            && (a.hasGateway == b.hasGateway && b.kind == Wired ==> a.kind != OtherKind)
  {
    OrderedMembers(subnets, 6);
  }

  lemma AppendKeepsOrder(front: seq<Subnet>, group: seq<Subnet>, rank: nat)
    requires forall i, j | 0 <= i < j < |front| :: Rank(front[i]) <= Rank(front[j])
    requires (forall s <- front :: Rank(s) < rank) && (forall s <- group :: Rank(s) == rank)
    ensures forall i, j | 0 <= i < j < |front + group| :: Rank((front + group)[i]) <= Rank((front + group)[j])
  {
  }

  lemma {:induction false} OfRankConcat(a: seq<Subnet>, b: seq<Subnet>, rank: nat)
    ensures OfRank(a + b, rank) == OfRank(a, rank) + OfRank(b, rank)
  {
    if a == [] {
      assert a + b == b;
    } else {
      assert (a + b)[1..] == a[1..] + b;
      OfRankConcat(a[1..], b, rank);
    }
  }

  lemma {:induction false} OfRankOfRank(subnets: seq<Subnet>, rank: nat, r: nat)
    ensures OfRank(OfRank(subnets, rank), r) == if r == rank then OfRank(subnets, r) else []
  {
    if subnets != [] {
      OfRankOfRank(subnets[1..], rank, r);
      var first := if Eligible(subnets[0]) && Rank(subnets[0]) == rank then [subnets[0]] else [];
      OfRankConcat(first, OfRank(subnets[1..], rank), r);
    }
  }

  /**
   The sort is stable and loses or repeats nothing: the candidates of each rank are the eligible
   subnets of that rank, as often and in the order in which they were given.
   */
  lemma {:induction false} OrderIsStable(subnets: seq<Subnet>, ranks: nat, r: nat)
    ensures OfRank(Ordered(subnets, ranks), r) == if r < ranks then OfRank(subnets, r) else []
  {
    if ranks > 0 {
      OrderIsStable(subnets, ranks - 1, r);
      OfRankConcat(Ordered(subnets, ranks - 1), OfRank(subnets, ranks - 1), r);
      OfRankOfRank(subnets, ranks - 1, r);
    }
  }

  // ----- the merge -----

  /** An enumerator: `pos` items have been consumed. */
  datatype Cursor = Cursor(items: seq<Address>, pos: nat)

  predicate ValidCursor(c: Cursor) { c.pos <= |c.items| }

  /** Numbers consumed from live subnets differ by at most one. */
  predicate Fair(candidates: seq<Cursor>) {
    forall i, j | 0 <= i < |candidates| && 0 <= j < |candidates| :: candidates[i].pos <= candidates[j].pos + 1
  }

  /** Those later in the list have their turn first. */
  predicate LastFirst(candidates: seq<Cursor>) {
    forall i, j | 0 <= i < j < |candidates| :: candidates[i].pos <= candidates[j].pos
  }

  /** In the middle of a round: those from `index` on have had their turn. */
  predicate InRound(candidates: seq<Cursor>, index: nat, round: nat) {
    forall j | 0 <= j < |candidates| ::
      ValidCursor(candidates[j]) && candidates[j].pos == if j < index then round else round + 1
  }

  predicate Awaits(candidates: seq<Cursor>, x: Address) {
    exists j | 0 <= j < |candidates| :: ValidCursor(candidates[j]) && x in candidates[j].items[candidates[j].pos..]
  }

  predicate Offered(lists: seq<seq<Address>>, x: Address) {
    exists k | 0 <= k < |lists| :: x in lists[k]
  }

  function Longest(lists: seq<seq<Address>>): (n: nat)
    ensures forall k | 0 <= k < |lists| :: |lists[k]| <= n
  {
    if lists == [] then 0 else Max(|lists[0]|, Longest(lists[1..]))
  }

  function RemoveAt(candidates: seq<Cursor>, index: nat): seq<Cursor>
    requires index < |candidates|
  {
    candidates[..index] + candidates[index + 1..]
  }

  /** What the loop has reached: the live subnets and the addresses kept so far. */
  datatype Moment = Moment(candidates: seq<Cursor>, results: seq<Address>)

  /** The turn of the subnet at `index`. */
  function TurnAt(m: Moment, index: nat): Moment
    requires index < |m.candidates| && ValidCursor(m.candidates[index])
  {
    var c := m.candidates[index];
    if c.pos == |c.items| then m.(candidates := RemoveAt(m.candidates, index))
    else
      var x := c.items[c.pos];
      Moment(m.candidates[index := c.(pos := c.pos + 1)], if x in m.results then m.results else m.results + [x])
  }

  /** One turn of one live subnet leads from `before` to `after`. */
  predicate Turn(before: Moment, after: Moment) {
    exists index | 0 <= index < |before.candidates| ::
      ValidCursor(before.candidates[index]) && after == TurnAt(before, index)
  }

  function Start(lists: seq<seq<Address>>): Moment {
    Moment(seq(|lists|, i requires 0 <= i < |lists| => Cursor(lists[i], 0)), [])
  }

  /** A run of the merge, turn by turn from its start, and fair at every point. */
  predicate FairRun(lists: seq<seq<Address>>, history: seq<Moment>) {
    && history != [] && history[0] == Start(lists)
    && (forall k | 0 < k < |history| :: Turn(history[k - 1], history[k]))
    && (forall k | 0 <= k < |history| :: Fair(history[k].candidates) && LastFirst(history[k].candidates))
  }

  lemma RemovalLosesNothing(candidates: seq<Cursor>, index: nat, x: Address)
    requires index < |candidates| && candidates[index].pos == |candidates[index].items|
    ensures Awaits(candidates, x) ==> Awaits(RemoveAt(candidates, index), x)
  {
    if Awaits(candidates, x) {
      var j :| 0 <= j < |candidates| && ValidCursor(candidates[j]) && x in candidates[j].items[candidates[j].pos..];
      var rest := RemoveAt(candidates, index);
      var k := if j < index then j else j - 1;
      assert rest[k] == candidates[j];
    }
  }

  lemma AdvanceLosesOne(candidates: seq<Cursor>, index: nat, x: Address)
    requires index < |candidates| && candidates[index].pos < |candidates[index].items|
    ensures var c := candidates[index];
            Awaits(candidates, x) ==> x == c.items[c.pos] || Awaits(candidates[index := c.(pos := c.pos + 1)], x)
  {
    var c := candidates[index];
    var next := candidates[index := c.(pos := c.pos + 1)];
    if Awaits(candidates, x) && x != c.items[c.pos] {
      var j :| 0 <= j < |candidates| && ValidCursor(candidates[j]) && x in candidates[j].items[candidates[j].pos..];
      if j == index {
        var i :| c.pos <= i < |c.items| && c.items[i] == x;
        assert next[j].items[next[j].pos..][i - c.pos - 1] == x;
      } else {
        assert next[j] == candidates[j];
      }
    }
  }

  ghost predicate Covered(lists: seq<seq<Address>>, candidates: seq<Cursor>, results: seq<Address>) {
    forall x | Offered(lists, x) :: x in results || Awaits(candidates, x)
  }

  lemma TurnLosesNothing(lists: seq<seq<Address>>, m: Moment, index: nat)
    requires index < |m.candidates| && ValidCursor(m.candidates[index]) && Covered(lists, m.candidates, m.results)
    ensures Covered(lists, TurnAt(m, index).candidates, TurnAt(m, index).results)
  {
    var c, m' := m.candidates[index], TurnAt(m, index);
    forall x | Offered(lists, x) ensures x in m'.results || Awaits(m'.candidates, x) {
      if c.pos == |c.items| {
        RemovalLosesNothing(m.candidates, index, x);
      } else {
        AdvanceLosesOne(m.candidates, index, x);
      }
    }
  }

  lemma TurnKeepsOrigin(lists: seq<seq<Address>>, m: Moment, index: nat)
    requires index < |m.candidates| && ValidCursor(m.candidates[index]) && Distinct(m.results)
    requires forall j | 0 <= j < |m.candidates| :: m.candidates[j].items in lists
    requires forall x <- m.results :: Offered(lists, x)
    ensures var m' := TurnAt(m, index);
            && Distinct(m'.results) && m.results <= m'.results && |m'.results| <= |m.results| + 1
            && (forall j | 0 <= j < |m'.candidates| :: m'.candidates[j].items in lists)
            && (forall x <- m'.results :: Offered(lists, x))
  {
    var c := m.candidates[index];
    if c.pos < |c.items| {
      var k :| 0 <= k < |lists| && lists[k] == c.items;
      assert Offered(lists, c.items[c.pos]);
    }
  }

  lemma TurnKeepsRound(m: Moment, index: nat, round: nat)
    requires index < |m.candidates| && InRound(m.candidates, index + 1, round)
    ensures InRound(TurnAt(m, index).candidates, index, round) && index <= |TurnAt(m, index).candidates|
  {
  }

  /**
   One turn of the inner loop at `index`: drop an exhausted subnet, or take its next address
   and keep it unless it was seen before.
   */
  method TakeTurn(candidates: seq<Cursor>, results: seq<Address>, seen: set<Address>, index: nat)
    returns (candidates': seq<Cursor>, results': seq<Address>, seen': set<Address>)
    requires index < |candidates| && ValidCursor(candidates[index]) && seen == set x | x in results
    ensures Moment(candidates', results') == TurnAt(Moment(candidates, results), index)
    ensures results <= results' && seen' == set x | x in results'
  {
    var c := candidates[index];
    results', seen' := results, seen;
    if c.pos == |c.items| {
      candidates' := candidates[..index] + candidates[index + 1..];
    } else {
      var x := c.items[c.pos];
      candidates' := candidates[index := c.(pos := c.pos + 1)];
      if x !in seen {
        results', seen' := results + [x], seen + {x};
      }
    }
  }

  lemma FairRunExtends(lists: seq<seq<Address>>, history: seq<Moment>, next: Moment)
    requires FairRun(lists, history) && Turn(history[|history| - 1], next)
    requires Fair(next.candidates) && LastFirst(next.candidates)
    ensures FairRun(lists, history + [next])
  {
    var longer := history + [next];
    forall k | 0 < k < |longer| ensures Turn(longer[k - 1], longer[k]) {
      assert k < |history| ==> longer[k] == history[k];
    }
  }

  /**
   The round-robin merge. `history` is the run that leads from all subnets at their start to the
   result: in each turn one live subnet gives its next address or is dropped, and at every point
   of it the numbers consumed from live subnets differ by at most one, with those later in the
   list ahead. It ends with no subnet left or at the cap. Below the cap the result is exactly the union of the lists.
   */
  method Merge(lists: seq<seq<Address>>) returns (results: seq<Address>, ghost history: seq<Moment>)
    ensures |results| <= 1024 && Distinct(results)
    ensures forall x <- results :: Offered(lists, x)
    ensures |results| < 1024 ==> forall x | Offered(lists, x) :: x in results
    ensures FairRun(lists, history) && history[|history| - 1].results == results
    ensures history[|history| - 1].candidates == [] || |results| == 1024
  {
    var candidates := seq(|lists|, i requires 0 <= i < |lists| => Cursor(lists[i], 0));
    var seen: set<Address> := {};
    ghost var round := 0;
    results := [];
    history := [Start(lists)];
    forall x | Offered(lists, x) ensures Awaits(candidates, x) {
      var k :| 0 <= k < |lists| && x in lists[k];
      assert candidates[k].items[candidates[k].pos..] == lists[k];
    }
    while |candidates| > 0 && |results| < MAX_DESTINATIONS
      invariant |results| <= MAX_DESTINATIONS && Distinct(results) && seen == set x | x in results
      invariant |results| < MAX_DESTINATIONS ==> InRound(candidates, |candidates|, round)
      invariant forall j | 0 <= j < |candidates| :: candidates[j].items in lists
      invariant forall x <- results :: Offered(lists, x)
      invariant Covered(lists, candidates, results)
      invariant FairRun(lists, history) && history[|history| - 1] == Moment(candidates, results)
      decreases Longest(lists) + 1 - round
    {
      var index := |candidates|;
      assert candidates[0].items in lists;
      while index > 0 && |results| < MAX_DESTINATIONS
        invariant 0 <= index <= |candidates| && InRound(candidates, index, round)
        invariant |results| <= MAX_DESTINATIONS && Distinct(results) && seen == set x | x in results
        invariant forall j | 0 <= j < |candidates| :: candidates[j].items in lists
        invariant forall x <- results :: Offered(lists, x)
        invariant Covered(lists, candidates, results)
        invariant FairRun(lists, history) && history[|history| - 1] == Moment(candidates, results)
      {
        index := index - 1;
        ghost var before := Moment(candidates, results);
        TurnLosesNothing(lists, before, index);
        TurnKeepsOrigin(lists, before, index);
        TurnKeepsRound(before, index, round);
        candidates, results, seen := TakeTurn(candidates, results, seen, index);
        FairRunExtends(lists, history, Moment(candidates, results));
        history := history + [Moment(candidates, results)];
      }
      round := round + 1;
    }
  }

  predicate Scans(subnet: Subnet, x: Address) {
    Scannable(subnet.mask) && Within(ScanWindow(subnet.address, subnet.mask), x) && x != subnet.address
  }

  /** Some eligible subnet scans `x`. */
  ghost predicate Reachable(subnets: seq<Subnet>, x: Address) {
    exists s | s in subnets :: Eligible(s) && Scans(s, x)
  }

  method EnumerateOne(subnet: Subnet) returns (hosts: seq<Address>)
    requires Eligible(subnet)
    ensures forall x: Address :: x in hosts <==> Scans(subnet, x)
  {
    hosts := EnumerateSubnet(subnet.address, subnet.mask);
  }

  ghost predicate Enumerates(lists: seq<seq<Address>>, ordered: seq<Subnet>) {
    && |lists| == |ordered|
    && forall k, x: Address | 0 <= k < |lists| :: x in lists[k] <==> Scans(ordered[k], x)
  }

  method EnumerateAll(ordered: seq<Subnet>) returns (lists: seq<seq<Address>>)
    requires forall s <- ordered :: Eligible(s)
    ensures Enumerates(lists, ordered)
  {
    lists := [];
    for k := 0 to |ordered|
      invariant Enumerates(lists, ordered[..k])
    {
      var hosts := EnumerateOne(ordered[k]);
      lists := lists + [hosts];
      assert ordered[..k + 1] == ordered[..k] + [ordered[k]];
    }
    assert ordered[..|ordered|] == ordered;
  }

  lemma OfferedIsReachable(subnets: seq<Subnet>, ordered: seq<Subnet>, lists: seq<seq<Address>>, x: Address)
    requires Enumerates(lists, ordered) && Offered(lists, x)
    requires forall s <- ordered :: s in subnets && Eligible(s)
    ensures Reachable(subnets, x)
  {
    var k :| 0 <= k < |lists| && x in lists[k];
    assert ordered[k] in ordered;
  }

  lemma ReachableIsOffered(subnets: seq<Subnet>, ordered: seq<Subnet>, lists: seq<seq<Address>>, x: Address)
    requires Enumerates(lists, ordered) && Reachable(subnets, x)
    requires forall s <- subnets :: Eligible(s) ==> s in ordered
    ensures Offered(lists, x)
  {
    var s :| s in subnets && Eligible(s) && Scans(s, x);
    var k :| 0 <= k < |ordered| && ordered[k] == s;
    assert x in lists[k];
  }

  /**
   Which hosts a scan is for: those of a subnet whose interface is to be scanned, whose address is
   private and whose mask leaves 2 to 10 host bits, all of them but the address itself.
   */
  lemma SmallSubnetIsReachable(subnet: Subnet, k: nat, x: Address)
    requires PrefixMask(subnet.mask, k) && k <= 10
    ensures Reachable([subnet], x) <==>
            subnet.scanned && PrivateAddress(subnet.address) && OtherHost(subnet.address, k, x)
  {
    ScannedMasks(subnet.mask);
    SmallSubnetIsWhole(subnet.address, subnet.mask, k);
    assert subnet in [subnet];
  }

  /** Subnets are scanned independently of each other. */
  lemma ReachableIsUnion(a: seq<Subnet>, b: seq<Subnet>, x: Address)
    ensures Reachable(a + b, x) <==> Reachable(a, x) || Reachable(b, x)
  {
    if Reachable(a + b, x) {
      var s :| s in a + b && Eligible(s) && Scans(s, x);
      assert s in a || s in b;
    }
    if Reachable(a, x) {
      var s :| s in a && Eligible(s) && Scans(s, x);
      assert s in a + b;
    }
    if Reachable(b, x) {
      var s :| s in b && Eligible(s) && Scans(s, x);
      assert s in a + b;
    }
  }

  /**
   The destinations of a scan: eligible subnets only, all of them below the cap, merged from
   their enumerations in candidate order.
   */
  method EnumerateDestinations(subnets: seq<Subnet>)
    returns (results: seq<Address>, ghost lists: seq<seq<Address>>, ghost history: seq<Moment>)
    ensures |results| <= 1024 && Distinct(results)
    ensures forall x <- results :: Reachable(subnets, x)
    ensures |results| < 1024 ==> forall x: Address | Reachable(subnets, x) :: x in results
    ensures Enumerates(lists, Ordered(subnets, 6)) && FairRun(lists, history) && history[|history| - 1].results == results
  {
    var ordered := Ordered(subnets, 6);
    OrderedMembers(subnets, 6);
    var enumerations := EnumerateAll(ordered);
    lists := enumerations;
    results, history := Merge(enumerations);
    forall x <- results ensures Reachable(subnets, x) {
      OfferedIsReachable(subnets, ordered, lists, x);
    }
    forall x: Address | Reachable(subnets, x) ensures Offered(lists, x) {
      ReachableIsOffered(subnets, ordered, lists, x);
    }
  }
}
