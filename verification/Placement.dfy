/** Greedy placement advice: which machines should move off hot nodes, and what that would do. */
module Placement {
  import opened Wrappers
  import opened Sorting

  datatype Node = Node(id: string, name: string, online: bool, pressure: real, memoryTotal: int)

  datatype Vm = Vm(vmid: int, name: string, node: string, running: bool, template: bool, memory: int, disk: real)

  datatype Counted = Counted(node: Node, running: nat)

  datatype Recommendation = Recommendation(
    vm: Vm, source: Counted, target: Counted, effect: real,
    sourceAfter: real, targetAfter: real, delta: real, overThreshold: bool)

  const HOT := 70.0
  const CRITICAL := 85.0
  const DELTA := 25.0
  const VMS_PER_SOURCE: nat := 3
  const SHOWN: nat := 10

  // ----- the effect of one move

  function Max(a: real, b: real): real {
    if a >= b then a else b
  }

  function Min(a: real, b: real): real {
    if a <= b then a else b
  }

  function PressureEffect(vm: Vm, source: Counted): (e: real)
    ensures 4.0 <= e <= 18.0
  {
    var share := source.node.pressure / (if source.running > 1 then source.running else 1) as real;
    var memoryShare := if source.node.memoryTotal > 0 then vm.memory as real / source.node.memoryTotal as real * 100.0 else 0.0;
    Max(4.0, Min(18.0, Max(share, memoryShare)))
  }

  function AtLeastOne(n: nat): real {
    if n == 0 then 1.0 else n as real
  }

  // The effect is the larger share, of the pressure per running machine and of the memory the
  // machine takes, as far as that lies between 4 and 18.
  lemma EffectIsLargerShare(vm: Vm, source: Counted, share: real, memory: real)
    requires share * AtLeastOne(source.running) == source.node.pressure
    requires if source.node.memoryTotal > 0 then memory * (source.node.memoryTotal as real) == 100.0 * (vm.memory as real) else memory == 0.0
    ensures var e := PressureEffect(vm, source);
            && (share <= 4.0 && memory <= 4.0 ==> e == 4.0)
            && (share >= 18.0 || memory >= 18.0 ==> e == 18.0)
            && (4.0 < share < 18.0 && memory <= share ==> e == share)
            && (4.0 < memory < 18.0 && share <= memory ==> e == memory)
  {
    Quotient(source.node.pressure, AtLeastOne(source.running), share);
    if source.node.memoryTotal > 0 {
      Percent(vm.memory as real, source.node.memoryTotal as real, memory);
    }
  }

  lemma Percent(a: real, b: real, percent: real)
    requires b > 0.0 && percent * b == 100.0 * a
    ensures a / b * 100.0 == percent
  {
    var q := a / b;
    assert q * b == a;
    assert (q * 100.0 - percent) * b == 0.0;
  }

  lemma Quotient(a: real, b: real, q: real)
    requires b > 0.0 && q * b == a
    ensures a / b == q
  {
  }

  function Recommend(vm: Vm, source: Counted, target: Counted): Recommendation {
    var effect := PressureEffect(vm, source);
    var after := Min(100.0, target.node.pressure + effect);
    Recommendation(vm, source, target, effect, Max(0.0, source.node.pressure - effect), after,
                   source.node.pressure - target.node.pressure, after >= CRITICAL)
  }

  // A move strictly narrows the gap between its nodes and leaves both below what the source had;
  // neither bound of the scale is ever reached, and a target at 85 or more is flagged.
  predicate Narrows(r: Recommendation) {
    && r.sourceAfter == r.source.node.pressure - r.effect && r.targetAfter == r.target.node.pressure + r.effect
    && -r.delta < r.sourceAfter - r.targetAfter < r.delta
    && r.sourceAfter < r.source.node.pressure && r.targetAfter < r.source.node.pressure
    && (r.overThreshold <==> r.targetAfter >= 85.0)
  }

  lemma MoveNarrowsGap(vm: Vm, source: Counted, target: Counted)
    requires 0.0 <= target.node.pressure && source.node.pressure <= 100.0
    requires source.node.pressure - target.node.pressure >= 25.0
    ensures var r := Recommend(vm, source, target);
            Narrows(r) && r.delta == source.node.pressure - target.node.pressure
  {
    hide PressureEffect;
  }

  // ----- the choice

  predicate HotterFirst(a: Counted, b: Counted) {
    a.node.pressure > b.node.pressure || (a.node.pressure == b.node.pressure && LexLe(a.node.name, b.node.name))
  }

  predicate CoolerFirst(a: Counted, b: Counted) {
    a.node.pressure < b.node.pressure || (a.node.pressure == b.node.pressure && LexLe(a.node.name, b.node.name))
  }

  predicate LargerFirst(a: Vm, b: Vm) {
    || a.memory > b.memory
    || (a.memory == b.memory && a.disk > b.disk)
    || (a.memory == b.memory && a.disk == b.disk && LexLe(a.name, b.name))
  }

  // `round` rounds the difference that is shown.
  predicate Wider(round: real -> real, a: Recommendation, b: Recommendation) {
    round(a.delta) > round(b.delta) || (round(a.delta) == round(b.delta) && LexLe(a.vm.name, b.vm.name))
  }

  function WiderFirst(round: real -> real): (Recommendation, Recommendation) -> bool {
    (a: Recommendation, b: Recommendation) => Wider(round, a, b)
  }

  lemma LexOrders()
    ensures forall a, b :: LexLe(a, b) || LexLe(b, a)
    ensures forall a, b, c :: LexLe(a, b) && LexLe(b, c) ==> LexLe(a, c)
  {
    forall a, b ensures LexLe(a, b) || LexLe(b, a) { LexTotal(a, b); }
    forall a, b, c | LexLe(a, b) && LexLe(b, c) ensures LexLe(a, c) { LexTransitive(a, b, c); }
  }

  lemma NodeOrders()
    ensures TotalPreorder(HotterFirst) && TotalPreorder(CoolerFirst)
  {
    LexOrders();
    hide LexLe;
  }

  lemma VmOrders()
    ensures TotalPreorder(LargerFirst)
  {
    LexOrders();
    hide LexLe;
  }

  lemma RecommendationOrders(round: real -> real)
    ensures TotalPreorder(WiderFirst(round))
  {
    LexOrders();
    hide LexLe;
    forall a: Recommendation, b: Recommendation ensures WiderFirst(round)(a, b) || WiderFirst(round)(b, a) {
      assert LexLe(a.vm.name, b.vm.name) || LexLe(b.vm.name, a.vm.name);
    }
    forall a: Recommendation, b: Recommendation, c: Recommendation | WiderFirst(round)(a, b) && WiderFirst(round)(b, c)
      ensures WiderFirst(round)(a, c)
    {
      assert Wider(round, a, b) && Wider(round, b, c);
    }
  }

  predicate IsSource(n: Counted) {
    n.node.online && n.node.pressure >= HOT
  }

  predicate IsTarget(source: Counted, n: Counted) {
    n.node.online && n.node.id != source.node.id && source.node.pressure - n.node.pressure >= DELTA
  }

  predicate MayMove(red: Vm -> bool, source: Counted, vm: Vm) {
    vm.node == source.node.id && vm.running && !vm.template && !red(vm)
  }

  function TargetsOf(nodes: seq<Counted>, source: Counted): seq<Counted> {
    Filter((n: Counted) => IsTarget(source, n), nodes)
  }

  function MovableOf(vms: seq<Vm>, red: Vm -> bool, source: Counted): seq<Vm> {
    Filter((vm: Vm) => MayMove(red, source, vm), vms)
  }

  function Moves(chosen: seq<Vm>, source: Counted, target: Counted): (r: seq<Recommendation>)
    ensures |r| == |chosen| && forall k :: 0 <= k < |chosen| ==> r[k] == Recommend(chosen[k], source, target)
  {
    seq(|chosen|, k requires 0 <= k < |chosen| => Recommend(chosen[k], source, target))
  }

  lemma {:induction false} SortKeepsLength<T>(le: (T, T) -> bool, xs: seq<T>)
    ensures |Sort(le, xs)| == |xs|
  {
    if xs != [] {
      SortKeepsLength(le, xs[..|xs| - 1]);
      InsertLength(le, Sort(le, xs[..|xs| - 1]), xs[|xs| - 1]);
    }
  }

  lemma {:induction false} InsertLength<T>(le: (T, T) -> bool, xs: seq<T>, x: T)
    ensures |Insert(le, xs, x)| == |xs| + 1
  {
    if xs != [] { InsertLength(le, xs[1..], x); }
  }

  function CandidatesOf(nodes: seq<Counted>, vms: seq<Vm>, red: Vm -> bool, source: Counted): seq<Recommendation> {
    var targets := TargetsOf(nodes, source);
    if targets == [] then []
    else
      SortKeepsLength(CoolerFirst, targets);
      Moves(First(Sort(LargerFirst, MovableOf(vms, red, source)), VMS_PER_SOURCE), source, Sort(CoolerFirst, targets)[0])
  }

  function AllCandidates(nodes: seq<Counted>, vms: seq<Vm>, red: Vm -> bool, sources: seq<Counted>): seq<Recommendation> {
    if sources == [] then []
    else AllCandidates(nodes, vms, red, sources[..|sources| - 1]) + CandidatesOf(nodes, vms, red, sources[|sources| - 1])
  }

  function Sources(nodes: seq<Counted>): seq<Counted> {
    Sort(HotterFirst, Filter(IsSource, nodes))
  }

  method RecommendFrom(nodes: seq<Counted>, vms: seq<Vm>, red: Vm -> bool, source: Counted) returns (r: seq<Recommendation>)
    ensures r == CandidatesOf(nodes, vms, red, source)
  {
    r := [];
    var targets := TargetsOf(nodes, source);
    if targets != [] {
      SortKeepsLength(CoolerFirst, targets);
      var target := Sort(CoolerFirst, targets)[0];
      var chosen := First(Sort(LargerFirst, MovableOf(vms, red, source)), VMS_PER_SOURCE);
      var j := 0;
      while j < |chosen|
        invariant 0 <= j <= |chosen| && |r| == j
        invariant forall k :: 0 <= k < j ==> r[k] == Recommend(chosen[k], source, target)
      {
        r := r + [Recommend(chosen[j], source, target)];
        j := j + 1;
      }
      assert r == Moves(chosen, source, target);
    }
  }

  method BuildRecommendations(nodes: seq<Counted>, vms: seq<Vm>, red: Vm -> bool, round: real -> real)
    returns (r: seq<Recommendation>)
    ensures r == First(Sort(WiderFirst(round), AllCandidates(nodes, vms, red, Sources(nodes))), SHOWN)
  {
    hide CandidatesOf, Sort, Sources;
    var sources := Sources(nodes);
    var recommendations: seq<Recommendation> := [];
    var i := 0;
    assert sources[..0] == [];
    while i < |sources|
      invariant 0 <= i <= |sources|
      invariant recommendations == AllCandidates(nodes, vms, red, sources[..i])
    {
      assert sources[..i + 1][..i] == sources[..i];
      var more := RecommendFrom(nodes, vms, red, sources[i]);
      recommendations := recommendations + more;
      i := i + 1;
    }
    assert sources[..|sources|] == sources;
    r := First(Sort(WiderFirst(round), recommendations), SHOWN);
  }

  // ----- what the advice promises

  // The move takes a running machine, no template and not at risk, off an online node of pressure
  // 70 or more, to another online node that is cooler by 25 or more. No such node is cooler than
  // the chosen one, nor as cool with an earlier name.
  ghost predicate Advised(nodes: seq<Counted>, vms: seq<Vm>, red: Vm -> bool, r: Recommendation) {
    var from, to := r.source.node, r.target.node;
    && r.source in nodes && from.online && from.pressure >= 70.0
    && r.target in nodes && Cooler(from, to)
    && (forall n :: n in nodes && Cooler(from, n.node) ==> CoolerRank(to, n.node))
    && r.vm in vms && Movable(red, from, r.vm)
    && r.delta == from.pressure - to.pressure && 4.0 <= r.effect <= 18.0
    && r.effect == PressureEffect(r.vm, r.source)
  }

  predicate Cooler(from: Node, to: Node) {
    to.online && to.id != from.id && from.pressure - to.pressure >= 25.0
  }

  predicate Movable(red: Vm -> bool, from: Node, vm: Vm) {
    vm.running && !vm.template && vm.node == from.id && !red(vm)
  }

  // More memory first, then more disk, then the earlier name.
  predicate RanksBefore(a: Vm, b: Vm) {
    if a.memory != b.memory then a.memory > b.memory
    else if a.disk != b.disk then a.disk > b.disk
    else LexLe(a.name, b.name)
  }

  predicate CoolerRank(a: Node, b: Node) {
    if a.pressure == b.pressure then LexLe(a.name, b.name) else a.pressure < b.pressure
  }

  predicate HotterRank(a: Node, b: Node) {
    if a.pressure == b.pressure then LexLe(a.name, b.name) else a.pressure > b.pressure
  }

  // The chosen target is eligible, and no eligible node ranks before it.
  lemma LeastTarget(nodes: seq<Counted>, source: Counted)
    requires TargetsOf(nodes, source) != []
    ensures var sorted := Sort(CoolerFirst, TargetsOf(nodes, source));
            && |sorted| > 0 && sorted[0] in nodes && Cooler(source.node, sorted[0].node)
            && forall n :: n in nodes && Cooler(source.node, n.node) ==> CoolerRank(sorted[0].node, n.node)
  {
    var targets := TargetsOf(nodes, source);
    NodeOrders();
    SortOrders(CoolerFirst, targets);
    hide Sort, LexLe, TotalPreorder;
    var sorted := Sort(CoolerFirst, targets);
    SameElements(sorted, targets);
    assert sorted[0] in targets;
    forall n | n in nodes && Cooler(source.node, n.node) ensures CoolerRank(sorted[0].node, n.node) {
      assert n in targets;
      var k :| 0 <= k < |sorted| && sorted[k] == n;
      LexTotal(n.node.name, n.node.name);
      assert k == 0 || CoolerFirst(sorted[0], sorted[k]);
    }
  }

  lemma RankedMovable(vms: seq<Vm>, red: Vm -> bool, source: Counted, k: nat)
    requires k < |First(Sort(LargerFirst, MovableOf(vms, red, source)), VMS_PER_SOURCE)|
    ensures var vm := First(Sort(LargerFirst, MovableOf(vms, red, source)), VMS_PER_SOURCE)[k];
            vm in vms && Movable(red, source.node, vm)
  {
    var movable := MovableOf(vms, red, source);
    VmOrders();
    SortOrders(LargerFirst, movable);
    hide Sort, LexLe, TotalPreorder, Ordered, LargerFirst;
    var ranked := Sort(LargerFirst, movable);
    SameElements(ranked, movable);
    assert First(ranked, VMS_PER_SOURCE)[k] == ranked[k] && ranked[k] in movable;
  }

  lemma RecommendedMove(vm: Vm, source: Counted, target: Counted)
    ensures var r := Recommend(vm, source, target);
            r.vm == vm && r.source == source && r.target == target
            && r.delta == source.node.pressure - target.node.pressure && r.effect == PressureEffect(vm, source)
  {
  }

  lemma CandidatesAdvised(nodes: seq<Counted>, vms: seq<Vm>, red: Vm -> bool, source: Counted, r: Recommendation)
    requires source in nodes && IsSource(source) && r in CandidatesOf(nodes, vms, red, source)
    ensures Advised(nodes, vms, red, r) && r.source == source && r == Recommend(r.vm, r.source, r.target)
  {
    hide Sort, TargetsOf, MovableOf, PressureEffect, Recommend, Cooler, Movable;
    LeastTarget(nodes, source);
    var target := Sort(CoolerFirst, TargetsOf(nodes, source))[0];
    var chosen := First(Sort(LargerFirst, MovableOf(vms, red, source)), VMS_PER_SOURCE);
    hide First;
    var k :| 0 <= k < |chosen| && r == Recommend(chosen[k], source, target);
    RankedMovable(vms, red, source, k);
    RecommendedMove(chosen[k], source, target);
  }

  lemma {:induction false} AllAdvised(nodes: seq<Counted>, vms: seq<Vm>, red: Vm -> bool, sources: seq<Counted>, r: Recommendation)
    requires forall s :: s in sources ==> s in nodes && IsSource(s)
    requires r in AllCandidates(nodes, vms, red, sources)
    ensures Advised(nodes, vms, red, r) && r == Recommend(r.vm, r.source, r.target)
  {
    hide Advised, Recommend;
    var n := |sources| - 1;
    if r in AllCandidates(nodes, vms, red, sources[..n]) {
      AllAdvised(nodes, vms, red, sources[..n], r);
    } else {
      CandidatesAdvised(nodes, vms, red, sources[n], r);
    }
  }

  // Wider differences first, then the earlier machine name.
  predicate ShownBefore(round: real -> real, a: Recommendation, b: Recommendation) {
    if round(a.delta) == round(b.delta) then LexLe(a.vm.name, b.vm.name) else round(a.delta) > round(b.delta)
  }

  lemma ShownRanked(all: seq<Recommendation>, round: real -> real)
    ensures var sorted, shown := Sort(WiderFirst(round), all), First(Sort(WiderFirst(round), all), SHOWN);
            && multiset(sorted) == multiset(all) && |shown| == (if |all| < 10 then |all| else 10) && shown == sorted[..|shown|]
            && (forall r :: r in shown ==> r in all)
            && (forall i, j :: 0 <= i < j < |sorted| ==> ShownBefore(round, sorted[i], sorted[j]))
  {
    RecommendationOrders(round);
    SortOrders(WiderFirst(round), all);
    hide Sort, TotalPreorder;
    var sorted := Sort(WiderFirst(round), all);
    SameElements(sorted, all);
    forall i, j | 0 <= i < j < |sorted| ensures ShownBefore(round, sorted[i], sorted[j]) {
      assert WiderFirst(round)(sorted[i], sorted[j]);
    }
    hide WiderFirst;
    forall r | r in First(sorted, SHOWN) ensures r in all { assert r in sorted; }
  }

  // The advice that is shown: the first ten of all candidates, wider differences first, each of
  // them advised, strictly narrowing the gap between its nodes and flagged when it would bring its
  // target to 85 or more.
  lemma ShownIsBest(nodes: seq<Counted>, vms: seq<Vm>, red: Vm -> bool, round: real -> real, k: nat)
    requires forall n :: n in nodes ==> 0.0 <= n.node.pressure <= 100.0
    requires k < |First(Sort(WiderFirst(round), AllCandidates(nodes, vms, red, Sources(nodes))), SHOWN)|
    ensures var all := AllCandidates(nodes, vms, red, Sources(nodes));
            var sorted := Sort(WiderFirst(round), all);
            var r := First(sorted, SHOWN)[k];
            && multiset(sorted) == multiset(all) && |First(sorted, SHOWN)| == (if |all| < 10 then |all| else 10)
            && (forall j :: k < j < |sorted| ==> ShownBefore(round, r, sorted[j]))
            && Advised(nodes, vms, red, r) && Narrows(r)
  {
    hide Sort, AllCandidates, Sources, WiderFirst, PressureEffect, Recommend, ShownBefore;
    var all := AllCandidates(nodes, vms, red, Sources(nodes));
    ShownRanked(all, round);
    var r := First(Sort(WiderFirst(round), all), SHOWN)[k];
    SourcesAreSources(nodes);
    AllAdvised(nodes, vms, red, Sources(nodes), r);
    assert r.target in nodes && r.source in nodes;
    MoveNarrowsGap(r.vm, r.source, r.target);
  }

  // All hot online nodes are sources, hotter ones first.
  lemma SourcesAreSources(nodes: seq<Counted>)
    ensures forall s :: s in Sources(nodes) <==> s in nodes && s.node.online && s.node.pressure >= 70.0
    ensures forall i, j :: 0 <= i < j < |Sources(nodes)| ==> HotterRank(Sources(nodes)[i].node, Sources(nodes)[j].node)
  {
    NodeOrders();
    SortOrders(HotterFirst, Filter(IsSource, nodes));
    SameElements(Sources(nodes), Filter(IsSource, nodes));
    var sources := Sources(nodes);
    forall i, j | 0 <= i < j < |sources| ensures HotterRank(sources[i].node, sources[j].node) {
      assert HotterFirst(sources[i], sources[j]);
    }
  }

  // A source with a target contributes its three largest movable machines, fewer if it has fewer;
  // one without contributes nothing.
  lemma ThreeLargest(nodes: seq<Counted>, vms: seq<Vm>, red: Vm -> bool, source: Counted)
    ensures var candidates, movable := CandidatesOf(nodes, vms, red, source), MovableOf(vms, red, source);
            var ranked := Sort(LargerFirst, movable);
            && (forall vm :: vm in movable <==> vm in vms && Movable(red, source.node, vm))
            && multiset(ranked) == multiset(movable)
            && (forall i, j :: 0 <= i < j < |ranked| ==> RanksBefore(ranked[i], ranked[j]))
            && |candidates| == (if !exists n :: n in nodes && Cooler(source.node, n.node) then 0
                                else if |movable| < 3 then |movable| else 3)
            && (forall k :: 0 <= k < |candidates| ==> k < |ranked| && candidates[k].vm == ranked[k] && candidates[k].source == source)
  {
    var movable := MovableOf(vms, red, source);
    VmOrders();
    SortOrders(LargerFirst, movable);
    FirstIsBest(LargerFirst, Sort(LargerFirst, movable), VMS_PER_SOURCE);
    HasTarget(nodes, source);
    hide Sort, LexLe, MovableOf, TargetsOf, PressureEffect;
    var ranked := Sort(LargerFirst, movable);
    forall i, j | 0 <= i < j < |ranked| ensures RanksBefore(ranked[i], ranked[j]) {
      assert LargerFirst(ranked[i], ranked[j]);
      LexTotal(ranked[i].name, ranked[j].name);
    }
    MovableExactly(vms, red, source);
  }

  lemma MovableExactly(vms: seq<Vm>, red: Vm -> bool, source: Counted)
    ensures forall vm :: vm in MovableOf(vms, red, source) <==> vm in vms && Movable(red, source.node, vm)
  {
  }

  lemma HasTarget(nodes: seq<Counted>, source: Counted)
    ensures TargetsOf(nodes, source) == [] <==> !exists n :: n in nodes && Cooler(source.node, n.node)
  {
    var targets := TargetsOf(nodes, source);
    if targets != [] { assert targets[0] in targets; }
    if n :| n in nodes && Cooler(source.node, n.node) { assert n in targets; }
  }

  // The candidates are those of all sources.
  lemma {:induction false} AllOfAll(nodes: seq<Counted>, vms: seq<Vm>, red: Vm -> bool, sources: seq<Counted>, r: Recommendation)
    ensures r in AllCandidates(nodes, vms, red, sources)
            <==> exists k :: 0 <= k < |sources| && r in CandidatesOf(nodes, vms, red, sources[k])
  {
    hide CandidatesOf;
    if sources != [] {
      var n := |sources| - 1;
      AllOfAll(nodes, vms, red, sources[..n], r);
      if k :| 0 <= k < n && r in CandidatesOf(nodes, vms, red, sources[..n][k]) {
        assert sources[k] == sources[..n][k];
      }
      if k :| 0 <= k < |sources| && r in CandidatesOf(nodes, vms, red, sources[k]) {
        assert k == n || sources[..n][k] == sources[k];
      }
    }
  }
}
