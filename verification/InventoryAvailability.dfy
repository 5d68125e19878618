/**
 The availability of the sources of an inventory snapshot: what was expected, observed and
 failed, recorded while the nodes are listed and the details come in.
 */
module InventoryAvailability {
  import opened Wrappers
  import opened Decimal
  import opened Sorting
  import opened InventoryCache
  import opened InventoryLoads

  // One node with the outcome of listing its storage and networks, and its machines.
  datatype Machine = Machine(row: Row, template: bool)

  datatype Node = Node(name: string, storageListed: bool, networkListed: bool, machines: seq<Machine>)

  datatype Ledger = Ledger(expected: seq<string>, observed: seq<string>, failed: seq<string>) {
    // Every expected target was observed or failed, each as often as expected.
    ghost predicate Conserved() {
      multiset(expected) == multiset(observed) + multiset(failed)
    }
  }

  datatype SourceAvailability = SourceAvailability(name: string, expected: nat, observed: nat, failed: seq<string>) {
    predicate Available() {
      expected == 0 || observed > 0
    }

    predicate Complete() {
      failed == [] && observed >= expected
    }
  }

  function SourceOf(name: string, ledger: Ledger): SourceAvailability {
    SourceAvailability(name, |ledger.expected|, |ledger.observed|, Sort(LexLe, ledger.failed))
  }

  lemma LexOrders()
    ensures TotalPreorder(LexLe)
  {
    forall a: string, b: string ensures LexLe(a, b) || LexLe(b, a) { LexTotal(a, b); }
    forall a: string, b: string, c: string | LexLe(a, b) && LexLe(b, c) ensures LexLe(a, c) { LexTransitive(a, b, c); }
  }

  // A conserved source is complete exactly when nothing failed, and available exactly when not
  // everything failed or nothing was expected; the failed targets are listed
  // in order, and the counts add up.
  lemma ConservedSource(name: string, ledger: Ledger)
    requires ledger.Conserved()
    ensures var source := SourceOf(name, ledger);
            && (source.Complete() <==> ledger.failed == [])
            && (source.Available() <==> |ledger.failed| < |ledger.expected| || ledger.expected == [])
            && source.expected == source.observed + |source.failed|
            && multiset(source.failed) == multiset(ledger.failed)
            && Ordered(LexLe, source.failed)
  {
    LexOrders();
    SortOrders(LexLe, ledger.failed);
    assert |multiset(ledger.expected)| == |ledger.expected|;
    assert |multiset(ledger.observed) + multiset(ledger.failed)| == |ledger.observed| + |ledger.failed|;
  }

  // ----- the targets a ledger lists

  function Target(row: Row): string {
    row.key.node + ":" + PrintInt(row.key.vmid)
  }

  // Different machines have different targets.
  lemma TargetInjective(a: Row, b: Row)
    requires Target(a) == Target(b)
    ensures a.key == b.key
  {
    JoinInjective(a.key.node, PrintInt(a.key.vmid), b.key.node, PrintInt(b.key.vmid), ':');
    PrintIntInjective(a.key.vmid, b.key.vmid);
  }

  // The targets whose flag is set, in order.
  function Chosen(targets: seq<string>, flags: seq<bool>): (r: seq<string>)
    requires |targets| == |flags|
  {
    if targets == [] then []
    else
      var n := |targets| - 1;
      Chosen(targets[..n], flags[..n]) + (if flags[n] then [targets[n]] else [])
  }

  lemma {:induction false} ChosenSplits(targets: seq<string>, expected: seq<bool>, observed: seq<bool>, failed: seq<bool>)
    requires |targets| == |expected| == |observed| == |failed|
    requires forall i :: 0 <= i < |targets| ==> expected[i] == (observed[i] || failed[i]) && !(observed[i] && failed[i])
    ensures Ledger(Chosen(targets, expected), Chosen(targets, observed), Chosen(targets, failed)).Conserved()
  {
    if targets != [] {
      var n := |targets| - 1;
      ChosenSplits(targets[..n], expected[..n], observed[..n], failed[..n]);
    }
  }

  lemma {:induction false} ChosenMember(targets: seq<string>, flags: seq<bool>, x: string)
    requires |targets| == |flags|
    ensures x in Chosen(targets, flags) <==> exists i :: 0 <= i < |targets| && targets[i] == x && flags[i]
  {
    if targets != [] {
      var n := |targets| - 1;
      ChosenMember(targets[..n], flags[..n], x);
      if i :| 0 <= i < |targets| && targets[i] == x && flags[i] {
        assert i == n || (targets[..n][i] == x && flags[..n][i]);
      }
      if i :| 0 <= i < n && targets[..n][i] == x && flags[..n][i] {
        assert targets[i] == x && flags[i];
      }
    }
  }

  lemma ChosenAt(targets: seq<string>, flags: seq<bool>, i: nat)
    requires |targets| == |flags| && i < |targets|
    requires forall a, b :: 0 <= a < b < |targets| ==> targets[a] != targets[b]
    ensures targets[i] in Chosen(targets, flags) <==> flags[i]
  {
    ChosenMember(targets, flags, targets[i]);
    if j :| 0 <= j < |targets| && targets[j] == targets[i] && flags[j] {
      assert targets[i] == targets[j] ==> i == j;
    }
  }

  // With distinct targets the flags can be read off a conserved ledger.
  lemma ConservedFlags(targets: seq<string>, expected: seq<bool>, observed: seq<bool>, failed: seq<bool>, i: nat)
    requires |targets| == |expected| == |observed| == |failed| && i < |targets|
    requires forall a, b :: 0 <= a < b < |targets| ==> targets[a] != targets[b]
    requires Ledger(Chosen(targets, expected), Chosen(targets, observed), Chosen(targets, failed)).Conserved()
    ensures expected[i] == (observed[i] || failed[i])
  {
    ChosenAt(targets, expected, i);
    ChosenAt(targets, observed, i);
    ChosenAt(targets, failed, i);
    var x := targets[i];
    assert x in Chosen(targets, expected) <==> x in multiset(Chosen(targets, expected));
    assert x in Chosen(targets, observed) <==> x in multiset(Chosen(targets, observed));
    assert x in Chosen(targets, failed) <==> x in multiset(Chosen(targets, failed));
  }

  // ----- the lists of nodes

  function Names(nodes: seq<Node>): seq<string> {
    seq(|nodes|, i requires 0 <= i < |nodes| => nodes[i].name)
  }

  function StorageListed(nodes: seq<Node>): seq<bool> {
    seq(|nodes|, i requires 0 <= i < |nodes| => nodes[i].storageListed)
  }

  function NetworkListed(nodes: seq<Node>): seq<bool> {
    seq(|nodes|, i requires 0 <= i < |nodes| => nodes[i].networkListed)
  }

  function Negated(flags: seq<bool>): seq<bool> {
    seq(|flags|, i requires 0 <= i < |flags| => !flags[i])
  }

  // The ledger of a source that either is observed or fails for every target.
  function EitherWay(targets: seq<string>, observed: seq<bool>): Ledger
    requires |targets| == |observed|
  {
    Ledger(targets, Chosen(targets, observed), Chosen(targets, Negated(observed)))
  }

  lemma {:induction false} ChosenAll(targets: seq<string>, flags: seq<bool>)
    requires |targets| == |flags| && forall i :: 0 <= i < |flags| ==> flags[i]
    ensures Chosen(targets, flags) == targets
  {
    if targets != [] {
      var n := |targets| - 1;
      ChosenAll(targets[..n], flags[..n]);
      assert targets == targets[..n] + [targets[n]];
    }
  }

  lemma EitherWayConserved(targets: seq<string>, observed: seq<bool>)
    requires |targets| == |observed|
    ensures EitherWay(targets, observed).Conserved()
  {
    var all := seq(|targets|, i => true);
    ChosenAll(targets, all);
    ChosenSplits(targets, all, observed, Negated(observed));
  }

  // The rows of one kind of machine, node after node.
  function RowsOf(machines: seq<Machine>, template: bool): seq<Row> {
    if machines == [] then []
    else
      var n := |machines| - 1;
      RowsOf(machines[..n], template) + (if machines[n].template == template then [machines[n].row] else [])
  }

  function RowsOfNodes(nodes: seq<Node>, template: bool): seq<Row> {
    if nodes == [] then []
    else RowsOfNodes(nodes[..|nodes| - 1], template) + RowsOf(nodes[|nodes| - 1].machines, template)
  }

  // The rows whose details are loaded: first the machines that live, then the templates.
  function AllRows(nodes: seq<Node>): seq<Row> {
    RowsOfNodes(nodes, false) + RowsOfNodes(nodes, true)
  }

  method SortRows(machines: seq<Machine>, live: seq<Row>, templates: seq<Row>) returns (live': seq<Row>, templates': seq<Row>)
    ensures live' == live + RowsOf(machines, false)
    ensures templates' == templates + RowsOf(machines, true)
  {
    live', templates' := live, templates;
    var i := 0;
    assert machines[..0] == [];
    while i < |machines|
      invariant 0 <= i <= |machines|
      invariant live' == live + RowsOf(machines[..i], false)
      invariant templates' == templates + RowsOf(machines[..i], true)
    {
      assert machines[..i + 1][..i] == machines[..i];
      if machines[i].template {
        templates' := templates' + [machines[i].row];
      } else {
        live' := live' + [machines[i].row];
      }
      i := i + 1;
    }
    assert machines[..|machines|] == machines;
  }

  method ListNodes(nodes: seq<Node>) returns (storage: Ledger, network: Ledger, rows: seq<Row>)
    ensures storage == EitherWay(Names(nodes), StorageListed(nodes))
    ensures network == EitherWay(Names(nodes), NetworkListed(nodes))
    ensures rows == AllRows(nodes)
  {
    storage, network := Ledger([], [], []), Ledger([], [], []);
    var live: seq<Row>, templates: seq<Row> := [], [];
    var i := 0;
    assert nodes[..0] == [];
    while i < |nodes|
      invariant 0 <= i <= |nodes|
      invariant storage == EitherWay(Names(nodes[..i]), StorageListed(nodes[..i]))
      invariant network == EitherWay(Names(nodes[..i]), NetworkListed(nodes[..i]))
      invariant live == RowsOfNodes(nodes[..i], false) && templates == RowsOfNodes(nodes[..i], true)
    {
      var node := nodes[i];
      OneMoreNode(nodes, i);
      storage := storage.(expected := storage.expected + [node.name]);
      if node.storageListed {
        storage := storage.(observed := storage.observed + [node.name]);
      } else {
        storage := storage.(failed := storage.failed + [node.name]);
      }
      network := network.(expected := network.expected + [node.name]);
      if node.networkListed {
        network := network.(observed := network.observed + [node.name]);
      } else {
        network := network.(failed := network.failed + [node.name]);
      }
      live, templates := SortRows(node.machines, live, templates);
      i := i + 1;
    }
    assert nodes[..|nodes|] == nodes;
    rows := live + templates;
  }

  function Extended(ledger: Ledger, target: string, observed: bool): Ledger {
    if observed then Ledger(ledger.expected + [target], ledger.observed + [target], ledger.failed)
    else Ledger(ledger.expected + [target], ledger.observed, ledger.failed + [target])
  }

  lemma EitherWayExtends(targets: seq<string>, observed: seq<bool>, target: string, flag: bool)
    requires |targets| == |observed|
    ensures EitherWay(targets + [target], observed + [flag]) == Extended(EitherWay(targets, observed), target, flag)
  {
    assert (targets + [target])[..|targets|] == targets && (observed + [flag])[..|targets|] == observed;
    assert Negated(observed + [flag])[..|targets|] == Negated(observed);
  }

  lemma OneMoreNode(nodes: seq<Node>, i: nat)
    requires i < |nodes|
    ensures var before, after, node := nodes[..i], nodes[..i + 1], nodes[i];
            && EitherWay(Names(after), StorageListed(after))
               == Extended(EitherWay(Names(before), StorageListed(before)), node.name, node.storageListed)
            && EitherWay(Names(after), NetworkListed(after))
               == Extended(EitherWay(Names(before), NetworkListed(before)), node.name, node.networkListed)
            && RowsOfNodes(after, false) == RowsOfNodes(before, false) + RowsOf(node.machines, false)
            && RowsOfNodes(after, true) == RowsOfNodes(before, true) + RowsOf(node.machines, true)
  {
    var before, after, node := nodes[..i], nodes[..i + 1], nodes[i];
    EitherWayExtends(Names(before), StorageListed(before), node.name, node.storageListed);
    EitherWayExtends(Names(before), NetworkListed(before), node.name, node.networkListed);
    assert Names(after) == Names(before) + [node.name];
    assert StorageListed(after) == StorageListed(before) + [node.storageListed];
    assert NetworkListed(after) == NetworkListed(before) + [node.networkListed];
    assert after[..|after| - 1] == before;
  }

  // ----- the details

  function Targets(rows: seq<Row>): seq<string> {
    seq(|rows|, i requires 0 <= i < |rows| => Target(rows[i]))
  }

  function Running(rows: seq<Row>): seq<bool> {
    seq(|rows|, i requires 0 <= i < |rows| => rows[i].running)
  }

  function DetailLoaded(details: seq<Option<Observation>>): seq<bool> {
    seq(|details|, i requires 0 <= i < |details| => details[i].Some?)
  }

  function ConfigLoaded(details: seq<Option<Observation>>): seq<bool> {
    seq(|details|, i requires 0 <= i < |details| => details[i].Some? && details[i].value.config)
  }

  // The agent was asked of the row the observation was loaded from.
  function AgentAnswered(details: seq<Option<Observation>>): seq<bool> {
    seq(|details|, i requires 0 <= i < |details| =>
      details[i].Some? && details[i].value.row.running && details[i].value.agent)
  }

  function AgentFailed(rows: seq<Row>, details: seq<Option<Observation>>): seq<bool>
    requires |rows| == |details|
  {
    seq(|details|, i requires 0 <= i < |details| =>
      if details[i].None? then rows[i].running else details[i].value.row.running && !details[i].value.agent)
  }

  function GuestLedger(rows: seq<Row>, details: seq<Option<Observation>>): Ledger
    requires |rows| == |details|
  {
    var targets := Targets(rows);
    Ledger(Chosen(targets, Running(rows)), Chosen(targets, AgentAnswered(details)), Chosen(targets, AgentFailed(rows, details)))
  }

  // Every observation agrees with its row on whether the agent applies.
  predicate Coherent(rows: seq<Row>, details: seq<Option<Observation>>)
    requires |rows| == |details|
  {
    forall i :: 0 <= i < |rows| ==> details[i].Some? ==> details[i].value.row.running == rows[i].running
  }

  /** The lists that are filled while details come in. */
  class Recorder {
    var detail: Ledger
    var config: Ledger
    var guest: Ledger

    constructor (rows: seq<Row>)
      ensures detail == Ledger(Targets(rows), [], []) && config == Ledger(Targets(rows), [], [])
      ensures guest == Ledger(Chosen(Targets(rows), Running(rows)), [], [])
    {
      detail, config := Ledger(Targets(rows), [], []), Ledger(Targets(rows), [], []);
      guest := Ledger(Chosen(Targets(rows), Running(rows)), [], []);
    }

    method Record(row: Row, observation: Option<Observation>)
      modifies this
      ensures detail == Recorded(old(detail), Target(row), observation.Some?, observation.None?)
      ensures var loaded := observation.Some? && observation.value.config;
              config == Recorded(old(config), Target(row), loaded, !loaded)
      ensures guest == if observation.None? then Recorded(old(guest), Target(row), false, row.running)
                       else var o := observation.value;
                            Recorded(old(guest), Target(row), o.row.running && o.agent, o.row.running && !o.agent)
    {
      var target := Target(row);
      if observation.None? {
        detail := detail.(failed := detail.failed + [target]);
        config := config.(failed := config.failed + [target]);
        if row.running { guest := guest.(failed := guest.failed + [target]); }
      } else {
        detail := detail.(observed := detail.observed + [target]);
        if observation.value.config {
          config := config.(observed := config.observed + [target]);
        } else {
          config := config.(failed := config.failed + [target]);
        }
        if observation.value.row.running {
          if observation.value.agent {
            guest := guest.(observed := guest.observed + [target]);
          } else {
            guest := guest.(failed := guest.failed + [target]);
          }
        }
      }
    }

    method RecordAll(rows: seq<Row>, details: seq<Option<Observation>>)
      requires |rows| == |details|
      requires detail == Ledger(Targets(rows), [], []) && config == Ledger(Targets(rows), [], [])
      requires guest == Ledger(Chosen(Targets(rows), Running(rows)), [], [])
      modifies this
      ensures detail == EitherWay(Targets(rows), DetailLoaded(details))
      ensures config == EitherWay(Targets(rows), ConfigLoaded(details))
      ensures guest == GuestLedger(rows, details)
    {
      hide LedgerUpto, Target, Targets, Chosen, Running, DetailLoaded, ConfigLoaded, AgentAnswered, AgentFailed, Recorded, Negated;
      var i := 0;
      NothingRecorded(rows, details);
      while i < |rows|
        invariant 0 <= i <= |rows|
        invariant detail == DetailUpto(rows, details, i)
        invariant config == ConfigUpto(rows, details, i)
        invariant guest == GuestUpto(rows, details, i)
      {
        OneMoreRecorded(rows, details, i);
        Record(rows[i], details[i]);
        i := i + 1;
      }
      AllRecorded(rows, details);
    }
  }

  function Recorded(ledger: Ledger, target: string, observed: bool, failed: bool): Ledger {
    ledger.(observed := if observed then ledger.observed + [target] else ledger.observed,
            failed := if failed then ledger.failed + [target] else ledger.failed)
  }

  function Upto(targets: seq<string>, flags: seq<bool>, n: nat): seq<string>
    requires |targets| == |flags| && n <= |targets|
  {
    Chosen(targets[..n], flags[..n])
  }

  lemma UptoGrows(targets: seq<string>, flags: seq<bool>, n: nat)
    requires |targets| == |flags| && n < |targets|
    ensures Upto(targets, flags, n + 1) == Upto(targets, flags, n) + (if flags[n] then [targets[n]] else [])
  {
    assert targets[..n + 1][..n] == targets[..n] && flags[..n + 1][..n] == flags[..n];
  }

  lemma UptoAll(targets: seq<string>, flags: seq<bool>)
    requires |targets| == |flags|
    ensures Upto(targets, flags, |targets|) == Chosen(targets, flags)
  {
    assert targets[..|targets|] == targets && flags[..|targets|] == flags;
  }

  // The ledger after the first `n` targets.
  function LedgerUpto(expected: seq<string>, targets: seq<string>, observed: seq<bool>, failed: seq<bool>, n: nat): Ledger
    requires |targets| == |observed| == |failed| && n <= |targets|
  {
    Ledger(expected, Upto(targets, observed, n), Upto(targets, failed, n))
  }

  function DetailUpto(rows: seq<Row>, details: seq<Option<Observation>>, n: nat): Ledger
    requires |rows| == |details| && n <= |rows|
  {
    LedgerUpto(Targets(rows), Targets(rows), DetailLoaded(details), Negated(DetailLoaded(details)), n)
  }

  function ConfigUpto(rows: seq<Row>, details: seq<Option<Observation>>, n: nat): Ledger
    requires |rows| == |details| && n <= |rows|
  {
    LedgerUpto(Targets(rows), Targets(rows), ConfigLoaded(details), Negated(ConfigLoaded(details)), n)
  }

  function GuestUpto(rows: seq<Row>, details: seq<Option<Observation>>, n: nat): Ledger
    requires |rows| == |details| && n <= |rows|
  {
    LedgerUpto(Chosen(Targets(rows), Running(rows)), Targets(rows), AgentAnswered(details), AgentFailed(rows, details), n)
  }

  lemma LedgerGrows(expected: seq<string>, targets: seq<string>, observed: seq<bool>, failed: seq<bool>, n: nat)
    requires |targets| == |observed| == |failed| && n < |targets|
    ensures LedgerUpto(expected, targets, observed, failed, n + 1)
            == Recorded(LedgerUpto(expected, targets, observed, failed, n), targets[n], observed[n], failed[n])
  {
    UptoGrows(targets, observed, n);
    UptoGrows(targets, failed, n);
    hide Upto;
  }

  lemma NothingRecorded(rows: seq<Row>, details: seq<Option<Observation>>)
    requires |rows| == |details|
    ensures DetailUpto(rows, details, 0) == Ledger(Targets(rows), [], [])
    ensures ConfigUpto(rows, details, 0) == Ledger(Targets(rows), [], [])
    ensures GuestUpto(rows, details, 0) == Ledger(Chosen(Targets(rows), Running(rows)), [], [])
  {
  }

  lemma OneMoreRecorded(rows: seq<Row>, details: seq<Option<Observation>>, n: nat)
    requires |rows| == |details| && n < |rows|
    ensures var target, o := Target(rows[n]), details[n];
            var loaded := o.Some? && o.value.config;
            && DetailUpto(rows, details, n + 1) == Recorded(DetailUpto(rows, details, n), target, o.Some?, o.None?)
            && ConfigUpto(rows, details, n + 1) == Recorded(ConfigUpto(rows, details, n), target, loaded, !loaded)
            && GuestUpto(rows, details, n + 1)
               == if o.None? then Recorded(GuestUpto(rows, details, n), target, false, rows[n].running)
                  else Recorded(GuestUpto(rows, details, n), target, o.value.row.running && o.value.agent,
                                o.value.row.running && !o.value.agent)
  {
    var targets := Targets(rows);
    LedgerGrows(targets, targets, DetailLoaded(details), Negated(DetailLoaded(details)), n);
    LedgerGrows(targets, targets, ConfigLoaded(details), Negated(ConfigLoaded(details)), n);
    LedgerGrows(Chosen(targets, Running(rows)), targets, AgentAnswered(details), AgentFailed(rows, details), n);
    hide LedgerUpto, Recorded, Chosen, Running, Target;
  }

  lemma AllRecorded(rows: seq<Row>, details: seq<Option<Observation>>)
    requires |rows| == |details|
    ensures DetailUpto(rows, details, |rows|) == EitherWay(Targets(rows), DetailLoaded(details))
    ensures ConfigUpto(rows, details, |rows|) == EitherWay(Targets(rows), ConfigLoaded(details))
    ensures GuestUpto(rows, details, |rows|) == GuestLedger(rows, details)
  {
    var targets := Targets(rows);
    UptoAll(targets, DetailLoaded(details));
    UptoAll(targets, Negated(DetailLoaded(details)));
    UptoAll(targets, ConfigLoaded(details));
    UptoAll(targets, Negated(ConfigLoaded(details)));
    UptoAll(targets, AgentAnswered(details));
    UptoAll(targets, AgentFailed(rows, details));
    hide Upto, Chosen, Target;
  }

  // ----- conservation

  // Four sources are conserved whatever was observed.
  lemma FourSourcesConserved(nodes: seq<Node>, rows: seq<Row>, details: seq<Option<Observation>>)
    requires |rows| == |details|
    ensures EitherWay(Names(nodes), StorageListed(nodes)).Conserved()
    ensures EitherWay(Names(nodes), NetworkListed(nodes)).Conserved()
    ensures EitherWay(Targets(rows), DetailLoaded(details)).Conserved()
    ensures EitherWay(Targets(rows), ConfigLoaded(details)).Conserved()
  {
    EitherWayConserved(Names(nodes), StorageListed(nodes));
    EitherWayConserved(Names(nodes), NetworkListed(nodes));
    EitherWayConserved(Targets(rows), DetailLoaded(details));
    EitherWayConserved(Targets(rows), ConfigLoaded(details));
  }

  lemma CoherentGuestConserved(rows: seq<Row>, details: seq<Option<Observation>>)
    requires |rows| == |details| && Coherent(rows, details)
    ensures GuestLedger(rows, details).Conserved()
  {
    ChosenSplits(Targets(rows), Running(rows), AgentAnswered(details), AgentFailed(rows, details));
  }

  // With one row per machine the guest agent is accounted for exactly when the observations
  // agree with the rows.
  lemma GuestConservedExactlyWhenCoherent(rows: seq<Row>, details: seq<Option<Observation>>)
    requires |rows| == |details|
    requires forall a, b :: 0 <= a < b < |rows| ==> rows[a].key != rows[b].key
    ensures GuestLedger(rows, details).Conserved() <==> Coherent(rows, details)
  {
    if Coherent(rows, details) { CoherentGuestConserved(rows, details); }
    if GuestLedger(rows, details).Conserved() {
      var targets := Targets(rows);
      forall a, b | 0 <= a < b < |targets| ensures targets[a] != targets[b] {
        if targets[a] == targets[b] { TargetInjective(rows[a], rows[b]); }
      }
      forall i | 0 <= i < |rows| ensures details[i].Some? ==> details[i].value.row.running == rows[i].running {
        ConservedFlags(targets, Running(rows), AgentAnswered(details), AgentFailed(rows, details), i);
      }
    }
  }

  // A snapshot is complete when all its sources are.
  predicate AllComplete(sources: seq<SourceAvailability>) {
    forall i :: 0 <= i < |sources| ==> sources[i].Complete()
  }

  function SourcesOf(names: seq<string>, ledgers: seq<Ledger>): (r: seq<SourceAvailability>)
    requires |names| == |ledgers|
    ensures |r| == |names|
  {
    seq(|names|, i requires 0 <= i < |names| => SourceOf(names[i], ledgers[i]))
  }

  // With conserved sources, a snapshot is complete exactly when nothing failed anywhere.
  lemma SnapshotCompleteExactlyWhen(names: seq<string>, ledgers: seq<Ledger>)
    requires |names| == |ledgers| && forall i :: 0 <= i < |ledgers| ==> ledgers[i].Conserved()
    ensures AllComplete(SourcesOf(names, ledgers)) <==> forall i :: 0 <= i < |ledgers| ==> ledgers[i].failed == []
  {
    forall i | 0 <= i < |ledgers| ensures SourcesOf(names, ledgers)[i].Complete() <==> ledgers[i].failed == [] {
      ConservedSource(names[i], ledgers[i]);
    }
  }

  // ----- every snapshot that is returned

  function LedgersOf(nodes: seq<Node>, rows: seq<Row>, details: seq<Option<Observation>>): (r: seq<Ledger>)
    requires |rows| == |details|
    ensures |r| == 5
  {
    [EitherWay(Names(nodes), StorageListed(nodes)),
     EitherWay(Names(nodes), NetworkListed(nodes)),
     EitherWay(Targets(rows), ConfigLoaded(details)),
     GuestLedger(rows, details),
     EitherWay(Targets(rows), DetailLoaded(details))]
  }

  function Sources(ledgers: seq<Ledger>): (r: seq<SourceAvailability>)
    requires |ledgers| == 5
    ensures |r| == 5
  {
    SourcesOf(["storage", "network", "vm_config", "guest_agent", "vm_detail"], ledgers)
  }

  // Each source answers for its own lists.
  ghost predicate CompleteByName(nodes: seq<Node>, rows: seq<Row>, details: seq<Option<Observation>>, sources: seq<SourceAvailability>)
    requires |rows| == |details| && |sources| == 5
  {
    && sources[0].name == "storage" && sources[1].name == "network" && sources[2].name == "vm_config"
    && sources[3].name == "guest_agent" && sources[4].name == "vm_detail"
    && (sources[0].Complete() <==> forall i :: 0 <= i < |nodes| ==> nodes[i].storageListed)
    && (sources[1].Complete() <==> forall i :: 0 <= i < |nodes| ==> nodes[i].networkListed)
    && (sources[2].Complete() <==> forall i :: 0 <= i < |rows| ==> details[i].Some? && details[i].value.config)
    && (sources[3].Complete() <==> forall i :: 0 <= i < |rows| ==> rows[i].running ==> details[i].Some? && details[i].value.agent)
    && (sources[4].Complete() <==> forall i :: 0 <= i < |rows| ==> details[i].Some?)
  }

  lemma SourcesByName(nodes: seq<Node>, rows: seq<Row>, details: seq<Option<Observation>>)
    requires |rows| == |details| && Coherent(rows, details)
    ensures CompleteByName(nodes, rows, details, Sources(LedgersOf(nodes, rows, details)))
  {
    var ledgers := LedgersOf(nodes, rows, details);
    CoherentLedgers(nodes, rows, details);
    NodeFailures(nodes);
    DetailFailures(rows, details);
    FailuresOf(nodes, rows, details);
    SourceNames(ledgers);
    hide LedgersOf, Sources, EitherWay, GuestLedger, SourceAvailability.Complete, AllComplete, NothingMissing, Coherent, Chosen;
  }

  lemma FailuresOf(nodes: seq<Node>, rows: seq<Row>, details: seq<Option<Observation>>)
    requires |rows| == |details|
    ensures var ledgers := LedgersOf(nodes, rows, details);
            && ledgers[0].failed == EitherWay(Names(nodes), StorageListed(nodes)).failed
            && ledgers[1].failed == EitherWay(Names(nodes), NetworkListed(nodes)).failed
            && ledgers[2].failed == EitherWay(Targets(rows), ConfigLoaded(details)).failed
            && ledgers[3].failed == GuestLedger(rows, details).failed
            && ledgers[4].failed == EitherWay(Targets(rows), DetailLoaded(details)).failed
  {
    hide EitherWay, GuestLedger;
  }

  lemma SourceNames(ledgers: seq<Ledger>)
    requires |ledgers| == 5 && forall i :: 0 <= i < 5 ==> ledgers[i].Conserved()
    ensures var sources := Sources(ledgers);
            && sources[0].name == "storage" && sources[1].name == "network" && sources[2].name == "vm_config"
            && sources[3].name == "guest_agent" && sources[4].name == "vm_detail"
            && forall i :: 0 <= i < 5 ==> (sources[i].Complete() <==> ledgers[i].failed == [])
  {
    var names := ["storage", "network", "vm_config", "guest_agent", "vm_detail"];
    forall i | 0 <= i < 5 ensures Sources(ledgers)[i].Complete() <==> ledgers[i].failed == [] {
      ConservedSource(names[i], ledgers[i]);
      hide Ledger.Conserved;
    }
  }

  lemma NodeFailures(nodes: seq<Node>)
    ensures EitherWay(Names(nodes), StorageListed(nodes)).failed == [] <==> forall i :: 0 <= i < |nodes| ==> nodes[i].storageListed
    ensures EitherWay(Names(nodes), NetworkListed(nodes)).failed == [] <==> forall i :: 0 <= i < |nodes| ==> nodes[i].networkListed
  {
    ChosenNone(Names(nodes), Negated(StorageListed(nodes)));
    ChosenNone(Names(nodes), Negated(NetworkListed(nodes)));
    StorageMissing(nodes);
    NetworkMissing(nodes);
    hide Negated, StorageListed, NetworkListed, Names;
  }

  lemma DetailFailures(rows: seq<Row>, details: seq<Option<Observation>>)
    requires |rows| == |details| && Coherent(rows, details)
    ensures EitherWay(Targets(rows), ConfigLoaded(details)).failed == []
            <==> forall i :: 0 <= i < |rows| ==> details[i].Some? && details[i].value.config
    ensures EitherWay(Targets(rows), DetailLoaded(details)).failed == [] <==> forall i :: 0 <= i < |rows| ==> details[i].Some?
    ensures GuestLedger(rows, details).failed == []
            <==> forall i :: 0 <= i < |rows| ==> rows[i].running ==> details[i].Some? && details[i].value.agent
  {
    var config, agent, detail := Negated(ConfigLoaded(details)), AgentFailed(rows, details), Negated(DetailLoaded(details));
    ChosenNone(Targets(rows), config);
    ChosenNone(Targets(rows), agent);
    ChosenNone(Targets(rows), detail);
    assert forall i :: 0 <= i < |rows| ==> (!config[i] <==> details[i].Some? && details[i].value.config);
    assert forall i :: 0 <= i < |rows| ==> (!detail[i] <==> details[i].Some?);
    assert forall i :: 0 <= i < |rows| ==> (!agent[i] <==> (rows[i].running ==> details[i].Some? && details[i].value.agent));
    hide Chosen, Targets, Coherent;
  }

  // Nothing is missing: both lists of each node, and of each machine its detail, its
  // configuration and, when it runs, the answer of its agent.
  predicate NothingMissing(nodes: seq<Node>, rows: seq<Row>, details: seq<Option<Observation>>)
    requires |rows| == |details|
  {
    && (forall i :: 0 <= i < |nodes| ==> nodes[i].storageListed && nodes[i].networkListed)
    && (forall i :: 0 <= i < |rows| ==>
          details[i].Some? && details[i].value.config && (rows[i].running ==> details[i].value.agent))
  }

  lemma {:induction false} ChosenNone(targets: seq<string>, flags: seq<bool>)
    requires |targets| == |flags|
    ensures Chosen(targets, flags) == [] <==> forall i :: 0 <= i < |flags| ==> !flags[i]
  {
    if targets != [] {
      var n := |targets| - 1;
      ChosenNone(targets[..n], flags[..n]);
      assert flags == flags[..n] + [flags[n]];
    }
  }

  lemma NothingFailed(nodes: seq<Node>, rows: seq<Row>, details: seq<Option<Observation>>)
    requires |rows| == |details| && Coherent(rows, details)
    ensures (forall i :: 0 <= i < 5 ==> LedgersOf(nodes, rows, details)[i].failed == [])
            <==> NothingMissing(nodes, rows, details)
  {
    hide Chosen;
    var ledgers := LedgersOf(nodes, rows, details);
    ChosenNone(Names(nodes), Negated(StorageListed(nodes)));
    ChosenNone(Names(nodes), Negated(NetworkListed(nodes)));
    ChosenNone(Targets(rows), Negated(ConfigLoaded(details)));
    ChosenNone(Targets(rows), AgentFailed(rows, details));
    ChosenNone(Targets(rows), Negated(DetailLoaded(details)));
    StorageMissing(nodes);
    NetworkMissing(nodes);
    DetailsMissing(rows, details);
    hide Negated, StorageListed, NetworkListed, ConfigLoaded, DetailLoaded, AgentFailed, Coherent, Names, Targets;
    assert (forall i :: 0 <= i < 5 ==> ledgers[i].failed == [])
      <==> ledgers[0].failed == [] && ledgers[1].failed == [] && ledgers[2].failed == [] && ledgers[3].failed == [] && ledgers[4].failed == [];
  }

  predicate NoneOf(flags: seq<bool>) {
    forall i :: 0 <= i < |flags| ==> !flags[i]
  }

  lemma StorageMissing(nodes: seq<Node>)
    ensures NoneOf(Negated(StorageListed(nodes))) <==> forall i :: 0 <= i < |nodes| ==> nodes[i].storageListed
  {
    var flags := Negated(StorageListed(nodes));
    assert forall i :: 0 <= i < |nodes| ==> flags[i] == !nodes[i].storageListed;
  }

  lemma NetworkMissing(nodes: seq<Node>)
    ensures NoneOf(Negated(NetworkListed(nodes))) <==> forall i :: 0 <= i < |nodes| ==> nodes[i].networkListed
  {
    var flags := Negated(NetworkListed(nodes));
    assert forall i :: 0 <= i < |nodes| ==> flags[i] == !nodes[i].networkListed;
  }

  lemma DetailsMissing(rows: seq<Row>, details: seq<Option<Observation>>)
    requires |rows| == |details| && Coherent(rows, details)
    ensures NoneOf(Negated(ConfigLoaded(details))) && NoneOf(AgentFailed(rows, details)) && NoneOf(Negated(DetailLoaded(details)))
            <==> forall i :: 0 <= i < |rows| ==>
                   details[i].Some? && details[i].value.config && (rows[i].running ==> details[i].value.agent)
  {
    var config, agent, detail := Negated(ConfigLoaded(details)), AgentFailed(rows, details), Negated(DetailLoaded(details));
    assert forall i :: 0 <= i < |rows| ==>
      (!config[i] && !agent[i] && !detail[i] <==>
       details[i].Some? && details[i].value.config && (rows[i].running ==> details[i].value.agent));
  }

  lemma SnapshotIsCoherent(ttl: real, steps: seq<Step>, k: nat)
    requires NeverExposed(ttl, steps) && k < |Run(ttl, steps).answers|
    requires var rows := Run(ttl, steps).answers[k].snapshot.rows;
             forall a, b :: 0 <= a < b < |rows| ==> rows[a].key != rows[b].key
    ensures var snapshot := Run(ttl, steps).answers[k].snapshot;
            |snapshot.rows| == |snapshot.details| && Coherent(snapshot.rows, snapshot.details)
  {
    var snapshot := Run(ttl, steps).answers[k].snapshot;
    RunKeeps(ttl, steps);
    assert AnswerFits(ttl, Run(ttl, steps).clock, Run(ttl, steps).answers[k]);
    forall i | 0 <= i < |snapshot.rows|
      ensures snapshot.details[i].Some? ==> snapshot.details[i].value.row.running == snapshot.rows[i].running
    {
      OwnDetailsFitRows(ttl, steps, k, i);
    }
  }

  lemma CoherentLedgers(nodes: seq<Node>, rows: seq<Row>, details: seq<Option<Observation>>)
    requires |rows| == |details| && Coherent(rows, details)
    ensures var ledgers := LedgersOf(nodes, rows, details);
            && (forall i :: 0 <= i < |ledgers| ==> ledgers[i].Conserved())
            && (AllComplete(Sources(ledgers)) <==> NothingMissing(nodes, rows, details))
  {
    hide GuestLedger, EitherWay, Coherent, NothingMissing, SourcesOf, AllComplete, Ledger.Conserved;
    CoherentGuestConserved(rows, details);
    FourSourcesConserved(nodes, rows, details);
    var ledgers := LedgersOf(nodes, rows, details);
    SnapshotCompleteExactlyWhen(["storage", "network", "vm_config", "guest_agent", "vm_detail"], ledgers);
    NothingFailed(nodes, rows, details);
  }

  // Nothing is missing in terms of what was asked: both lists of each node came, and for each
  // machine a load of the snapshot's own collection found its configuration and, when it runs,
  // its agent.
  ghost predicate AllFound(ttl: real, steps: seq<Step>, nodes: seq<Node>, snapshot: Snapshot) {
    && (forall i :: 0 <= i < |nodes| ==> nodes[i].storageListed && nodes[i].networkListed)
    && (forall i :: 0 <= i < |snapshot.rows| ==> RowFound(ttl, steps, snapshot, i))
  }

  ghost predicate RowFound(ttl: real, steps: seq<Step>, snapshot: Snapshot, i: nat)
    requires i < |snapshot.rows|
  {
    exists agent :: Found(ttl, steps, snapshot, i, true, agent) && (snapshot.rows[i].running ==> agent)
  }

  lemma RowFoundExactly(ttl: real, steps: seq<Step>, k: nat, i: nat)
    requires NeverExposed(ttl, steps) && k < |Run(ttl, steps).answers|
    requires var rows := Run(ttl, steps).answers[k].snapshot.rows;
             i < |rows| && forall a, b :: 0 <= a < b < |rows| ==> rows[a].key != rows[b].key
    ensures var snapshot := Run(ttl, steps).answers[k].snapshot;
            var row := snapshot.rows[i];
            && |snapshot.details| == |snapshot.rows|
            && (RowFound(ttl, steps, snapshot, i)
                <==> snapshot.details[i].Some? && snapshot.details[i].value.config && (row.running ==> snapshot.details[i].value.agent))
  {
    var snapshot := Run(ttl, steps).answers[k].snapshot;
    OwnDetailsFitRows(ttl, steps, k, i);
    OwnDetails(ttl, steps, k);
    DetailsAreLoads(ttl, steps, k, i, true);
    hide Run, NeverExposed, Found;
    if agent :| Found(ttl, steps, snapshot, i, true, agent) && (snapshot.rows[i].running ==> agent) {
      assert snapshot.details[i] == Some(Observation(snapshot.collection, snapshot.rows[i], true, snapshot.rows[i].running && agent));
    }
    if snapshot.details[i].Some? && snapshot.details[i].value.config && (snapshot.rows[i].running ==> snapshot.details[i].value.agent) {
      var o := snapshot.details[i].value;
      assert o == Observation(snapshot.collection, snapshot.rows[i], true, o.agent);
      var agent :| Found(ttl, steps, snapshot, i, true, agent) && o.agent == (snapshot.rows[i].running && agent);
    }
  }

  lemma MissingExactly(ttl: real, steps: seq<Step>, k: nat, nodes: seq<Node>)
    requires NeverExposed(ttl, steps) && k < |Run(ttl, steps).answers|
    requires var rows := Run(ttl, steps).answers[k].snapshot.rows;
             forall a, b :: 0 <= a < b < |rows| ==> rows[a].key != rows[b].key
    ensures var snapshot := Run(ttl, steps).answers[k].snapshot;
            |snapshot.rows| == |snapshot.details|
            && (NothingMissing(nodes, snapshot.rows, snapshot.details) <==> AllFound(ttl, steps, nodes, snapshot))
  {
    var snapshot := Run(ttl, steps).answers[k].snapshot;
    SnapshotIsCoherent(ttl, steps, k);
    hide Run, NeverExposed, RowFound, Coherent;
    forall i | 0 <= i < |snapshot.rows|
      ensures RowFound(ttl, steps, snapshot, i)
              <==> snapshot.details[i].Some? && snapshot.details[i].value.config && (snapshot.rows[i].running ==> snapshot.details[i].value.agent)
    {
      RowFoundExactly(ttl, steps, k, i);
    }
  }

  // In every snapshot that a never exposed cache returns, each of the five sources accounts for
  // all its targets, and the snapshot is complete exactly when everything was listed and found.
  lemma SnapshotIsConserved(ttl: real, steps: seq<Step>, k: nat, nodes: seq<Node>)
    requires NeverExposed(ttl, steps) && k < |Run(ttl, steps).answers|
    requires var rows := Run(ttl, steps).answers[k].snapshot.rows;
             rows == AllRows(nodes) && forall a, b :: 0 <= a < b < |rows| ==> rows[a].key != rows[b].key
    ensures var snapshot := Run(ttl, steps).answers[k].snapshot;
            && |snapshot.rows| == |snapshot.details|
            && var ledgers := LedgersOf(nodes, snapshot.rows, snapshot.details);
               && (forall i :: 0 <= i < |ledgers| ==> ledgers[i].Conserved())
               && CompleteByName(nodes, snapshot.rows, snapshot.details, Sources(ledgers))
               && (AllComplete(Sources(ledgers)) <==> AllFound(ttl, steps, nodes, snapshot))
  {
    SnapshotIsCoherent(ttl, steps, k);
    SourcesByName(nodes, Run(ttl, steps).answers[k].snapshot.rows, Run(ttl, steps).answers[k].snapshot.details);
    MissingExactly(ttl, steps, k, nodes);
    var snapshot := Run(ttl, steps).answers[k].snapshot;
    hide Run, NeverExposed, LedgersOf, Coherent, NothingMissing, Sources, AllComplete, AllRows, AllFound, CompleteByName;
    CoherentLedgers(nodes, snapshot.rows, snapshot.details);
  }
}
