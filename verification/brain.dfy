/**
 The Brain of the electrode simulator: it collects neurons and synapses while
 it is being built, then compiles them into one network graph. After `compile`
 the brain is loaded and no neuron can be added any more.
 */
module Brains {
  import opened NetworkGraph

  datatype Option<T> = None | Some(value: T)

  /** A neuron is a networkx graph over its own segments. */
  type Neuron = g: Graph | WellFormed(g) witness Graph({}, {})

  /** A synapse object; its attributes are not modelled. */
  datatype Synapse = Synapse(name: string)

  /** What `compile` reads from each entry of the synapse list: (source, sink, synapse). */
  datatype SynapseRecord = SynapseRecord(source: SegmentKey, sink: SegmentKey, synapse: Synapse)

  /** Any value a caller may hand to `add_neuron`: a Neuron, or something else. */
  datatype Value = NeuronValue(neuron: Neuron) | OtherValue

  /** The exceptions the Brain raises. */
  datatype Error =
    | NotANeuron          // TypeError: the argument of add_neuron is not a Neuron
    | AddAfterCompile     // RuntimeError: add_neuron after compile
    | AppendArity         // TypeError: list.append is called with three arguments
    | EmptyCompose        // compose_all is called on an empty neuron list
    | NotImplemented      // NotImplementedError: run and __getitem__

  /** The outcome of a call that returns None or raises. */
  datatype Outcome = Pass | Fail(error: Error)

  /** The outcome of a call that returns a value or raises. */
  datatype Result<T> = Ok(value: T) | Err(error: Error)

  /** `timing.ms(0.5)`: half a millisecond, in nanoseconds. */
  const DefaultTimeResolution: int := 500000

  /** The edge a synapse record contributes to the compiled graph. */
  function SynapseEdge(s: SynapseRecord): Edge
  {
    Link(s.source, s.sink)
  }

  /** The synapse loop of `compile`: one `add_edge(source, sink)` per record, in list order. */
  function AddSynapseEdges(g: Graph, ss: seq<SynapseRecord>): (r: Graph)
    ensures IsSubgraph(g, r)
    ensures WellFormed(g) ==> WellFormed(r)
    decreases |ss|
  {
    if ss == [] then g
    else AddEdge(AddSynapseEdges(g, ss[..|ss| - 1]), ss[|ss| - 1].source, ss[|ss| - 1].sink)
  }

  /** One more iteration of the synapse loop adds the edge of the next record. */
  lemma AddSynapseEdgesStep(g: Graph, ss: seq<SynapseRecord>, i: nat)
    requires i < |ss|
    ensures AddSynapseEdges(g, ss[..i + 1]) == AddEdge(AddSynapseEdges(g, ss[..i]), ss[i].source, ss[i].sink)
  {
    assert ss[..i + 1][..i] == ss[..i];
  }

  /**
   The synapse loop adds exactly the endpoints of every record as nodes, and exactly
   one edge per record.
   */
  lemma {:induction false} AddSynapseEdgesContents(g: Graph, ss: seq<SynapseRecord>)
    ensures forall k :: k in AddSynapseEdges(g, ss).nodes <==>
      k in g.nodes || exists j :: 0 <= j < |ss| && k in SynapseEdge(ss[j])
    ensures forall e :: e in AddSynapseEdges(g, ss).edges <==>
      e in g.edges || exists j :: 0 <= j < |ss| && e == SynapseEdge(ss[j])
    decreases |ss|
  {
    if ss != [] {
      var front := ss[..|ss| - 1];
      AddSynapseEdgesContents(g, front);
      assert forall j :: 0 <= j < |front| ==> front[j] == ss[j];
      forall k | k in AddSynapseEdges(g, ss).nodes && k !in g.nodes
        ensures exists j :: 0 <= j < |ss| && k in SynapseEdge(ss[j])
      {
        if k !in SynapseEdge(ss[|ss| - 1]) {
          var j :| 0 <= j < |front| && k in SynapseEdge(front[j]);
        }
      }
      forall e | e in AddSynapseEdges(g, ss).edges && e !in g.edges
        ensures exists j :: 0 <= j < |ss| && e == SynapseEdge(ss[j])
      {
        if e != SynapseEdge(ss[|ss| - 1]) {
          var j :| 0 <= j < |front| && e == SynapseEdge(front[j]);
        }
      }
    }
  }

  /** The graph `compile(reduce=True)` builds from the neuron and the synapse lists. */
  function CompiledGraph(ns: seq<Neuron>, ss: seq<SynapseRecord>): (r: Graph)
    requires ns != []
    ensures WellFormed(r)
    ensures forall i :: 0 <= i < |ns| ==> IsSubgraph(ns[i], r)
    ensures forall j :: 0 <= j < |ss| ==> SynapseEdge(ss[j]) in r.edges
  {
    assert forall i :: 0 <= i < |ns| ==> WellFormed(ns[i]);
    AddSynapseEdgesContents(ComposeAll(ns), ss);
    AddSynapseEdges(ComposeAll(ns), ss)
  }

  /**
   The compiled graph holds exactly the neurons' nodes and the synapses' endpoints,
   and exactly the neurons' edges and one edge per synapse; it is a networkx graph.
   */
  lemma CompiledGraphContents(ns: seq<Neuron>, ss: seq<SynapseRecord>)
    requires ns != []
    ensures forall k :: k in CompiledGraph(ns, ss).nodes <==>
      (exists i :: 0 <= i < |ns| && k in ns[i].nodes) || (exists j :: 0 <= j < |ss| && k in SynapseEdge(ss[j]))
    ensures forall e :: e in CompiledGraph(ns, ss).edges <==>
      (exists i :: 0 <= i < |ns| && e in ns[i].edges) || (exists j :: 0 <= j < |ss| && e == SynapseEdge(ss[j]))
    ensures WellFormed(CompiledGraph(ns, ss))
  {
    ComposeAllContents(ns);
    AddSynapseEdgesContents(ComposeAll(ns), ss);
    assert forall i :: 0 <= i < |ns| ==> WellFormed(ns[i]);
  }

  /** Without synapses, the node set is exactly the union of the neurons' node sets. */
  lemma CompiledGraphOfNeurons(ns: seq<Neuron>)
    requires ns != []
    ensures forall k :: k in CompiledGraph(ns, []).nodes <==> exists i :: 0 <= i < |ns| && k in ns[i].nodes
    ensures forall e :: e in CompiledGraph(ns, []).edges <==> exists i :: 0 <= i < |ns| && e in ns[i].edges
  {
    CompiledGraphContents(ns, []);
  }

  class Brain {
    var timeResolution: int
    var graph: Graph
    var loaded: bool
    var neurons: seq<Neuron>
    var synapses: seq<SynapseRecord>

    /**
     Before compile the graph is the empty one it was created with; after compile it is
     either empty or the graph compiled from the (since frozen) neuron and synapse lists.
     */
    ghost predicate Valid()
      reads this
    {
      && (!loaded ==> graph == Empty())
      && (loaded ==> graph == Empty() || (neurons != [] && graph == CompiledGraph(neurons, synapses)))
    }

    /**
     The states the public methods can reach: valid, and with no synapse recorded, since
     `add_synapse` always fails before it stores anything.
     */
    ghost predicate Reachable()
      reads this
    {
      Valid() && synapses == []
    }

    /** `Brain(time_resolution=...)`: a brain in its building phase, with nothing in it. */
    constructor (resolution: Option<int>)
      ensures Reachable()
      ensures timeResolution == (if resolution.Some? then resolution.value else DefaultTimeResolution)
      ensures graph == Empty() && !loaded && neurons == [] && synapses == []
    {
      timeResolution := if resolution.Some? then resolution.value else DefaultTimeResolution;
      graph := Empty();
      loaded := false;
      neurons := [];
      synapses := [];
    }

    /**
     `add_neuron`: the type check comes first, then the lifecycle check; on success the
     neuron goes at the end of the list and nothing else changes.
     */
    method AddNeuron(v: Value) returns (outcome: Outcome)
      requires Valid()
      modifies this`neurons
      ensures Valid()
      ensures old(Reachable()) ==> Reachable()
      ensures !v.NeuronValue? ==> outcome == Fail(NotANeuron)
      ensures v.NeuronValue? && old(loaded) ==> outcome == Fail(AddAfterCompile)
      ensures v.NeuronValue? && !old(loaded) ==> outcome == Pass
      ensures neurons == if outcome.Pass? then old(neurons) + [v.neuron] else old(neurons)
    {
      if !v.NeuronValue? {
        return Fail(NotANeuron);
      }
      if loaded {
        return Fail(AddAfterCompile);
      }
      neurons := neurons + [v.neuron];
      outcome := Pass;
    }

    /**
     `add_synapse`: the call to `append` with three arguments raises before anything is
     stored, so it always fails and changes nothing.
     */
    method AddSynapse(synapse: Synapse, source: SegmentKey, sink: SegmentKey) returns (outcome: Outcome)
      ensures outcome == Fail(AppendArity)
    {
      outcome := Fail(AppendArity);
    }

    /**
     `compile(reduce=True)`: marks the brain loaded, discards the graph, and with `reduce` rebuilds
     it from the neuron and synapse lists; without `reduce` the graph stays empty.
     */
    method Compile(reduce: bool := true) returns (outcome: Outcome)
      modifies this`loaded, this`graph
      ensures Valid() && loaded
      ensures old(synapses) == [] ==> Reachable()
      ensures outcome == if reduce && neurons == [] then Fail(EmptyCompose) else Pass
      ensures graph == if reduce && neurons != [] then CompiledGraph(neurons, synapses) else Empty()
    {
      loaded := true;
      graph := Empty();
      if reduce {
        if neurons == [] {
          return Fail(EmptyCompose);
        }
        var merged := ComposeAll(neurons);
        graph := merged;
        var i := 0;
        while i < |synapses|
          invariant 0 <= i <= |synapses|
          modifies this`graph
          invariant graph == AddSynapseEdges(merged, synapses[..i])
        {
          AddSynapseEdgesStep(merged, synapses, i);
          graph := AddEdge(graph, synapses[i].source, synapses[i].sink);
          i := i + 1;
        }
        assert synapses[..i] == synapses;
      }
      outcome := Pass;
    }

    /** `run`: not implemented, it always raises. */
    method Run() returns (result: Result<bool>)
      ensures result == Err(NotImplemented)
    {
      result := Err(NotImplemented);
    }

    /** `brain[key]`: not implemented, it always raises. */
    method Lookup(key: SegmentKey) returns (outcome: Outcome)
      ensures outcome == Fail(NotImplemented)
    {
      outcome := Fail(NotImplemented);
    }
  }

  /**
   A brain built from two neurons: compile merges them, a later add_neuron fails,
   and compiling again gives the same graph.
   */
  method CompileTwiceScenario(n1: Neuron, n2: Neuron, late: Neuron)
    returns (first: Graph, second: Graph, added: Outcome)
    ensures first == second == Compose(n1, n2)
    ensures added == Fail(AddAfterCompile)
  {
    var b := new Brain(None);
    var ok := b.AddNeuron(NeuronValue(n1));
    assert b.neurons == [n1];
    ok := b.AddNeuron(NeuronValue(n2));
    assert b.neurons == [n1, n2] && b.synapses == [];
    ok := b.Compile();
    first := b.graph;
    added := b.AddNeuron(NeuronValue(late));
    ok := b.Compile();
    second := b.graph;
    assert b.Reachable();
    assert first == second == CompiledGraph([n1, n2], []);
    assert AddSynapseEdges(ComposeAll([n1, n2]), []) == ComposeAll([n1, n2]);
    ComposeAllPair(n1, n2);
  }
}
