# Electrode Brain — a Dafny model

Electrode simulates brain-like networks. Neurons are small graphs over their
segments, and synapses link segments of different neurons. The `Brain` class
holds both. While it is being built, the Brain collects neurons, in insertion
order. `compile` then merges every neuron's graph, plus one edge per recorded
synapse, into a single networkx graph, and marks the Brain `loaded`. Once it
is loaded, no neuron can be added. The model assumes that neurons are
undirected simple graphs (`nx.Graph`), like the empty graph the Brain itself
creates.

The project has two modules:

- `graph.dfy`, module `NetworkGraph`: the part of networkx the Brain relies on.
  A graph is a set of nodes plus a set of undirected edges. A node is a
  `SegmentKey` (neuron id, port id). An edge is the set of its endpoints.
  `nx.compose` is union, and `nx.compose_all` is a left fold of `compose`.
  `add_edge(u, v)` adds the edge and also adds both endpoints as nodes.
- `brain.dfy`, module `Brains`: the `Brain` class. Its fields are
  `timeResolution`, `graph`, `loaded`, `neurons` and `synapses`. Each method
  states its full effect and how it leaves the object invariant `Valid()`.
  Before `compile`, the graph is the empty graph it was created with. After
  `compile`, it is either empty or exactly the graph compiled from the neuron
  and synapse lists, which are frozen from then on. A second invariant,
  `Reachable()`, adds that the synapse list is empty. The constructor
  establishes it, and every method keeps it. Exceptions become values of
  `Outcome`/`Result`.

Where the code and its documentation disagree, the model follows the code:

- The doc-comment of `compile` promises a degree-2 reduction. None is
  performed, and the model performs none.
- `compile(reduce=False)` leaves a fresh empty graph. It does not perform an
  unreduced merge.
- `add_synapse` never stores anything.
- The docstring of `add_neuron` says it "Adds resultant connections"
  (electrode/brain/__init__.py:95). The code only appends the neuron to the
  list (line 112) and leaves the graph untouched, and so does the model.

## Model

| member | source | states |
|---|---|---|
| `NetworkGraph.Empty` | electrode/brain/__init__.py:65 | the fresh `nx.Graph()` is well-formed and contained in every graph, so it has no nodes and no edges |
| `NetworkGraph.Compose` | electrode/brain/__init__.py:67-69 | the composed graph contains both arguments as subgraphs, and composing two well-formed graphs gives a well-formed graph |
| `NetworkGraph.ComposeLeast` | electrode/brain/__init__.py:67-69 | every graph that contains both arguments contains their composition, so composition adds nothing beyond the two graphs |
| `NetworkGraph.ComposeAll` | electrode/brain/__init__.py:67-69 | for a non-empty list, every neuron's graph is a subgraph of the merged graph, and merging well-formed graphs gives a well-formed graph |
| `NetworkGraph.ComposeAllAppend` | electrode/brain/__init__.py:67-69 | merging a list with one more neuron at the end equals merging the list and then composing that neuron |
| `NetworkGraph.ComposeAllPair` | electrode/brain/__init__.py:67-69 | two neurons merge to the composition of their two graphs |
| `NetworkGraph.ComposeAllContents` | electrode/brain/__init__.py:67-69 | a node (an edge) is in the merged graph if and only if some neuron in the list has it |
| `NetworkGraph.ComposeAllOrderIrrelevant` | electrode/brain/__init__.py:67-69 | two lists holding the same neurons, in any order and with any repeats, merge to the same graph |
| `NetworkGraph.AddEdge` | electrode/brain/__init__.py:72-76 | after `add_edge(u, v)` the old graph is a subgraph and the edge {u, v} is present; well-formedness is kept, so both endpoints are nodes |
| `NetworkGraph.AddEdgeUndirected` | electrode/brain/__init__.py:72-76 | for an undirected graph, which the model assumes every neuron is, adding (u, v) and adding (v, u) give the same graph |
| `NetworkGraph.AddEdgeExisting` | electrode/brain/__init__.py:72-76 | adding an edge that is already present changes nothing |
| `Brains.AddSynapseEdges` | electrode/brain/__init__.py:71-76 | the synapse loop keeps the merged graph as a subgraph and keeps it well-formed |
| `Brains.AddSynapseEdgesStep` | electrode/brain/__init__.py:71-76 | each iteration of the synapse loop adds exactly the edge (source, sink) of the next record |
| `Brains.AddSynapseEdgesContents` | electrode/brain/__init__.py:71-76 | after the loop, the nodes are the old nodes plus every record's source and sink, and the edges are the old edges plus one (source, sink) edge per record, and nothing else |
| `Brains.CompiledGraph` | electrode/brain/__init__.py:65-76 | the graph `compile(reduce=True)` builds is well-formed, contains every neuron's graph as a subgraph, and has the edge (source, sink) of every synapse record |
| `Brains.CompiledGraphContents` | electrode/brain/__init__.py:64-76 | the compiled node set is the union of the neurons' node sets plus the synapse endpoints; the compiled edge set is the union of the neurons' edge sets plus one edge per synapse; the result is well-formed |
| `Brains.CompiledGraphOfNeurons` | electrode/brain/__init__.py:67-69 | with no synapses, which is every state reachable through the public methods (the invariant `Reachable()`), the compiled graph has exactly the union of the neurons' nodes and edges |
| `Brains.Brain.constructor` | electrode/brain/__init__.py:23-37 | a new Brain satisfies `Reachable()` and is not loaded, and its graph, neuron list and synapse list are empty; its time resolution is the given value, or 500000 ns when none is given |
| `Brains.Brain.AddNeuron` | electrode/brain/__init__.py:93-112 | a non-Neuron fails with a type error whether or not the Brain is loaded; a Neuron added after compile fails with a runtime error; otherwise the neuron is appended at the end of the list; only the neuron list can change, and only on success; `Reachable()` is kept |
| `Brains.Brain.AddSynapse` | electrode/brain/__init__.py:114-135 | always fails with a type error, raised by the three-argument `append`, and changes nothing, so the synapse list is never extended |
| `Brains.Brain.Compile` | electrode/brain/__init__.py:52-76 | `reduce` defaults to true, as in the source; sets `loaded` in every case and leaves the neuron and synapse lists unchanged; with `reduce`, the graph is rebuilt from the two lists alone (with no neurons the call fails and the graph stays empty); without `reduce`, the graph is empty; `Reachable()` is kept |
| `Brains.Brain.Run` | electrode/brain/__init__.py:78-91 | always fails as not implemented |
| `Brains.Brain.Lookup` | electrode/brain/__init__.py:39-50 | indexed lookup always fails as not implemented |
| `Brains.CompileTwiceScenario` | electrode/brain/__init__.py:64-112 | a Brain built from two neurons compiles, by `compile()` with the default argument, to their composition; a later `add_neuron` fails with a runtime error; compiling again gives the same graph |

## Left out

- The degree-2 edge reduction appears only in the doc-comment of `compile` (electrode/brain/__init__.py:57-58). The code does not perform it, so the model does not either.
- Node and edge attributes are not modelled. This includes the attribute-precedence rules of `compose_all`. Only node and edge sets are modelled.
- NetworkGraph.AddEdgeUndirected: with `reduce`, the compiled graph takes its class from the first neuron, because `compose_all` builds its result with that graph's own class and so discards the `nx.Graph()` made at line 65. The `Neuron` class is not part of this model. The model assumes neurons are undirected simple graphs. If they were directed, (a, b) and (b, a) would be distinct edges, and each synapse edge would be directed.
- Brains.Brain.Compile: `compile` calls `add_edge(source, sink, synapse)` with the synapse as a third positional argument (electrode/brain/__init__.py:72-76). Depending on the networkx version, that call may raise on the first record, either for an unexpected positional argument or for an `attr_dict` that is not a dict. The model instead adds every synapse edge and succeeds. No state reachable through the public methods has a synapse, so this difference never arises there.
- Brains.Brain.Compile: with `reduce` and an empty neuron list, the model only says that the call fails after `loaded` is set, leaving the graph empty. This is what `nx.compose_all` does when it raises on an empty list. Which exception networkx raises is not modelled.
- `timing.ms` is not part of this model. The default time resolution is the constant 500000, which is how this model reads the comment "0.5 millis" (electrode/brain/__init__.py:32) as nanoseconds. The docstring at electrode/brain/__init__.py:28 gives the default as `int : 500` instead, which disagrees.
- The `Neuron` and `Synapse` classes are not part of this model. A Neuron is a well-formed graph. A Synapse is an opaque token. The `isinstance` check is modelled by the `Value` datatype, which is either a Neuron or some other value.
- Brains.Brain.Run and Brains.Brain.Lookup: `run` and `__getitem__` raise `NotImplementedError`, so no stepping rule and no lookup rule is modelled.
- Duplicate segment keys across neurons are not detected by the code, so no such error is modelled. Keys that are shared merge into a single node.
- `setup.py` is packaging metadata that reads files. It holds no logic of the Brain.
- Python object identity and aliasing are not modelled. Neurons and graphs are value snapshots.
  - `compile` reassigns the graph value, and the loop over the synapses rebuilds it one edge at a time.
  - `_neurons` holds references, so a neuron that the caller changes after `add_neuron` changes what a later `compile` reads. The model keeps the neuron as it was when added.
  - When the list holds a single neuron, `compose_all` may return that neuron's own graph object, and `_graph` then aliases the caller's neuron. The model copies its value instead.
