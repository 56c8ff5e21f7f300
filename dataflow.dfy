/**
 * Node processing in the dataflow compiler. Processing a node asks the node
 * for its result; when there is one, every dependency is handed that result,
 * in index order, and only then is the result's variable freed through the
 * compiler. The compiler keeps the order of these events in `history`.
 */
module Dataflow {

  /** A compiler variable, known by its identity. */
  class Variable {
  }

  datatype Event =
    | Delivered(recipient: DataNode, result: Variable)  // a dependency was processed with `result`
    | Freed(variable: Variable)                         // the compiler freed `variable`

  /** The deliveries of `result` to each of `recipients`, in index order. */
  function Deliveries(recipients: seq<DataNode>, result: Variable): seq<Event>
  {
    seq(|recipients|, i requires 0 <= i < |recipients| => Delivered(recipients[i], result))
  }

  /** Each recipient entry receives `result` exactly once: a node listed
      n times is delivered to n times, a node not listed never. */
  lemma {:induction false} DeliveriesCountRecipients(recipients: seq<DataNode>, result: Variable, node: DataNode)
    ensures multiset(Deliveries(recipients, result))[Delivered(node, result)] == multiset(recipients)[node]
  {
    if recipients != [] {
      var n := |recipients|;
      var front := recipients[..n - 1];
      DeliveriesCountRecipients(front, result, node);
      assert Deliveries(recipients, result) == Deliveries(front, result) + [Delivered(recipients[n - 1], result)];
      assert recipients == front + [recipients[n - 1]];
    }
  }

  /** The events of processing a node that produced `result`: every
      dependency notified in index order, then the result freed exactly once,
      after the last notification. */
  lemma NotifyThenFree(dependencies: seq<DataNode>, result: Variable)
    ensures var events := Deliveries(dependencies, result) + [Freed(result)];
      && |events| == |dependencies| + 1
      && (forall i :: 0 <= i < |dependencies| ==> events[i] == Delivered(dependencies[i], result))
      && events[|dependencies|] == Freed(result)
      && multiset(events)[Freed(result)] == 1
  {
    var deliveries := Deliveries(dependencies, result);
    assert Freed(result) !in deliveries;
    assert multiset(deliveries)[Freed(result)] == 0;
  }

  class Compiler {
    var history: seq<Event>

    constructor ()
      ensures history == []
    {
      history := [];
    }

    /** Releases the storage of `v`; only the release itself is recorded. */
    method FreeVar(v: Variable)
      modifies this
      ensures history == old(history) + [Freed(v)]
    {
      history := history + [Freed(v)];
    }
  }

  datatype NodeKind = Literal(variable: Variable) | Binary

  class DataNode {
    const kind: NodeKind
    /** The nodes that consume this node's result, as wired at graph construction. */
    var dependencies: seq<DataNode>
    /** The variable this node's kind-specific OnProcess hands back, or null. */
    const produced: Variable?

    /** A literal node wraps an existing variable, which must not be null;
        processing it yields that variable. */
    constructor Literal(pVar: Variable?)
      requires pVar != null
      ensures kind == NodeKind.Literal(pVar)
      ensures dependencies == [] && produced == pVar
    {
      kind := NodeKind.Literal(pVar);
      dependencies := [];
      produced := pVar;
    }

    /** A binary node starts with no dependencies. Its kind-specific OnProcess
        is not modelled: `result` stands for the variable it hands back, or null. */
    constructor Binary(result: Variable?)
      ensures kind == NodeKind.Binary
      ensures dependencies == [] && produced == result
    {
      kind := NodeKind.Binary;
      dependencies := [];
      produced := result;
    }

    method OnProcess(graph: DataFlowGraph, compiler: Compiler) returns (result: Variable?)
      ensures result == produced
    {
      result := produced;
    }

    /** This node being processed with a producer's result. */
    method Receive(graph: DataFlowGraph, compiler: Compiler, result: Variable)
      modifies compiler
      ensures compiler.history == old(compiler.history) + [Delivered(this, result)]
    {
      compiler.history := compiler.history + [Delivered(this, result)];
    }

    method NotifyDependencies(graph: DataFlowGraph, compiler: Compiler, result: Variable)
      modifies compiler
      ensures compiler.history == old(compiler.history) + Deliveries(dependencies, result)
    {
      for i := 0 to |dependencies|
        invariant compiler.history == old(compiler.history) + Deliveries(dependencies[..i], result)
      {
        assert Deliveries(dependencies[..i + 1], result)
          == Deliveries(dependencies[..i], result) + [Delivered(dependencies[i], result)];
        dependencies[i].Receive(graph, compiler, result);
      }
      assert dependencies[..|dependencies|] == dependencies;
    }

    method OnProcessComplete(graph: DataFlowGraph, compiler: Compiler, result: Variable)
      modifies compiler
      ensures compiler.history == old(compiler.history) + [Freed(result)]
    {
      compiler.FreeVar(result);
    }

    method Process(graph: DataFlowGraph, compiler: Compiler)
      modifies compiler
      ensures produced == null ==> compiler.history == old(compiler.history)
      ensures produced != null ==>
        compiler.history == old(compiler.history) + Deliveries(dependencies, produced) + [Freed(produced)]
    {
      var result := OnProcess(graph, compiler);
      if result != null {
        NotifyDependencies(graph, compiler, result);
        OnProcessComplete(graph, compiler, result);
      }
    }
  }

  class DataFlowGraph {
    var nodes: seq<DataNode>

    constructor (nodes: seq<DataNode>)
      ensures this.nodes == nodes
    {
      this.nodes := nodes;
    }

    function GetNodeAt(offset: nat): (node: DataNode)
      requires offset < |nodes|
      reads this
      ensures node == nodes[offset]
    {
      nodes[offset]
    }
  }
}
