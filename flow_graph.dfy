/**
 * The flow document's graph as the editor holds it: nodes with an id and a node
 * type, and connections from a port of one node to a port of another.  A node's
 * position and parameters play no part in the model.
 */
module FlowGraph {
  datatype PortRef = PortRef(nodeId: string, portName: string)

  /** A graph node; `kind` is the node's `type` ("entry", "timer", ...). */
  datatype FlowNode = FlowNode(id: string, kind: string)

  datatype FlowConnection = FlowConnection(from: PortRef, to: PortRef)
}
