/** Names of nodes, and references to requests made on them. */
module Refs {
  type NodeId = string

  datatype Ref = Ref(node: NodeId, id: nat)
}
