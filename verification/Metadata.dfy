/** Names shared by the metadata control plane (metadata/raft/models.py). */
module Metadata {
  type NodeId = string
  type BlockId = string

  datatype Option<+T> = None | Some(value: T)

  /** The replicated commands.  Other stands for those that leave placements and the peer list
      alone: node registration, heartbeats, repair jobs and alerts. */
  datatype Command =
    | AllocateBlock(block: BlockId, version: int, nodes: seq<NodeId>)
    | UpdatePlacement(block: BlockId, version: int, nodes: seq<NodeId>)
    | AddPeer(peer: NodeId)
    | RemovePeer(peer: NodeId)
    | Reconfigure(peers: seq<NodeId>)
    | Other(tag: string)
}
