/** Value types shared by the distance engine and the database workers
    (the scoring data structures of the server). */
module Scoring {

  datatype Option<T> = None | Some(value: T)

  datatype Result<T, E> = Ok(value: T) | Err(error: E)

  /** Strength of a match. The source compares these by the enum member's
      name; a closed datatype compared by identity is equivalent. */
  datatype Decision = Yes | Maybe | No

  type PicId = string
  type ClusterId = string

  /** One row of binary descriptors (ORB rows are 32 bytes). */
  type Descriptors = seq<seq<bv8>>

  /** A picture's feature dict: algorithm key to descriptors, where
      `None` stands for a value that is Python's `None`. */
  type FeatureBundle = map<string, Option<Descriptors>>

  /** One algorithm's verdict on a pair of pictures. */
  datatype AlgoMatch = AlgoMatch(name: string, distance: real, decision: Decision)

  /** Aggregate verdict against one stored picture, with that picture's cluster. */
  datatype ImageMatch = ImageMatch(imageId: PicId, clusterId: ClusterId, distance: real, decision: Decision)

  /** Aggregate verdict against one cluster. */
  datatype ClusterMatch = ClusterMatch(clusterId: ClusterId, distance: real, decision: Decision)
}
