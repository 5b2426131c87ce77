/** Limits of the graph view, and the clamps that keep the query settings inside them. */
module Limits {
  const NODE_LIMIT := 128
  const EDGE_LIMIT := 1024
  const EDGE_LIMIT_MIN := 4
  const HOPS_MIN := 1
  const HOPS_MAX := 10
  const SCOPE_FILTER_LIMIT := 16

  /** Sentinel that the distance arrays hold for a node no walk reaches. */
  const UNREACHABLE := NODE_LIMIT + HOPS_MAX + 1

  /** The number in the range that is nearest to `value`. */
  function Clamp(value: int, low: int, high: int): (nearest: int)
    requires low <= high
    ensures low <= nearest <= high && (low <= value <= high ==> nearest == value)
    ensures (value < low ==> nearest == low) && (value > high ==> nearest == high)
  {
    if value < low then low else if value > high then high else value
  }

  function ClampEdgeLimit(value: int): (limit: int)
    ensures 4 <= limit <= 1024 && (4 <= value <= 1024 ==> limit == value)
    ensures (value < 4 ==> limit == 4) && (value > 1024 ==> limit == 1024)
  {
    Clamp(value, EDGE_LIMIT_MIN, EDGE_LIMIT)
  }

  function ClampHops(value: int): (hops: int)
    ensures 1 <= hops <= 10 && (1 <= value <= 10 ==> hops == value)
    ensures (value < 1 ==> hops == 1) && (value > 10 ==> hops == 10)
  {
    Clamp(value, HOPS_MIN, HOPS_MAX)
  }
}
