/**
 * The client-wide table of unread messages per peer, shared by the home page
 * and the rooms dialog: a plain object from a peer's user id to a count, where
 * a missing key reads as 0.
 */
module UnreadCounts {

  type Counts = map<string, nat>

  /** `counts[key] || 0`. */
  function CountOf(counts: Counts, key: string): (n: nat)
    ensures key !in counts ==> n == 0
  {
    if key in counts then counts[key] else 0
  }
}
