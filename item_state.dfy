/**
 * The fulfilment state machine of an order item: a constant table of the
 * statuses each status may move to, and the membership test over it.
 */
module ItemState {
  import opened Domain

  /** The transition table: the statuses `from` may be set to. */
  function Allowed(from: ItemStatus): seq<ItemStatus> {
    match from
    case New => [Sent, ItemStatus.Cancelled]
    case Sent => [ItemStatus.InProgress, ItemStatus.Cancelled]
    case InProgress => [ItemStatus.Ready, ItemStatus.Cancelled]
    case Ready => [Served, ItemStatus.Cancelled]
    case Served => []
    case Cancelled => []
  }

  predicate CanSetItemStatus(from: ItemStatus, to: ItemStatus) {
    to in Allowed(from)
  }

  predicate IsTerminal(s: ItemStatus) {
    s == Served || s == ItemStatus.Cancelled
  }

  /** Position along new < sent < in_progress < ready < served; cancelled sits with served at the end. */
  function Rank(s: ItemStatus): nat {
    match s
    case New => 0
    case Sent => 1
    case InProgress => 2
    case Ready => 3
    case Served => 4
    case Cancelled => 4
  }

  /** The forward successor of a non-terminal status. */
  function Next(s: ItemStatus): ItemStatus
    requires !IsTerminal(s)
  {
    match s
    case New => Sent
    case Sent => ItemStatus.InProgress
    case InProgress => ItemStatus.Ready
    case Ready => Served
  }

  /** Exactly two moves leave a non-terminal status (one step forward or cancel); none leaves a terminal one. */
  lemma TransitionsCharacterized(from: ItemStatus, to: ItemStatus)
    ensures IsTerminal(from) ==> !CanSetItemStatus(from, to)
    ensures !IsTerminal(from) ==>
              (CanSetItemStatus(from, to) <==> to == Next(from) || to == ItemStatus.Cancelled)
  {
  }

  /** No status may be set to itself. */
  lemma NoSelfTransition(s: ItemStatus)
    ensures !CanSetItemStatus(s, s)
  {
  }

  /** Every allowed transition moves strictly forward in the rank order. */
  lemma TransitionRaisesRank(from: ItemStatus, to: ItemStatus)
    requires CanSetItemStatus(from, to)
    ensures Rank(from) < Rank(to)
  {
  }

  /** A sequence of statuses each of which may be set from the one before. */
  ghost predicate IsChain(c: seq<ItemStatus>) {
    forall i :: 0 <= i < |c| - 1 ==> CanSetItemStatus(c[i], c[i + 1])
  }

  lemma {:induction false} ChainRaisesRank(c: seq<ItemStatus>)
    requires |c| >= 1 && IsChain(c)
    ensures Rank(c[|c| - 1]) >= Rank(c[0]) + |c| - 1
  {
    if |c| > 1 {
      var p := c[..|c| - 1];
      assert IsChain(p) by {
        forall i | 0 <= i < |p| - 1 ensures CanSetItemStatus(p[i], p[i + 1]) {
          assert p[i] == c[i] && p[i + 1] == c[i + 1];
        }
      }
      ChainRaisesRank(p);
      TransitionRaisesRank(c[|c| - 2], c[|c| - 1]);
    }
  }

  /** Any chain of allowed transitions takes at most four steps. */
  lemma ChainIsShort(c: seq<ItemStatus>)
    requires IsChain(c)
    ensures |c| <= 5
  {
    if |c| >= 1 {
      ChainRaisesRank(c);
    }
  }
}
