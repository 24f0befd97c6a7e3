/**
 * Playlist looping: with URIs on the command line the player plays
 * argv[1] .. argv[argc - 1] in turn and starts again at argv[1].
 */
module Playlist {

  /**
   * The index after `current` when playbin is about to finish: one on, and
   * back to 1 when that reaches the NULL that ends argv (at index argc).
   */
  function NextUri(current: int, argc: int): (next: int)
    requires 1 <= current < argc
    ensures 1 <= next < argc
    ensures next == current + 1 || (current == argc - 1 && next == 1)
  {
    if current + 1 == argc then 1 else current + 1
  }

  /** The index after `k` about-to-finish signals. */
  function Advance(k: nat, current: int, argc: int): (next: int)
    requires 1 <= current < argc
    ensures 1 <= next < argc
  {
    if k == 0 then current else NextUri(Advance(k - 1, current, argc), argc)
  }

  /**
   * Within one round, after `k` signals the index has moved `k` places on,
   * wrapping from argc - 1 back to 1.
   */
  lemma {:induction false} AdvanceWithinRound(k: nat, current: int, argc: int)
    requires 1 <= current < argc
    requires k <= argc - 1
    ensures Advance(k, current, argc) == if current + k < argc then current + k else current + k - (argc - 1)
  {
    if k > 0 {
      AdvanceWithinRound(k - 1, current, argc);
    }
  }

  /** How many signals it takes to get from index `current` to index `target`. */
  function Distance(current: int, target: int, argc: int): int
  {
    if target >= current then target - current else target - current + (argc - 1)
  }

  /**
   * The playlist loops: after argc - 1 signals the index is back where it
   * started, and every URI argv[1] .. argv[argc - 1] comes up within fewer
   * signals than that.
   */
  lemma PlaylistLoops(current: int, argc: int)
    requires 1 <= current < argc
    ensures Advance(argc - 1, current, argc) == current
    ensures forall target :: 1 <= target < argc ==>
              0 <= Distance(current, target, argc) < argc - 1 &&
              Advance(Distance(current, target, argc), current, argc) == target
  {
    AdvanceWithinRound(argc - 1, current, argc);
    forall target | 1 <= target < argc
      ensures 0 <= Distance(current, target, argc) < argc - 1
      ensures Advance(Distance(current, target, argc), current, argc) == target
    {
      AdvanceWithinRound(Distance(current, target, argc), current, argc);
    }
  }
}
