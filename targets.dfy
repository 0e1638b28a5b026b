/**
 * The `-i` target collection shared by start.go, stop.go, status.go,
 * terminate.go and the terminate path of main.go. The tokens after the verb
 * are walked two at a time from position 1; at each flag position holding
 * "-i" the target is noted as specified and the next token, unless it is
 * "-i" itself, is collected as an instance id.
 */
module Targets {

  /**
   * No `-i` dangles: when a flag position is the last token, it is not "-i",
   * so the token after a `-i` is never read past the end.
   */
  predicate TokensPaired(t: seq<string>) {
    |t| % 2 == 0 && |t| >= 2 ==> t[|t| - 1] != "-i"
  }

  /** Position `k` is a flag position holding "-i". */
  predicate IsTargetFlag(t: seq<string>, k: int) {
    0 <= k < |t| && k % 2 == 1 && t[k] == "-i"
  }

  /** The ids the loop collects from the flag at odd position `i` on. */
  function IdsFrom(t: seq<string>, i: nat): seq<string>
    requires i % 2 == 1 && TokensPaired(t)
    decreases |t| - i
  {
    if i >= |t| then []
    else if t[i] == "-i" && t[i + 1] != "-i" then [t[i + 1]] + IdsFrom(t, i + 2)
    else IdsFrom(t, i + 2)
  }

  /** Whether some flag position from `i` on holds "-i". */
  predicate SpecifiedFrom(t: seq<string>, i: nat)
    requires i % 2 == 1
    decreases |t| - i
  {
    i < |t| && (t[i] == "-i" || SpecifiedFrom(t, i + 2))
  }

  /** What one pass of the loop yields: whether any `-i` was seen, and the ids collected, in order. */
  datatype Collected = Collected(specified: bool, ids: seq<string>)

  function InstanceFlags(t: seq<string>): Collected
    requires TokensPaired(t)
  {
    Collected(SpecifiedFrom(t, 1), IdsFrom(t, 1))
  }

  /** The id a loop that assigns every collected id leaves behind, or `dflt` when it collects none. */
  function LastOr(ids: seq<string>, dflt: string): string {
    if ids == [] then dflt else ids[|ids| - 1]
  }

  /** The loop `for i := 1; i < len(messageContentSlice); i += 2` with its `case "-i"`. */
  method ScanInstanceFlags(t: seq<string>) returns (r: Collected)
    requires TokensPaired(t)
    ensures r == InstanceFlags(t)
  {
    var specified := false;
    var ids: seq<string> := [];
    var i := 1;
    while i < |t|
      invariant i % 2 == 1
      invariant (specified || SpecifiedFrom(t, i)) == SpecifiedFrom(t, 1)
      invariant ids + IdsFrom(t, i) == IdsFrom(t, 1)
      decreases |t| - i
    {
      if t[i] == "-i" {
        specified := true;
        if t[i + 1] != "-i" {
          ids := ids + [t[i + 1]];
        }
      }
      i := i + 2;
    }
    r := Collected(specified, ids);
  }

  /**
   * An id is collected exactly when it follows a `-i` at a flag position and
   * is not "-i" itself.
   */
  lemma {:induction false} CollectedIds(t: seq<string>, i: nat, x: string)
    requires i % 2 == 1 && TokensPaired(t)
    ensures x in IdsFrom(t, i) <==>
      x != "-i" && exists k :: i <= k && IsTargetFlag(t, k) && k + 1 < |t| && t[k + 1] == x
    decreases |t| - i
  {
    if i < |t| {
      CollectedIds(t, i + 2, x);
      if t[i] == "-i" && t[i + 1] == x && x != "-i" {
        assert IsTargetFlag(t, i);
      }
      assert forall k :: i <= k && IsTargetFlag(t, k) ==> k == i || i + 2 <= k;
    }
  }

  /** A target counts as specified exactly when some flag position holds "-i", even `-i -i`. */
  lemma {:induction false} SpecifiedIff(t: seq<string>, i: nat)
    requires i % 2 == 1
    ensures SpecifiedFrom(t, i) <==> exists k :: i <= k && IsTargetFlag(t, k)
    decreases |t| - i
  {
    if i < |t| {
      SpecifiedIff(t, i + 2);
      if t[i] == "-i" {
        assert IsTargetFlag(t, i);
      }
      assert forall k :: i <= k && IsTargetFlag(t, k) ==> k == i || i + 2 <= k;
    }
  }

  /** Every collected id comes with a `-i`, so ids are collected only when a target is specified. */
  lemma {:induction false} IdsNeedSpecified(t: seq<string>, i: nat)
    requires i % 2 == 1 && TokensPaired(t)
    ensures IdsFrom(t, i) != [] ==> SpecifiedFrom(t, i)
    decreases |t| - i
  {
    if i < |t| {
      IdsNeedSpecified(t, i + 2);
    }
  }

  /** Values equal to "-i" are never collected. */
  lemma NoFlagCollected(t: seq<string>)
    requires TokensPaired(t)
    ensures "-i" !in InstanceFlags(t).ids
  {
    CollectedIds(t, 1, "-i");
  }
}
