/**
 * terminate.go: `TerminateEc2Instance`. It appends this call's targets to a
 * package-level id list that is never reset and terminates the whole list.
 */
module Terminate {
  import opened Ec2
  import opened Targets

  const TERMINATE_ERROR: string :=
    "There was an error terminating your EC2 instance, please see the console logs for more info."

  const TERMINATING: string := "One time password entered correctly, terminating EC2 instance."

  /** The reply to a TerminateInstances request that succeeded or failed. */
  function TerminateReply(terminated: bool): string {
    if terminated then TERMINATING else TERMINATE_ERROR
  }

  /**
   * The ids one call appends: the collected `-i` values when there are
   * tokens after the verb (possibly none), the given id otherwise.
   */
  function CallTargets(t: seq<string>, userInstanceId: string): seq<string>
    requires TokensPaired(t)
  {
    if |t| > 1 then InstanceFlags(t).ids else [userInstanceId]
  }

  /** terminate.go's package-level id list; its `UserInstanceId` is shadowed by the parameter and never written. */
  class Terminator {
    var instanceIds: seq<string>

    constructor ()
      ensures instanceIds == []
    {
      instanceIds := [];
    }

    /** `terminated` is whether the TerminateInstances request this call sends succeeds. */
    method TerminateEc2Instance(t: seq<string>, userInstanceId: string, terminated: bool)
      returns (statusMessage: string, calls: seq<Call>)
      requires TokensPaired(t)
      modifies this
      ensures instanceIds == old(instanceIds) + CallTargets(t, userInstanceId)
      ensures calls == [Terminate(instanceIds)]
      ensures statusMessage == TerminateReply(terminated)
    {
      if |t| > 1 {
        var c := ScanInstanceFlags(t);
        instanceIds := instanceIds + c.ids;
      } else {
        instanceIds := instanceIds + [userInstanceId];
      }
      calls := [Terminate(instanceIds)];
      statusMessage := TerminateReply(terminated);
    }
  }

  /**
   * With only the verb the given id is targeted, even "". With flags, exactly
   * the `-i` values other than "-i" are targeted, so flags without `-i` add nothing.
   */
  lemma CallTargetsCases(t: seq<string>, userInstanceId: string, x: string)
    requires TokensPaired(t)
    ensures |t| <= 1 ==> CallTargets(t, userInstanceId) == [userInstanceId]
    ensures |t| > 1 ==>
      (x in CallTargets(t, userInstanceId) <==>
        x != "-i" && exists k :: IsTargetFlag(t, k) && k + 1 < |t| && t[k + 1] == x)
    ensures |t| > 1 && (forall k :: !IsTargetFlag(t, k)) ==> CallTargets(t, userInstanceId) == []
  {
    CollectedIds(t, 1, x);
    if |t| > 1 && forall k :: !IsTargetFlag(t, k) {
      if CallTargets(t, userInstanceId) != [] {
        CollectedIds(t, 1, CallTargets(t, userInstanceId)[0]);
      }
    }
  }
}
