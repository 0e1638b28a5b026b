/**
 * stop.go: `StopEc2Instance`. It collects `-i` targets into sticky
 * package-level state, including the package's own `UserInstanceId`, and
 * stops either those targets or the stored ids.
 */
module Stop {
  import opened Wrappers
  import opened Ec2
  import opened Targets
  import Status

  const STOP_ERROR: string :=
    "**ERROR**: There was an error trying to stop your EC2 instance. Please see your bot's error logs for more information."

  const STOPPING: string := "Stopping EC2 instance..."

  /** The reply to a StopInstances request that succeeded or failed. */
  function StopReply(stopped: bool): string {
    if stopped then STOPPING else STOP_ERROR
  }

  /**
   * stop.go's package-level state: whether any `-i` was ever seen, the last
   * collected id, every id ever collected, and the last request's ids.
   */
  class Stopper {
    var instanceSpecified: bool
    var userInstanceId: string
    var instancesToStop: seq<string>
    var input: Option<seq<string>>

    constructor ()
      ensures !instanceSpecified && userInstanceId == "" && instancesToStop == [] && input == None
    {
      instanceSpecified := false;
      userInstanceId := "";
      instancesToStop := [];
      input := None;
    }

    /** `stopped` is whether the StopInstances request this call sends succeeds. */
    method StopEc2Instance(t: seq<string>, instanceIds: seq<string>, stopped: bool)
      returns (statusMessage: string, calls: seq<Call>)
      requires TokensPaired(t)
      modifies this
      ensures |instanceIds| < 1 ==>
        && statusMessage == Status.FETCH_ERROR && calls == []
        && instanceSpecified == old(instanceSpecified) && userInstanceId == old(userInstanceId)
        && instancesToStop == old(instancesToStop) && input == old(input)
      ensures |instanceIds| >= 1 ==>
        var c := InstanceFlags(t);
        && instanceSpecified == (old(instanceSpecified) || c.specified)
        && userInstanceId == LastOr(c.ids, old(userInstanceId))
        && instancesToStop == old(instancesToStop) + c.ids
        && input == Some(if instanceSpecified then instancesToStop else instanceIds)
        && calls == [Stop(input.value)]
        && statusMessage == StopReply(stopped)
    {
      if |instanceIds| < 1 {
        return Status.FETCH_ERROR, [];
      }
      var c := ScanInstanceFlags(t);
      instanceSpecified := instanceSpecified || c.specified;
      userInstanceId := LastOr(c.ids, userInstanceId);
      instancesToStop := instancesToStop + c.ids;
      input := Some(if instanceSpecified then instancesToStop else instanceIds);
      calls := [Stop(input.value)];
      statusMessage := StopReply(stopped);
    }
  }
}
