/**
 * start.go: `StartEc2Instance`. It collects `-i` targets into sticky
 * package-level state and starts either those targets or the stored ids.
 */
module Start {
  import opened Wrappers
  import opened Ec2
  import opened Targets
  import Status

  const START_ERROR: string :=
    "**ERROR**: There was an error trying to start your EC2 instance. Please see your bot's error logs for more information."

  const STARTING: string :=
    "Starting EC2 instance...\nUse **`!status`** to track the status of your server as it comes online!"

  /** The reply to a StartInstances request that succeeded or failed. */
  function StartReply(started: bool): string {
    if started then STARTING else START_ERROR
  }

  /**
   * start.go's package-level state: whether any `-i` was ever seen, every id
   * ever collected, and the last request's ids. None of it is ever reset.
   */
  class Starter {
    var instanceSpecified: bool
    var instancesToStart: seq<string>
    var input: Option<seq<string>>

    constructor ()
      ensures !instanceSpecified && instancesToStart == [] && input == None
    {
      instanceSpecified := false;
      instancesToStart := [];
      input := None;
    }

    /**
     * `started` is whether the StartInstances request this call sends
     * succeeds. The returned id is the last one this call collected, or "".
     */
    method StartEc2Instance(t: seq<string>, instanceIds: seq<string>, started: bool)
      returns (statusMessage: string, userInstanceId: string, calls: seq<Call>)
      requires TokensPaired(t)
      modifies this
      ensures |instanceIds| < 1 ==>
        && statusMessage == Status.FETCH_ERROR && userInstanceId == "" && calls == []
        && instanceSpecified == old(instanceSpecified) && instancesToStart == old(instancesToStart)
        && input == old(input)
      ensures |instanceIds| >= 1 ==>
        var c := InstanceFlags(t);
        && instanceSpecified == (old(instanceSpecified) || c.specified)
        && instancesToStart == old(instancesToStart) + c.ids
        && userInstanceId == LastOr(c.ids, "")
        && input == Some(if instanceSpecified then instancesToStart else instanceIds)
        && calls == [Start(input.value)]
        && statusMessage == StartReply(started)
    {
      if |instanceIds| < 1 {
        return Status.FETCH_ERROR, "", [];
      }
      var c := ScanInstanceFlags(t);
      instanceSpecified := instanceSpecified || c.specified;
      instancesToStart := instancesToStart + c.ids;
      userInstanceId := LastOr(c.ids, "");
      input := Some(if instanceSpecified then instancesToStart else instanceIds);
      calls := [Start(input.value)];
      statusMessage := StartReply(started);
    }
  }
}
