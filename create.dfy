/**
 * create.go: `CreateEc2Instance`. It resolves the `!create` flags into the
 * package-level settings, builds the RunInstances request, and on success
 * records and tags the new instance.
 */
module Create {
  import opened Wrappers
  import opened Ec2
  import opened CreateFlags

  const RUN_ERROR: string := "There was an error creating your EC2 instance:"

  const CREATED: string := "One time password entered correctly, your EC2 instance has been created!\nInstance ID: `"

  /** The reply naming a created instance. */
  function Created(id: string): string {
    CREATED + id + "`"
  }

  /**
   * create.go's package-level state: the resolved settings, the security
   * group list (never written by the package), the ids it created, and the
   * last request built.
   */
  class Creator {
    var settings: Settings
    var securityGroupIds: seq<string>
    var instanceIds: seq<string>
    var runInstancesInput: Option<RunRequest>

    /**
     * The exported settings and group list are whatever the importer set;
     * the unexported subnet flag, id list and request start at zero values.
     */
    constructor (options: Settings, groups: seq<string>)
      ensures settings == options.(validSubnet := false) && securityGroupIds == groups
      ensures instanceIds == [] && runInstancesInput == None
    {
      settings := options.(validSubnet := false);
      securityGroupIds := groups;
      instanceIds := [];
      runInstancesInput := None;
    }

    /**
     * `fa` is the flag array the caller passes; `userData` the encoded
     * content of the user-data script; `run` the provider's answer to the
     * RunInstances request (the new id or an error text). The CreateTags
     * outcome changes nothing the caller sees.
     */
    method CreateEc2Instance(t: seq<string>, fa: seq<string>, userData: string, run: Result<string>)
      returns (statusMessage: string, userInstanceId: string, calls: seq<Call>)
      requires TokensPaired(t)
      modifies this
      ensures var r := PackageResolve(t, fa, old(settings));
        && settings == r.s
        && securityGroupIds == old(securityGroupIds)
        && (!r.Ready? ==>
              && statusMessage == (if r.Rejected? then r.message else "")
              && userInstanceId == "" && calls == []
              && instanceIds == old(instanceIds) && runInstancesInput == old(runInstancesInput))
        && (r.Ready? ==>
              var request := BuildRequest(r.s, securityGroupIds, userData);
              && runInstancesInput == Some(request)
              && match run
                 case Failure(e) =>
                   && statusMessage == RUN_ERROR + e && userInstanceId == ""
                   && instanceIds == old(instanceIds) && calls == [Run(request)]
                 case Success(id) =>
                   && statusMessage == Created(id) && userInstanceId == id
                   && instanceIds == old(instanceIds) + [id]
                   && calls == [Run(request), Tag(id, r.s.tagKey, r.s.tagValue)])
    {
      var r := ResolveFlags(t, fa, settings);
      if r.Stored? {
        r := ValidateFlags(t, fa, r.s);
      }
      settings := r.s;
      statusMessage, userInstanceId, calls := "", "", [];
      match r {
        case Silent(_) =>
        case Stored(_) =>
        case Rejected(_, message) =>
          statusMessage := message;
        case Ready(s) =>
          var request := BuildRequest(s, securityGroupIds, userData);
          runInstancesInput := Some(request);
          calls := [Run(request)];
          match run {
            case Failure(e) =>
              statusMessage := RUN_ERROR + e;
            case Success(id) =>
              userInstanceId := id;
              statusMessage := Created(id);
              instanceIds := instanceIds + [id];
              calls := calls + [Tag(id, s.tagKey, s.tagValue)];
          }
      }
    }
  }
}
