/**
 * status.go: `GetEc2InstanceStatus`. It collects `-i` targets into sticky
 * package-level state, describes either those targets or the stored ids, and
 * turns the first described instance into a reply. The reply classification
 * is shared with the inline `!status` branch of main.go.
 */
module Status {
  import opened Wrappers
  import opened Text
  import opened Ec2
  import opened Targets

  /** The reply for an empty id list and for a failed describe. */
  const FETCH_ERROR: string :=
    "There was an error fetching the status of your EC2 instance, please check the bot's error logs for more information."

  /** What the service line of a failed probe says after "status". */
  const CANNOT_CHECK: string := "cannot be checked right now. See your bot's error logs for more information."

  /** What the reply says about an instance's health. */
  datatype Health =
    | NotRunning   // ID and state only
    | Unchecked    // running, no check port: ID, IP and state
    | CannotCheck  // running, the probe failed
    | Active       // running, the probe answered with a status containing "200"
    | Inactive     // running, the probe answered otherwise

  /** How the state and the probe outcome select the reply. */
  function Classify(i: Instance, checkPort: string): Health {
    if !IsRunning(i) then NotRunning
    else if checkPort == "" then Unchecked
    else match i.probe
      case Unreachable => CannotCheck
      case Responded(status) => if Contains(status, "200") then Active else Inactive
  }

  /** The line every reply starts with. */
  function IdLine(i: Instance): string {
    "Instance ID: `" + i.id + "`\n"
  }

  /** The service line a running instance with a check port gets. */
  function ServiceLine(h: Health, serviceName: string, servicePort: string): string {
    if h.CannotCheck? || h.Active? || h.Inactive? then "\n`" + serviceName + "` " + Verdict(h, servicePort)
    else ""
  }

  /** What the service line says after the service name. */
  function Verdict(h: Health, servicePort: string): string {
    match h
    case CannotCheck => "status " + CANNOT_CHECK
    case Active => "is currently `" + "active` on port `" + servicePort + "`"
    case _ => "is currently `" + "inactive` on port `" + servicePort + "`"
  }

  /** What follows the header: the state alone, or the address, the state and the service line. */
  function Body(i: Instance, h: Health, serviceName: string, servicePort: string): string
    requires h != NotRunning ==> i.publicIp.Some?
  {
    if h == NotRunning then "State: `" + i.state + "`"
    else "IP: `" + i.publicIp.value + "`\nInstance State: `" + i.state + "`" + ServiceLine(h, serviceName, servicePort)
  }

  function Render(i: Instance, h: Health, serviceName: string, servicePort: string): string
    requires h != NotRunning ==> i.publicIp.Some?
  {
    IdLine(i) + ("Instance " + Body(i, h, serviceName, servicePort))
  }

  /** The reply for one described instance. */
  function Reply(i: Instance, checkPort: string, serviceName: string, servicePort: string): string
    requires HasAddress(i)
  {
    Render(i, Classify(i, checkPort), serviceName, servicePort)
  }

  /** The reply for the first instance the nested range loops reach, or "" when there is none. */
  function FirstReply(rs: seq<Reservation>, checkPort: string, serviceName: string, servicePort: string): string
    requires FirstAddressed(rs)
  {
    var all := Flatten(rs);
    if all == [] then "" else Reply(all[0], checkPort, serviceName, servicePort)
  }

  /** A common prefix keeps two different texts apart. */
  lemma PrefixKeepsDifference(p: string, a: string, b: string)
    requires a != b
    ensures p + a != p + b
  {
    assert (p + a)[|p|..] == a;
    assert (p + b)[|p|..] == b;
  }

  /** Texts whose first characters differ stay different whatever follows. */
  lemma HeadsDiffer(p: string, q: string, a: string, b: string)
    requires p != [] && q != [] && p[0] != q[0]
    ensures p + a != q + b
  {
    assert (p + a)[0] == p[0];
    assert (q + b)[0] == q[0];
  }

  /** A text starts with whatever it was built from first. */
  lemma StartsWithAppend(p: string, x: string)
    ensures StartsWith(p + x, p)
  {
    assert (p + x)[..|p|] == p;
  }

  /** Every reply starts by naming the instance. */
  lemma RenderNamesInstance(i: Instance, h: Health, serviceName: string, servicePort: string)
    requires h != NotRunning ==> i.publicIp.Some?
    ensures StartsWith(Render(i, h, serviceName, servicePort), "Instance ID: `" + i.id + "`\n")
  {
    StartsWithAppend(IdLine(i), "Instance " + Body(i, h, serviceName, servicePort));
  }

  /**
   * What follows the id line: a stopped instance shows its state alone, a
   * running one its address and state first, then any service line.
   */
  lemma BodyShowsState(i: Instance, h: Health, serviceName: string, servicePort: string)
    requires h != NotRunning ==> i.publicIp.Some?
    ensures h == NotRunning ==> Body(i, h, serviceName, servicePort) == "State: `" + i.state + "`"
    ensures h != NotRunning ==>
      StartsWith(Body(i, h, serviceName, servicePort), "IP: `" + i.publicIp.value + "`\nInstance State: `" + i.state + "`")
  {
    if h != NotRunning {
      StartsWithAppend("IP: `" + i.publicIp.value + "`\nInstance State: `" + i.state + "`", ServiceLine(h, serviceName, servicePort));
    }
  }

  /** The reply tells the health apart: two different healths of one instance never give the same text. */
  lemma RenderTellsHealth(i: Instance, h1: Health, h2: Health, serviceName: string, servicePort: string)
    requires h1 != h2 && i.publicIp.Some?
    ensures Render(i, h1, serviceName, servicePort) != Render(i, h2, serviceName, servicePort)
  {
    var b1 := Body(i, h1, serviceName, servicePort);
    var b2 := Body(i, h2, serviceName, servicePort);
    BodiesDiffer(i, h1, h2, serviceName, servicePort);
    PrefixKeepsDifference("Instance ", b1, b2);
    PrefixKeepsDifference(IdLine(i), "Instance " + b1, "Instance " + b2);
  }

  /** Different healths give different bodies. */
  lemma BodiesDiffer(i: Instance, h1: Health, h2: Health, serviceName: string, servicePort: string)
    requires h1 != h2 && i.publicIp.Some?
    ensures Body(i, h1, serviceName, servicePort) != Body(i, h2, serviceName, servicePort)
  {
    var running := "IP: `" + i.publicIp.value + "`\nInstance State: `" + i.state + "`";
    if h1 == NotRunning {
      HeadsDiffer("State: `", running, i.state + "`", ServiceLine(h2, serviceName, servicePort));
    } else if h2 == NotRunning {
      HeadsDiffer(running, "State: `", ServiceLine(h1, serviceName, servicePort), i.state + "`");
    } else {
      ServiceLinesDiffer(h1, h2, serviceName, servicePort);
      PrefixKeepsDifference(running, ServiceLine(h1, serviceName, servicePort), ServiceLine(h2, serviceName, servicePort));
    }
  }

  /** The service lines of the four running healths are pairwise different. */
  lemma ServiceLinesDiffer(h1: Health, h2: Health, serviceName: string, servicePort: string)
    requires h1 != NotRunning && h2 != NotRunning && h1 != h2
    ensures ServiceLine(h1, serviceName, servicePort) != ServiceLine(h2, serviceName, servicePort)
  {
    if h1 == Unchecked || h2 == Unchecked {
      assert ServiceLine(h1, serviceName, servicePort) == [] || ServiceLine(h2, serviceName, servicePort) == [];
    } else {
      VerdictsDiffer(servicePort);
      PrefixKeepsDifference("\n`" + serviceName + "` ", Verdict(h1, servicePort), Verdict(h2, servicePort));
    }
  }

  /** The three verdicts of a probed service are pairwise different. */
  lemma VerdictsDiffer(servicePort: string)
    ensures Verdict(CannotCheck, servicePort) != Verdict(Active, servicePort)
    ensures Verdict(CannotCheck, servicePort) != Verdict(Inactive, servicePort)
    ensures Verdict(Active, servicePort) != Verdict(Inactive, servicePort)
  {
    var active := "active` on port `" + servicePort + "`";
    var inactive := "inactive` on port `" + servicePort + "`";
    HeadsDiffer("status ", "is currently `", CANNOT_CHECK, active);
    HeadsDiffer("status ", "is currently `", CANNOT_CHECK, inactive);
    HeadsDiffer(active, inactive, [], []);
    assert active != inactive;
    PrefixKeepsDifference("is currently `", active, inactive);
  }

  /**
   * status.go's package-level state: the last collected id, whether any `-i`
   * was ever seen, every id ever collected, and the last describe input.
   * None of it is ever reset.
   */
  class StatusChecker {
    var userInstanceId: string
    var instanceSpecified: bool
    var instancesToCheckStatus: seq<string>
    var input: Option<seq<string>>

    constructor ()
      ensures userInstanceId == "" && !instanceSpecified
      ensures instancesToCheckStatus == [] && input == None
    {
      userInstanceId := "";
      instanceSpecified := false;
      instancesToCheckStatus := [];
      input := None;
    }

    /**
     * `describe` is the provider's answer to the describe request this call
     * sends (`calls`), with each instance's probe outcome.
     */
    method GetEc2InstanceStatus(
      t: seq<string>, instanceIds: seq<string>,
      checkPort: string, serviceName: string, servicePort: string,
      describe: Result<seq<Reservation>>)
      returns (statusMessage: string, calls: seq<Call>)
      requires TokensPaired(t)
      requires describe.Success? ==> FirstAddressed(describe.value)
      modifies this
      ensures |instanceIds| < 1 ==>
        && statusMessage == FETCH_ERROR && calls == []
        && userInstanceId == old(userInstanceId) && instanceSpecified == old(instanceSpecified)
        && instancesToCheckStatus == old(instancesToCheckStatus) && input == old(input)
      ensures |instanceIds| >= 1 ==>
        var c := InstanceFlags(t);
        && instanceSpecified == (old(instanceSpecified) || c.specified)
        && instancesToCheckStatus == old(instancesToCheckStatus) + c.ids
        && userInstanceId == LastOr(c.ids, old(userInstanceId))
        && input == Some(if instanceSpecified then instancesToCheckStatus else instanceIds)
        && calls == [Describe(input.value)]
        && statusMessage == (match describe
             case Failure(_) => FETCH_ERROR
             case Success(rs) => FirstReply(rs, checkPort, serviceName, servicePort))
    {
      if |instanceIds| < 1 {
        return FETCH_ERROR, [];
      }
      var c := ScanInstanceFlags(t);
      instanceSpecified := instanceSpecified || c.specified;
      instancesToCheckStatus := instancesToCheckStatus + c.ids;
      userInstanceId := LastOr(c.ids, userInstanceId);
      input := Some(if instanceSpecified then instancesToCheckStatus else instanceIds);
      calls := [Describe(input.value)];
      if describe.Failure? {
        return FETCH_ERROR, calls;
      }
      statusMessage := FirstInstanceReply(describe.value, checkPort, serviceName, servicePort);
    }
  }

  /** The nested range loops over the reservations; every branch of the body returns. */
  method FirstInstanceReply(rs: seq<Reservation>, checkPort: string, serviceName: string, servicePort: string)
    returns (statusMessage: string)
    requires FirstAddressed(rs)
    ensures statusMessage == FirstReply(rs, checkPort, serviceName, servicePort)
  {
    var r := 0;
    while r < |rs|
      invariant 0 <= r <= |rs|
      invariant Flatten(rs) == Flatten(rs[..r]) + Flatten(rs[r..])
      invariant Flatten(rs[..r]) == []
    {
      if |rs[r]| > 0 {
        assert rs[r..] == [rs[r]] + rs[r + 1..];
        assert Flatten(rs)[0] == rs[r][0];
        return Reply(rs[r][0], checkPort, serviceName, servicePort);
      }
      FlattenAppend(rs[..r], rs[r]);
      assert rs[..r + 1] == rs[..r] + [rs[r]];
      r := r + 1;
    }
    assert rs[..r] == rs;
    return "";
  }
}
