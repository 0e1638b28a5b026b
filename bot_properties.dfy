/** What main.go's handler guarantees, stated over its specification `Handle`. */
module BotProperties {
  import opened Wrappers
  import opened Text
  import opened Ec2
  import opened CreateFlags
  import CreateFlagProperties
  import Targets
  import Status
  import Terminate
  import opened Bot

  /** Some request of `calls` is a RunInstances request. */
  predicate SendsRun(calls: seq<Call>) {
    exists c :: c in calls && c.Run?
  }

  /** Some request of `calls` is a TerminateInstances request. */
  predicate SendsTerminate(calls: seq<Call>) {
    exists c :: c in calls && c.Terminate?
  }

  /** The message reaches the password gate: it is not the bot's own and not an exact command. */
  predicate ReachesGate(m: Message) {
    !m.fromSelf && !IsCommand(m.content)
  }

  /**
   * The password changes only when a message reaching the gate finds
   * "!create" or "!terminate" in the newest channel message; the handler
   * then does nothing else. An authorised create or terminate does not
   * clear the password.
   */
  lemma PasswordChangesOnlyOnRequest(st: BotState, m: Message, env: Env)
    requires Safe(st, m, env)
    ensures Handle(st, m, env).st.oneTimePassword != st.oneTimePassword ==>
      ReachesGate(m) && Triggers(env.recent)
    ensures ReachesGate(m) && Triggers(env.recent) ==>
      Handle(st, m, env) == Effects(NewOtp(st.(previousMessages := env.recent), env.entropy), [], [])
  {
    if ReachesGate(m) && !Triggers(env.recent) {
      GateKeepsPassword(st, env);
    }
  }

  lemma GateKeepsPassword(st: BotState, env: Env)
    requires GateSafe(st, env) && !Triggers(env.recent)
    ensures Gate(st, env).st.oneTimePassword == st.oneTimePassword
  {
    var st1 := st.(previousMessages := env.recent);
    if Authorises(st, env.recent, "!create") {
      var t := Fields(env.recent[1]);
      var c := AuthorisedCreate(st1, t, env);
      assert c.e.st.oneTimePassword == st.oneTimePassword;
    }
  }

  /**
   * A RunInstances request is sent only for a message reaching the gate
   * whose newest channel message is exactly the password (and asks for no
   * new one) while the message before it contains "!create".
   */
  lemma RunNeedsPassword(st: BotState, m: Message, env: Env)
    requires Safe(st, m, env)
    ensures SendsRun(Handle(st, m, env).calls) ==>
      && ReachesGate(m) && !Triggers(env.recent)
      && env.recent[0] == st.oneTimePassword && Authorises(st, env.recent, "!create")
  {
    if ReachesGate(m) && !Triggers(env.recent) {
      var st1 := st.(previousMessages := env.recent);
      var t := if |env.recent| >= 2 then Fields(env.recent[1]) else [];
      if Authorises(st, env.recent, "!create") {
      } else if Authorises(st, env.recent, "!terminate") {
        assert !SendsRun(AuthorisedTerminate(st1, t).calls);
      }
    }
  }

  /**
   * A TerminateInstances request is sent only for a message reaching the
   * gate whose newest channel message is exactly the password while the
   * message before it contains "!terminate".
   */
  lemma TerminateNeedsPassword(st: BotState, m: Message, env: Env)
    requires Safe(st, m, env)
    ensures SendsTerminate(Handle(st, m, env).calls) ==>
      && ReachesGate(m) && !Triggers(env.recent)
      && Authorises(st, env.recent, "!terminate")
  {
    if ReachesGate(m) && !Triggers(env.recent) {
      var st1 := st.(previousMessages := env.recent);
      var t := if |env.recent| >= 2 then Fields(env.recent[1]) else [];
      if Authorises(st, env.recent, "!create") {
        var c := AuthorisedCreate(st1, t, env);
        assert !SendsTerminate(c.e.calls);
        if c.reachesTerminate && Contains(env.recent[1], "!terminate") {
          assert Authorises(st, env.recent, "!terminate");
        }
      }
    }
  }

  /**
   * An authorised bare "!create" with a stored subnet and image only marks
   * the subnet valid: the `break` leaves the switch, so nothing is sent, no
   * reply is written and the terminate check is never reached.
   */
  lemma BareCreateSendsNothing(st: BotState, env: Env)
    requires GateSafe(st, env) && !Triggers(env.recent) && Authorises(st, env.recent, "!create")
    requires |Fields(env.recent[1])| <= 1
    requires st.settings.subnetId != "" && st.settings.amiId != ""
    ensures Gate(st, env)
         == Effects(st.(previousMessages := env.recent, settings := st.settings.(validSubnet := true)), [], [])
  {
    CreateFlagProperties.BareVerb(Fields(env.recent[1]), FLAG_ARRAY, st.settings);
  }

  /**
   * The create path sends RunInstances only with settings that name at most
   * one IAM reference; the request asks for exactly one instance, uses the
   * stored security group list, and carries a key pair exactly when one is set.
   * Without a RunInstances request nothing is sent and no id is recorded.
   */
  lemma CreateRequest(st: BotState, t: seq<string>, env: Env)
    requires CreateFlags.TokensPaired(t)
    ensures var c := AuthorisedCreate(st, t, env).e;
      && (c.calls == [] || c.calls[0].Run?)
      && (c.calls != [] ==>
            var r := c.calls[0].request;
            && r.minCount == 1 && r.maxCount == 1
            && r.securityGroupIds == st.securityGroupIds
            && r.userData == env.userData
            && (r.iamArn == "" || r.iamName == "")
            && (r.keyName.Some? <==> c.st.settings.keyName != "")
            && c.st.runInstancesInput == Some(r))
      && c.st.instanceIds == st.instanceIds + (if c.calls != [] && env.run.Success? then [env.run.value] else [])
      && (c.calls != [] && env.run.Success? ==> c.st.userInstanceId == env.run.value)
  {
    var c := AuthorisedCreate(st, t, env).e;
    match Resolve(t, FLAG_ARRAY, st.settings)
    case Ready(s) =>
      var request := BuildRequest(s, st.securityGroupIds, env.userData);
      CreateFlagProperties.ReadyRequest(t, FLAG_ARRAY, st.settings, s, st.securityGroupIds, env.userData);
      assert c.calls[0] == Run(request) && c.st.settings == s;
    case _ =>
      assert c.calls == [] && c.st.instanceIds == st.instanceIds;
  }

  /**
   * No handler run assigns the security group list, and every RunInstances
   * request carries that list. A bot whose constructor left the list empty
   * therefore never asks for a security group.
   */
  lemma GroupsNeverChange(st: BotState, m: Message, env: Env)
    requires Safe(st, m, env)
    ensures var e := Handle(st, m, env);
      && e.st.securityGroupIds == st.securityGroupIds
      && forall c :: c in e.calls && c.Run? ==> c.request.securityGroupIds == st.securityGroupIds
  {
    if ReachesGate(m) && !Triggers(env.recent) && Authorises(st, env.recent, "!create") {
      var t := Fields(env.recent[1]);
      CreateKeepsGroups(st.(previousMessages := env.recent), t, env);
    }
  }

  lemma CreateKeepsGroups(st: BotState, t: seq<string>, env: Env)
    requires CreateFlags.TokensPaired(t)
    ensures var e := AuthorisedCreate(st, t, env).e;
      && e.st.securityGroupIds == st.securityGroupIds
      && forall c :: c in e.calls && c.Run? ==> c.request.securityGroupIds == st.securityGroupIds
  {
  }

  /**
   * The stored password is "" until the first one is issued. Until then a
   * message reaching the gate while the newest channel message is empty, and
   * the one before it contains "!create", runs the create path.
   */
  lemma EmptyPasswordAuthorisesCreate(st: BotState, m: Message, env: Env)
    requires Safe(st, m, env) && ReachesGate(m)
    requires st.oneTimePassword == "" && |env.recent| >= 2 && env.recent[0] == ""
    requires Contains(env.recent[1], "!create") && !Contains(env.recent[1], "!terminate")
    ensures Handle(st, m, env) == AuthorisedCreate(st.(previousMessages := env.recent), Fields(env.recent[1]), env).e
  {
    assert !Triggers(env.recent);
  }

  /**
   * An authorised terminate replaces the registry with exactly this
   * command's targets: the `-i` values other than "-i" when flags follow the
   * verb, the stored id otherwise. It always reports success and forgets the
   * stored id.
   */
  lemma TerminateReplacesRegistry(st: BotState, t: seq<string>, x: string)
    requires Targets.TokensPaired(t)
    ensures var e := AuthorisedTerminate(st, t);
      && e.replies == [Terminate.TERMINATING]
      && e.calls == [Terminate(e.st.instanceIds)]
      && e.st.userInstanceId == ""
      && (|t| <= 1 ==> e.st.instanceIds == [st.userInstanceId])
      && (|t| > 1 ==> e.st.instanceIds == Targets.InstanceFlags(t).ids)
      && (|t| > 1 ==>
            (x in e.st.instanceIds <==>
              x != "-i" && exists k :: Targets.IsTargetFlag(t, k) && k + 1 < |t| && t[k + 1] == x))
  {
    Targets.CollectedIds(t, 1, x);
  }

  /**
   * Every inline !start adds its target (the stored id, or the discovered one
   * when none is stored) to the registry; once that target is not empty it
   * is stored, so repeating the command adds the same id again.
   */
  lemma RepeatedStartDuplicates(st: BotState, env1: Env, env2: Env)
    ensures var m := Message("!start", false);
      var st1 := Handle(st, m, env1).st;
      && st1.instanceIds == st.instanceIds + [Target(st, env1)]
      && (Target(st, env1) != "" ==>
            Handle(st1, m, env2).st.instanceIds == st.instanceIds + [Target(st, env1), Target(st, env1)])
  {
  }

  /**
   * Every inline !status, !start or !stop that goes on to its request
   * appends its target to the registry and sends that registry.
   */
  lemma InlineCommandsAppend(st: BotState, m: Message, env: Env)
    requires Safe(st, m, env)
    requires !m.fromSelf && (m.content == "!status" || m.content == "!start" || m.content == "!stop")
    requires !(m.content == "!status" && st.userInstanceId == "" && env.discoveredId == "")
    ensures var e := Handle(st, m, env);
      && e.st.instanceIds == st.instanceIds + [Target(st, env)]
      && e.calls[|e.calls| - 1].ids == e.st.instanceIds
      && e.st.oneTimePassword == st.oneTimePassword
  {
  }

  /**
   * main.go reports the last described instance where status.go reports the
   * first; they agree when exactly one instance is described. With none,
   * main.go repeats its previous message and status.go answers "".
   */
  lemma InlineAndPackageStatus(rs: seq<Reservation>, checkPort: string, serviceName: string, servicePort: string, previous: string)
    requires AllAddressed(rs) && FirstAddressed(rs)
    ensures |Flatten(rs)| == 1 ==>
      LastReply(rs, checkPort, serviceName, servicePort, previous)
      == Status.FirstReply(rs, checkPort, serviceName, servicePort)
    ensures Flatten(rs) == [] ==>
      LastReply(rs, checkPort, serviceName, servicePort, previous) == previous
      && Status.FirstReply(rs, checkPort, serviceName, servicePort) == ""
  {
  }

  /**
   * The help reply always starts with the command list. It adds a line
   * exactly when a service name is set, and the line for a name alone differs
   * from the line for a name and a port.
   */
  lemma HelpChoice(s: Settings)
    ensures StartsWith(HelpText(s), HELP)
    ensures s.serviceName == "" <==> HelpText(s) == HELP
    ensures s.serviceName != "" ==>
      (HelpText(s) != HelpText(s.(servicePort := "")) <==> s.servicePort != "")
  {
    Status.StartsWithAppend(HELP, ServiceNote(s));
    if s.serviceName != "" && s.servicePort != "" {
      var named := ServiceNote(s.(servicePort := ""));
      assert ServiceNote(s)[2] != named[2];
      Status.PrefixKeepsDifference(HELP, ServiceNote(s), named);
    }
  }


}
