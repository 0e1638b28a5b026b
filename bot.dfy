/**
 * main.go: the message handler `messageCreated` and `GenerateOTP`.
 *
 * Exact commands ("!status", "!start", "!stop", "!help") are answered inline.
 * Every other message goes to the one-time-password gate. It looks at the
 * newest channel messages and either issues a new password, runs the inline
 * create path, or runs the inline terminate path. All state is process-wide
 * and survives between messages.
 */
module Bot {
  import opened Wrappers
  import opened Text
  import opened Ec2
  import opened CreateFlags
  import Targets
  import Status
  import Start
  import Stop
  import Terminate
  import Create

  /** A byte of the random buffer. */
  newtype byte = b: int | 0 <= b < 256

  /** The password alphabet; a random byte b becomes OTP_CHARS[b mod 10]. */
  const OTP_CHARS: string := "1234567890"

  /** The same alphabet as the byte values the buffer is overwritten with. */
  const OTP_CODES: seq<byte> := [49, 50, 51, 52, 53, 54, 55, 56, 57, 48]

  const NO_INSTANCES: string :=
    "You don't have any running or stopped instances! Get started by running the `!create` command."

  /** main.go's own reply to a failed StopInstances (the stop package words it differently). */
  const INLINE_STOP_ERROR: string :=
    "There was an error stopping your EC2 instance. Please check your bot's error logs for more information."

  const HELP: string :=
    "**`!create`** -- Creates a brand new EC2 instances\n**`!status`** -- Checks the status of the EC2 instance, checks for public IP address\n**`!start`** -- Starts your EC2 instance\n**`!stop`** -- Stops your EC2 instance\n**`!terminate`** -- Terminates (deletes) your EC2 instance\n**`!help`** -- Displays commands and what they do :smile:"

  /** The package-level variables of main.go that the handler reads or writes. */
  datatype BotState = BotState(
    oneTimePassword: string,
    statusMessage: string,
    instanceIds: seq<string>,
    userInstanceId: string,
    settings: Settings,
    securityGroupIds: seq<string>,
    runInstancesInput: Option<RunRequest>,
    previousMessages: seq<string>,
    otpLength: int)

  /** A new channel message: its text, and whether this bot wrote it. */
  datatype Message = Message(content: string, fromSelf: bool)

  /**
   * What the outside world answers while one message is handled.
   *   recent       - the channel's newest messages, newest first
   *   entropy      - the random bytes read for a new password, or None when the read fails
   *   discoveredId - the first instance id of the tag-filtered describe
   *   describe     - the inline !status describe answer, with each instance's probe outcome
   *   started, stopped, tagged - whether StartInstances, StopInstances, CreateTags succeed
   *   userData     - the encoded content of the user-data script
   *   run          - the RunInstances answer: the new id, or an error text
   */
  datatype Env = Env(
    recent: seq<string>,
    entropy: Option<seq<byte>>,
    discoveredId: string,
    describe: seq<Reservation>,
    started: bool,
    stopped: bool,
    userData: string,
    run: Result<string>,
    tagged: bool)

  /** The new state, the channel replies in order, and the provider requests in order. */
  datatype Effects = Effects(st: BotState, replies: seq<string>, calls: seq<Call>)

  /** Two steps of one handler run, one after the other. */
  function Then(first: Effects, second: Effects): Effects {
    Effects(second.st, first.replies + second.replies, first.calls + second.calls)
  }

  // ---------------------------------------------------------------- GenerateOTP

  /** The password a buffer of random bytes turns into. */
  function OtpOf(bytes: seq<byte>): string {
    seq(|bytes|, k requires 0 <= k < |bytes| => OTP_CHARS[(bytes[k] as int) % 10])
  }

  /** The remainder a password character stands for: '1' for 0, ..., '9' for 8, '0' for 9. */
  function DigitValue(c: char): int {
    if c == '0' then 9 else (c as int) - ('1' as int)
  }

  /** The state after GenerateOTP: a new password unless the random read failed. */
  function NewOtp(st: BotState, entropy: Option<seq<byte>>): BotState {
    match entropy
    case None => st
    case Some(bytes) => st.(oneTimePassword := OtpOf(bytes))
  }

  /**
   * A password has one character per random byte; every character is a
   * decimal digit, and it tells back the byte's remainder modulo 10.
   */
  lemma OtpDigits(bytes: seq<byte>)
    ensures |OtpOf(bytes)| == |bytes|
    ensures forall k :: 0 <= k < |bytes| ==>
      '0' <= OtpOf(bytes)[k] <= '9' && DigitValue(OtpOf(bytes)[k]) == (bytes[k] as int) % 10
  {
    forall k | 0 <= k < |bytes|
      ensures '0' <= OtpOf(bytes)[k] <= '9' && DigitValue(OtpOf(bytes)[k]) == (bytes[k] as int) % 10
    {
      var r := (bytes[k] as int) % 10;
      assert OtpOf(bytes)[k] == OTP_CHARS[r];
      assert r == 0 || r == 1 || r == 2 || r == 3 || r == 4 || r == 5 || r == 6 || r == 7 || r == 8 || r == 9;
    }
  }

  // ---------------------------------------------------------------- inline commands

  /** The id an inline command works on: the stored one, or the discovered one when none is stored. */
  function Target(st: BotState, env: Env): string {
    if st.userInstanceId == "" then env.discoveredId else st.userInstanceId
  }

  /** The tag-filtered describe an inline command sends when no id is stored. */
  function Discovery(st: BotState): seq<Call> {
    if st.userInstanceId == "" then [DescribeTagged(st.instanceIds, st.settings.tagKey, st.settings.tagValue)] else []
  }

  /**
   * The reply for the last instance the nested range loops reach, or the
   * previous status message when there is none.
   */
  function LastReply(rs: seq<Reservation>, checkPort: string, serviceName: string, servicePort: string, previous: string): string
    requires AllAddressed(rs)
  {
    FlattenAddressed(rs);
    var all := Flatten(rs);
    if all == [] then previous else Status.Reply(all[|all| - 1], checkPort, serviceName, servicePort)
  }

  /**
   * Every running instance's probe answers when a check port is set; a
   * failed probe makes the inline branch dereference a nil response.
   */
  predicate ProbesAnswer(rs: seq<Reservation>, checkPort: string) {
    checkPort != "" ==> forall i :: i in Flatten(rs) && IsRunning(i) ==> i.probe.Responded?
  }

  function InlineStatus(st: BotState, env: Env): Effects
    requires AllAddressed(env.describe)
  {
    if st.userInstanceId == "" && env.discoveredId == "" then
      Effects(st.(statusMessage := NO_INSTANCES), [NO_INSTANCES], Discovery(st))
    else
      var ids := st.instanceIds + [Target(st, env)];
      var s := st.settings;
      var msg := LastReply(env.describe, s.serviceCheckPort, s.serviceName, s.servicePort, st.statusMessage);
      Effects(st.(userInstanceId := Target(st, env), instanceIds := ids, statusMessage := msg),
        [msg], Discovery(st) + [Describe(ids)])
  }

  function InlineStart(st: BotState, env: Env): Effects {
    var ids := st.instanceIds + [Target(st, env)];
    Effects(st.(userInstanceId := Target(st, env), instanceIds := ids),
      [Start.StartReply(env.started)], Discovery(st) + [Start(ids)])
  }

  function InlineStop(st: BotState, env: Env): Effects {
    var ids := st.instanceIds + [Target(st, env)];
    var st' := st.(userInstanceId := Target(st, env), instanceIds := ids);
    if env.stopped then Effects(st', [Stop.STOPPING], Discovery(st) + [Stop(ids)])
    else Effects(st'.(statusMessage := INLINE_STOP_ERROR), [INLINE_STOP_ERROR], Discovery(st) + [Stop(ids)])
  }

  /** The help reply: the command list, then what the settings say about the service. */
  function HelpText(s: Settings): string {
    HELP + ServiceNote(s)
  }

  /** The three-way choice of the help text's ending on the service name and port. */
  function ServiceNote(s: Settings): string {
    if s.serviceName != "" && s.servicePort != "" then
      "\n\n`" + s.serviceName + "` is running on port `" + s.servicePort + "`"
    else if s.serviceName != "" then
      "\n\nYour EC2 instance is running `" + s.serviceName + "`."
    else ""
  }

  // ---------------------------------------------------------------- the password gate

  /** The end of the inline create path, and whether control reaches the terminate check after it. */
  datatype CreateEnd = CreateEnd(e: Effects, reachesTerminate: bool)

  /** The inline create path; a bare verb with stored settings hits the `break` that leaves the switch. */
  function AuthorisedCreate(st: BotState, t: seq<string>, env: Env): CreateEnd
    requires CreateFlags.TokensPaired(t)
  {
    match Resolve(t, FLAG_ARRAY, st.settings)
    case Silent(s) => CreateEnd(Effects(st.(settings := s), [], []), false)
    case Stored(s) => CreateEnd(Effects(st.(settings := s), [], []), false)
    case Rejected(s, msg) => CreateEnd(Effects(st.(settings := s, statusMessage := msg), [msg], []), false)
    case Ready(s) =>
      var request := BuildRequest(s, st.securityGroupIds, env.userData);
      var st' := st.(settings := s, runInstancesInput := Some(request));
      match env.run
      case Failure(e) =>
        CreateEnd(Effects(st'.(statusMessage := Create.RUN_ERROR + e), [Create.RUN_ERROR + e], [Run(request)]), false)
      case Success(id) =>
        CreateEnd(
          Effects(st'.(userInstanceId := id, statusMessage := Create.Created(id), instanceIds := st.instanceIds + [id]),
            [Create.Created(id)], [Run(request), Tag(id, s.tagKey, s.tagValue)]),
          env.tagged)
  }

  /** The ids the inline terminate path replaces the registry with. */
  function TerminateTargets(st: BotState, t: seq<string>): seq<string>
    requires Targets.TokensPaired(t)
  {
    if |t| > 1 then Targets.InstanceFlags(t).ids else [st.userInstanceId]
  }

  /** The inline terminate path: its reply does not depend on the provider's answer. */
  function AuthorisedTerminate(st: BotState, t: seq<string>): Effects
    requires Targets.TokensPaired(t)
  {
    var ids := TerminateTargets(st, t);
    Effects(st.(instanceIds := ids, statusMessage := Terminate.TERMINATING, userInstanceId := ""),
      [Terminate.TERMINATING], [Terminate(ids)])
  }

  /** The newest message asks for a new password. */
  predicate Triggers(recent: seq<string>)
    requires |recent| >= 1
  {
    Contains(recent[0], "!create") || Contains(recent[0], "!terminate")
  }

  /** The newest message is the password and the one before it contains `verb`. */
  predicate Authorises(st: BotState, recent: seq<string>, verb: string)
    requires |recent| >= 1
  {
    recent[0] == st.oneTimePassword && |recent| >= 2 && Contains(recent[1], verb)
  }

  /**
   * The gate's own crash-freedom: enough messages fetched, a buffer length
   * `make` accepts when a password is generated (and the random read's size),
   * and no flag dangling on a path that reads it.
   */
  predicate GateSafe(st: BotState, env: Env) {
    && |env.recent| >= 1
    && (Triggers(env.recent) ==> st.otpLength >= 0 && (env.entropy.Some? ==> |env.entropy.value| == st.otpLength))
    && (!Triggers(env.recent) && env.recent[0] == st.oneTimePassword ==>
        && |env.recent| >= 2
        && var t := Fields(env.recent[1]);
        && (Contains(env.recent[1], "!create") ==> CreateFlags.TokensPaired(t))
        && (Contains(env.recent[1], "!terminate")
            && (Contains(env.recent[1], "!create") ==>
                  AuthorisedCreate(st.(previousMessages := env.recent), t, env).reachesTerminate)
            ==> Targets.TokensPaired(t)))
  }

  /** The default branch of the handler. */
  function Gate(st: BotState, env: Env): Effects
    requires GateSafe(st, env)
  {
    var recent := env.recent;
    var st1 := st.(previousMessages := recent);
    if Triggers(recent) then Effects(NewOtp(st1, env.entropy), [], [])
    else
      var t := if |recent| >= 2 then Fields(recent[1]) else [];
      if Authorises(st, recent, "!create") then
        var c := AuthorisedCreate(st1, t, env);
        if c.reachesTerminate && Contains(recent[1], "!terminate") then Then(c.e, AuthorisedTerminate(c.e.st, t))
        else c.e
      else if Authorises(st, recent, "!terminate") then AuthorisedTerminate(st1, t)
      else Effects(st1, [], [])
  }

  /** The exact commands answered inline. */
  predicate IsCommand(content: string) {
    content == "!status" || content == "!start" || content == "!stop" || content == "!help"
  }

  /** What the handler needs to run without a crash, and the random read's size. */
  predicate Safe(st: BotState, m: Message, env: Env) {
    && (!m.fromSelf && m.content == "!status" ==>
          AllAddressed(env.describe) && ProbesAnswer(env.describe, st.settings.serviceCheckPort))
    && (!m.fromSelf && !IsCommand(m.content) ==> GateSafe(st, env))
  }

  /** One run of `messageCreated`. */
  function Handle(st: BotState, m: Message, env: Env): Effects
    requires Safe(st, m, env)
  {
    if m.fromSelf then Effects(st, [], [])
    else if m.content == "!status" then InlineStatus(st, env)
    else if m.content == "!start" then InlineStart(st, env)
    else if m.content == "!stop" then InlineStop(st, env)
    else if m.content == "!help" then Effects(st, [HelpText(st.settings)], [])
    else Gate(st, env)
  }

  // ---------------------------------------------------------------- the process

  /** main.go's package-level state. */
  class Bot {
    var oneTimePassword: string
    var statusMessage: string
    var instanceIds: seq<string>
    var userInstanceId: string
    var settings: Settings
    var securityGroupIds: seq<string>
    var runInstancesInput: Option<RunRequest>
    var previousMessages: seq<string>
    var otpLength: int

    function State(): BotState
      reads this
    {
      BotState(oneTimePassword, statusMessage, instanceIds, userInstanceId, settings,
        securityGroupIds, runInstancesInput, previousMessages, otpLength)
    }

    /**
     * The state the command-line options leave: the create settings, `-i`
     * and `-o` come from them, every other variable holds its zero value.
     * Nothing in main.go ever assigns the security group list.
     */
    constructor (options: Settings, instanceId: string, length: int)
      ensures State() == BotState("", "", [], instanceId, options.(validSubnet := false), [], None, [], length)
    {
      oneTimePassword := "";
      statusMessage := "";
      instanceIds := [];
      userInstanceId := instanceId;
      settings := options.(validSubnet := false);
      securityGroupIds := [];
      runInstancesInput := None;
      previousMessages := [];
      otpLength := length;
    }

    /** `GenerateOTP(OTPLength)`: `entropy` is what the random read yields. */
    method GenerateOtp(entropy: Option<seq<byte>>) returns (otp: string)
      requires otpLength >= 0 && (entropy.Some? ==> |entropy.value| == otpLength)
      modifies this
      ensures State() == NewOtp(old(State()), entropy)
      ensures otp == if entropy.None? then "" else OtpOf(entropy.value)
    {
      var length := otpLength;
      var buffer := new byte[length];
      if entropy.None? {
        return "";
      }
      var bytes := entropy.value;
      forall k | 0 <= k < length {
        buffer[k] := bytes[k];
      }
      var i := 0;
      while i < length
        modifies buffer
        invariant 0 <= i <= length
        invariant forall k :: 0 <= k < i ==> buffer[k] == OTP_CODES[(bytes[k] as int) % 10]
        invariant forall k :: i <= k < length ==> buffer[k] == bytes[k]
      {
        buffer[i] := OTP_CODES[(buffer[i] as int) % 10];
        i := i + 1;
      }
      otp := seq(length, k requires 0 <= k < length reads buffer => (buffer[k] as int) as char);
      assert otp == OtpOf(bytes) by {
        forall k | 0 <= k < length
          ensures otp[k] == OtpOf(bytes)[k]
        {
          var r := (bytes[k] as int) % 10;
          assert r == 0 || r == 1 || r == 2 || r == 3 || r == 4 || r == 5 || r == 6 || r == 7 || r == 8 || r == 9;
        }
      }
      oneTimePassword := otp;
    }

    /** The tag-filtered discovery of the inline commands, when no id is stored. */
    method Discover(env: Env) returns (calls: seq<Call>)
      modifies this
      ensures calls == Discovery(old(State()))
      ensures State() == old(State()).(userInstanceId := Target(old(State()), env))
    {
      calls := [];
      if userInstanceId == "" {
        calls := [DescribeTagged(instanceIds, settings.tagKey, settings.tagValue)];
        userInstanceId := env.discoveredId;
      }
    }

    method HandleStatus(env: Env) returns (replies: seq<string>, calls: seq<Call>)
      requires AllAddressed(env.describe) && ProbesAnswer(env.describe, settings.serviceCheckPort)
      modifies this
      ensures Effects(State(), replies, calls) == InlineStatus(old(State()), env)
    {
      if userInstanceId == "" && env.discoveredId == "" {
        calls := Discovery(State());
        statusMessage := NO_INSTANCES;
        return [NO_INSTANCES], calls;
      }
      calls := Discover(env);
      instanceIds := instanceIds + [userInstanceId];
      calls := calls + [Describe(instanceIds)];
      statusMessage := LastInstanceReply(env.describe, settings.serviceCheckPort,
        settings.serviceName, settings.servicePort, statusMessage);
      replies := [statusMessage];
    }

    method HandleStart(env: Env) returns (replies: seq<string>, calls: seq<Call>)
      modifies this
      ensures Effects(State(), replies, calls) == InlineStart(old(State()), env)
    {
      calls := Discover(env);
      instanceIds := instanceIds + [userInstanceId];
      calls := calls + [Start(instanceIds)];
      replies := [Start.StartReply(env.started)];
    }

    method HandleStop(env: Env) returns (replies: seq<string>, calls: seq<Call>)
      modifies this
      ensures Effects(State(), replies, calls) == InlineStop(old(State()), env)
    {
      calls := Discover(env);
      instanceIds := instanceIds + [userInstanceId];
      calls := calls + [Stop(instanceIds)];
      if env.stopped {
        replies := [Stop.STOPPING];
      } else {
        statusMessage := INLINE_STOP_ERROR;
        replies := [statusMessage];
      }
    }

    method CreateInline(t: seq<string>, env: Env) returns (replies: seq<string>, calls: seq<Call>, reachesTerminate: bool)
      requires CreateFlags.TokensPaired(t)
      modifies this
      ensures CreateEnd(Effects(State(), replies, calls), reachesTerminate)
           == AuthorisedCreate(old(State()), t, env)
    {
      var r := ResolveFlags(t, FLAG_ARRAY, settings);
      settings := r.s;
      replies, calls, reachesTerminate := [], [], false;
      match r {
        case Silent(_) =>
        case Stored(_) =>
        case Rejected(_, message) =>
          statusMessage := message;
          replies := [statusMessage];
        case Ready(s) =>
          var request := BuildRequest(s, securityGroupIds, env.userData);
          runInstancesInput := Some(request);
          calls := [Run(request)];
          match env.run {
            case Failure(e) =>
              statusMessage := Create.RUN_ERROR + e;
              replies := [statusMessage];
            case Success(id) =>
              userInstanceId := id;
              statusMessage := Create.Created(id);
              instanceIds := instanceIds + [userInstanceId];
              replies := [statusMessage];
              calls := calls + [Tag(userInstanceId, s.tagKey, s.tagValue)];
              reachesTerminate := env.tagged;
          }
      }
    }

    method TerminateInline(t: seq<string>) returns (replies: seq<string>, calls: seq<Call>)
      requires Targets.TokensPaired(t)
      modifies this
      ensures Effects(State(), replies, calls) == AuthorisedTerminate(old(State()), t)
    {
      instanceIds := [];
      if |t| > 1 {
        var c := Targets.ScanInstanceFlags(t);
        instanceIds := c.ids;
      } else {
        instanceIds := instanceIds + [userInstanceId];
        assert instanceIds == TerminateTargets(old(State()), t);
      }
      calls := [Terminate(instanceIds)];
      statusMessage := Terminate.TERMINATING;
      replies := [statusMessage];
      userInstanceId := "";
    }

    method HandleGate(env: Env) returns (replies: seq<string>, calls: seq<Call>)
      requires GateSafe(State(), env)
      modifies this
      ensures Effects(State(), replies, calls) == Gate(old(State()), env)
    {
      var st := State();
      previousMessages := env.recent;
      replies, calls := [], [];
      if Triggers(env.recent) {
        var _ := GenerateOtp(env.entropy);
        return;
      }
      var t := if |env.recent| >= 2 then Fields(env.recent[1]) else [];
      var reachesTerminate := true;
      if Authorises(st, env.recent, "!create") {
        replies, calls, reachesTerminate := CreateInline(t, env);
      }
      if reachesTerminate && Authorises(st, env.recent, "!terminate") {
        var moreReplies, moreCalls := TerminateInline(t);
        replies, calls := replies + moreReplies, calls + moreCalls;
      }
    }

    /** `messageCreated` for one message. */
    method HandleMessage(m: Message, env: Env) returns (replies: seq<string>, calls: seq<Call>)
      requires Safe(State(), m, env)
      modifies this
      ensures Effects(State(), replies, calls) == Handle(old(State()), m, env)
    {
      if m.fromSelf {
        return [], [];
      }
      if m.content == "!status" {
        replies, calls := HandleStatus(env);
      } else if m.content == "!start" {
        replies, calls := HandleStart(env);
      } else if m.content == "!stop" {
        replies, calls := HandleStop(env);
      } else if m.content == "!help" {
        replies, calls := [HelpText(settings)], [];
      } else {
        replies, calls := HandleGate(env);
      }
    }
  }

  /** The nested range loops of the inline !status branch; each instance overwrites the message. */
  method LastInstanceReply(rs: seq<Reservation>, checkPort: string, serviceName: string, servicePort: string, previous: string)
    returns (statusMessage: string)
    requires AllAddressed(rs)
    ensures statusMessage == LastReply(rs, checkPort, serviceName, servicePort, previous)
  {
    statusMessage := previous;
    var r := 0;
    while r < |rs|
      invariant 0 <= r <= |rs|
      invariant AllAddressed(rs[..r])
      invariant statusMessage == LastReply(rs[..r], checkPort, serviceName, servicePort, previous)
    {
      LastReplyStep(rs[..r], rs[r], checkPort, serviceName, servicePort, previous);
      assert rs[..r + 1] == rs[..r] + [rs[r]];
      statusMessage := ReservationReply(rs[r], checkPort, serviceName, servicePort, statusMessage);
      r := r + 1;
    }
    assert rs[..r] == rs;
  }

  /** One more reservation replaces the reply when it holds an instance. */
  lemma LastReplyStep(rs: seq<Reservation>, r: Reservation, checkPort: string, serviceName: string, servicePort: string, previous: string)
    requires AllAddressed(rs) && forall i :: i in r ==> HasAddress(i)
    ensures LastReply(rs + [r], checkPort, serviceName, servicePort, previous)
         == if r == [] then LastReply(rs, checkPort, serviceName, servicePort, previous)
            else Status.Reply(r[|r| - 1], checkPort, serviceName, servicePort)
  {
    FlattenAppend(rs, r);
    var all := Flatten(rs + [r]);
    if r != [] {
      assert all[|all| - 1] == r[|r| - 1];
    } else {
      assert all == Flatten(rs);
    }
  }

  /** The inner range loop over one reservation's instances. */
  method ReservationReply(r: Reservation, checkPort: string, serviceName: string, servicePort: string, previous: string)
    returns (statusMessage: string)
    requires forall i :: i in r ==> HasAddress(i)
    ensures statusMessage == if r == [] then previous else Status.Reply(r[|r| - 1], checkPort, serviceName, servicePort)
  {
    statusMessage := previous;
    var j := 0;
    while j < |r|
      invariant 0 <= j <= |r|
      invariant statusMessage == if j == 0 then previous else Status.Reply(r[j - 1], checkPort, serviceName, servicePort)
    {
      statusMessage := Status.Reply(r[j], checkPort, serviceName, servicePort);
      j := j + 1;
    }
  }
}
