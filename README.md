# discord-ec2-manager in Dafny

A model of the control core of discord-ec2-manager. This Discord bot drives EC2 instances from chat commands. The model covers:

- **The one-time-password gate** (main.go). Exact commands `!status`, `!start`, `!stop` and `!help` are answered inline. Any other message makes the bot fetch the newest channel messages. It then does one of three things:
  - issues a new password when the newest message contains `!create` or `!terminate`;
  - runs its inline create path when the newest message is the password and the one before it contains `!create`;
  - runs its inline terminate path under the same rule with `!terminate`.

  The password comes from `GenerateOTP`. It overwrites a buffer of random bytes in place with characters of `"1234567890"`.
- **The `!create` flag resolver**, which create.go and main.go each carry a copy of.
  - A first scan handles the leading `-ami`, `-sn` and `-sg` flags.
  - A validation pass checks every flag's value against the 13 flag tokens.
  - Defaults are applied, and `-ia` and `-in` may not both be set.
  - Then the RunInstances request is built, and the new id is recorded and tagged.
- **Target selection** for start.go, stop.go, status.go and terminate.go. `-i` values are collected into package-level lists that are never reset. Otherwise the stored ids are used.
- **Status reply classification**. The instance state and the outcome of the HTTP health probe select the reply text.

Layout, one module per Go file plus shared ones:

| file | module | models |
|---|---|---|
| wrappers.dfy | Wrappers | Option / Result |
| text.dfy | Text | `strings.Contains` (through a prefix test at each position), `strings.Fields` |
| ec2.dfy | Ec2 | described instances, the RunInstances input, the trace of provider requests |
| flags.dfy, flags_properties.dfy | CreateFlags, CreateFlagProperties | the flag resolver shared by create.go and main.go |
| targets.dfy | Targets | the `-i` collection loop shared by start, stop, status, terminate and main.go |
| create.dfy, status.dfy, start.dfy, stop.dfy, terminate.dfy | Create, Status, Start, Stop, Terminate | one class per Go package, its package-level variables as fields |
| bot.dfy, bot_properties.dfy | Bot, BotProperties | main.go: class `Bot`, whose `HandleMessage` is proved equal to the function `Handle` |

The provider and the channel are parameters.
- Each method takes the provider's answers: the new id or an error, whether a start, stop or tag succeeded, the described instances with their probe outcomes, and the random bytes.
- It returns the replies it sends and `calls`, the provider requests in order. So "no RunInstances request was sent" is a statement about `calls`.

Code paths that crash the Go program are preconditions:
- a flag with no value after it (`CreateFlags.TokensPaired`, `Targets.TokensPaired`);
- fewer fetched messages than the gate indexes (`Bot.GateSafe`);
- a failed probe in main.go's inline `!status`, which dereferences a nil response (`Bot.ProbesAnswer`);
- a running instance without a public address in a status reply, whose address is dereferenced (`Ec2.HasAddress`). main.go renders every described instance (`Ec2.AllAddressed`); status.go renders only the first (`Ec2.FirstAddressed`);
- a negative password length when a password is generated, which `make` refuses (`Bot.GateSafe`).

Two consequences of main.go's starting state are proved:
- main.go never assigns its security group list, so every RunInstances request it sends names no security group (`Bot.Bot.constructor` with `BotProperties.GroupsNeverChange`).
- The stored password is empty until the first one is generated. Until then, an empty newest message under a `!create` message authorises a create (`BotProperties.EmptyPasswordAuthorisesCreate`).

## Model

| member | source | states |
|---|---|---|
| Text.WordLength | discord-ec2-manager/main.go:397 | the measured prefix holds no white space and ends at the end of the text or at a white-space character |
| Text.WordLengthOfWord | discord-ec2-manager/main.go:397 | a word followed by nothing or by white space measures exactly its own length |
| Ec2.FlattenAppend | discord-ec2-manager/main.go:236-237 | the range loops visit one more reservation's instances after all earlier ones |
| Ec2.FlattenAddressed | discord-ec2-manager/main.go:236-245 | when every reservation's running instances have an address, so does every instance the range loops reach |
| Text.Fields | discord-ec2-manager/main.go:397 | every token is a non-empty run without white space |
| Text.FieldsOfWord | discord-ec2-manager/main.go:397 | a word followed by nothing or by white space is split off whole as the first token |
| Text.FieldsOfJoin | discord-ec2-manager/main.go:397 | splitting words joined by single spaces gives the words back |
| CreateFlags.ScanValue | discord-ec2-manager/create/create.go:119-127 | each inner loop over the flag array writes and refuses exactly as its closed form says: assign on every mismatch and refuse on a match; assign and stop at the first mismatch (`-sn`, `-sp`); keep looking until some token differs (`-ami`) |
| CreateFlags.ScanRequired | discord-ec2-manager/create/create.go:72-106 | the first scan equals its definition `RequiredFrom`: it stops at the first flag that is not `-ami`/`-sn`/`-sg` and returns silently on a refused `-sn` |
| CreateFlags.ValidateFlags | discord-ec2-manager/create/create.go:115-248 | the validation pass and the IAM exclusivity check equal `Validate` |
| CreateFlags.ResolveFlags | discord-ec2-manager/main.go:403-445 | both passes, with the bare-verb branches, equal `Resolve` |
| CreateFlagProperties.FlagArrayChecks | discord-ec2-manager/main.go:400 | with the 13-token array, a value is refused exactly when it is a flag token; `-sp` and `-sn` refuse only `"-sn"`; `-ami` always takes its value |
| CreateFlagProperties.ValidatedFlags | discord-ec2-manager/create/create.go:117-240 | the validation switch has a case for a flag if and only if it is one of the 13 flag tokens other than `-sn` and `-ami` |
| CreateFlagProperties.RefusedValueAlreadyWritten | discord-ec2-manager/create/create.go:117-242 | every refused value other than `"-sn"` is already written to its setting when the validation pass fails on it; a refused `"-sn"` leaves the settings as they were; the message names the field and the value |
| CreateFlagProperties.RequiredStopsAtOptional | discord-ec2-manager/create/create.go:73-76 | nothing from the first non-required flag on affects the first scan |
| CreateFlagProperties.ImageStaysSet | discord-ec2-manager/create/create.go:102-104 | a non-empty image id stays non-empty through the first scan |
| CreateFlagProperties.RequiredSetsImage | discord-ec2-manager/create/create.go:79-104 | a command that starts with a required flag leaves a non-empty image id unless `-sn` is refused; with no image stored and no `-ami` flag it is `ami-09e67e426f25ce0d7` |
| CreateFlagProperties.DefaultImageStays | discord-ec2-manager/create/create.go:79-104 | without an `-ami` flag, the default image id survives the rest of the first scan |
| CreateFlagProperties.SubnetStep | discord-ec2-manager/create/create.go:87-99 | `-sn` refuses exactly the literal `"-sn"`, marking the subnet invalid; any other value becomes the subnet and marks it valid |
| CreateFlagProperties.SubnetRefusal | discord-ec2-manager/create/create.go:87-99 | a refusal in the first scan comes from a `-sn -sn` pair and leaves the subnet invalid |
| CreateFlagProperties.ValidationStopsAtFirstRefusal | discord-ec2-manager/create/create.go:116-242 | validation fails if and only if some flag's value is refused, and the message names the first such flag and value |
| CreateFlagProperties.ValidationFailsOnRefusal | discord-ec2-manager/create/create.go:116-242 | the validation pass fails if and only if some flag from the given position on has a refused value |
| CreateFlagProperties.FirstRefusalExists | discord-ec2-manager/create/create.go:116-242 | where some flag's value is refused, there is a first such flag |
| CreateFlagProperties.FirstRefusalNamed | discord-ec2-manager/create/create.go:128-139 | when a flag is the first refused one, the validation pass fails with a message naming that flag's field and its value |
| CreateFlagProperties.ValidationKeepsSubnet | discord-ec2-manager/create/create.go:115-242 | the validation pass never changes the subnet or its validity |
| CreateFlagProperties.ReadyRequest | discord-ec2-manager/create/create.go:244-286 | a request is built only with a valid subnet and at most one IAM reference; one instance, the package security groups, a key pair exactly when one is set |
| CreateFlagProperties.BareVerb | discord-ec2-manager/create/create.go:107-113 | with only the verb, creation goes on only if a subnet and an image are both stored; otherwise nothing changes |
| CreateFlagProperties.PackageNeverStored | discord-ec2-manager/create/create.go:107-115 | create.go's resolution always goes on from the stored-settings branch to validation |
| Create.Creator.constructor | discord-ec2-manager/create/create.go:15-47 | the exported settings and security groups are the importer's; the subnet starts unvalidated, with no ids and no request |
| Create.Creator.CreateEc2Instance | discord-ec2-manager/create/create.go:70-324 | the new settings, reply, request and id list for every resolution and RunInstances outcome; a tag request follows a successful run |
| Targets.ScanInstanceFlags | discord-ec2-manager/start/start.go:37-48 | the `-i` loop yields whether any `-i` was seen and the values collected, in order |
| Targets.CollectedIds | discord-ec2-manager/status/status.go:51-62 | an id is collected if and only if it follows a `-i` at a flag position and is not `"-i"` |
| Targets.SpecifiedIff | discord-ec2-manager/stop/stop.go:36-47 | a target counts as specified if and only if some flag position holds `-i`, even `-i -i` |
| Targets.IdsNeedSpecified | discord-ec2-manager/start/start.go:37-48 | ids are collected only when a target is specified |
| Targets.NoFlagCollected | discord-ec2-manager/terminate/terminate.go:27-37 | the value `"-i"` is never collected |
| Status.RenderNamesInstance | discord-ec2-manager/status/status.go:85-116 | every reply starts with the line naming the instance id |
| Status.RenderTellsHealth | discord-ec2-manager/status/status.go:85-116 | different healths of an instance give different replies |
| Status.BodyShowsState | discord-ec2-manager/status/status.go:85-116 | after the id line, a stopped instance shows its state alone; a running one starts with its address and state |
| Status.BodiesDiffer | discord-ec2-manager/status/status.go:85-116 | what follows the id line differs between any two healths |
| Status.ServiceLinesDiffer | discord-ec2-manager/status/status.go:92-110 | the "cannot be checked", "active" and "inactive" lines and the empty line of an unchecked instance are pairwise different |
| Status.VerdictsDiffer | discord-ec2-manager/status/status.go:98-108 | the three probe verdicts ("cannot be checked", "active", "inactive") are pairwise different |
| Status.StatusChecker.constructor | discord-ec2-manager/status/status.go:13-28 | nothing is specified or collected at start |
| Status.StatusChecker.GetEc2InstanceStatus | discord-ec2-manager/status/status.go:41-121 | empty id list or failed describe give the fetch error; the sticky flag and list grow by this call's `-i` values; the describe targets the collected list once any `-i` was ever seen |
| Status.FirstInstanceReply | discord-ec2-manager/status/status.go:85-120 | the reply is for the first instance of the first non-empty reservation, or "" |
| Start.Starter.constructor | discord-ec2-manager/start/start.go:10-15 | nothing is specified or collected at start |
| Start.Starter.StartEc2Instance | discord-ec2-manager/start/start.go:28-69 | the empty-list error, the sticky target choice, the returned last collected id, the start request and its reply |
| Stop.Stopper.constructor | discord-ec2-manager/stop/stop.go:10-15 | nothing is specified or collected at start |
| Stop.Stopper.StopEc2Instance | discord-ec2-manager/stop/stop.go:27-69 | as for start, and the package `UserInstanceId` becomes the last collected id |
| Terminate.Terminator.constructor | discord-ec2-manager/terminate/terminate.go:10-13 | the package id list starts empty |
| Terminate.Terminator.TerminateEc2Instance | discord-ec2-manager/terminate/terminate.go:26-56 | the never-reset list grows by this call's targets, and the whole list is terminated |
| Terminate.CallTargetsCases | discord-ec2-manager/terminate/terminate.go:27-40 | with only the verb the given id is targeted, even ""; with flags, exactly the `-i` values other than `"-i"`, so none without `-i` |
| Bot.OtpDigits | discord-ec2-manager/main.go:154-171 | the password has one character per random byte, each a decimal digit that gives back the byte modulo 10 |
| Bot.Bot.constructor | discord-ec2-manager/main.go:28-111 | the options give the settings, the stored id and the password length; the password, status message, registry, security groups, request and fetched messages start empty, and the subnet unvalidated |
| Bot.Bot.GenerateOtp | discord-ec2-manager/main.go:154-171 | the buffer rewritten in place spells `OtpOf(bytes)`, which becomes the stored password; a failed read returns "" and changes nothing |
| Bot.Bot.Discover | discord-ec2-manager/main.go:274-291 | with no stored id, a tag-filtered describe is sent and its first id becomes the stored id |
| Bot.Bot.HandleStatus | discord-ec2-manager/main.go:196-272 | inline `!status` equals `InlineStatus` |
| Bot.Bot.HandleStart | discord-ec2-manager/main.go:273-309 | inline `!start` equals `InlineStart` |
| Bot.Bot.HandleStop | discord-ec2-manager/main.go:310-347 | inline `!stop` equals `InlineStop` |
| Bot.Bot.CreateInline | discord-ec2-manager/main.go:394-727 | the inline create path equals `AuthorisedCreate`, including whether control reaches the terminate check |
| Bot.Bot.TerminateInline | discord-ec2-manager/main.go:729-766 | the inline terminate path equals `AuthorisedTerminate` |
| Bot.Bot.HandleGate | discord-ec2-manager/main.go:368-769 | the default branch equals `Gate` |
| Bot.Bot.HandleMessage | discord-ec2-manager/main.go:174-770 | one run of the handler equals `Handle` |
| Bot.LastInstanceReply | discord-ec2-manager/main.go:236-266 | the reply is for the last described instance, or the previous message when none |
| Bot.LastReplyStep | discord-ec2-manager/main.go:236-266 | after one more reservation the reply is replaced by the reply for its last instance when it holds one, and otherwise stays |
| Bot.ReservationReply | discord-ec2-manager/main.go:237-266 | the message after one reservation is the reply for its last instance, or the incoming message when it has none |
| BotProperties.PasswordChangesOnlyOnRequest | discord-ec2-manager/main.go:384-392 | the password changes only when a gate message finds `!create` or `!terminate` in the newest message, and then nothing else happens; an authorised create or terminate keeps it |
| BotProperties.GateKeepsPassword | discord-ec2-manager/main.go:394-766 | the create and terminate paths leave the password as it is |
| BotProperties.RunNeedsPassword | discord-ec2-manager/main.go:394 | RunInstances is sent only when the newest message is exactly the password and the one before contains `!create` |
| BotProperties.TerminateNeedsPassword | discord-ec2-manager/main.go:729 | TerminateInstances is sent only when the newest message is exactly the password and the one before contains `!terminate` |
| BotProperties.BareCreateSendsNothing | discord-ec2-manager/main.go:438-442 | an authorised bare `!create` with stored subnet and image only marks the subnet valid: no request, no reply, no terminate check |
| BotProperties.CreateRequest | discord-ec2-manager/main.go:652-701 | one instance, stored security groups, at most one IAM reference, a key pair exactly when set; on success the id is recorded and appended, otherwise the registry is unchanged |
| BotProperties.GroupsNeverChange | discord-ec2-manager/main.go:652-672 | no handler run changes the security group list, and every RunInstances request carries that list |
| BotProperties.CreateKeepsGroups | discord-ec2-manager/main.go:652-701 | the create path keeps the security group list and puts it in its request |
| BotProperties.EmptyPasswordAuthorisesCreate | discord-ec2-manager/main.go:384-394 | with the password still empty, an empty newest message under a `!create` message (without `!terminate`) runs exactly the create path |
| BotProperties.TerminateReplacesRegistry | discord-ec2-manager/main.go:733-765 | the registry becomes exactly this command's targets in order (the `-i` values, or the stored id for a bare verb), the reply is always success, and the stored id is cleared |
| BotProperties.RepeatedStartDuplicates | discord-ec2-manager/main.go:293-297 | each `!start` appends its target, stored or discovered; once that target is not empty, a second `!start` appends the same id again |
| BotProperties.InlineCommandsAppend | discord-ec2-manager/main.go:226-334 | inline `!status`, `!start` and `!stop` append their target to the registry and send the whole registry |
| BotProperties.InlineAndPackageStatus | discord-ec2-manager/main.go:236-266 | main.go's last-instance reply matches status.go's first-instance reply for one instance; with none, main.go repeats its previous message while status.go answers "" |
| BotProperties.HelpChoice | discord-ec2-manager/main.go:348-367 | the help reply starts with the command list; it is the list alone if and only if no service name is set; with a name, the text with a port differs from the text without one |

## Left out

- Discord transport (session, websocket, sending and fetching messages, shutdown): replies are an output sequence and fetched messages an input.
- Command-line option parsing in `init`: its values are the parameters of `Bot.Bot.constructor`.
- AWS configuration, client construction and the one-line SDK wrappers: their answers are parameters, and their requests are recorded in `calls`.
- The HTTP health probe, reading the user-data file and its Base64 encoding: the probe outcome is carried on each described instance, and the encoded user data is a parameter.
- `crypto/rand`: the random bytes are a parameter, and a failed read is `None`.
- Logging.
- Concurrent handler runs: the handler is registered without `SyncEvents` (main.go:781), so the Discord library may run handlers for several messages at once on the shared package-level state. The model runs one handler at a time to completion.
- The exact `%v` rendering of an instance state: the state is its name as a string.
- The `%!(EXTRA …)` text that the over-supplied `Sprintf` appends to the "cannot be checked" reply: the model uses the format text alone.
- The tag-filtered discovery in the inline commands indexes the first reservation's first instance. The model takes that instance's id as given, so an empty answer (a crash in Go) is not modelled. A failed inline describe dereferences a nil answer, so the inline `!status` takes a describe answer, not an error.
- The `UserTagKey` and `UserTagValue` parameters of status.go are unused there, and so are left out. So are terminate.go's package-level `UserInstanceId`, which the parameter of the same name shadows, and create.go's package-level `UserInstanceId`, which the named result of `CreateEc2Instance` shadows, so that function never writes it.
- The AssociateIamInstanceProfile wrapper is never called and is not modelled.
- CreateFlags.TokensPaired: stronger than the code needs. It excludes every command that ends in a flag token with no value after it. The Go code survives some of these: a dangling `-sn` or `-ami` that the first scan never reaches, and, when the subnet is not valid, any dangling flag that the first scan does not reach, because the validation pass then never runs (create/create.go:115, main.go:447). A dangling `-sn` or `-ami` that the first scan does reach makes the Go code read past the end whatever the subnet state.
- Bot.GateSafe: requires the command to be well paired whenever the create or terminate path reads it, using the same stronger pairing condition.
- The create path's `if result.Instances[0].InstanceId != nil` test always holds once the line before it has dereferenced that id, so the model omits the test.
- main.go's individual `User*` variables and `validUserSubnetId` are grouped as one `Settings` value. create.go's copies are grouped the same way.
