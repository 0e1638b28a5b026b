/**
 * The `!create` flag resolver. create.go's CreateEc2Instance and the inline copy
 * in main.go's message handler walk the command tokens two at a time in two
 * passes: a first scan over the leading "required" flags (-ami, -sn, -sg) and a
 * validation pass over every flag. Each flag value is compared against a flag
 * array by a small inner loop whose shape differs from flag to flag; the
 * resolved values are package-level settings that persist between commands.
 */
module CreateFlags {
  import opened Wrappers
  import opened Ec2

  /** The flag array main.go passes to the comparisons (main.go:400). */
  const FLAG_ARRAY: seq<string> :=
    ["-sn", "-sg", "-ami", "-tk", "-tv", "-u", "-svc", "-sp", "-scp", "-ia", "-in", "-k", "-it"]

  /** The image used when no AMI is stored or given (Ubuntu 20.04). */
  const DEFAULT_AMI: string := "ami-09e67e426f25ce0d7"

  const IAM_CONFLICT: string :=
    "Error, cannot use -in and -ia flags together. Please run the `!create` command again with only one flag specified."

  /** The package-level `User*` settings that `!create` resolves and keeps between commands. */
  datatype Settings = Settings(
    securityGroupId: string,
    amiId: string,
    subnetId: string,
    pathToScript: string,
    tagKey: string,
    tagValue: string,
    keyName: string,
    instanceType: string,
    iamArn: string,
    iamProfileName: string,
    serviceCheckPort: string,
    serviceName: string,
    servicePort: string,
    validSubnet: bool)

  /**
   * No flag dangles: when the tokens after the verb are odd in number, the last
   * one (read as a flag) is none of the switch labels, so `tokens[i+1]` is
   * never read past the end.
   */
  predicate TokensPaired(t: seq<string>) {
    |t| % 2 == 0 && |t| >= 2 ==> t[|t| - 1] !in FLAG_ARRAY
  }

  /** The flags the first scan handles before it stops. */
  predicate IsRequiredFlag(f: string) {
    f == "-ami" || f == "-sn" || f == "-sg"
  }

  /** The settings the validation pass assigns, one per flag. */
  datatype Field =
    | SecurityGroup | TagKey | TagValue | UserData | ServiceName | ServicePort
    | CheckPort | IamArn | IamName | KeyName | InstanceType

  /** The case labels of the validation pass's switch. */
  function FieldOf(flag: string): Option<Field> {
    if flag == "-sg" then Some(SecurityGroup)
    else if flag == "-tk" then Some(TagKey)
    else if flag == "-tv" then Some(TagValue)
    else if flag == "-u" then Some(UserData)
    else if flag == "-svc" then Some(ServiceName)
    else if flag == "-sp" then Some(ServicePort)
    else if flag == "-scp" then Some(CheckPort)
    else if flag == "-ia" then Some(IamArn)
    else if flag == "-in" then Some(IamName)
    else if flag == "-k" then Some(KeyName)
    else if flag == "-it" then Some(InstanceType)
    else None
  }

  /** The name a rejection message gives the field. */
  function Label(f: Field): string {
    match f
    case SecurityGroup => "Security Group ID"
    case TagKey => "Tag Key"
    case TagValue => "Tag Value"
    case UserData => "Path to User Data Script"
    case ServiceName => "Service Name"
    case ServicePort => "Service Port"
    case CheckPort => "Service Check Port"
    case IamArn => "IAM ARN"
    case IamName => "IAM Name"
    case KeyName => "Key Pair Name"
    case InstanceType => "Instance Type"
  }

  function Assign(s: Settings, f: Field, v: string): Settings {
    match f
    case SecurityGroup => s.(securityGroupId := v)
    case TagKey => s.(tagKey := v)
    case TagValue => s.(tagValue := v)
    case UserData => s.(pathToScript := v)
    case ServiceName => s.(serviceName := v)
    case ServicePort => s.(servicePort := v)
    case CheckPort => s.(serviceCheckPort := v)
    case IamArn => s.(iamArn := v)
    case IamName => s.(iamProfileName := v)
    case KeyName => s.(keyName := v)
    case InstanceType => s.(instanceType := v)
  }

  function InvalidMessage(f: Field, v: string): string {
    "Invalid " + Label(f) + ": " + v
  }

  /**
   * The three shapes of the inner loop over the flag array:
   * Every: assign on each mismatch, return with an error on a match (-sg, -tk, ...);
   * FirstOnly: assign and break on a mismatch, return on a match (-sn, -sp);
   * UntilDiffers: assign and break on a mismatch, otherwise keep looking (-ami).
   */
  datatype Scan = Every | FirstOnly | UntilDiffers

  /** What an inner loop did: whether it wrote the value to its setting and whether it refused it. */
  datatype Check = Check(wrote: bool, refused: bool)

  /** The effect of each loop shape, in closed form. */
  function Expected(kind: Scan, v: string, fa: seq<string>): Check {
    match kind
    case Every => Check(|fa| > 0 && fa[0] != v, v in fa)
    case FirstOnly => Check(|fa| > 0 && fa[0] != v, |fa| > 0 && fa[0] == v)
    case UntilDiffers => Check(exists j | 0 <= j < |fa| :: fa[j] != v, false)
  }

  /** `-sp` breaks on its first mismatch; every other validated flag scans the whole array. */
  function KindOf(f: Field): Scan {
    if f == ServicePort then FirstOnly else Every
  }

  /** One inner loop `for j := 0; j < len(flagArray); j++` comparing the value `v`. */
  method ScanValue(kind: Scan, v: string, fa: seq<string>) returns (c: Check)
    ensures c == Expected(kind, v, fa)
  {
    c := Check(false, false);
    var j := 0;
    while j < |fa|
      invariant 0 <= j <= |fa|
      invariant !c.refused
      invariant kind == Every ==> v !in fa[..j] && c.wrote == (j > 0 && fa[0] != v)
      invariant kind == FirstOnly ==> j == 0 && !c.wrote
      invariant kind == UntilDiffers ==> !c.wrote && forall k :: 0 <= k < j ==> fa[k] == v
    {
      if v != fa[j] {
        c := c.(wrote := true);
        if kind != Every {
          break;
        }
      } else if kind != UntilDiffers {
        // the Go code reports the value and returns here
        c := c.(refused := true);
        break;
      }
      j := j + 1;
    }
  }

  /** Whatever the first scan leaves, an empty image id becomes the default one. */
  function WithDefaultAmi(s: Settings): Settings {
    if s.amiId == "" then s.(amiId := DEFAULT_AMI) else s
  }

  /** The result of the first scan: the settings, and whether a `-sn` value was refused. */
  datatype Required = Required(s: Settings, subnetRejected: bool)

  /** What the first scan writes for one required flag and its value, unless `-sn` refuses it. */
  function RequiredStep(flag: string, v: string, fa: seq<string>, s: Settings): Settings {
    if flag == "-ami" then
      if Expected(UntilDiffers, v, fa).wrote then s.(amiId := v) else s
    else if flag == "-sn" then
      if Expected(FirstOnly, v, fa).wrote then s.(subnetId := v, validSubnet := true) else s
    else s
  }

  /** The first scan from the flag at odd position `i` on. */
  function RequiredFrom(t: seq<string>, fa: seq<string>, i: nat, s: Settings): Required
    requires i % 2 == 1 && TokensPaired(t)
    decreases |t| - i
  {
    if i >= |t| || !IsRequiredFlag(t[i]) then Required(s, false)
    else if t[i] == "-sn" && Expected(FirstOnly, t[i + 1], fa).refused then
      Required(s.(validSubnet := false), true)
    else
      RequiredFrom(t, fa, i + 2, WithDefaultAmi(RequiredStep(t[i], t[i + 1], fa, s)))
  }

  datatype Validation = Valid(s: Settings) | Invalid(s: Settings, message: string)

  /** The token after position `i`; a flag with no case in the switch never reads it. */
  function ValueAfter(t: seq<string>, i: nat): string {
    if i + 1 < |t| then t[i + 1] else ""
  }

  /** What the validation pass writes for one flag and its value. */
  function ValidateStep(flag: string, v: string, fa: seq<string>, s: Settings): Settings {
    match FieldOf(flag)
    case None => s
    case Some(f) => if Expected(KindOf(f), v, fa).wrote then Assign(s, f, v) else s
  }

  /** The validation pass refuses the value after the flag at odd position `k`. */
  predicate RefusesAt(t: seq<string>, fa: seq<string>, k: nat) {
    && k % 2 == 1
    && k + 1 < |t|
    && FieldOf(t[k]).Some?
    && Expected(KindOf(FieldOf(t[k]).value), t[k + 1], fa).refused
  }

  /** The validation pass from the flag at odd position `i` on. */
  function ValidateFrom(t: seq<string>, fa: seq<string>, i: nat, s: Settings): Validation
    requires i % 2 == 1 && TokensPaired(t)
    decreases |t| - i
  {
    if i >= |t| then Valid(s)
    else if RefusesAt(t, fa, i) then
      Invalid(ValidateStep(t[i], t[i + 1], fa, s), InvalidMessage(FieldOf(t[i]).value, t[i + 1]))
    else
      ValidateFrom(t, fa, i + 2, ValidateStep(t[i], ValueAfter(t, i), fa, s))
  }

  predicate IamConflict(s: Settings) {
    s.iamArn != "" && s.iamProfileName != ""
  }

  /**
   * How flag resolution ends. Silent: the code returns without a message (a
   * refused `-sn`, missing parameters, no valid subnet). Stored: a bare
   * `!create` with a stored subnet and image. Rejected: an invalid value or
   * both IAM flags. Ready: a RunInstances request is to be built.
   */
  datatype Resolution =
    | Silent(s: Settings)
    | Stored(s: Settings)
    | Rejected(s: Settings, message: string)
    | Ready(s: Settings)

  /** The `if validUserSubnetId` block up to the IAM exclusivity check. */
  function Validate(t: seq<string>, fa: seq<string>, s: Settings): Resolution
    requires TokensPaired(t)
  {
    if !s.validSubnet then Silent(s)
    else match ValidateFrom(t, fa, 1, s)
      case Invalid(s', msg) => Rejected(s', msg)
      case Valid(s') => if IamConflict(s') then Rejected(s', IAM_CONFLICT) else Ready(s')
  }

  /** Flag resolution as both copies do it, up to the stored-settings branch where they differ. */
  function Resolve(t: seq<string>, fa: seq<string>, s: Settings): Resolution
    requires TokensPaired(t)
  {
    if |t| > 1 then
      var r := RequiredFrom(t, fa, 1, s);
      if r.subnetRejected then Silent(r.s) else Validate(t, fa, r.s)
    else if s.subnetId != "" && s.amiId != "" then Stored(s.(validSubnet := true))
    else Silent(s)
  }

  /**
   * create.go's flag resolution: a bare verb with a stored subnet and image
   * goes on to the validation pass, which then finds no flags.
   */
  function PackageResolve(t: seq<string>, fa: seq<string>, s: Settings): Resolution
    requires TokensPaired(t)
  {
    match Resolve(t, fa, s)
    case Stored(s') => Validate(t, fa, s')
    case r => r
  }

  /** The RunInstances input built from resolved settings. */
  function BuildRequest(s: Settings, securityGroupIds: seq<string>, userData: string): RunRequest {
    RunRequest(
      s.amiId, s.instanceType, 1, 1, securityGroupIds, s.subnetId, userData,
      s.iamArn, s.iamProfileName,
      if s.keyName == "" then None else Some(s.keyName))
  }

  /** The first scan: stops at the first flag that is not -ami, -sn or -sg. */
  method ScanRequired(t: seq<string>, fa: seq<string>, s: Settings) returns (r: Required)
    requires TokensPaired(t)
    ensures r == RequiredFrom(t, fa, 1, s)
  {
    var cur := s;
    var i := 1;
    while i < |t|
      invariant i % 2 == 1
      invariant RequiredFrom(t, fa, i, cur) == RequiredFrom(t, fa, 1, s)
      decreases |t| - i
    {
      if !IsRequiredFlag(t[i]) {
        break;
      }
      if t[i] == "-ami" {
        var c := ScanValue(UntilDiffers, t[i + 1], fa);
        if c.wrote {
          cur := cur.(amiId := t[i + 1]);
        }
      } else if t[i] == "-sn" {
        var c := ScanValue(FirstOnly, t[i + 1], fa);
        if c.refused {
          return Required(cur.(validSubnet := false), true);
        }
        if c.wrote {
          cur := cur.(subnetId := t[i + 1], validSubnet := true);
        }
      }
      if cur.amiId == "" {
        cur := cur.(amiId := DEFAULT_AMI);
      }
      i := i + 2;
    }
    r := Required(cur, false);
  }

  /** The validation pass and the IAM exclusivity check. */
  method ValidateFlags(t: seq<string>, fa: seq<string>, s: Settings) returns (r: Resolution)
    requires TokensPaired(t)
    ensures r == Validate(t, fa, s)
  {
    if !s.validSubnet {
      return Silent(s);
    }
    var cur := s;
    var i := 1;
    while i < |t|
      invariant i % 2 == 1
      invariant ValidateFrom(t, fa, i, cur) == ValidateFrom(t, fa, 1, s)
      decreases |t| - i
    {
      var f := FieldOf(t[i]);
      if f.Some? {
        var c := ScanValue(KindOf(f.value), t[i + 1], fa);
        if c.wrote {
          cur := Assign(cur, f.value, t[i + 1]);
        }
        if c.refused {
          return Rejected(cur, InvalidMessage(f.value, t[i + 1]));
        }
      }
      i := i + 2;
    }
    if IamConflict(cur) {
      return Rejected(cur, IAM_CONFLICT);
    }
    r := Ready(cur);
  }

  /** Both passes, with the bare-verb branches in between. */
  method ResolveFlags(t: seq<string>, fa: seq<string>, s: Settings) returns (r: Resolution)
    requires TokensPaired(t)
    ensures r == Resolve(t, fa, s)
  {
    if |t| > 1 {
      var req := ScanRequired(t, fa, s);
      if req.subnetRejected {
        return Silent(req.s);
      }
      r := ValidateFlags(t, fa, req.s);
    } else if s.subnetId != "" && s.amiId != "" {
      r := Stored(s.(validSubnet := true));
    } else {
      r := Silent(s);
    }
  }
}
