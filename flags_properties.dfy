/** What the `!create` flag resolver guarantees, and where it departs from its intent. */
module CreateFlagProperties {
  import opened Wrappers
  import opened Ec2
  import opened CreateFlags

  /**
   * With main.go's flag array: a value given to -sg, -tk, -tv, -u, -svc, -scp,
   * -ia, -in, -k or -it is refused exactly when it is one of the 13 flag
   * tokens; -sp (and -sn) refuse only the literal "-sn"; -ami always takes its value.
   */
  lemma FlagArrayChecks(v: string)
    ensures Expected(Every, v, FLAG_ARRAY).refused <==> v in FLAG_ARRAY
    ensures Expected(FirstOnly, v, FLAG_ARRAY).refused <==> v == "-sn"
    ensures Expected(UntilDiffers, v, FLAG_ARRAY).wrote
  {
    if v == FLAG_ARRAY[0] {
      assert FLAG_ARRAY[1] != v;
    } else {
      assert FLAG_ARRAY[0] != v;
    }
  }

  /** The validation pass's switch has a case for exactly the flag tokens other than -sn and -ami. */
  lemma ValidatedFlags(flag: string)
    ensures FieldOf(flag).Some? <==> flag in FLAG_ARRAY && flag != "-sn" && flag != "-ami"
  {
  }

  /**
   * A refused value already sits in its setting unless it is "-sn": with
   * main.go's flag array every inner loop compares against "-sn" first, so a
   * refused value other than "-sn" is written at j = 0 before the match that
   * refuses it (for "-tk -sg" the tag key becomes "-sg").
   */
  lemma RefusedValueAlreadyWritten(t: seq<string>, i: nat, s: Settings)
    requires TokensPaired(t) && RefusesAt(t, FLAG_ARRAY, i)
    ensures var f := FieldOf(t[i]).value;
      ValidateFrom(t, FLAG_ARRAY, i, s)
      == Invalid(if t[i + 1] == "-sn" then s else Assign(s, f, t[i + 1]), InvalidMessage(f, t[i + 1]))
  {
    FlagArrayChecks(t[i + 1]);
  }

  /** Tokens from the first flag that is not -ami, -sn or -sg on never influence the first scan. */
  lemma {:induction false} RequiredStopsAtOptional(t: seq<string>, fa: seq<string>, i: nat, s: Settings, k: nat)
    requires TokensPaired(t) && i % 2 == 1 && k % 2 == 1
    requires i <= k < |t| && !IsRequiredFlag(t[k])
    ensures TokensPaired(t[..k])
    ensures RequiredFrom(t, fa, i, s) == RequiredFrom(t[..k], fa, i, s)
    decreases k - i
  {
    var u := t[..k];
    if i < k && IsRequiredFlag(t[i]) {
      assert u[i] == t[i] && u[i + 1] == t[i + 1];
      RequiredStopsAtOptional(t, fa, i + 2, WithDefaultAmi(RequiredStep(t[i], t[i + 1], fa, s)), k);
    }
  }

  /** An image id, once set, survives the rest of the first scan. */
  lemma {:induction false} ImageStaysSet(t: seq<string>, fa: seq<string>, i: nat, s: Settings)
    requires TokensPaired(t) && i % 2 == 1 && s.amiId != ""
    ensures RequiredFrom(t, fa, i, s).s.amiId != ""
    decreases |t| - i
  {
    if i < |t| && IsRequiredFlag(t[i]) {
      ImageStaysSet(t, fa, i + 2, WithDefaultAmi(RequiredStep(t[i], t[i + 1], fa, s)));
    }
  }

  /**
   * When the command starts with -ami, -sn or -sg and no -sn value is
   * refused, the first scan leaves a non-empty image id; with no image
   * stored and no -ami flag given it is the default one.
   */
  lemma RequiredSetsImage(t: seq<string>, fa: seq<string>, s: Settings)
    requires TokensPaired(t) && 1 < |t| && IsRequiredFlag(t[1])
    ensures var r := RequiredFrom(t, fa, 1, s);
      !r.subnetRejected ==> r.s.amiId != ""
    ensures var r := RequiredFrom(t, fa, 1, s);
      s.amiId == "" && (forall k :: 1 <= k < |t| && k % 2 == 1 ==> t[k] != "-ami") && !r.subnetRejected
      ==> r.s.amiId == DEFAULT_AMI
  {
    var s1 := WithDefaultAmi(RequiredStep(t[1], t[2], fa, s));
    ImageStaysSet(t, fa, 3, s1);
    if s.amiId == "" && forall k :: 1 <= k < |t| && k % 2 == 1 ==> t[k] != "-ami" {
      DefaultImageStays(t, fa, 3, s1);
    }
  }

  /** Without an -ami flag from `i` on, the default image id survives the rest of the first scan. */
  lemma {:induction false} DefaultImageStays(t: seq<string>, fa: seq<string>, i: nat, s: Settings)
    requires TokensPaired(t) && i % 2 == 1 && s.amiId == DEFAULT_AMI
    requires forall k :: i <= k < |t| && k % 2 == 1 ==> t[k] != "-ami"
    ensures RequiredFrom(t, fa, i, s).s.amiId == DEFAULT_AMI
    decreases |t| - i
  {
    if i < |t| && IsRequiredFlag(t[i]) {
      DefaultImageStays(t, fa, i + 2, WithDefaultAmi(RequiredStep(t[i], t[i + 1], fa, s)));
    }
  }

  /**
   * With main.go's flag array, one step of the first scan at a -sn flag:
   * the value is refused exactly when it is the literal "-sn"; any other value
   * becomes the subnet and marks it valid.
   */
  lemma SubnetStep(t: seq<string>, i: nat, s: Settings)
    requires TokensPaired(t) && i % 2 == 1 && i < |t| && t[i] == "-sn"
    ensures i + 1 < |t|
    ensures t[i + 1] == "-sn" ==>
      RequiredFrom(t, FLAG_ARRAY, i, s) == Required(s.(validSubnet := false), true)
    ensures t[i + 1] != "-sn" ==>
      RequiredFrom(t, FLAG_ARRAY, i, s)
      == RequiredFrom(t, FLAG_ARRAY, i + 2, WithDefaultAmi(s.(subnetId := t[i + 1], validSubnet := true)))
  {
    FlagArrayChecks(t[i + 1]);
  }

  /** With main.go's flag array, a refusal in the first scan comes from a "-sn -sn" pair and leaves the subnet invalid. */
  lemma {:induction false} SubnetRefusal(t: seq<string>, i: nat, s: Settings)
    requires TokensPaired(t) && i % 2 == 1
    ensures var r := RequiredFrom(t, FLAG_ARRAY, i, s);
      r.subnetRejected ==>
        !r.s.validSubnet
        && exists k :: i <= k && k % 2 == 1 && k + 1 < |t| && t[k] == "-sn" && t[k + 1] == "-sn"
    decreases |t| - i
  {
    if i < |t| && IsRequiredFlag(t[i]) {
      if t[i] == "-sn" {
        FlagArrayChecks(t[i + 1]);
      }
      SubnetRefusal(t, i + 2, WithDefaultAmi(RequiredStep(t[i], t[i + 1], FLAG_ARRAY, s)));
    }
  }

  /** `k` is the first position from `i` on whose value the validation pass refuses. */
  predicate FirstRefusal(t: seq<string>, fa: seq<string>, i: nat, k: nat) {
    i <= k && RefusesAt(t, fa, k) && forall j :: i <= j < k ==> !RefusesAt(t, fa, j)
  }

  /** A refusal sits at a flag position that has a value after it. */
  lemma RefusalPosition(t: seq<string>, fa: seq<string>, k: nat)
    ensures RefusesAt(t, fa, k) ==> k % 2 == 1 && k + 1 < |t|
  {
  }

  /**
   * The validation pass fails exactly when some flag from `i` on has a refused
   * value, and its message then names the first such flag and its value.
   */
  lemma ValidationStopsAtFirstRefusal(t: seq<string>, fa: seq<string>, i: nat, s: Settings)
    requires TokensPaired(t) && i % 2 == 1
    ensures ValidateFrom(t, fa, i, s).Invalid? <==> exists k: nat :: i <= k && RefusesAt(t, fa, k)
    ensures ValidateFrom(t, fa, i, s).Invalid? ==>
      exists k: nat :: (FirstRefusal(t, fa, i, k)
        && ValidateFrom(t, fa, i, s).message == InvalidMessage(FieldOf(t[k]).value, t[k + 1]))
  {
    ValidationFailsOnRefusal(t, fa, i, s);
    if ValidateFrom(t, fa, i, s).Invalid? {
      var r: nat :| i <= r && RefusesAt(t, fa, r);
      FirstRefusalExists(t, fa, i, r);
      var k: nat :| FirstRefusal(t, fa, i, k);
      FirstRefusalNamed(t, fa, i, s, k);
    }
  }

  /** The validation pass fails exactly when some flag from `i` on has a refused value. */
  lemma {:induction false} ValidationFailsOnRefusal(t: seq<string>, fa: seq<string>, i: nat, s: Settings)
    requires TokensPaired(t) && i % 2 == 1
    ensures ValidateFrom(t, fa, i, s).Invalid? <==> exists k: nat :: i <= k && RefusesAt(t, fa, k)
    decreases |t| - i
  {
    if i >= |t| {
      forall k: nat | i <= k
        ensures !RefusesAt(t, fa, k)
      {
        RefusalPosition(t, fa, k);
      }
    } else if !RefusesAt(t, fa, i) {
      var s' := ValidateStep(t[i], ValueAfter(t, i), fa, s);
      ValidationFailsOnRefusal(t, fa, i + 2, s');
      RefusalPosition(t, fa, i + 1);
    }
  }

  /** Where some flag from `i` on is refused, a first one is. */
  lemma {:induction false} FirstRefusalExists(t: seq<string>, fa: seq<string>, i: nat, k: nat)
    requires i <= k && RefusesAt(t, fa, k)
    ensures exists m: nat :: FirstRefusal(t, fa, i, m)
    decreases k - i
  {
    if RefusesAt(t, fa, i) {
      assert FirstRefusal(t, fa, i, i);
    } else {
      FirstRefusalExists(t, fa, i + 1, k);
      var m: nat :| FirstRefusal(t, fa, i + 1, m);
      assert FirstRefusal(t, fa, i, m);
    }
  }

  /** When `k` is the first refused flag, the validation pass fails with a message naming it and its value. */
  lemma {:induction false} FirstRefusalNamed(t: seq<string>, fa: seq<string>, i: nat, s: Settings, k: nat)
    requires TokensPaired(t) && i % 2 == 1
    requires FirstRefusal(t, fa, i, k)
    ensures ValidateFrom(t, fa, i, s).Invalid?
    ensures ValidateFrom(t, fa, i, s).message == InvalidMessage(FieldOf(t[k]).value, t[k + 1])
    decreases |t| - i
  {
    RefusalPosition(t, fa, k);
    if !RefusesAt(t, fa, i) {
      RefusalPosition(t, fa, i + 1);
      assert FirstRefusal(t, fa, i + 2, k);
      FirstRefusalNamed(t, fa, i + 2, ValidateStep(t[i], ValueAfter(t, i), fa, s), k);
    }
  }

  /** The validation pass never touches the subnet or its validity. */
  lemma {:induction false} ValidationKeepsSubnet(t: seq<string>, fa: seq<string>, i: nat, s: Settings)
    requires TokensPaired(t) && i % 2 == 1
    ensures ValidateFrom(t, fa, i, s).s.subnetId == s.subnetId
    ensures ValidateFrom(t, fa, i, s).s.validSubnet == s.validSubnet
    decreases |t| - i
  {
    if i < |t| {
      ValidationKeepsSubnet(t, fa, i + 2, ValidateStep(t[i], ValueAfter(t, i), fa, s));
    }
  }

  /**
   * A RunInstances request is built only from settings with a valid subnet and
   * at most one IAM reference; it asks for exactly one instance, takes its
   * security groups from the package list rather than from -sg, and names a
   * key pair exactly when one is set.
   */
  lemma ReadyRequest(t: seq<string>, fa: seq<string>, s: Settings, ready: Settings, groups: seq<string>, userData: string)
    requires TokensPaired(t)
    requires Resolve(t, fa, s) == Ready(ready) || PackageResolve(t, fa, s) == Ready(ready)
    ensures ready.validSubnet && !IamConflict(ready)
    ensures var r := BuildRequest(ready, groups, userData);
      && r.minCount == 1 && r.maxCount == 1
      && r.securityGroupIds == groups
      && r.imageId == ready.amiId && r.subnetId == ready.subnetId
      && (r.keyName.Some? <==> ready.keyName != "")
      && (r.iamArn == "" || r.iamName == "")
  {
    if |t| > 1 {
      ValidationKeepsSubnet(t, fa, 1, RequiredFrom(t, fa, 1, s).s);
    }
  }

  /**
   * With only the verb, creation goes on only when a subnet and an image are
   * both stored; otherwise nothing changes. main.go then stops (Stored) while
   * create.go goes on to the IAM check and the request.
   */
  lemma BareVerb(t: seq<string>, fa: seq<string>, s: Settings)
    requires TokensPaired(t) && |t| <= 1
    ensures !(s.subnetId != "" && s.amiId != "") ==>
      Resolve(t, fa, s) == Silent(s) && PackageResolve(t, fa, s) == Silent(s)
    ensures s.subnetId != "" && s.amiId != "" ==>
      var s' := s.(validSubnet := true);
      && Resolve(t, fa, s) == Stored(s')
      && PackageResolve(t, fa, s) == (if IamConflict(s') then Rejected(s', IAM_CONFLICT) else Ready(s'))
  {
  }

  /** create.go's resolution never stops at the stored-settings branch. */
  lemma PackageNeverStored(t: seq<string>, fa: seq<string>, s: Settings)
    requires TokensPaired(t)
    ensures !PackageResolve(t, fa, s).Stored?
  {
  }
}
