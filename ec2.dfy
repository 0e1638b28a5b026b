/**
 * What the bot exchanges with the compute provider: the requests it sends
 * (recorded as a trace of calls, in order) and the data a describe returns.
 * The provider itself is outside the model; its answers are parameters.
 */
module Ec2 {
  import opened Wrappers
  import opened Text

  /** What an HTTP GET to `http://<public ip>:<check port>` yields. */
  datatype Probe = Unreachable | Responded(status: string)

  /**
   * One described instance. `state` is the instance state's name; `publicIp`
   * is absent when the provider reports no public address; `probe` is what a
   * GET to this instance's health-check port would answer.
   */
  datatype Instance = Instance(id: string, state: string, publicIp: Option<string>, probe: Probe)

  /** A reservation of a DescribeInstances answer: its instances in order. */
  type Reservation = seq<Instance>

  /** The RunInstances input the create path builds. */
  datatype RunRequest = RunRequest(
    imageId: string,
    instanceType: string,
    minCount: int,
    maxCount: int,
    securityGroupIds: seq<string>,
    subnetId: string,
    userData: string,
    iamArn: string,
    iamName: string,
    keyName: Option<string>)

  /** A request sent to the compute provider. */
  datatype Call =
    | DescribeTagged(ids: seq<string>, tagKey: string, tagValue: string)
    | Describe(ids: seq<string>)
    | Run(request: RunRequest)
    | Tag(id: string, key: string, value: string)
    | Start(ids: seq<string>)
    | Stop(ids: seq<string>)
    | Terminate(ids: seq<string>)

  /** The instance state test of the Go code: its rendering contains "running". */
  predicate IsRunning(i: Instance) {
    Contains(i.state, "running")
  }

  /**
   * The status renderers dereference the public address of every running
   * instance they render; one without an address makes the bot panic.
   */
  predicate HasAddress(i: Instance) {
    IsRunning(i) ==> i.publicIp.Some?
  }

  /** Every instance of every reservation can be rendered. */
  predicate AllAddressed(rs: seq<Reservation>) {
    forall r, i :: r in rs && i in r ==> HasAddress(i)
  }

  /** The first instance the nested range loops reach can be rendered. */
  predicate FirstAddressed(rs: seq<Reservation>) {
    Flatten(rs) != [] ==> HasAddress(Flatten(rs)[0])
  }

  /** The instances of all reservations, in the order the nested range loops visit them. */
  function Flatten(rs: seq<Reservation>): seq<Instance> {
    if rs == [] then [] else rs[0] + Flatten(rs[1..])
  }

  lemma FlattenAppend(rs: seq<Reservation>, r: Reservation)
    ensures Flatten(rs + [r]) == Flatten(rs) + r
  {
    if rs != [] {
      assert (rs + [r])[1..] == rs[1..] + [r];
      FlattenAppend(rs[1..], r);
    } else {
      assert [r][1..] == [];
    }
  }

  /** Every instance the nested range loops reach comes from some reservation. */
  lemma FlattenAddressed(rs: seq<Reservation>)
    requires AllAddressed(rs)
    ensures forall i :: i in Flatten(rs) ==> HasAddress(i)
  {
    if rs != [] {
      assert forall r :: r in rs[1..] ==> r in rs;
      FlattenAddressed(rs[1..]);
    }
  }
}
