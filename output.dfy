/**
 * The outputs of a deployed stack and, under the logical id of each nested stack, the outputs
 * of that stack, to any depth (brume/output.py). The CloudFormation client is a map from stack
 * id to what `describe_stacks` and `describe_stack_resources` answer for it.
 */
module Output {
  import opened Wrappers
  import opened Strings
  import opened Dicts

  const NestedStackType := "AWS::CloudFormation::Stack"

  /** One entry of `describe_stack_resources`. */
  datatype Resource = Resource(logicalId: string, physicalId: string, resourceType: string)

  /**
   * What the service answers for a stack: its outputs as `OutputKey`/`OutputValue` pairs (none
   * when the description has no `Outputs`) and its resources, or a client error.
   */
  datatype Response =
    | Described(outputs: seq<(string, string)>, resources: seq<Resource>)
    | ClientError(message: string)

  type Client = map<string, Response>

  /** A value of the collected map: an output value, or the map of a nested stack. */
  datatype Value = Text(text: string) | Map(entries: seq<(string, Value)>)

  /**
   * How a walk ends: with the filled map, with exit status 1 after reporting that `stack` does
   * not exist, or with a client error raised to the caller.
   */
  datatype Walked = Walked(outputs: seq<(string, Value)>) | Exit1(stack: string) | Raised(message: string)

  /** The service's answer; a stack id it does not know gives its "does not exist" error. */
  function Describe(client: Client, stack: string): (r: Response)
    ensures stack in client ==> r == client[stack]
    ensures stack !in client ==> r.ClientError? && Contains(r.message, "does not exist")
  {
    if stack in client then client[stack]
    else
      var m := "Stack with id " + stack + " does not exist";
      assert OccursAt(m, "does not exist", |m| - 14);
      ContainsAt(m, "does not exist", |m| - 14);
      ClientError(m)
  }

  /** The error handler of `_stack_walker`. */
  function Failure(stack: string, message: string): (r: Walked)
    ensures r.Exit1? <==> Contains(message, "does not exist")
    ensures r.Exit1? ==> r.stack == stack
    ensures !Contains(message, "does not exist") ==> r == Raised(message)
  {
    if Contains(message, "does not exist") then Exit1(stack) else Raised(message)
  }

  /** The resources of type `AWS::CloudFormation::Stack`, in the order listed. */
  function Substacks(resources: seq<Resource>): (r: seq<Resource>)
    ensures forall s :: s in r <==> s in resources && s.resourceType == NestedStackType
  {
    if resources == [] then []
    else
      (if resources[0].resourceType == NestedStackType then [resources[0]] else [])
      + Substacks(resources[1..])
  }

  /**
   * A ranking of the stack ids: each nested stack of a described stack ranks below it, so that
   * no stack is (indirectly) nested in itself.
   */
  ghost predicate Ranked(client: Client, rank: map<string, nat>) {
    forall s | s in client && client[s].Described? ::
      s in rank &&
      forall r | r in client[s].resources && r.resourceType == NestedStackType ::
        r.physicalId in rank && rank[r.physicalId] < rank[s]
  }

  ghost function RankOf(rank: map<string, nat>, stack: string): nat {
    if stack in rank then rank[stack] else 0
  }

  /** What `_output_collector` leaves in `outputs` after it went through the first pairs. */
  function Collected(outputs: seq<(string, Value)>, pairs: seq<(string, string)>): seq<(string, Value)>
    decreases |pairs|
  {
    if pairs == [] then outputs
    else
      var n := |pairs| - 1;
      Upsert(Collected(outputs, pairs[..n]), pairs[n].0, Text(pairs[n].1))
  }

  /**
   * After collecting, an output key holds the value of its last pair, and every other key holds
   * what it held before.
   */
  lemma {:induction false} CollectedValue(outputs: seq<(string, Value)>, pairs: seq<(string, string)>, key: string)
    ensures ValueOf(Collected(outputs, pairs), key) ==
      match Lookup(pairs, key)
      case Some(v) => Some(Text(v))
      case None => ValueOf(outputs, key)
    decreases |pairs|
  {
    if pairs != [] {
      var n := |pairs| - 1;
      CollectedValue(outputs, pairs[..n], key);
      ValueOfUpsert(Collected(outputs, pairs[..n]), pairs[n].0, Text(pairs[n].1), key);
    }
  }

  /** `_output_collector`: writes each output of the description into `outputs`, in order. */
  method Collect(outputs: seq<(string, Value)>, pairs: seq<(string, string)>) returns (r: seq<(string, Value)>)
    ensures r == Collected(outputs, pairs)
  {
    r := outputs;
    for i := 0 to |pairs|
      invariant r == Collected(outputs, pairs[..i])
    {
      assert pairs[..i + 1][..i] == pairs[..i];
      r := Upsert(r, pairs[i].0, Text(pairs[i].1));
    }
    assert pairs[..|pairs|] == pairs;
  }

  /** The walk of one stack, started on the map `outputs` that its parent gave it. */
  function WalkSpec(client: Client, outputs: seq<(string, Value)>, stack: string, ghost rank: map<string, nat>): Walked
    requires Ranked(client, rank)
    decreases RankOf(rank, stack), 1
  {
    match Describe(client, stack)
    case ClientError(m) => Failure(stack, m)
    case Described(pairs, resources) =>
      WalkChildren(client, Collected(outputs, pairs), stack, Substacks(resources), rank)
  }

  /**
   * The loop over the nested stacks of `parent`: each gets a fresh map under its logical id,
   * which the walk of its physical id fills; the first failure ends the loop.
   */
  function WalkChildren(client: Client, outputs: seq<(string, Value)>, parent: string, subs: seq<Resource>,
                        ghost rank: map<string, nat>): Walked
    requires Ranked(client, rank)
    requires forall s | s in subs :: s.physicalId in rank && parent in rank && rank[s.physicalId] < rank[parent]
    decreases RankOf(rank, parent), 0, |subs|
  {
    if subs == [] then Walked(outputs)
    else
      var n := |subs| - 1;
      match WalkChildren(client, outputs, parent, subs[..n], rank)
      case Walked(current) =>
        (match WalkSpec(client, [], subs[n].physicalId, rank)
         case Walked(child) => Walked(Upsert(current, subs[n].logicalId, Map(child)))
         case failure => failure)
      case failure => failure
  }

  /** A described stack's nested stacks rank below it. */
  lemma SubstacksRanked(client: Client, stack: string, rank: map<string, nat>)
    requires Ranked(client, rank) && stack in client && client[stack].Described?
    ensures forall s | s in Substacks(client[stack].resources) ::
      s.physicalId in rank && stack in rank && rank[s.physicalId] < rank[stack]
  {
  }

  /**
   * `_stack_walker` with `_output_collector`: collects the stack's outputs into `outputs`, then
   * walks each nested stack into a fresh map stored under its logical id.
   */
  method Walk(client: Client, outputs: seq<(string, Value)>, stack: string, ghost rank: map<string, nat>)
    returns (r: Walked)
    requires Ranked(client, rank)
    ensures r == WalkSpec(client, outputs, stack, rank)
    decreases RankOf(rank, stack), 1
  {
    var response := Describe(client, stack);
    if response.ClientError? {
      return Failure(stack, response.message);
    }
    SubstacksRanked(client, stack, rank);
    var current := Collect(outputs, response.outputs);
    r := WalkNested(client, current, stack, Substacks(response.resources), rank);
  }

  /** The `for s in substacks` loop of `_stack_walker`, on the map `outputs` of `parent`. */
  method WalkNested(client: Client, outputs: seq<(string, Value)>, parent: string, substacks: seq<Resource>,
                    ghost rank: map<string, nat>) returns (r: Walked)
    requires Ranked(client, rank)
    requires forall s | s in substacks :: s.physicalId in rank && parent in rank && rank[s.physicalId] < rank[parent]
    ensures r == WalkChildren(client, outputs, parent, substacks, rank)
    decreases RankOf(rank, parent), 0
  {
    var current := outputs;
    for i := 0 to |substacks|
      invariant WalkChildren(client, outputs, parent, substacks[..i], rank) == Walked(current)
    {
      assert substacks[..i + 1][..i] == substacks[..i];
      assert substacks[i] in substacks;
      var s := substacks[i];
      var child := Walk(client, [], s.physicalId, rank);
      if !child.Walked? {
        ChildrenFailed(client, outputs, parent, substacks, rank, i + 1);
        return child;
      }
      current := Upsert(current, s.logicalId, Map(child.outputs));
    }
    assert substacks[..|substacks|] == substacks;
    return Walked(current);
  }

  /** Once a nested stack's walk fails, the loop ends with that failure. */
  lemma {:induction false} ChildrenFailed(client: Client, outputs: seq<(string, Value)>, parent: string,
                                          subs: seq<Resource>, rank: map<string, nat>, k: nat)
    requires Ranked(client, rank)
    requires forall s | s in subs :: s.physicalId in rank && parent in rank && rank[s.physicalId] < rank[parent]
    requires k <= |subs|
    requires !WalkChildren(client, outputs, parent, subs[..k], rank).Walked?
    ensures WalkChildren(client, outputs, parent, subs, rank) == WalkChildren(client, outputs, parent, subs[..k], rank)
    decreases |subs|
  {
    if k < |subs| {
      var n := |subs| - 1;
      assert subs[..n][..k] == subs[..k];
      assert forall s | s in subs[..n] :: s in subs;
      ChildrenFailed(client, outputs, parent, subs[..n], rank, k);
    } else {
      assert subs[..k] == subs;
    }
  }

  /** `stack_outputs`: the walk from an empty map. */
  method StackOutputs(client: Client, stack: string, ghost rank: map<string, nat>) returns (r: Walked)
    requires Ranked(client, rank)
    ensures r == WalkSpec(client, [], stack, rank)
  {
    r := Walk(client, [], stack, rank);
  }

  /** A key that no nested stack takes keeps the value it had before the loop. */
  lemma {:induction false} ChildrenKeep(client: Client, outputs: seq<(string, Value)>, parent: string,
                                        subs: seq<Resource>, rank: map<string, nat>, key: string)
    requires Ranked(client, rank)
    requires forall s | s in subs :: s.physicalId in rank && parent in rank && rank[s.physicalId] < rank[parent]
    requires WalkChildren(client, outputs, parent, subs, rank).Walked?
    requires forall s | s in subs :: s.logicalId != key
    ensures ValueOf(WalkChildren(client, outputs, parent, subs, rank).outputs, key) == ValueOf(outputs, key)
    decreases |subs|
  {
    if subs != [] {
      var n := |subs| - 1;
      assert forall s | s in subs[..n] :: s in subs;
      ChildrenKeep(client, outputs, parent, subs[..n], rank, key);
      var current := WalkChildren(client, outputs, parent, subs[..n], rank).outputs;
      var child := WalkSpec(client, [], subs[n].physicalId, rank).outputs;
      ValueOfUpsert(current, subs[n].logicalId, Map(child), key);
    }
  }

  /**
   * The logical id of the last nested stack that carries it holds the map filled by the walk of
   * that stack's physical id.
   */
  lemma {:induction false} ChildEntry(client: Client, outputs: seq<(string, Value)>, parent: string,
                                      subs: seq<Resource>, rank: map<string, nat>, i: nat)
    requires Ranked(client, rank)
    requires forall s | s in subs :: s.physicalId in rank && parent in rank && rank[s.physicalId] < rank[parent]
    requires WalkChildren(client, outputs, parent, subs, rank).Walked?
    requires i < |subs| && forall j :: i < j < |subs| ==> subs[j].logicalId != subs[i].logicalId
    ensures WalkSpec(client, [], subs[i].physicalId, rank).Walked?
    ensures ValueOf(WalkChildren(client, outputs, parent, subs, rank).outputs, subs[i].logicalId) ==
      Some(Map(WalkSpec(client, [], subs[i].physicalId, rank).outputs))
    decreases |subs|
  {
    var n := |subs| - 1;
    assert forall s | s in subs[..n] :: s in subs;
    var current := WalkChildren(client, outputs, parent, subs[..n], rank).outputs;
    var child := WalkSpec(client, [], subs[n].physicalId, rank).outputs;
    ValueOfUpsert(current, subs[n].logicalId, Map(child), subs[i].logicalId);
    if i < n {
      ChildEntry(client, outputs, parent, subs[..n], rank, i);
    }
  }

  /**
   * A walk that succeeds holds each of the stack's own outputs (the last pair of its key) unless
   * a nested stack has that logical id; any other key keeps the value it had in `outputs`.
   */
  lemma WalkOwnOutputs(client: Client, outputs: seq<(string, Value)>, stack: string, rank: map<string, nat>, key: string)
    requires Ranked(client, rank) && WalkSpec(client, outputs, stack, rank).Walked?
    requires Describe(client, stack).Described?
    requires forall s | s in Substacks(Describe(client, stack).resources) :: s.logicalId != key
    ensures ValueOf(WalkSpec(client, outputs, stack, rank).outputs, key) ==
      match Lookup(Describe(client, stack).outputs, key)
      case Some(v) => Some(Text(v))
      case None => ValueOf(outputs, key)
  {
    var response := Describe(client, stack);
    SubstacksRanked(client, stack, rank);
    var collected := Collected(outputs, response.outputs);
    ChildrenKeep(client, collected, stack, Substacks(response.resources), rank, key);
    CollectedValue(outputs, response.outputs, key);
  }

  /**
   * A walk that succeeds holds, under the logical id of each nested stack (the last one with
   * that id), the map its own walk filled; so a nested stack replaces an output of the same name.
   */
  lemma WalkNestedEntry(client: Client, outputs: seq<(string, Value)>, stack: string, rank: map<string, nat>, i: nat)
    requires Ranked(client, rank) && WalkSpec(client, outputs, stack, rank).Walked?
    requires Describe(client, stack).Described?
    requires var subs := Substacks(Describe(client, stack).resources);
      i < |subs| && forall j :: i < j < |subs| ==> subs[j].logicalId != subs[i].logicalId
    ensures var s := Substacks(Describe(client, stack).resources)[i];
      WalkSpec(client, [], s.physicalId, rank).Walked? &&
      ValueOf(WalkSpec(client, outputs, stack, rank).outputs, s.logicalId) ==
        Some(Map(WalkSpec(client, [], s.physicalId, rank).outputs))
  {
    var response := Describe(client, stack);
    SubstacksRanked(client, stack, rank);
    ChildEntry(client, Collected(outputs, response.outputs), stack, Substacks(response.resources), rank, i);
  }

  /**
   * A walk exits with status 1 only for a stack the service says does not exist, and raises only
   * an error some stack of the walk gave that does not say so.
   */
  lemma {:induction false} WalkFailure(client: Client, outputs: seq<(string, Value)>, stack: string, rank: map<string, nat>)
    requires Ranked(client, rank)
    ensures var r := WalkSpec(client, outputs, stack, rank);
      (r.Exit1? ==> Describe(client, r.stack).ClientError? && Contains(Describe(client, r.stack).message, "does not exist"))
      && (r.Raised? ==> !Contains(r.message, "does not exist") && exists s :: Describe(client, s) == ClientError(r.message))
    decreases RankOf(rank, stack), 1
  {
    var response := Describe(client, stack);
    if response.Described? {
      SubstacksRanked(client, stack, rank);
      ChildrenFailure(client, Collected(outputs, response.outputs), stack, Substacks(response.resources), rank);
    }
  }

  lemma {:induction false} ChildrenFailure(client: Client, outputs: seq<(string, Value)>, parent: string,
                                           subs: seq<Resource>, rank: map<string, nat>)
    requires Ranked(client, rank)
    requires forall s | s in subs :: s.physicalId in rank && parent in rank && rank[s.physicalId] < rank[parent]
    ensures var r := WalkChildren(client, outputs, parent, subs, rank);
      (r.Exit1? ==> Describe(client, r.stack).ClientError? && Contains(Describe(client, r.stack).message, "does not exist"))
      && (r.Raised? ==> !Contains(r.message, "does not exist") && exists s :: Describe(client, s) == ClientError(r.message))
    decreases RankOf(rank, parent), 0, |subs|
  {
    if subs != [] {
      var n := |subs| - 1;
      assert forall s | s in subs[..n] :: s in subs;
      ChildrenFailure(client, outputs, parent, subs[..n], rank);
      WalkFailure(client, [], subs[n].physicalId, rank);
    }
  }
}
