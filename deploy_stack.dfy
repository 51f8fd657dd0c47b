/**
 * Deployment of one CloudFormation stack (`brume/stack.py`): the request built from the
 * configuration, the choice between create and update, what becomes of a service error, and
 * the `tail` loop that follows the stack's events until the stack is complete.
 *
 * Each call to the service is an input: `describe_stack_events` is a sequence of polls, each a
 * batch of events (newest first) or the message of a `ClientError`.
 */
module DeployStack {
  import opened Wrappers
  import opened Strings
  import opened Events
  import Color

  datatype Tag = Tag(key: string, value: string)
  datatype Parameter = Parameter(parameterKey: string, parameterValue: string)

  /** `_make_tags(d)`: one `{Key, Value}` per item of the dictionary, in its order. */
  function MakeTags(items: seq<(string, string)>): (r: seq<Tag>)
    ensures |r| == |items|
  {
    seq(|items|, i requires 0 <= i < |items| => Tag(items[i].0, items[i].1))
  }

  /** `_make_parameters(d)`: one `{ParameterKey, ParameterValue}` per item, in its order. */
  function MakeParameters(items: seq<(string, string)>): (r: seq<Parameter>)
    ensures |r| == |items|
  {
    seq(|items|, i requires 0 <= i < |items| => Parameter(items[i].0, items[i].1))
  }

  /** The items a list of tags stands for. */
  function TagItems(tags: seq<Tag>): seq<(string, string)> {
    if tags == [] then [] else [(tags[0].key, tags[0].value)] + TagItems(tags[1..])
  }

  /** The items a list of parameters stands for. */
  function ParameterItems(params: seq<Parameter>): seq<(string, string)> {
    if params == [] then [] else [(params[0].parameterKey, params[0].parameterValue)] + ParameterItems(params[1..])
  }

  /** Every item becomes exactly one tag, key and value kept, in order. */
  lemma {:induction false} TagsRoundTrip(items: seq<(string, string)>)
    ensures TagItems(MakeTags(items)) == items
    decreases |items|
  {
    if items != [] {
      assert MakeTags(items)[1..] == MakeTags(items[1..]);
      TagsRoundTrip(items[1..]);
    }
  }

  /** Every item becomes exactly one parameter, key and value kept, in order. */
  lemma {:induction false} ParametersRoundTrip(items: seq<(string, string)>)
    ensures ParameterItems(MakeParameters(items)) == items
    decreases |items|
  {
    if items != [] {
      assert MakeParameters(items)[1..] == MakeParameters(items[1..]);
      ParametersRoundTrip(items[1..]);
    }
  }

  /** The stack's entry of the configuration; an absent optional key is `None`. */
  datatype Conf = Conf(
    stackName: string,
    templateBody: string,
    parameters: Option<seq<(string, string)>>,
    onFailure: Option<string>,
    capabilities: Option<seq<string>>,
    tags: Option<seq<(string, string)>>)

  /** The keyword arguments of `create_stack` / `update_stack`. */
  datatype StackConfiguration = StackConfiguration(
    stackName: string,
    templateBody: string,
    parameters: seq<Parameter>,
    capabilities: seq<string>,
    tags: seq<Tag>)

  /** A poll of `describe_stack_events`: the events, newest first, or the error message. */
  datatype Poll = Batch(events: seq<Event>) | Failure(message: string)

  /**
   * How a call ends: it returns (`Done`), `tail` returns `False` (`Gone`), the process exits with
   * status 1, a `ClientError` propagates, the error message is printed and the call returns,
   * (`Polling`) the loop is still waiting when the polls given run out, or (`Unlisted`) the
   * `KeyError` of `Color.for_status` on a status it has no colour for propagates.
   */
  datatype Outcome =
    | Done | Gone | Exit1 | Raised(message: string) | Reported(message: string) | Polling
    | Unlisted(status: string)

  /** The `except ClientError` of `tail`. */
  function TailError(message: string, catchError: bool): (r: Outcome)
    ensures r == Gone || r == Raised(message)
    ensures r == Gone <==> catchError && Contains(message, "does not exist")
  {
    if Contains(message, "does not exist") && catchError then Gone else Raised(message)
  }

  /** The first poll of a session must not be an empty batch: `event` would be unbound. */
  predicate StartsWithEvent(before: seq<Event>, polls: seq<Poll>) {
    before != [] || polls == [] || polls[0].Failure? || polls[0].events != []
  }

  /**
   * What `tail` goes through, given the events already processed (oldest first): the events it
   * processes, and how it ends. After each batch, completion is tested on the last event
   * processed, printed or not.
   */
  function TailSpec(stackName: string, baseline: int, catchError: bool, before: seq<Event>, polls: seq<Poll>)
    : (seq<Event>, Outcome)
    requires StartsWithEvent(before, polls)
    decreases |polls|
  {
    if polls == [] then (before, Polling)
    else match polls[0]
      case Failure(message) => (before, TailError(message, catchError))
      case Batch(events) =>
        var now := before + Reverse(events);
        if StackComplete(stackName, now[|now| - 1]) then
          (now, if HasFailure(Emitted(now, 0, Some(baseline))) then Exit1 else Done)
        else TailSpec(stackName, baseline, catchError, now, polls[1..])
  }

  /** The events of the batches polled, each batch oldest first. */
  function Stream(polls: seq<Poll>): seq<Event> {
    if polls == [] then []
    else (if polls[0].Batch? then Reverse(polls[0].events) else []) + Stream(polls[1..])
  }

  /** A prefix of the polls that starts with a batch: that batch, oldest first, then the rest. */
  lemma StreamPrefix(polls: seq<Poll>, k: nat)
    requires k < |polls| && polls[0].Batch?
    ensures Stream(polls[..k + 1]) == Reverse(polls[0].events) + Stream(polls[1..][..k])
  {
    assert polls[..k + 1][0] == polls[0] && polls[..k + 1][1..] == polls[1..][..k];
  }

  /** How many polls `tail` reads, given the events already processed. */
  ghost function Consumed(stackName: string, baseline: int, before: seq<Event>, polls: seq<Poll>): (n: nat)
    requires StartsWithEvent(before, polls)
    ensures n <= |polls|
    decreases |polls|
  {
    if polls == [] || polls[0].Failure? then 0
    else
      var now := before + Reverse(polls[0].events);
      if StackComplete(stackName, now[|now| - 1]) then 1
      else 1 + Consumed(stackName, baseline, now, polls[1..])
  }

  lemma {:induction false} TailConsumes(stackName: string, baseline: int, catchError: bool, before: seq<Event>,
                                       polls: seq<Poll>)
    requires StartsWithEvent(before, polls)
    ensures TailSpec(stackName, baseline, catchError, before, polls).0
      == before + Stream(polls[..Consumed(stackName, baseline, before, polls)])
    decreases |polls|
  {
    if polls == [] || polls[0].Failure? {
      assert Stream(polls[..0]) == [];
    } else {
      var now := before + Reverse(polls[0].events);
      if StackComplete(stackName, now[|now| - 1]) {
        StreamPrefix(polls, 0);
        assert Stream(polls[1..][..0]) == [];
      } else {
        var k := Consumed(stackName, baseline, now, polls[1..]);
        TailConsumes(stackName, baseline, catchError, now, polls[1..]);
        StreamPrefix(polls, k);
        ConcatAssoc(before, Reverse(polls[0].events), Stream(polls[1..][..k]));
      }
    }
  }

  /** `tail` processes the batches of a prefix of the polls, in order, each oldest first. */
  lemma TailProcessesPolls(stackName: string, baseline: int, catchError: bool, before: seq<Event>, polls: seq<Poll>)
    requires StartsWithEvent(before, polls)
    ensures exists k :: (0 <= k <= |polls| &&
      TailSpec(stackName, baseline, catchError, before, polls).0 == before + Stream(polls[..k]))
  {
    TailConsumes(stackName, baseline, catchError, before, polls);
  }

  /**
   * A session that ends on completion ended on a batch whose last event (the last one processed)
   * says the stack is complete; it exits with status 1 exactly when an event it printed failed.
   */
  lemma {:induction false} TailCompletion(stackName: string, baseline: int, catchError: bool, before: seq<Event>,
                                         polls: seq<Poll>)
    requires StartsWithEvent(before, polls)
    ensures var (stream, outcome) := TailSpec(stackName, baseline, catchError, before, polls);
      (outcome == Done || outcome == Exit1) ==>
        stream != [] && StackComplete(stackName, stream[|stream| - 1])
        && (outcome == Exit1 <==> HasFailure(Emitted(stream, 0, Some(baseline))))
    decreases |polls|
  {
    if polls != [] && polls[0].Batch? {
      var now := before + Reverse(polls[0].events);
      if !StackComplete(stackName, now[|now| - 1]) {
        TailCompletion(stackName, baseline, catchError, now, polls[1..]);
      }
    }
  }

  /** A session that is cut short by a service error ends as that error says. */
  lemma {:induction false} TailErrorEnds(stackName: string, baseline: int, catchError: bool, before: seq<Event>,
                                        polls: seq<Poll>)
    requires StartsWithEvent(before, polls)
    ensures var outcome := TailSpec(stackName, baseline, catchError, before, polls).1;
      (outcome == Gone ==> catchError) && !outcome.Reported?
      && (outcome.Raised? ==> (exists k :: 0 <= k < |polls| && polls[k] == Failure(outcome.message)))
    decreases |polls|
  {
    if polls != [] && polls[0].Batch? {
      var now := before + Reverse(polls[0].events);
      if !StackComplete(stackName, now[|now| - 1]) {
        TailErrorEnds(stackName, baseline, catchError, now, polls[1..]);
        var outcome := TailSpec(stackName, baseline, catchError, now, polls[1..]).1;
        if outcome.Raised? {
          var k :| 0 <= k < |polls[1..]| && polls[1..][k] == Failure(outcome.message);
          assert polls[k + 1] == Failure(outcome.message);
        }
      }
    }
  }

  /** One batch step of `TailSpec`, seen from the k-th poll. */
  lemma TailSpecBatch(stackName: string, baseline: int, catchError: bool, before: seq<Event>, polls: seq<Poll>, k: nat)
    requires k < |polls| && polls[k].Batch? && StartsWithEvent(before, polls[k..])
    ensures var now := before + Reverse(polls[k].events);
      now != [] && StartsWithEvent(now, polls[k + 1..])
      && TailSpec(stackName, baseline, catchError, before, polls[k..]) ==
        if StackComplete(stackName, now[|now| - 1]) then
          (now, if HasFailure(Emitted(now, 0, Some(baseline))) then Exit1 else Done)
        else TailSpec(stackName, baseline, catchError, now, polls[k + 1..])
  {
    assert polls[k..][0] == polls[k] && polls[k..][1..] == polls[k + 1..];
  }

  lemma HasFailureSnoc(events: seq<Event>, e: Event)
    ensures HasFailure(events + [e]) <==> HasFailure(events) || IsFailed(e)
  {
    var t := events + [e];
    assert t[|events|] == e;
    if HasFailure(events) {
      var i :| 0 <= i < |events| && IsFailed(events[i]);
      assert t[i] == events[i];
    }
    if HasFailure(t) {
      var i :| 0 <= i < |t| && IsFailed(t[i]);
      if i < |events| {
        assert t[i] == events[i];
      }
    }
  }

  /** Every status of the events has a colour, so `_log_event` raises on none of them. */
  predicate Listed(events: seq<Event>) {
    forall i :: 0 <= i < |events| ==> events[i].status in Color.ColorsMap
  }

  /**
   * What `_log_event` gets through of the events it is called with, in order: those before the
   * first whose status has no colour, and that status, on which `Color.for_status` raises.
   */
  function UntilUnlisted(events: seq<Event>): (r: (seq<Event>, Option<string>))
    ensures r.0 <= events && Listed(r.0)
    ensures r.1.None? <==> Listed(events)
    ensures r.1.None? ==> r.0 == events
    ensures r.1.Some? ==> |r.0| < |events| && events[|r.0|].status == r.1.value && r.1.value !in Color.ColorsMap
  {
    if events == [] then ([], None)
    else if events[0].status !in Color.ColorsMap then ([], Some(events[0].status))
    else
      var rest := UntilUnlisted(events[1..]);
      assert events == [events[0]] + events[1..];
      ([events[0]] + rest.0, rest.1)
  }

  /** Printing stops at the first event without a colour, whatever is to be printed after it. */
  lemma UntilUnlistedAt(printed: seq<Event>, e: Event, later: seq<Event>)
    requires Listed(printed) && e.status !in Color.ColorsMap && printed + [e] <= later
    ensures UntilUnlisted(later) == (printed, Some(e.status))
  {
    var r := UntilUnlisted(later);
    assert later[|printed|] == e;
    assert forall i :: 0 <= i < |printed| ==> later[i] == printed[i];
    assert forall i :: 0 <= i < |printed| ==> later[i].status in Color.ColorsMap;
    assert forall i :: 0 <= i < |r.0| ==> later[i].status in Color.ColorsMap by {
      assert forall i :: 0 <= i < |r.0| ==> r.0[i] == later[i];
    }
    assert |r.0| == |printed|;
    assert r.0 == later[..|printed|] == printed;
    assert !Listed(later);
    assert r.1 == Some(e.status);
  }

  /** What the first events of a batch print comes first in what the whole batch prints. */
  lemma EmittedFirst(before: seq<Event>, events: seq<Event>, j: nat, baseline: Option<int>)
    requires j < |events|
    ensures Emitted(before + events[..j + 1], 0, baseline) <= Emitted(before + events, 0, baseline)
  {
    EmittedExtends(before + events[..j + 1], events[j + 1..], 0, baseline);
    assert before + events[..j + 1] + events[j + 1..] == before + events;
  }

  lemma ListedSnoc(printed: seq<Event>, e: Event)
    requires Listed(printed) && e.status in Color.ColorsMap
    ensures Listed(printed + [e])
  {
    assert forall i :: 0 <= i < |printed| ==> (printed + [e])[i] == printed[i];
  }

  /**
   * A `tail` session as it shows: the events `_log_event` prints and how the session ends. A
   * status without a colour ends it with the `KeyError`, which no `except` catches.
   */
  function TailSession(stackName: string, baseline: int, catchError: bool, polls: seq<Poll>): (seq<Event>, Outcome)
    requires StartsWithEvent([], polls)
  {
    var (stream, result) := TailSpec(stackName, baseline, catchError, [], polls);
    var (shown, unlisted) := UntilUnlisted(Emitted(stream, 0, Some(baseline)));
    (shown, if unlisted.Some? then Unlisted(unlisted.value) else result)
  }

  /** A session that prints every event it has gone through without a colour missing ends as `TailSpec` says. */
  lemma SessionEnds(stackName: string, baseline: int, catchError: bool, polls: seq<Poll>, processed: seq<Event>,
                    printed: seq<Event>, result: Outcome)
    requires StartsWithEvent([], polls) && TailSpec(stackName, baseline, catchError, [], polls) == (processed, result)
    requires printed == Emitted(processed, 0, Some(baseline)) && Listed(printed)
    ensures TailSession(stackName, baseline, catchError, polls) == (printed, result)
  {
  }

  /** A session that is to print an event without a colour stops there, with its status. */
  lemma SessionUnlisted(stackName: string, baseline: int, catchError: bool, polls: seq<Poll>, printed: seq<Event>, e: Event)
    requires StartsWithEvent([], polls) && Listed(printed) && e.status !in Color.ColorsMap
    requires printed + [e] <= Emitted(TailSpec(stackName, baseline, catchError, [], polls).0, 0, Some(baseline))
    ensures TailSession(stackName, baseline, catchError, polls) == (printed, Unlisted(e.status))
  {
    UntilUnlistedAt(printed, e, Emitted(TailSpec(stackName, baseline, catchError, [], polls).0, 0, Some(baseline)));
  }

  /**
   * The events printed by the time a batch is gone through come first in what the whole
   * session prints.
   */
  lemma BatchEmittedFirst(stackName: string, baseline: int, catchError: bool, before: seq<Event>, polls: seq<Poll>, k: nat)
    requires k < |polls| && polls[k].Batch? && StartsWithEvent(before, polls[k..])
    ensures Emitted(before + Reverse(polls[k].events), 0, Some(baseline))
      <= Emitted(TailSpec(stackName, baseline, catchError, before, polls[k..]).0, 0, Some(baseline))
  {
    TailSpecBatch(stackName, baseline, catchError, before, polls, k);
    var now := before + Reverse(polls[k].events);
    if !StackComplete(stackName, now[|now| - 1]) {
      TailConsumes(stackName, baseline, catchError, now, polls[k + 1..]);
      var n := Consumed(stackName, baseline, now, polls[k + 1..]);
      EmittedExtends(now, Stream(polls[k + 1..][..n]), 0, Some(baseline));
    }
  }

  /** `brume.stack.Stack`. */
  class Stack {
    var stackName: string
    var templateBody: string
    var parameters: seq<Parameter>
    var onFailure: string
    /** Events older than this (30 seconds before the object was made) are not shown. */
    var updateStartedAt: int
    var stackConfiguration: StackConfiguration

    /** `Stack(conf)`, made at time `now`, with `body` the text of the template file. */
    constructor (conf: Conf, now: int, body: string)
      ensures stackName == conf.stackName && templateBody == conf.templateBody
      ensures parameters == MakeParameters(conf.parameters.GetOr([]))
      ensures onFailure == conf.onFailure.GetOr("ROLLBACK")
      ensures updateStartedAt == now - 30
      ensures stackConfiguration == StackConfiguration(
        conf.stackName, body, MakeParameters(conf.parameters.GetOr([])), conf.capabilities.GetOr([]),
        MakeTags(conf.tags.GetOr([])))
    {
      stackName := conf.stackName;
      templateBody := conf.templateBody;
      parameters := MakeParameters(conf.parameters.GetOr([]));
      onFailure := conf.onFailure.GetOr("ROLLBACK");
      updateStartedAt := now - 30;
      stackConfiguration := StackConfiguration(
        conf.stackName, body, MakeParameters(conf.parameters.GetOr([])), conf.capabilities.GetOr([]),
        MakeTags(conf.tags.GetOr([])));
    }

    /**
     * `tail(catch_error)`: prints each event at most once, oldest first, skipping those older
     * than `updateStartedAt`, until the stack is complete. `printed` is what `_log_event` prints.
     */
    method Tail(polls: seq<Poll>, catchError: bool) returns (printed: seq<Event>, outcome: Outcome)
      requires StartsWithEvent([], polls)
      ensures (printed, outcome) == TailSession(stackName, updateStartedAt, catchError, polls)
    {
      var error := false;
      var seen: set<string> := {};
      printed := [];
      ghost var processed: seq<Event> := [];
      // Python's loop variable: only read once a batch has set it (the precondition).
      var event := Event("", 0, "", "", "", "");
      var k := 0;
      assert polls[0..] == polls;
      while k < |polls|
        invariant 0 <= k <= |polls|
        invariant k == 0 ==> processed == []
        invariant k > 0 ==> processed != [] && event == processed[|processed| - 1]
        invariant StartsWithEvent(processed, polls[k..])
        invariant seen == Ids(processed)
        invariant printed == Emitted(processed, 0, Some(updateStartedAt)) && Listed(printed)
        invariant error == HasFailure(printed)
        invariant TailSpec(stackName, updateStartedAt, catchError, [], polls)
          == TailSpec(stackName, updateStartedAt, catchError, processed, polls[k..])
      {
        match polls[k]
        case Failure(message) =>
          assert polls[k..][0] == polls[k];
          SessionEnds(stackName, updateStartedAt, catchError, polls, processed, printed, TailError(message, catchError));
          return printed, TailError(message, catchError);
        case Batch(batch) =>
          TailSpecBatch(stackName, updateStartedAt, catchError, processed, polls, k);
          var events := Reverse(batch);
          var unlisted;
          seen, printed, error, event, unlisted := ProcessBatch(events, processed, seen, printed, error, event);
          if unlisted.Some? {
            BatchEmittedFirst(stackName, updateStartedAt, catchError, processed, polls, k);
            SessionUnlisted(stackName, updateStartedAt, catchError, polls, printed, event);
            return printed, Unlisted(unlisted.value);
          }
          processed := processed + events;
          if StackComplete(stackName, event) {
            if error {
              SessionEnds(stackName, updateStartedAt, catchError, polls, processed, printed, Exit1);
              return printed, Exit1;
            }
            SessionEnds(stackName, updateStartedAt, catchError, polls, processed, printed, Done);
            return printed, Done;
          }
          k := k + 1;
      }
      SessionEnds(stackName, updateStartedAt, catchError, polls, processed, printed, Polling);
      return printed, Polling;
    }

    /**
     * The `for event in events` of `tail`, over one batch, oldest first. It stops at an event to
     * print whose status has no colour, returning that status.
     */
    method ProcessBatch(events: seq<Event>, ghost before: seq<Event>, seen0: set<string>, printed0: seq<Event>,
                        error0: bool, event0: Event)
      returns (seen: set<string>, printed: seq<Event>, error: bool, event: Event, unlisted: Option<string>)
      requires seen0 == Ids(before) && printed0 == Emitted(before, 0, Some(updateStartedAt)) && Listed(printed0)
      requires error0 == HasFailure(printed0)
      ensures Listed(printed)
      ensures unlisted.None? ==>
        && seen == Ids(before + events) && printed == Emitted(before + events, 0, Some(updateStartedAt))
        && error == HasFailure(printed)
        && event == if events == [] then event0 else events[|events| - 1]
      ensures unlisted.Some? ==>
        && unlisted.value == event.status && event.status !in Color.ColorsMap
        && printed + [event] <= Emitted(before + events, 0, Some(updateStartedAt))
    {
      seen, printed, error, event := seen0, printed0, error0, event0;
      var j := 0;
      ghost var processed := before;
      assert before + events[..0] == before;
      while j < |events|
        invariant 0 <= j <= |events|
        invariant processed == before + events[..j]
        invariant event == if j == 0 then event0 else events[j - 1]
        invariant seen == Ids(processed)
        invariant printed == Emitted(processed, 0, Some(updateStartedAt)) && Listed(printed)
        invariant error == HasFailure(printed)
      {
        event := events[j];
        var stopped;
        seen, printed, error, stopped := LogEvent(event, processed, seen, printed, error);
        assert events[..j + 1] == events[..j] + [event];
        ConcatAssoc(before, events[..j], [event]);
        if stopped {
          EmittedFirst(before, events, j, Some(updateStartedAt));
          return seen, printed, error, event, Some(event.status);
        }
        processed := processed + [event];
        j := j + 1;
      }
      assert events[..j] == events;
      unlisted := None;
    }

    /**
     * One turn of that loop: an event older than the baseline is marked seen; an unseen one
     * raises the flag when it failed and is printed, unless its status has no colour, which
     * stops the loop (`stopped`) before anything of it is printed.
     */
    method LogEvent(event: Event, ghost processed: seq<Event>, seen0: set<string>, printed0: seq<Event>, error0: bool)
      returns (seen: set<string>, printed: seq<Event>, error: bool, stopped: bool)
      requires seen0 == Ids(processed) && printed0 == Emitted(processed, 0, Some(updateStartedAt)) && Listed(printed0)
      requires error0 == HasFailure(printed0)
      ensures Listed(printed)
      ensures !stopped ==>
        && seen == Ids(processed + [event]) && printed == Emitted(processed + [event], 0, Some(updateStartedAt))
        && error == HasFailure(printed)
      ensures stopped ==>
        event.status !in Color.ColorsMap && printed + [event] == Emitted(processed + [event], 0, Some(updateStartedAt))
    {
      seen, printed, error, stopped := seen0, printed0, error0, false;
      EmittedSnoc(processed, event, 0, Some(updateStartedAt));
      IdsSnoc(processed, event);
      if event.timestamp < updateStartedAt {
        seen := seen + {event.id};
      }
      if event.id !in seen {
        HasFailureSnoc(printed, event);
        if IsFailed(event) {
          error := true;
        }
        if event.status !in Color.ColorsMap {
          // `_log_event` raises before printing anything of this event.
          return seen, printed, error, true;
        }
        ListedSnoc(printed, event);
        printed := printed + [event];
        seen := seen + {event.id};
      }
    }
  }

  /** What `describe_stacks` answered `exists`: the stack, or a `ClientError` message. */
  datatype Describe = Described | DescribeError(message: string)

  /**
   * `Stack.exists(name)`: `True` when the stack is described, `False` on a `does not exist`
   * error, and `None` (falsy) on any other error.
   */
  function Exists(d: Describe): (r: Option<bool>)
    ensures r == Some(true) <==> d.Described?
    ensures r == Some(false) <==> d.DescribeError? && Contains(d.message, "does not exist")
  {
    match d
    case Described => Some(true)
    case DescribeError(message) => if Contains(message, "does not exist") then Some(false) else None
  }

  datatype Action = Create | Update

  /** `create_or_update`: update when `exists` is truthy, create otherwise. */
  function CreateOrUpdate(d: Describe): (r: Action)
    ensures r == Update <==> d.Described?
  {
    if Exists(d) == Some(true) then Update else Create
  }

  /** The `except ClientError` of `create`: an existing stack exits with 1, anything else is printed. */
  function CreateError(message: string): (r: Outcome)
    ensures r == Exit1 <==> Contains(message, "AlreadyExistsException")
    ensures r != Exit1 ==> r == Reported(message)
  {
    if Contains(message, "AlreadyExistsException") then Exit1 else Reported(message)
  }

  /**
   * The `except ClientError` of `update`: a missing stack, or nothing to update, exits with 1;
   * anything else is printed.
   */
  function UpdateError(message: string): (r: Outcome)
    ensures r == Exit1 <==> Contains(message, "does not exist") || Contains(message, "No updates are to be performed.")
    ensures r != Exit1 ==> r == Reported(message)
  {
    if Contains(message, "does not exist") then Exit1
    else if Contains(message, "No updates are to be performed.") then Exit1
    else Reported(message)
  }

  /**
   * `create()` / `update()`: the request's error, if any, else how the `tail` that follows it
   * ended, a `ClientError` from it handled like the request's own.
   */
  function Deploy(action: Action, requestError: Option<string>, tail: Outcome): (r: Outcome)
    ensures requestError.None? && !tail.Raised? ==> r == tail
    ensures requestError.Some? ==>
      r == if action == Create then CreateError(requestError.value) else UpdateError(requestError.value)
    ensures requestError.None? && tail.Raised? ==>
      r == if action == Create then CreateError(tail.message) else UpdateError(tail.message)
    ensures !r.Raised?
  {
    var handle := (m: string) => if action == Create then CreateError(m) else UpdateError(m);
    match requestError
    case Some(m) => handle(m)
    case None => if tail.Raised? then handle(tail.message) else tail
  }

  /**
   * `delete()`: when the stack exists, an error of `delete_stack` (called outside any `try`)
   * propagates; otherwise the `tail(catch_error=True)` that follows decides, and a stack that
   * vanished meanwhile counts as deleted. A stack that does not exist exits with 1.
   */
  function Delete(d: Describe, requestError: Option<string>, tail: Outcome): (r: Outcome)
    ensures d.Described? && requestError.Some? ==> r == Raised(requestError.value)
    ensures d.Described? && requestError.None? ==> (r == if tail == Gone then Done else tail)
    ensures !d.Described? ==> r == Exit1
  {
    if Exists(d) == Some(true) then
      match requestError
      case Some(m) => Raised(m)
      case None => if tail == Gone then Done else tail
    else Exit1
  }
}
