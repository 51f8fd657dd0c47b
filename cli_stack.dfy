/**
 * The older deployment of a stack (`brumecli/stack.py`): the same requests as `brume/stack.py`,
 * a `tail` that first prints the whole current event list, an `exists` that only ever exits, and
 * a `create_or_update` that tries to create first.
 */
module CliStack {
  import opened Wrappers
  import opened Strings
  import opened Events
  import opened DeployStack

  /** One answer of `describe_stack_events`: a page of events (newest first), or the error. */
  datatype Page = Page(events: seq<Event>, nextToken: Option<string>) | PageError(message: string)

  /** A `get_events()` call: the `describe_stacks` of `exists`, then the events. */
  datatype CliPoll = CliPoll(describe: Describe, page: Page)

  /**
   * `Stack.exists(name)` exits with status 1 on an error that mentions `AlreadyExistsException`;
   * otherwise it returns, `True` when the stack is described (`None` on any other error).
   */
  predicate ExistsExits(d: Describe) {
    d.DescribeError? && Contains(d.message, "AlreadyExistsException")
  }

  datatype Fetched = Fetched(events: seq<Event>) | FetchExit | FetchError(message: string)

  /**
   * The pagination loop of `get_events` stops on a page without `NextToken`; a page with one makes
   * it set an attribute on a dictionary, which raises.
   */
  predicate Readable(p: CliPoll) {
    ExistsExits(p.describe) || p.page.PageError? || p.page.nextToken.None?
  }

  /** `get_events()`: the first page's events, oldest first. */
  function GetEvents(p: CliPoll): (r: Fetched)
    requires Readable(p)
    ensures r.FetchExit? <==> ExistsExits(p.describe)
    ensures r.Fetched? <==> !ExistsExits(p.describe) && p.page.Page?
    ensures r.Fetched? ==> r.events == Reverse(p.page.events)
    ensures r.FetchError? ==> p.page == PageError(r.message)
  {
    if ExistsExits(p.describe) then FetchExit
    else match p.page
      case PageError(message) => FetchError(message)
      case Page(events, _) => Fetched(Reverse(events))
  }

  /** A `get_events()` that does not return events ends `tail` as it says. */
  function FetchOutcome(f: Fetched): (r: Outcome)
    requires !f.Fetched?
    ensures r == Exit1 <==> f.FetchExit?
    ensures f.FetchError? ==> r == Raised(f.message)
  {
    if f.FetchExit? then Exit1 else Raised(f.message)
  }

  /**
   * The `while True` loop of `tail`, given the events already gone through (the first `start`
   * of them were printed in full): what it goes through and how it ends. The events after
   * `start` are printed when their id was not seen before.
   */
  function LoopSpec(stackName: string, start: nat, before: seq<Event>, polls: seq<CliPoll>): (seq<Event>, Outcome)
    requires start <= |before| && NoCrash(stackName, before, polls)
    decreases |polls|
  {
    if polls == [] then (before, Polling)
    else
      var f := GetEvents(polls[0]);
      if !f.Fetched? then (before, FetchOutcome(f))
      else
        var now := before + f.events;
        if StackComplete(stackName, now[|now| - 1]) then
          (now, if HasFailure(Emitted(now, start, None)) then Exit1 else Done)
        else LoopSpec(stackName, start, now, polls[1..])
  }

  /**
   * The loop never reads an unbound `e` (a batch is empty while nothing was gone through yet)
   * and never meets a page with `NextToken`, up to where it ends.
   */
  predicate NoCrash(stackName: string, before: seq<Event>, polls: seq<CliPoll>)
    decreases |polls|
  {
    polls == [] ||
    (Readable(polls[0]) &&
     var f := GetEvents(polls[0]);
     (f.Fetched? ==>
        var now := before + f.events;
        now != [] && (StackComplete(stackName, now[|now| - 1]) || NoCrash(stackName, now, polls[1..]))))
  }

  /**
   * `tail()`: the events gone through, how many of them the first listing printed in full, and
   * how it ends.
   */
  function SessionSpec(stackName: string, polls: seq<CliPoll>): (r: (seq<Event>, nat, Outcome))
    requires polls != [] ==> Readable(polls[0])
    requires polls != [] && GetEvents(polls[0]).Fetched? ==> NoCrash(stackName, GetEvents(polls[0]).events, polls[1..])
    ensures r.1 <= |r.0|
  {
    if polls == [] then ([], 0, Polling)
    else
      var f := GetEvents(polls[0]);
      if !f.Fetched? then ([], 0, FetchOutcome(f))
      else
        var (stream, outcome) := LoopSpec(stackName, |f.events|, f.events, polls[1..]);
        LoopKeepsPrefix(stackName, |f.events|, f.events, polls[1..]);
        (stream, |f.events|, outcome)
  }

  /** The loop only adds events after those already gone through. */
  lemma {:induction false} LoopKeepsPrefix(stackName: string, start: nat, before: seq<Event>, polls: seq<CliPoll>)
    requires start <= |before| && NoCrash(stackName, before, polls)
    ensures |before| <= |LoopSpec(stackName, start, before, polls).0|
    ensures LoopSpec(stackName, start, before, polls).0[..|before|] == before
    decreases |polls|
  {
    if polls != [] && GetEvents(polls[0]).Fetched? {
      var now := before + GetEvents(polls[0]).events;
      if !StackComplete(stackName, now[|now| - 1]) {
        LoopKeepsPrefix(stackName, start, now, polls[1..]);
        assert now[..|before|] == before;
      }
    }
  }

  /**
   * The polling loop returns only on completion, with no failure among the events it printed;
   * it exits with status 1 on completion after a failure, or when `exists` exits.
   */
  lemma {:induction false} LoopCompletion(stackName: string, start: nat, before: seq<Event>, polls: seq<CliPoll>)
    requires start <= |before| && NoCrash(stackName, before, polls)
    ensures var (stream, outcome) := LoopSpec(stackName, start, before, polls);
      outcome == Done ==>
        stream != [] && StackComplete(stackName, stream[|stream| - 1]) && !HasFailure(Emitted(stream, start, None))
    ensures var (stream, outcome) := LoopSpec(stackName, start, before, polls);
      outcome == Exit1 ==>
        (stream != [] && StackComplete(stackName, stream[|stream| - 1]) && HasFailure(Emitted(stream, start, None)))
        || (exists k :: 0 <= k < |polls| && ExistsExits(polls[k].describe))
    decreases |polls|
  {
    if polls != [] && GetEvents(polls[0]).Fetched? {
      var now := before + GetEvents(polls[0]).events;
      if !StackComplete(stackName, now[|now| - 1]) {
        LoopCompletion(stackName, start, now, polls[1..]);
        if LoopSpec(stackName, start, now, polls[1..]).1 == Exit1
           && exists k :: 0 <= k < |polls[1..]| && ExistsExits(polls[1..][k].describe) {
          var k :| 0 <= k < |polls[1..]| && ExistsExits(polls[1..][k].describe);
          assert polls[k + 1] == polls[1..][k];
        }
      }
    }
  }

  /** `brumecli.stack.Stack`. */
  class Stack {
    var stackName: string
    var templateBody: string
    var capabilities: seq<string>
    var parameters: seq<Parameter>
    var tags: seq<Tag>
    var onFailure: string
    var stackConfiguration: StackConfiguration

    /** `Stack(conf)`, with `body` the text of the template file; `conf['tags']` must be there. */
    constructor (conf: Conf, body: string)
      requires conf.tags.Some?
      ensures stackName == conf.stackName && templateBody == conf.templateBody
      ensures capabilities == conf.capabilities.GetOr([])
      ensures parameters == MakeParameters(conf.parameters.GetOr([]))
      ensures tags == MakeTags(conf.tags.value)
      ensures onFailure == conf.onFailure.GetOr("ROLLBACK")
      ensures stackConfiguration == StackConfiguration(conf.stackName, body, parameters, capabilities, tags)
    {
      stackName := conf.stackName;
      templateBody := conf.templateBody;
      capabilities := conf.capabilities.GetOr([]);
      parameters := MakeParameters(conf.parameters.GetOr([]));
      tags := MakeTags(conf.tags.value);
      onFailure := conf.onFailure.GetOr("ROLLBACK");
      stackConfiguration := StackConfiguration(conf.stackName, body, parameters, capabilities, tags);
    }

    /**
     * `tail()`: prints the current events, then polls until the stack is complete, printing the
     * events not seen before. `printed` is what `_log_event` is called with.
     */
    method Tail(polls: seq<CliPoll>) returns (printed: seq<Event>, outcome: Outcome)
      requires polls != [] ==> Readable(polls[0])
      requires polls != [] && GetEvents(polls[0]).Fetched? ==> NoCrash(stackName, GetEvents(polls[0]).events, polls[1..])
      ensures var (stream, start, result) := SessionSpec(stackName, polls);
        printed == stream[..start] + Emitted(stream, start, None) && outcome == result
    {
      printed := [];
      if polls == [] {
        return printed, Polling;
      }
      var initial := GetEvents(polls[0]);
      if !initial.Fetched? {
        return printed, FetchOutcome(initial);
      }
      // Python's loop variable: only read once some event has set it (the precondition).
      var e := Event("", 0, "", "", "", "");
      var seen;
      printed, seen, e := ShowAll(initial.events, e);
      var later;
      later, outcome := Poll(polls[1..], initial.events, seen, e);
      LoopKeepsPrefix(stackName, |initial.events|, initial.events, polls[1..]);
      printed := printed + later;
    }

    /**
     * The `while True` loop of `tail`, after the first listing `initial`: `later` is what it
     * prints.
     */
    method Poll(polls: seq<CliPoll>, initial: seq<Event>, seen0: set<string>, e0: Event)
      returns (later: seq<Event>, outcome: Outcome)
      requires seen0 == Ids(initial) && (initial != [] ==> e0 == initial[|initial| - 1])
      requires NoCrash(stackName, initial, polls)
      ensures var (stream, result) := LoopSpec(stackName, |initial|, initial, polls);
        later == Emitted(stream, |initial|, None) && outcome == result
    {
      var error := false;
      var seen, e := seen0, e0;
      later := [];
      ghost var start := |initial|;
      ghost var processed := initial;
      assert Emitted(processed, start, None) == [];
      var rest := polls;
      while rest != []
        invariant start <= |processed|
        invariant processed != [] ==> e == processed[|processed| - 1]
        invariant NoCrash(stackName, processed, rest)
        invariant seen == Ids(processed)
        invariant later == Emitted(processed, start, None)
        invariant error == HasFailure(later)
        invariant LoopSpec(stackName, start, initial, polls) == LoopSpec(stackName, start, processed, rest)
        decreases |rest|
      {
        var stop, events;
        stop, events, seen, error, e, later := PollOnce(rest, processed, start, seen, error, e, later);
        if stop.Some? {
          return later, stop.value;
        }
        processed := processed + events;
        rest := rest[1..];
      }
      return later, Polling;
    }

    /**
     * One pass of the polling loop over `rest[0]`: fetches the events (`events`, none when the
     * fetch fails), shows the new ones, and stops (`stop`) when the fetch fails or the stack is
     * complete; otherwise the loop goes on with the state returned.
     */
    method PollOnce(rest: seq<CliPoll>, ghost processed: seq<Event>, ghost start: nat, seen0: set<string>,
                    error0: bool, e0: Event, later0: seq<Event>)
      returns (stop: Option<Outcome>, events: seq<Event>, seen: set<string>, error: bool, e: Event, later: seq<Event>)
      requires rest != [] && start <= |processed| && (processed != [] ==> e0 == processed[|processed| - 1])
      requires NoCrash(stackName, processed, rest) && seen0 == Ids(processed)
      requires later0 == Emitted(processed, start, None) && error0 == HasFailure(later0)
      ensures later == Emitted(processed + events, start, None)
      ensures stop.Some? ==> LoopSpec(stackName, start, processed, rest) == (processed + events, stop.value)
      ensures stop.None? ==> processed + events != [] && e == (processed + events)[|processed + events| - 1]
      ensures stop.None? ==> NoCrash(stackName, processed + events, rest[1..])
      ensures stop.None? ==> LoopSpec(stackName, start, processed, rest) == LoopSpec(stackName, start, processed + events, rest[1..])
      ensures stop.None? ==> seen == Ids(processed + events) && error == HasFailure(later)
    {
      seen, error, e, later := seen0, error0, e0, later0;
      var fetched := GetEvents(rest[0]);
      if !fetched.Fetched? {
        assert processed + [] == processed;
        return Some(FetchOutcome(fetched)), [], seen, error, e, later;
      }
      events := fetched.events;
      var batch;
      seen, batch, error, e := ShowNew(events, processed, start, seen, error, e);
      HasFailureConcat(later, batch);
      later := later + batch;
      if StackComplete(stackName, e) {
        return Some(if error then Exit1 else Done), events, seen, error, e, later;
      }
      stop := None;
    }

    /**
     * The `for e in events` of the polling loop: prints (`batch`) the events whose id was not seen
     * before, and raises the failure flag when one of them failed.
     */
    method ShowNew(events: seq<Event>, ghost before: seq<Event>, ghost start: nat, seen0: set<string>,
                   error0: bool, e0: Event)
      returns (seen: set<string>, batch: seq<Event>, error: bool, e: Event)
      requires start <= |before| && seen0 == Ids(before)
      ensures seen == Ids(before + events)
      ensures Emitted(before + events, start, None) == Emitted(before, start, None) + batch
      ensures error == (error0 || HasFailure(batch))
      ensures e == if events == [] then e0 else events[|events| - 1]
    {
      seen, batch, error, e := seen0, [], error0, e0;
      ghost var processed := before;
      var j := 0;
      while j < |events|
        invariant 0 <= j <= |events| && processed == before + events[..j]
        invariant e == if j == 0 then e0 else events[j - 1]
        invariant seen == Ids(processed)
        invariant Emitted(processed, start, None) == Emitted(before, start, None) + batch
        invariant error == (error0 || HasFailure(batch))
      {
        e := events[j];
        EmittedSnoc(processed, e, start, None);
        IdsSnoc(processed, e);
        if e.id !in seen {
          HasFailureSnoc(batch, e);
          ConcatAssoc(Emitted(before, start, None), batch, [e]);
          batch := batch + [e];
          seen := seen + {e.id};
          if IsFailed(e) {
            error := true;
          }
        }
        assert events[..j + 1] == events[..j] + [e];
        processed := processed + [e];
        j := j + 1;
      }
      assert events[..j] == events;
    }

    /** The `for e in initial_events` of `tail`: every event is printed and seen. */
    method ShowAll(events: seq<Event>, e0: Event) returns (printed: seq<Event>, seen: set<string>, e: Event)
      ensures printed == events && seen == Ids(events)
      ensures e == if events == [] then e0 else events[|events| - 1]
    {
      printed, seen, e := [], {}, e0;
      var i := 0;
      while i < |events|
        invariant 0 <= i <= |events|
        invariant printed == events[..i] && seen == Ids(events[..i])
        invariant e == if i == 0 then e0 else events[i - 1]
      {
        e := events[i];
        IdsSnoc(events[..i], e);
        assert events[..i + 1] == events[..i] + [e];
        printed := printed + [e];
        seen := seen + {e.id};
        i := i + 1;
      }
      assert events[..i] == events;
    }
  }

  lemma HasFailureConcat(a: seq<Event>, b: seq<Event>)
    ensures HasFailure(a + b) <==> HasFailure(a) || HasFailure(b)
  {
    if HasFailure(a) {
      var i :| 0 <= i < |a| && IsFailed(a[i]);
      assert (a + b)[i] == a[i];
    }
    if HasFailure(b) {
      var i :| 0 <= i < |b| && IsFailed(b[i]);
      assert (a + b)[|a| + i] == b[i];
    }
  }

  /** The `except ClientError` of `create`: an existing stack exits with 1, other errors are dropped. */
  function CreateFailure(message: string): (r: Outcome)
    ensures r == Exit1 <==> Contains(message, "AlreadyExistsException")
    ensures r != Exit1 ==> r == Done
  {
    if Contains(message, "AlreadyExistsException") then Exit1 else Done
  }

  /**
   * The `except ClientError` of `update`: a missing stack, or nothing to update, exits with 1;
   * other errors are dropped.
   */
  function UpdateFailure(message: string): (r: Outcome)
    ensures r == Exit1 <==> Contains(message, "does not exist") || Contains(message, "No updates are to be performed.")
    ensures r != Exit1 ==> r == Done
  {
    if Contains(message, "does not exist") then Exit1
    else if Contains(message, "No updates are to be performed.") then Exit1
    else Done
  }

  /** The `ClientError` of a request, or else of the `tail` after it. */
  function RequestError(requestError: Option<string>, tail: Outcome): (r: Option<string>)
    ensures r.None? <==> requestError.None? && !tail.Raised?
    ensures requestError.Some? ==> r == requestError
    ensures requestError.None? && tail.Raised? ==> r == Some(tail.message)
  {
    if requestError.Some? then requestError
    else if tail.Raised? then Some(tail.message)
    else None
  }

  /**
   * `create_or_update()`: creation first; a missing stack or nothing to update exits with 1, and
   * any other error of the creation (or its `tail`) falls back to `update()`, which ends as
   * `update` does.
   */
  function CreateThenUpdate(createError: Option<string>, createTail: Outcome, update: Outcome): (r: Outcome)
    ensures createError.None? && !createTail.Raised? ==> r == createTail
    ensures r == update <==>
      (RequestError(createError, createTail).Some? && UpdateFailure(RequestError(createError, createTail).value) != Exit1)
      || (RequestError(createError, createTail).None? && createTail == update)
      || (RequestError(createError, createTail).Some? && update == Exit1)
    ensures RequestError(createError, createTail).Some? ==>
      var m := RequestError(createError, createTail).value;
      r == if Contains(m, "does not exist") || Contains(m, "No updates are to be performed.") then Exit1 else update
  {
    match RequestError(createError, createTail)
    case None => createTail
    case Some(m) => if UpdateFailure(m) == Exit1 then Exit1 else update
  }

  /** `delete()`: any `ClientError` of the request or its `tail` exits with 1. */
  function DeleteResult(requestError: Option<string>, tail: Outcome): (r: Outcome)
    ensures r == Exit1 <==> requestError.Some? || tail.Raised? || tail == Exit1
    ensures !r.Raised?
    ensures r != Exit1 ==> r == tail
  {
    if RequestError(requestError, tail).Some? then Exit1 else tail
  }
}
