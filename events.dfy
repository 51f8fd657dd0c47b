/**
 * The CloudFormation stack events both `tail` loops read, and what a `tail` session prints of the
 * stream of events it has gone through.
 */
module Events {
  import opened Wrappers
  import opened Strings

  /** One entry of `describe_stack_events`; the timestamp is a number of seconds. */
  datatype Event = Event(
    id: string,
    timestamp: int,
    logicalId: string,
    resourceType: string,
    status: string,
    reason: string)

  /** `reversed(events)`: the service lists events newest first, the loops go oldest first. */
  function Reverse<T>(s: seq<T>): (r: seq<T>)
    ensures |r| == |s| && forall i :: 0 <= i < |s| ==> r[i] == s[|s| - 1 - i]
  {
    if s == [] then [] else Reverse(s[1..]) + [s[0]]
  }

  /** Reversing twice gives the list back. */
  lemma ReverseReverse<T>(s: seq<T>)
    ensures Reverse(Reverse(s)) == s
  {
    var r := Reverse(Reverse(s));
    assert |r| == |s|;
    forall i | 0 <= i < |s| ensures r[i] == s[i] {
      assert r[i] == Reverse(s)[|s| - 1 - i];
    }
  }

  /** `stack_complete(e)`: the event is about the stack itself and its status ends in `COMPLETE`. */
  predicate StackComplete(stackName: string, e: Event) {
    e.logicalId == stackName && EndsWith(e.status, "COMPLETE")
  }

  /** The status of the event contains `FAILED`. */
  predicate IsFailed(e: Event) {
    Contains(e.status, "FAILED")
  }

  predicate HasFailure(events: seq<Event>) {
    exists i :: 0 <= i < |events| && IsFailed(events[i])
  }

  /** The ids of the events, that is the `seen` set once the loops went through them. */
  function Ids(s: seq<Event>): set<string> {
    set i | 0 <= i < |s| :: s[i].id
  }

  lemma IdsSnoc(s: seq<Event>, e: Event)
    ensures Ids(s + [e]) == Ids(s) + {e.id}
  {
    var t := s + [e];
    assert forall i :: 0 <= i < |s| ==> t[i] == s[i];
    assert t[|s|] == e;
  }

  /**
   * The event at position `i` is printed: it is not older than the baseline (when there is one)
   * and no event before it in the stream carries the same id.
   */
  predicate Fresh(s: seq<Event>, i: nat, baseline: Option<int>)
    requires i < |s|
  {
    (baseline.None? || s[i].timestamp >= baseline.value) && s[i].id !in Ids(s[..i])
  }

  /** The events printed from position `start` on, in stream order. */
  function Emitted(s: seq<Event>, start: nat, baseline: Option<int>): seq<Event>
    decreases |s|
  {
    if |s| <= start then []
    else
      var n := |s| - 1;
      Emitted(s[..n], start, baseline) + (if Fresh(s, n, baseline) then [s[n]] else [])
  }

  /** One more event is printed exactly when it is fresh with respect to the events before it. */
  lemma EmittedSnoc(s: seq<Event>, e: Event, start: nat, baseline: Option<int>)
    requires start <= |s|
    ensures Emitted(s + [e], start, baseline) ==
      Emitted(s, start, baseline)
      + (if (baseline.None? || e.timestamp >= baseline.value) && e.id !in Ids(s) then [e] else [])
  {
    var t := s + [e];
    assert t[..|s|] == s;
    assert t[|s|] == e;
  }

  /** Printing goes event by event: what a stream prints, it prints first once extended. */
  lemma {:induction false} EmittedExtends(a: seq<Event>, b: seq<Event>, start: nat, baseline: Option<int>)
    ensures Emitted(a, start, baseline) <= Emitted(a + b, start, baseline)
    decreases |b|
  {
    if b != [] {
      var n := |b| - 1;
      assert (a + b)[..|a + b| - 1] == a + b[..n];
      EmittedExtends(a, b[..n], start, baseline);
    } else {
      assert a + b == a;
    }
  }

  /** With a baseline, nothing older than it is ever printed. */
  lemma {:induction false} EmittedAfterBaseline(s: seq<Event>, start: nat, b: int)
    ensures forall e :: e in Emitted(s, start, Some(b)) ==> e.timestamp >= b
    decreases |s|
  {
    if |s| > start {
      EmittedAfterBaseline(s[..|s| - 1], start, b);
    }
  }

  /**
   * Every printed event comes from position `start` on, and its id does not occur before
   * `start`.
   */
  lemma {:induction false} EmittedFromStart(s: seq<Event>, start: nat, baseline: Option<int>)
    ensures forall e :: e in Emitted(s, start, baseline) ==> e in s[start..] && e.id !in Ids(s[..start])
    decreases |s|
  {
    if |s| > start {
      var n := |s| - 1;
      EmittedFromStart(s[..n], start, baseline);
      assert s[..n][start..] == s[start..n];
      assert s[..n][..start] == s[..start];
      assert s[n] in s[start..];
      forall e | e in s[start..n] ensures e in s[start..] {
        assert s[start..] == s[start..n] + [s[n]];
      }
      if Fresh(s, n, baseline) {
        assert s[..n][..start] == s[..start];
        forall x | x in Ids(s[..start]) ensures x in Ids(s[..n]) {
          var i :| 0 <= i < start && s[..start][i].id == x;
          assert s[..n][i] == s[..start][i];
        }
      }
    }
  }

  /** The same id is never printed twice in a session. */
  lemma {:induction false} EmittedDistinct(s: seq<Event>, start: nat, baseline: Option<int>)
    ensures forall i, j :: 0 <= i < j < |Emitted(s, start, baseline)| ==>
      Emitted(s, start, baseline)[i].id != Emitted(s, start, baseline)[j].id
    decreases |s|
  {
    if |s| > start {
      var n := |s| - 1;
      var init := Emitted(s[..n], start, baseline);
      EmittedDistinct(s[..n], start, baseline);
      var r := Emitted(s, start, baseline);
      if !Fresh(s, n, baseline) {
        assert r == init;
      } else {
        EmittedFromStart(s[..n], start, baseline);
        assert r == init + [s[n]];
        forall i | 0 <= i < |init| ensures init[i].id != s[n].id {
          assert init[i] in init;
          assert init[i] in s[..n][start..];
          var k :| start <= k < n && s[..n][k] == init[i];
          assert s[..n][k].id in Ids(s[..n]);
        }
        forall i, j | 0 <= i < j < |r| ensures r[i].id != r[j].id {
          if j < |init| {
            assert r[i] == init[i] && r[j] == init[j];
          } else {
            assert r[i] == init[i] && r[j] == s[n];
          }
        }
      }
    }
  }

  /** Every fresh event from position `start` on is printed. */
  lemma {:induction false} EmittedComplete(s: seq<Event>, start: nat, baseline: Option<int>, i: nat)
    requires start <= i < |s| && Fresh(s, i, baseline)
    ensures s[i] in Emitted(s, start, baseline)
    decreases |s|
  {
    var n := |s| - 1;
    if i < n {
      assert s[..n][..i] == s[..i] && s[..n][i] == s[i];
      EmittedComplete(s[..n], start, baseline, i);
    }
  }
}
