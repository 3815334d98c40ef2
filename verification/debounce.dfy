/**
 * The trailing-edge debounce of the search input, on a logical clock in
 * milliseconds: each change of the text cancels the pending timer and arms a
 * new one 500 ms ahead; a timer whose deadline has passed fires once and
 * commits the text it was armed with.
 */
module Debounce {
  import opened Wrappers

  const Window := 500

  datatype Timer = NoTimer | Armed(value: string, deadline: int)

  /** The search input's text and the one timer its effect keeps. */
  datatype Debouncer = Debouncer(term: string, timer: Timer)

  /** A pending commit is always for the text currently in the input. */
  predicate Consistent(d: Debouncer) {
    d.timer.Armed? ==> d.timer.value == d.term
  }

  /**
   * An input event. Setting the same text again re-renders nothing, so the
   * effect does not run and the timer is left as it is.
   */
  function OnChange(d: Debouncer, value: string, now: int): (d': Debouncer)
    ensures d'.term == value
    ensures Consistent(d) ==> Consistent(d')
  {
    if value == d.term then d else Debouncer(value, Armed(value, now + Window))
  }

  /** The text committed if the clock reads `now`: that of an armed timer whose deadline has passed. */
  function Fired(d: Debouncer, now: int): (v: Option<string>)
    ensures v.Some? ==> d.timer.Armed? && v.value == d.timer.value && d.timer.deadline <= now
  {
    if d.timer.Armed? && d.timer.deadline <= now then Some(d.timer.value) else None
  }

  /** The state once the clock reads `now`: a timer that fired is gone, anything else stays. */
  function OnTick(d: Debouncer, now: int): (d': Debouncer)
    ensures d'.term == d.term
    ensures Consistent(d) ==> Consistent(d')
    ensures Fired(d', now).None?
  {
    if Fired(d, now).Some? then Debouncer(d.term, NoTimer) else d
  }

  datatype Event = Change(value: string, at: int) | Tick(at: int)

  /** One event's effect on the input and its timer. */
  function Step(d: Debouncer, e: Event): (d': Debouncer)
    ensures d'.term == (if e.Change? then e.value else d.term)
    ensures Consistent(d) ==> Consistent(d')
  {
    match e
    case Change(value, at) => OnChange(d, value, at)
    case Tick(at) => OnTick(d, at)
  }

  /** What one event commits. */
  function Commit(d: Debouncer, e: Event): (c: seq<string>)
    ensures |c| <= 1
    ensures c != [] ==> e.Tick? && d.timer.Armed? && d.timer.deadline <= e.at && c == [d.timer.value]
  {
    match e
    case Change(_, _) => []
    case Tick(at) => if Fired(d, at).Some? then [Fired(d, at).value] else []
  }

  /** The final state and the commits, in order, of a sequence of events. */
  datatype Trace = Trace(final: Debouncer, commits: seq<string>)

  function Run(d: Debouncer, events: seq<Event>): (t: Trace)
    decreases |events|
  {
    if events == [] then Trace(d, [])
    else
      var rest := Run(Step(d, events[0]), events[1..]);
      Trace(rest.final, Commit(d, events[0]) + rest.commits)
  }

  /** Running two event sequences one after the other. */
  lemma {:induction false} RunAppend(d: Debouncer, a: seq<Event>, b: seq<Event>)
    ensures Run(d, a + b).final == Run(Run(d, a).final, b).final
    ensures Run(d, a + b).commits == Run(d, a).commits + Run(Run(d, a).final, b).commits
    decreases |a|
  {
    if a == [] {
      assert a + b == b;
    } else {
      var next, c := Step(d, a[0]), Commit(d, a[0]);
      assert (a + b)[0] == a[0] && (a + b)[1..] == a[1..] + b;
      RunAppend(next, a[1..], b);
      var whole, prefix := Run(next, a[1..] + b), Run(next, a[1..]);
      assert Run(d, a + b) == Trace(whole.final, c + whole.commits);
      assert Run(d, a) == Trace(prefix.final, c + prefix.commits);
      assert c + (prefix.commits + Run(prefix.final, b).commits)
          == (c + prefix.commits) + Run(prefix.final, b).commits;
    }
  }

  /**
   * The text in the input and the time it last changed, once the events are
   * over, starting from text `term` last changed at `lastAt`.
   */
  function LastChange(term: string, lastAt: int, events: seq<Event>): (string, int)
    decreases |events|
  {
    if events == [] then (term, lastAt)
    else match events[0]
      case Change(v, at) =>
        if v == term then LastChange(term, lastAt, events[1..]) else LastChange(v, at, events[1..])
      case Tick(_) => LastChange(term, lastAt, events[1..])
  }

  /** A burst: every tick comes less than 500 ms after the latest change of the text. */
  ghost predicate Quiet(term: string, lastAt: int, events: seq<Event>)
    decreases |events|
  {
    events == [] ||
    match events[0]
    case Change(v, at) =>
      if v == term then Quiet(term, lastAt, events[1..]) else Quiet(v, at, events[1..])
    case Tick(at) => at < lastAt + Window && Quiet(term, lastAt, events[1..])
  }

  /** During a burst nothing is committed, and the timer stays armed 500 ms after the latest change. */
  lemma {:induction false} BurstKeepsArmed(d: Debouncer, lastAt: int, events: seq<Event>)
    requires d.timer == Armed(d.term, lastAt + Window)
    requires Quiet(d.term, lastAt, events)
    ensures var (v, at) := LastChange(d.term, lastAt, events);
            Run(d, events) == Trace(Debouncer(v, Armed(v, at + Window)), [])
    decreases |events|
  {
    if events != [] {
      match events[0]
      case Change(v, at) =>
        if v == d.term {
          BurstKeepsArmed(d, lastAt, events[1..]);
        } else {
          BurstKeepsArmed(Debouncer(v, Armed(v, at + Window)), at, events[1..]);
        }
      case Tick(at) =>
        BurstKeepsArmed(d, lastAt, events[1..]);
    }
  }

  /**
   * A burst of edits that starts with a change of the text, then a pause:
   * nothing is committed during the burst, and the first tick 500 ms or more
   * after the latest change commits exactly the latest text, once.
   */
  lemma BurstThenPause(d: Debouncer, events: seq<Event>, now: int)
    requires events != [] && events[0].Change? && events[0].value != d.term
    requires Quiet(d.term, events[0].at, events)
    ensures Run(d, events).commits == []
    ensures var (v, at) := LastChange(d.term, events[0].at, events);
            && Run(d, events + [Tick(now)]).commits == (if at + Window <= now then [v] else [])
            && (at + Window <= now ==> Run(d, events + [Tick(now)]).final == Debouncer(v, NoTimer))
  {
    var first := events[0];
    var armed := Debouncer(first.value, Armed(first.value, first.at + Window));
    assert Step(d, first) == armed;
    BurstKeepsArmed(armed, first.at, events[1..]);
    RunAppend(d, events, [Tick(now)]);
  }

  /** With no timer pending, ticks alone commit nothing. */
  lemma {:induction false} IdleTicksCommitNothing(d: Debouncer, events: seq<Event>)
    requires d.timer == NoTimer
    requires forall i :: 0 <= i < |events| ==> events[i].Tick?
    ensures Run(d, events) == Trace(d, [])
    decreases |events|
  {
    if events != [] {
      IdleTicksCommitNothing(d, events[1..]);
    }
  }

  /** Typing "s", "sa", "salmon" within 200 ms, then pausing: one commit, for "salmon", at 700 ms and not before. */
  lemma TypingScenario()
    ensures var typing := [Change("s", 0), Change("sa", 100), Change("salmon", 200)];
            && Run(Debouncer("", NoTimer), typing + [Tick(699)]).commits == []
            && Run(Debouncer("", NoTimer), typing + [Tick(700)]).commits == ["salmon"]
  {
    var d := Debouncer("", NoTimer);
    var typing := [Change("s", 0), Change("sa", 100), Change("salmon", 200)];
    assert LastChange(d.term, 0, typing) == ("salmon", 200);
    BurstThenPause(d, typing, 699);
    BurstThenPause(d, typing, 700);
  }
}
