/**
 * The playback state machine.  A player holds two flags and a pending-timer
 * handle; `pause`, `resume` and `stop` are guarded transitions on them, and
 * `play` replays a recording to a terminal, sleeping between events.
 *
 * Time is not modelled: every sleep is recorded as a `Wait` value, and the
 * control calls (`pause`, `resume`, `stop`) that other code makes while a
 * sleep is pending are given as a schedule, one list of calls per sleep.
 * JavaScript runs one callback at a time, so such calls can only happen while
 * `play` is suspended in a sleep.
 */
module Player {
  import opened Wrappers
  import opened Json
  import opened Cast
  import opened Errors
  import opened JsString

  /** What the terminal receives first: ECMA-48 ED with parameter 2 (erase the
      whole display, section 8.3.39) followed by CUP with no parameters (cursor
      to the first line and column, section 8.3.21). */
  const ClearScreen: string := "\U{1B}[2J\U{1B}[H"

  /** One `setTimeout` the player started: a 100 ms poll while paused, or the
      wait between two events. */
  datatype Wait = Poll | Gap(ms: real)

  /** The calls other code can make on the player. */
  datatype Control = Pause | Resume | Stop

  /** How a `play` call ends.  `Suspended` is a call whose promise never
      settles: either `stop` cleared the timer of the sleep it was awaiting, or
      it polls forever while paused because nobody resumes it. */
  datatype Outcome = Finished | Failed(error: AsciinemaError) | Suspended

  /** Whether the loop of `play` goes on after one event. */
  datatype StepEnd = Continue | Halt(outcome: Outcome)

  /** The player's observable state: `isPlaying`, `isPaused`, and whether
      `currentTimeout` holds a timer handle. */
  datatype Flags = Flags(playing: bool, paused: bool, timer: bool)

  /** The state every reachable player is in: a player that is not playing is
      neither paused nor holding a timer. */
  predicate Settled(f: Flags) {
    !f.playing ==> !f.paused && !f.timer
  }

  /** One control call: `pause` only while playing and not paused, `resume`
      only while playing and paused, `stop` always, clearing the timer. */
  function Apply(f: Flags, c: Control): (g: Flags)
    ensures c == Pause ==> g.paused == (f.paused || f.playing) && g.playing == f.playing && g.timer == f.timer
    ensures c == Resume ==> g.paused == (f.paused && !f.playing) && g.playing == f.playing && g.timer == f.timer
    ensures c == Stop ==> !g.playing && !g.paused && !g.timer
  {
    match c
    case Pause => if f.playing && !f.paused then f.(paused := true) else f
    case Resume => if f.playing && f.paused then f.(paused := false) else f
    case Stop => Flags(false, false, false)
  }

  /** A list of control calls, in order. */
  function ApplyAll(f: Flags, cs: seq<Control>): Flags
    decreases |cs|
  {
    if cs == [] then f else Apply(ApplyAll(f, cs[..|cs| - 1]), cs[|cs| - 1])
  }

  /** Control calls keep a reachable state reachable. */
  lemma {:induction false} ApplyAllSettled(f: Flags, cs: seq<Control>)
    requires Settled(f)
    ensures Settled(ApplyAll(f, cs))
    decreases |cs|
  {
    if cs != [] {
      ApplyAllSettled(f, cs[..|cs| - 1]);
    }
  }

  /** Once `stop` has been called, no later call changes anything: the state
      is the stopped one for good (so stopping twice is stopping once). */
  lemma {:induction false} StopIsFinal(f: Flags, cs: seq<Control>, ds: seq<Control>)
    ensures ApplyAll(f, cs + [Stop] + ds) == Flags(false, false, false)
    decreases |ds|
  {
    if ds == [] {
      assert cs + [Stop] + ds == cs + [Stop];
      assert (cs + [Stop])[..|cs|] == cs;
    } else {
      var s := cs + [Stop] + ds;
      assert s[..|s| - 1] == cs + [Stop] + ds[..|ds| - 1];
      StopIsFinal(f, cs, ds[..|ds| - 1]);
    }
  }

  /** Without `stop`, a playing player keeps playing and keeps its timer. */
  lemma {:induction false} NoStopKeepsPlaying(f: Flags, cs: seq<Control>)
    requires f.playing && Stop !in cs
    ensures ApplyAll(f, cs).playing && ApplyAll(f, cs).timer == f.timer
    decreases |cs|
  {
    if cs != [] {
      assert cs[..|cs| - 1] + [cs[|cs| - 1]] == cs;
      assert Stop !in cs[..|cs| - 1];
      NoStopKeepsPlaying(f, cs[..|cs| - 1]);
    }
  }

  /** A player still playing after a list of calls was playing before it
      and holds the timer it held. */
  lemma {:induction false} PlayingKeepsTimer(f: Flags, cs: seq<Control>)
    requires ApplyAll(f, cs).playing
    ensures f.playing && ApplyAll(f, cs).timer == f.timer
    decreases |cs|
  {
    if cs != [] {
      PlayingKeepsTimer(f, cs[..|cs| - 1]);
    }
  }

  /** A `stop` anywhere in the list leaves the player stopped at the end. */
  lemma {:induction false} StopSettles(f: Flags, cs: seq<Control>)
    requires Stop in cs
    ensures !ApplyAll(f, cs).playing
    decreases |cs|
  {
    var last := cs[|cs| - 1];
    if last != Stop {
      assert cs[..|cs| - 1] + [last] == cs;
      StopSettles(f, cs[..|cs| - 1]);
    }
  }

  /** Calls that leave the player playing hold no stop. */
  lemma PlayingMeansNoStop(f: Flags, cs: seq<Control>)
    ensures ApplyAll(f, cs).playing ==> Stop !in cs
  {
    if Stop in cs {
      StopSettles(f, cs);
    }
  }

  /** A schedule in which no list of calls, made on a playing, unpaused
      player, leaves it paused or stopped. */
  predicate Calm(schedule: seq<seq<Control>>) {
    forall k :: 0 <= k < |schedule| ==> ApplyAll(Flags(true, false, true), schedule[k]) == Flags(true, false, true)
  }

  /** Some list of calls in the schedule stops the player. */
  predicate Stopped(schedule: seq<seq<Control>>) {
    exists k :: 0 <= k < |schedule| && Stop in schedule[k]
  }

  /** No list of calls for the sleeps `a` up to `b` (exclusive) holds a stop;
      sleeps past the end of the schedule have no calls. */
  predicate NoStopIn(schedule: seq<seq<Control>>, a: nat, b: int) {
    forall j :: a <= j < b && j < |schedule| ==> Stop !in schedule[j]
  }

  /** Sleep number `n` (counting from 1) is the first whose calls hold a stop. */
  predicate FirstStopAt(schedule: seq<seq<Control>>, n: int) {
    0 < n <= |schedule| && Stop in schedule[n - 1] && NoStopIn(schedule, 0, n - 1)
  }

  /** There is only one first stopping sleep, and it makes the schedule stop. */
  lemma FirstStopUnique(schedule: seq<seq<Control>>, n: int, m: int)
    requires FirstStopAt(schedule, n) && FirstStopAt(schedule, m)
    ensures n == m && Stopped(schedule)
  {
    assert Stop in schedule[n - 1] && Stop in schedule[m - 1];
  }

  lemma NoStopJoin(schedule: seq<seq<Control>>, a: nat, b: nat, c: int)
    requires a <= b && NoStopIn(schedule, a, b) && NoStopIn(schedule, b, c)
    ensures NoStopIn(schedule, a, c)
  {
  }

  /** `options.speed || 1`: undefined, NaN and zero speeds play at speed 1. */
  function Speed(options: PlayOptions): (s: real)
    ensures s != 0.0
    ensures options.speed.Some? && options.speed.value != 0.0 ==> s == options.speed.value
    ensures !(options.speed.Some? && options.speed.value != 0.0) ==> s == 1.0
  {
    if options.speed.Some? && options.speed.value != 0.0 then options.speed.value else 1.0
  }

  /** The number an event time converts to under subtraction (ECMA-262
      section 7.1.4, ToNumber): numbers as they are, null as 0, booleans as 0
      or 1, an empty or whitespace-only string as 0, objects as NaN.  An array
      converts through its string form: the empty array is 0, an array of one
      element converts as that element's string form (so `[null]` is 0 and
      `[true]` is NaN), and a longer array, whose form holds a comma, is NaN.
      `None` is NaN.  Strings with numeric text are NaN here (see the README). */
  function TimeValue(t: Json): Option<real>
    decreases t
  {
    match t
    case JNumber(n) => Some(n)
    case JNull => Some(0.0)
    case JBool(b) => Some(if b then 1.0 else 0.0)
    case JString(s) => if AllWhiteSpace(s) then Some(0.0) else None
    case JObject(_) => None
    case JArray(items) =>
      if |items| == 0 then Some(0.0)
      else if |items| > 1 then None
      else
        match items[0]
        case JNull => Some(0.0)
        case JBool(_) => None
        case JObject(_) => None
        case _ => TimeValue(items[0])
  }

  /** The wait between two events: their time difference in milliseconds
      divided by the speed, capped at `limit * 1000` when the limit is truthy
      and exceeded; `None` is no wait. */
  function GapDelay(t0: Option<real>, t1: Option<real>, speed: real, limit: Option<real>): Option<real>
    requires speed != 0.0
  {
    if t0.None? || t1.None? then None
    else
      var delay := (t1.value - t0.value) * 1000.0 / speed;
      var capped := if limit.Some? && limit.value != 0.0 && delay > limit.value * 1000.0 then limit.value * 1000.0 else delay;
      if capped > 0.0 then Some(capped) else None
  }

  /** The delay rule: a wait is always positive and needs both times to be
      numbers; with a truthy limit it never exceeds `limit * 1000`; it is the
      scaled difference itself, or the cap when the difference exceeds it; and
      a positive scaled difference within the cap is waited in full.  So there
      is no wait exactly when the times are not numbers or the capped
      difference is not positive. */
  lemma GapDelayRule(t0: Option<real>, t1: Option<real>, speed: real, limit: Option<real>)
    requires speed != 0.0
    ensures var r := GapDelay(t0, t1, speed, limit);
      && (r.Some? ==> t0.Some? && t1.Some? && r.value > 0.0)
      && (r.Some? && limit.Some? && limit.value != 0.0 ==> r.value <= limit.value * 1000.0)
      && (r.Some? ==>
           || r.value == (t1.value - t0.value) * 1000.0 / speed
           || (limit.Some? && limit.value != 0.0 && r.value == limit.value * 1000.0 < (t1.value - t0.value) * 1000.0 / speed))
      && ((t0.Some? && t1.Some? && (t1.value - t0.value) * 1000.0 / speed > 0.0
           && (limit.None? || limit.value == 0.0 || (t1.value - t0.value) * 1000.0 / speed <= limit.value * 1000.0))
           ==> r == Some((t1.value - t0.value) * 1000.0 / speed))
      && ((t0.Some? && t1.Some? && limit.Some? && limit.value > 0.0
           && (t1.value - t0.value) * 1000.0 / speed > limit.value * 1000.0)
           ==> r == Some(limit.value * 1000.0))
  {
  }

  /** Without a limit, playing at speed `s` divides every wait by `s`: the
      same pairs of events are waited on, each for `1/s` of the time. */
  lemma SpeedScales(t0: Option<real>, t1: Option<real>, s: real)
    requires s > 0.0
    ensures GapDelay(t0, t1, s, None).Some? <==> GapDelay(t0, t1, 1.0, None).Some?
    ensures GapDelay(t0, t1, s, None).Some? ==> GapDelay(t0, t1, s, None).value == GapDelay(t0, t1, 1.0, None).value / s
  {
    if t0.Some? && t1.Some? {
      var d := (t1.value - t0.value) * 1000.0;
      assert d / 1.0 == d;
      assert d / s > 0.0 <==> d > 0.0;
    }
  }

  /** The wait `play` computes after event `j`, when there is a next event. */
  function GapAfter(events: seq<CastEvent>, j: nat, options: PlayOptions): Option<real>
    requires j + 1 < |events|
  {
    GapDelay(TimeValue(events[j].time), TimeValue(events[j + 1].time), Speed(options), options.idleTimeLimit)
  }

  /** The wait taken after event `j`: none after the last event or when the
      computed wait is not positive. */
  function GapOf(events: seq<CastEvent>, j: nat, options: PlayOptions): (g: seq<real>)
    requires j < |events|
    ensures |g| <= 1 && (j + 1 == |events| ==> g == [])
  {
    if j + 1 < |events| && GapAfter(events, j, options).Some? then [GapAfter(events, j, options).value] else []
  }

  /** The waits taken after the events before event `k`, in order. */
  function GapsUpTo(events: seq<CastEvent>, k: nat, options: PlayOptions): (gs: seq<real>)
    requires k <= |events|
    ensures |gs| <= k && (k == |events| && k > 0 ==> |gs| < k)
  {
    if k == 0 then [] else GapsUpTo(events, k - 1, options) + GapOf(events, k - 1, options)
  }

  lemma GapsUpToStep(events: seq<CastEvent>, k: nat, options: PlayOptions)
    requires k < |events|
    ensures GapsUpTo(events, k + 1, options) == GapsUpTo(events, k, options) + GapOf(events, k, options)
  {
  }

  lemma AppendAssoc<T>(a: seq<T>, b: seq<T>, c: seq<T>)
    ensures a + b + c == a + (b + c)
  {
  }

  /** `process.stdout.write` accepts the event: it is an input event, which is
      not written, or its data is a string. */
  predicate Accepts(e: CastEvent) {
    e.kind == Output ==> e.data.JString?
  }

  /** The first `n` events are all accepted: every output event among them
      carries a string.  Input events are never written, so their data does
      not matter. */
  predicate Writable(events: seq<CastEvent>, n: nat)
    requires n <= |events|
  {
    forall j :: 0 <= j < n ==> Accepts(events[j])
  }

  /** What writing one accepted event puts on standard output. */
  function Written(e: CastEvent): seq<string>
    requires Accepts(e)
  {
    if e.kind == Output then [e.data.s] else []
  }

  /** The text the first `n` events write, in order. */
  function Emitted(events: seq<CastEvent>, n: nat): seq<string>
    requires n <= |events| && Writable(events, n)
  {
    if n == 0 then [] else Emitted(events, n - 1) + Written(events[n - 1])
  }

  /** The positions of the output events among the first `n`. */
  function OutputsBefore(events: seq<CastEvent>, n: nat): set<nat>
    requires n <= |events|
  {
    set j: nat | j < n && events[j].kind == Output
  }

  /** One more event adds its position exactly when it is an output event. */
  lemma OutputsStep(events: seq<CastEvent>, n: nat)
    requires 0 < n <= |events|
    ensures OutputsBefore(events, n) ==
      OutputsBefore(events, n - 1) + (if events[n - 1].kind == Output then {n - 1} else {})
    ensures n - 1 !in OutputsBefore(events, n - 1)
  {
  }

  /** Input events are never written; output events each write their data. */
  lemma {:induction false} EmittedCount(events: seq<CastEvent>, n: nat)
    requires n <= |events| && Writable(events, n)
    ensures |Emitted(events, n)| == |OutputsBefore(events, n)|
  {
    if n > 0 {
      EmittedCount(events, n - 1);
      OutputsStep(events, n);
      assert |Emitted(events, n)| == |Emitted(events, n - 1)| + |Written(events[n - 1])|;
    }
  }

  /** Each piece written is the data of an output event among the first `n`. */
  lemma {:induction false} EmittedFromOutputs(events: seq<CastEvent>, n: nat)
    requires n <= |events| && Writable(events, n)
    ensures forall p :: p in Emitted(events, n) ==> exists j :: 0 <= j < n && events[j].kind == Output && events[j].data == JString(p)
  {
    if n > 0 {
      EmittedFromOutputs(events, n - 1);
      forall p | p in Emitted(events, n)
        ensures exists j :: 0 <= j < n && events[j].kind == Output && events[j].data == JString(p)
      {
        if p !in Emitted(events, n - 1) {
          assert events[n - 1].kind == Output && events[n - 1].data == JString(p);
        }
      }
    }
  }

  /** What the first `n` events write does not depend on the events after them. */
  lemma {:induction false} EmittedIgnoresRest(events: seq<CastEvent>, rest: seq<CastEvent>, n: nat)
    requires n <= |events| && Writable(events, n)
    ensures Writable(events + rest, n)
    ensures Emitted(events + rest, n) == Emitted(events, n)
  {
    assert forall j :: 0 <= j < n ==> (events + rest)[j] == events[j];
    if n > 0 {
      EmittedIgnoresRest(events, rest, n - 1);
    }
  }

  /** The message of the TypeError `process.stdout.write` throws for data that
      is not a string. */
  function WriteError(data: Json): string {
    if data == JNull then NullWrite else ChunkType
  }

  /** Node's ERR_STREAM_NULL_VALUES message. */
  const NullWrite: string := "May not write null values to stream"

  /** Node's ERR_INVALID_ARG_TYPE message for a chunk, without the part that
      describes the value received. */
  const ChunkType: string := "The \"chunk\" argument must be of type string or an instance of Buffer or Uint8Array"

  /** What the `catch` of `play` throws for a failed write: PLAYBACK_FAILED
      with "Playback failed: " and the message of the TypeError. */
  function WriteFailure(data: Json): AsciinemaError {
    AsciinemaError(PlaybackFailed, FailurePrefix + WriteError(data))
  }

  /** The message prefix the `catch` of `play` adds. */
  const FailurePrefix: string := "Playback failed: "

  /** The message of the error a second, concurrent `play` call throws. */
  const AlreadyPlaying: string := "Player is already playing"

  /** How a run that a stop suspended ends: the stop came in sleep `n`, the
      first whose calls hold one; nothing was written after that sleep
      began; and the sleep was the poll before event `played` or the gap
      after event `played - 1`. */
  ghost predicate StopEnd(schedule: seq<seq<Control>>, n: int, last: Wait, since: seq<string>,
                          events: seq<CastEvent>, played: nat, options: PlayOptions)
  {
    && FirstStopAt(schedule, n) && since == []
    && (last.Poll? ==> played < |events|)
    && (last.Gap? ==> 0 < played <= |events| && GapOf(events, played - 1, options) == [last.ms])
  }

  /** The stop end of one pass for event `i`, after passes that met no stop. */
  lemma StopEndFrom(schedule: seq<seq<Control>>, k0: nat, k: nat, last: Wait, since: seq<string>,
                    events: seq<CastEvent>, i: nat, wrote: bool, options: PlayOptions)
    requires i < |events| && NoStopIn(schedule, 0, k0)
    requires k0 < k <= |schedule| && Stop in schedule[k - 1] && NoStopIn(schedule, k0, k - 1)
    requires since == [] && (wrote <==> last.Gap?) && (wrote ==> GapOf(events, i, options) == [last.ms])
    ensures StopEnd(schedule, k, last, since, events, if wrote then i + 1 else i, options)
  {
    NoStopJoin(schedule, 0, k0, k - 1);
  }

  class CastPlayer {
    var isPlaying: bool
    var isPaused: bool
    /** `currentTimeout` is set: a timer handle is held. */
    var timerHeld: bool
    /** Everything written to standard output, one piece per `write`. */
    var sink: seq<string>
    /** How many timers were started. */
    var sleeps: nat
    /** The delays of the gap timers started between events, in order. */
    var delays: seq<real>
    /** The wait of the last timer started. */
    ghost var lastWait: Wait
    /** What was written since the last timer was started. */
    ghost var sinceSleep: seq<string>

    function State(): Flags
      reads this
    {
      Flags(isPlaying, isPaused, timerHeld)
    }

    ghost predicate Valid()
      reads this
    {
      Settled(State())
    }

    constructor()
      ensures Valid()
      ensures State() == Flags(false, false, false) && sink == [] && sleeps == 0 && delays == []
      ensures sinceSleep == []
    {
      lastWait := Poll;
      sinceSleep := [];
      isPlaying := false;
      isPaused := false;
      timerHeld := false;
      sink := [];
      sleeps := 0;
      delays := [];
    }

    /** `pause`: only a playing, unpaused player becomes paused. */
    method Pause()
      requires Valid()
      modifies this
      ensures Valid()
      ensures State() == Apply(old(State()), Control.Pause)
      ensures sink == old(sink) && sleeps == old(sleeps) && delays == old(delays)
      ensures lastWait == old(lastWait) && sinceSleep == old(sinceSleep)
    {
      if isPlaying && !isPaused {
        isPaused := true;
      }
    }

    /** `resume`: only a playing, paused player is unpaused. */
    method Resume()
      requires Valid()
      modifies this
      ensures Valid()
      ensures State() == Apply(old(State()), Control.Resume)
      ensures sink == old(sink) && sleeps == old(sleeps) && delays == old(delays)
      ensures lastWait == old(lastWait) && sinceSleep == old(sinceSleep)
    {
      if isPlaying && isPaused {
        isPaused := false;
      }
    }

    /** `stop`: both flags false and the pending timer cleared, whatever the
        state was. */
    method Stop()
      requires Valid()
      modifies this
      ensures Valid()
      ensures State() == Flags(false, false, false)
      ensures sink == old(sink) && sleeps == old(sleeps) && delays == old(delays)
      ensures lastWait == old(lastWait) && sinceSleep == old(sinceSleep)
    {
      isPlaying := false;
      isPaused := false;
      if timerHeld {
        timerHeld := false;
      }
    }

    /** The calls other code makes while one sleep is pending, in order. */
    method Perform(cs: seq<Control>)
      requires Valid()
      modifies this
      ensures Valid()
      ensures State() == ApplyAll(old(State()), cs)
      ensures sink == old(sink) && sleeps == old(sleeps) && delays == old(delays)
      ensures lastWait == old(lastWait) && sinceSleep == old(sinceSleep)
    {
      var j := 0;
      while j < |cs|
        invariant 0 <= j <= |cs|
        invariant Valid()
        invariant State() == ApplyAll(old(State()), cs[..j])
        invariant sink == old(sink) && sleeps == old(sleeps) && delays == old(delays)
        invariant lastWait == old(lastWait) && sinceSleep == old(sinceSleep)
      {
        assert cs[..j + 1][..j] == cs[..j];
        match cs[j] {
          case Pause => Pause();
          case Resume => Resume();
          case Stop => Stop();
        }
        j := j + 1;
      }
      assert cs[..j] == cs;
    }

    /** One `await this.sleep(ms)`: a timer is started and held, and the calls
        scheduled for it run while it is pending. */
    method Sleep(w: Wait, cs: seq<Control>)
      requires Valid() && isPlaying
      modifies this
      ensures Valid()
      ensures State() == ApplyAll(Flags(true, old(isPaused), true), cs)
      ensures sink == old(sink) && sleeps == old(sleeps) + 1
      ensures delays == old(delays) + (if w.Gap? then [w.ms] else [])
      ensures lastWait == w && sinceSleep == []
    {
      lastWait := w;
      sinceSleep := [];
      sleeps := sleeps + 1;
      delays := delays + (if w.Gap? then [w.ms] else []);
      timerHeld := true;
      Perform(cs);
    }

    /** `while (this.isPaused && this.isPlaying) await this.sleep(100)`: each
        poll takes the next list of scheduled calls.  It returns `blocked`
        when a call stopped the player (the cleared timer never fires) or
        when the schedule ran out while paused (the polls go on for ever);
        otherwise the player is playing and unpaused.  Polls add no gap. */
    method AwaitResume(schedule: seq<seq<Control>>, k: nat) returns (k': nat, blocked: bool)
      requires Valid() && isPlaying && timerHeld == (k > 0)
      requires isPaused ==> 0 < k <= |schedule|
      modifies this
      ensures Valid() && sink == old(sink)
      ensures k <= k' && sleeps == old(sleeps) + (k' - k) && delays == old(delays)
      ensures !blocked ==> isPlaying && !isPaused && timerHeld == (k' > 0)
      ensures blocked ==> (!isPlaying && Stopped(schedule)) || (isPlaying && isPaused && timerHeld && k' == |schedule|)
      ensures !old(isPaused) ==> !blocked && k' == k
      ensures NoStopIn(schedule, k, if blocked && !isPlaying then k' - 1 else k')
      ensures blocked && !isPlaying ==>
        k < k' <= |schedule| && Control.Stop in schedule[k' - 1] && lastWait == Poll && sinceSleep == []
    {
      k' := k;
      while isPaused
        invariant Valid() && isPlaying && timerHeld == (k' > 0)
        invariant isPaused ==> 0 < k' <= |schedule|
        invariant k <= k' && sleeps == old(sleeps) + (k' - k) && delays == old(delays)
        invariant sink == old(sink)
        invariant !old(isPaused) ==> !isPaused && k' == k
        invariant NoStopIn(schedule, k, k')
        decreases |schedule| - k'
      {
        if k' == |schedule| {
          return k', true;
        }
        Sleep(Poll, schedule[k']);
        if !isPlaying {
          StopFromSchedule(Flags(true, true, true), schedule, k');
          return k' + 1, true;
        }
        PlayingKeepsTimer(Flags(true, true, true), schedule[k']);
        PlayingMeansNoStop(Flags(true, true, true), schedule[k']);
        k' := k' + 1;
      }
      blocked := false;
    }

    /** `await this.sleep(delay)` between two events, with the `k`th list of
        scheduled calls (none once the schedule is used up). */
    method AwaitGap(ms: real, schedule: seq<seq<Control>>, k: nat) returns (stopped: bool)
      requires Valid() && isPlaying && !isPaused
      modifies this
      ensures Valid() && sink == old(sink) && sleeps == old(sleeps) + 1 && delays == old(delays) + [ms]
      ensures stopped ==> !isPlaying && Stopped(schedule)
      ensures !stopped ==> isPlaying && timerHeld && (isPaused ==> k < |schedule|)
      ensures Calm(schedule) ==> !stopped && !isPaused
      ensures stopped ==> k < |schedule| && Control.Stop in schedule[k] && lastWait == Gap(ms) && sinceSleep == []
      ensures !stopped ==> NoStopIn(schedule, k, k + 1)
    {
      var calls := if k < |schedule| then schedule[k] else [];
      Sleep(Gap(ms), calls);
      stopped := !isPlaying;
      if stopped {
        StopFromSchedule(Flags(true, false, true), schedule, k);
      } else {
        PlayingKeepsTimer(Flags(true, false, true), calls);
        PlayingMeansNoStop(Flags(true, false, true), calls);
      }
      if Calm(schedule) && k < |schedule| {
        assert ApplyAll(Flags(true, false, true), schedule[k]) == Flags(true, false, true);
      }
    }

    /** The end of a pass for event `i`: when there is a next event and the
        wait to it is positive, sleep for it with the `k`th list of calls. */
    method AwaitNext(events: seq<CastEvent>, i: nat, options: PlayOptions, schedule: seq<seq<Control>>, k: nat)
      returns (k': nat, stopped: bool)
      requires Valid() && isPlaying && !isPaused && timerHeld == (k > 0) && i < |events|
      modifies this
      ensures Valid() && sink == old(sink) && delays == old(delays) + GapOf(events, i, options)
      ensures k <= k' <= k + 1 && sleeps == old(sleeps) + (k' - k)
      ensures stopped ==> !isPlaying && Stopped(schedule)
      ensures !stopped ==> isPlaying && timerHeld == (k' > 0) && (isPaused ==> 0 < k' <= |schedule|)
      ensures Calm(schedule) ==> !stopped && !isPaused
      ensures stopped ==>
        k' == k + 1 && k < |schedule| && Control.Stop in schedule[k]
        && lastWait.Gap? && GapOf(events, i, options) == [lastWait.ms] && sinceSleep == []
      ensures !stopped ==> NoStopIn(schedule, k, k')
    {
      k', stopped := k, false;
      if i + 1 < |events| {
        var delay := GapAfter(events, i, options);
        if delay.Some? {
          stopped := AwaitGap(delay.value, schedule, k);
          k' := k + 1;
          return;
        }
      }
      assert delays + [] == delays;
    }

    /** `process.stdout.write(event.data)` for an output event; input events
        are skipped.  A write of data that is not a string throws, and nothing
        is written. */
    method WriteEvent(e: CastEvent) returns (failure: Option<AsciinemaError>)
      modifies this
      ensures State() == old(State()) && sleeps == old(sleeps) && delays == old(delays)
      ensures failure.None? <==> Accepts(e)
      ensures failure.None? ==> sink == old(sink) + Written(e)
      ensures failure.Some? ==> failure.value == WriteFailure(e.data) && sink == old(sink)
      ensures lastWait == old(lastWait)
      ensures sinceSleep == old(sinceSleep) + (if failure.None? then Written(e) else [])
    {
      if e.kind == Output {
        if !e.data.JString? {
          return Some(WriteFailure(e.data));
        }
        sink := sink + [e.data.s];
        sinceSleep := sinceSleep + [e.data.s];
      }
      failure := None;
    }

    /** One pass of the `for` loop of `play`, for event `i`: wait while
        paused, write the event if it is an output event, then wait the gap to
        the next one.  `wrote` says whether the event was handled; `end` is
        `Continue` when the loop goes on. */
    method PlayEvent(events: seq<CastEvent>, i: nat, options: PlayOptions, schedule: seq<seq<Control>>, k: nat)
      returns (k': nat, end: StepEnd, ghost wrote: bool)
      requires Valid() && isPlaying && timerHeld == (k > 0) && i < |events|
      requires isPaused ==> 0 < k <= |schedule|
      requires Calm(schedule) ==> !isPaused
      modifies this
      ensures Valid() && k <= k' && sleeps == old(sleeps) + (k' - k)
      ensures wrote ==> Accepts(events[i])
      ensures wrote ==> sink == old(sink) + Written(events[i])
      ensures wrote ==> delays == old(delays) + GapOf(events, i, options)
      ensures !wrote ==> sink == old(sink) && delays == old(delays)
      ensures end.Continue? ==> wrote && isPlaying && timerHeld == (k' > 0) && (isPaused ==> 0 < k' <= |schedule|)
      ensures end.Continue? && Calm(schedule) ==> !isPaused
      ensures end.Halt? && end.outcome.Failed? ==>
        !wrote && !Accepts(events[i]) && end.outcome.error == WriteFailure(events[i].data)
      ensures end.Halt? ==> end.outcome.Failed? || end.outcome.Suspended?
      ensures end.Halt? && end.outcome.Suspended? ==>
        || (!isPlaying && Stopped(schedule))
        || (isPlaying && isPaused && timerHeld && k' == |schedule|)
      ensures Calm(schedule) && Accepts(events[i]) ==> end.Continue?
      ensures NoStopIn(schedule, k, if end.Halt? && !isPlaying then k' - 1 else k')
      ensures end.Halt? && !isPlaying ==>
        && k < k' <= |schedule| && Control.Stop in schedule[k' - 1] && sinceSleep == []
        && (wrote <==> lastWait.Gap?) && (wrote ==> GapOf(events, i, options) == [lastWait.ms])
    {
      var blocked;
      k', blocked := AwaitResume(schedule, k);
      if blocked {
        return k', Halt(Suspended), false;
      }
      var failure := WriteEvent(events[i]);
      if failure.Some? {
        return k', Halt(Failed(failure.value)), false;
      }
      wrote := true;
      var stopped;
      k', stopped := AwaitNext(events, i, options, schedule, k');
      end := if stopped then Halt(Suspended) else Continue;
    }

    /** The state of `play` before event `i`, `k` sleeps in: playing, every
        event before `i` written and waited after, and no stop so far.
        `sink0`, `delays0` and `sleeps0` are the state when the loop began. */
    ghost predicate Running(events: seq<CastEvent>, options: PlayOptions, schedule: seq<seq<Control>>,
                            i: nat, k: nat, sink0: seq<string>, delays0: seq<real>, sleeps0: nat)
      reads this
    {
      && i <= |events|
      && Valid() && isPlaying && timerHeld == (k > 0)
      && (isPaused ==> 0 < k <= |schedule|)
      && (Calm(schedule) ==> !isPaused)
      && sleeps == sleeps0 + k
      && delays == delays0 + GapsUpTo(events, i, options)
      && Writable(events, i) && sink == sink0 + Emitted(events, i)
      && NoStopIn(schedule, 0, k)
    }

    /** How the loop of `play` ends after handling `played` events: the sink
        gained exactly their output data and the delays exactly their gaps; it
        finished every event, failed on the first write that throws, or is
        suspended for good, by the first stopping sleep or paused with the
        schedule used up. */
    ghost predicate Ended(events: seq<CastEvent>, options: PlayOptions, schedule: seq<seq<Control>>,
                          outcome: Outcome, played: nat, sink0: seq<string>, delays0: seq<real>, sleeps0: nat)
      reads this
    {
      && Valid()
      && played <= |events| && Writable(events, played)
      && sink == sink0 + Emitted(events, played)
      && delays == delays0 + GapsUpTo(events, played, options)
      && (outcome.Finished? ==> played == |events|)
      && (outcome.Failed? ==>
            played < |events| && !Accepts(events[played]) && outcome.error == WriteFailure(events[played].data))
      && (outcome.Suspended? ==>
            || (!isPlaying && StopEnd(schedule, sleeps - sleeps0, lastWait, sinceSleep, events, played, options))
            || (isPlaying && isPaused && timerHeld && sleeps == sleeps0 + |schedule|))
    }

    /** One pass of the loop of `play`, for event `i`, with its bookkeeping. */
    method Advance(events: seq<CastEvent>, options: PlayOptions, schedule: seq<seq<Control>>, i: nat, k: nat,
                   ghost sink0: seq<string>, ghost delays0: seq<real>, ghost sleeps0: nat)
      returns (k': nat, end: StepEnd, ghost played: nat)
      requires i < |events| && Running(events, options, schedule, i, k, sink0, delays0, sleeps0)
      modifies this
      ensures end.Continue? ==> Running(events, options, schedule, i + 1, k', sink0, delays0, sleeps0)
      ensures end.Halt? ==> Ended(events, options, schedule, end.outcome, played, sink0, delays0, sleeps0)
      ensures Calm(schedule) && Accepts(events[i]) ==> end.Continue?
    {
      ghost var wrote;
      k', end, wrote := PlayEvent(events, i, options, schedule, k);
      if !(end.Halt? && !isPlaying) {
        NoStopJoin(schedule, 0, k, k');
      }
      if wrote {
        GapsUpToStep(events, i, options);
        AppendAssoc(delays0, GapsUpTo(events, i, options), GapOf(events, i, options));
        AppendAssoc(sink0, Emitted(events, i), Written(events[i]));
      }
      played := if wrote then i + 1 else i;
      if end.Halt? && !isPlaying {
        StopEndFrom(schedule, k, k', lastWait, sinceSleep, events, i, wrote, options);
      }
    }

    /** The `for` loop of `play` over all events; `played` is how many events
        were handled.  With writable events and a calm schedule it finishes. */
    method PlayEvents(events: seq<CastEvent>, options: PlayOptions, schedule: seq<seq<Control>>)
      returns (outcome: Outcome, ghost played: nat)
      requires Valid() && isPlaying && !isPaused && !timerHeld
      modifies this
      ensures Ended(events, options, schedule, outcome, played, old(sink), old(delays), old(sleeps))
      ensures Writable(events, |events|) && Calm(schedule) ==> outcome.Finished?
    {
      assert sink + [] == sink;
      assert delays + [] == delays;
      var k := 0;
      var i := 0;
      while i < |events|
        invariant Running(events, options, schedule, i, k, old(sink), old(delays), old(sleeps))
      {
        assert Writable(events, |events|) ==> Accepts(events[i]);
        var end;
        k, end, played := Advance(events, options, schedule, i, k, old(sink), old(delays), old(sleeps));
        if end.Halt? {
          return end.outcome, played;
        }
        i := i + 1;
      }
      return Finished, i;
    }

    /** `play`.  A player that is already playing rejects the call with
        PLAYBACK_FAILED and changes nothing.  Otherwise it writes the clear-
        screen prefix and plays the events; `played` is how many were
        handled.  A finished or failed call runs the `finally` block, which
        leaves the player stopped with no timer; a failure is a write of data
        that is not a string, reported as PLAYBACK_FAILED "Playback failed:
        ...".  A suspended call never reaches it: it was stopped by the
        schedule, or is paused for good once the schedule runs out.  With
        writable events and a calm schedule, playback finishes. */
    method Play(cast: ParsedCast, options: PlayOptions, schedule: seq<seq<Control>>) returns (outcome: Outcome, ghost played: nat)
      requires Valid()
      modifies this
      ensures Valid()
      ensures old(isPlaying) ==>
        && outcome == Failed(AsciinemaError(PlaybackFailed, AlreadyPlaying))
        && State() == old(State()) && sink == old(sink) && sleeps == old(sleeps) && delays == old(delays)
      ensures !old(isPlaying) ==> played <= |cast.events| && Writable(cast.events, played)
      ensures !old(isPlaying) ==> sink == old(sink) + [ClearScreen] + Emitted(cast.events, played)
      ensures !old(isPlaying) ==> delays == old(delays) + GapsUpTo(cast.events, played, options)
      ensures outcome.Finished? ==> played == |cast.events|
      ensures outcome.Failed? && !old(isPlaying) ==>
        && played < |cast.events| && !Accepts(cast.events[played])
        && outcome.error == WriteFailure(cast.events[played].data)
      ensures outcome.Finished? || (outcome.Failed? && !old(isPlaying)) ==> State() == Flags(false, false, false)
      ensures outcome.Suspended? ==>
        || (!isPlaying && Stopped(schedule))
        || (isPlaying && isPaused && timerHeld && sleeps == old(sleeps) + |schedule|)
      ensures !old(isPlaying) && Writable(cast.events, |cast.events|) && Calm(schedule) ==> outcome.Finished?
      ensures outcome.Suspended? && !isPlaying ==>
        StopEnd(schedule, sleeps - old(sleeps), lastWait, sinceSleep, cast.events, played, options)
    {
      if isPlaying {
        return Failed(AsciinemaError(PlaybackFailed, AlreadyPlaying)), 0;
      }
      isPlaying := true;
      isPaused := false;
      sink := sink + [ClearScreen];
      sinceSleep := sinceSleep + [ClearScreen];
      outcome, played := PlayEvents(cast.events, options, schedule);
      if !outcome.Suspended? {
        isPlaying := false;
        isPaused := false;
        timerHeld := false;
      }
    }
  }

  /** A playing player that ends a sleep stopped was stopped by the calls
      scheduled for that sleep. */
  lemma StopFromSchedule(f: Flags, schedule: seq<seq<Control>>, k: nat)
    requires f.playing
    requires !ApplyAll(f, if k < |schedule| then schedule[k] else []).playing
    ensures k < |schedule| && Stop in schedule[k]
    ensures Stopped(schedule)
  {
    var cs := if k < |schedule| then schedule[k] else [];
    if Stop !in cs {
      NoStopKeepsPlaying(f, cs);
    }
  }
}
