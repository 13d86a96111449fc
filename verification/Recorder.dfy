/**
 * The session recorder of mice_notes.py's `start()`: the state its key loop
 * updates, and one turn of that loop. The wall clock is not read here: each
 * turn is given the key that was read and the raw clock reading taken just
 * after it.
 */
module Recording {
  import opened Behaviours
  import opened Intervals

  class Recorder {
    /** The behaviour currently being observed. */
    var actionType: char
    /** Where its still-open interval started, in session time. */
    var actionStart: real
    var paused: bool
    /** Session time at which the current pause began (meaningful while paused). */
    var pauseStart: real
    /** Raw clock minus this is session time; every completed pause adds its
        length to it. */
    var timeDelta: real
    /** The closed intervals logged so far, per behaviour. */
    var actions: map<char, seq<Interval>>
    /** Set once 'q' has been read: the loop is left and nothing more happens. */
    var ended: bool

    /** Every interval appended to `actions`, in the order of appending. */
    ghost var history: seq<Entry>
    /** The raw clock reading of the latest turn (the starting reading before
        the first). */
    ghost var lastRaw: real

    /** Session time with any pause in progress cut off at its start. */
    ghost function Active(): real
      reads this
    {
      if paused then pauseStart else lastRaw - timeDelta
    }

    ghost predicate Valid()
      reads this
    {
      && actionType in Labels
      && LogOk(history, actions)
      && (!ended ==> actionStart == Reached(history) && actionStart <= Active())
      && (paused ==> pauseStart <= lastRaw - timeDelta)
      && (ended ==> Reached(history) == lastRaw - timeDelta)
    }

    /** A new session, started when the raw clock read `clockAtStart`: Other
        is being observed since session time 0 and nothing is logged. */
    constructor (clockAtStart: real)
      ensures Valid() && !ended
      ensures actionType == Other && actionStart == 0.0
      ensures !paused && timeDelta == clockAtStart
      ensures actions == map[] && history == [] && lastRaw == clockAtStart
    {
      actionType := Other;
      actionStart := 0.0;
      paused := false;
      pauseStart := 0.0;
      timeDelta := clockAtStart;
      actions := map[];
      ended := false;
      history := [];
      lastRaw := clockAtStart;
    }

    /** Every logged interval is a behaviour's, within [0, its end]. */
    static ghost predicate WellFormed(h: seq<Entry>)
    {
      forall k :: 0 <= k < |h| ==> h[k].code in Labels && 0.0 <= h[k].span.beg <= h[k].span.end
    }

    /** The lists are the log grouped by behaviour, and the log is
        well-formed and tiles session time from 0 on. */
    static ghost predicate LogOk(h: seq<Entry>, actions: map<char, seq<Interval>>)
    {
      WellFormed(h) && Contiguous(h) && actions == Group(h)
    }

    /** Closes the open interval at session time `now` and logs it for the
        current behaviour. */
    method CloseInterval(now: real)
      requires Valid() && !ended && actionStart <= now
      modifies this`actions, this`history
      ensures history == old(history) + [Entry(actionType, Interval(actionStart, now))]
      ensures actions == Append(old(actions), actionType, Interval(actionStart, now))
      ensures LogOk(history, actions) && Reached(history) == now
    {
      var iv := Interval(actionStart, now);
      actions := Append(actions, actionType, iv);
      history := history + [Entry(actionType, iv)];
      assert history[..|history| - 1] == old(history);
    }

    /** The 'q' branch: the open interval is logged up to session time
        `rawTime - timeDelta`, which still includes a pause in progress. */
    method Finish(rawTime: real)
      requires Valid() && !ended && lastRaw <= rawTime
      modifies this`actions, this`history, this`ended, this`lastRaw
      ensures Valid() && ended && lastRaw == rawTime
      ensures history == old(history) + [Entry(actionType, Interval(actionStart, rawTime - timeDelta))]
      ensures actions == Append(old(actions), actionType, Interval(actionStart, rawTime - timeDelta))
    {
      CloseInterval(rawTime - timeDelta);
      ended := true;
      lastRaw := rawTime;
    }

    /** The space branch: pause, or resume and shift the clock by the length
        of the pause. */
    method TogglePause(rawTime: real)
      requires Valid() && !ended && lastRaw <= rawTime
      modifies this`paused, this`pauseStart, this`timeDelta, this`lastRaw
      ensures Valid() && lastRaw == rawTime && paused == !old(paused)
      ensures old(Active()) <= Active()
      ensures old(paused) ==>
        timeDelta == old(timeDelta) + ((rawTime - old(timeDelta)) - old(pauseStart)) && pauseStart == old(pauseStart)
      ensures !old(paused) ==> pauseStart == rawTime - old(timeDelta) && timeDelta == old(timeDelta)
    {
      var now := rawTime - timeDelta;
      if paused {
        var pauseTime := now - pauseStart;
        timeDelta := timeDelta + pauseTime;
        paused := false;
      } else {
        pauseStart := now;
        paused := true;
      }
      lastRaw := rawTime;
    }

    /** A behaviour key read while recording: switching to another behaviour
        logs the open interval and opens the next one at the same instant. */
    method Select(code: char, rawTime: real)
      requires Valid() && !ended && !paused && lastRaw <= rawTime && code in Labels
      modifies this`actions, this`history, this`actionType, this`actionStart, this`lastRaw
      ensures Valid() && lastRaw == rawTime && actionType == code
      ensures old(Active()) <= Active()
      ensures code == old(actionType) ==>
        history == old(history) && actions == old(actions) && actionStart == old(actionStart)
      ensures code != old(actionType) ==>
        && history == old(history) + [Entry(old(actionType), Interval(old(actionStart), rawTime - timeDelta))]
        && actions == Append(old(actions), old(actionType), Interval(old(actionStart), rawTime - timeDelta))
        && actionStart == rawTime - timeDelta
    {
      var now := rawTime - timeDelta;
      if actionType != code {
        CloseInterval(now);
        actionType := code;
        actionStart := now;
      }
      lastRaw := rawTime;
    }

    /** One turn of the key loop: `key` was read and the raw clock then read
        `rawTime`. Returns whether the "unrecognized key" warning is shown. */
    method Step(key: Key, rawTime: real) returns (warned: bool)
      requires Valid() && !ended && lastRaw <= rawTime
      modifies this
      ensures Valid() && lastRaw == rawTime
      // pause compensation never moves session time backwards
      ensures old(Active()) <= Active()
      ensures warned <==> !old(paused) && key != Quit && key != PauseToggle && !Recognised(key)
      // 'q' ends the session, paused or not, closing the open interval
      ensures ended <==> key == Quit
      ensures key == Quit ==>
        && history == old(history) + [Entry(old(actionType), Interval(old(actionStart), rawTime - old(timeDelta)))]
        && actions == Append(old(actions), old(actionType), Interval(old(actionStart), rawTime - old(timeDelta)))
        && actionType == old(actionType) && actionStart == old(actionStart)
        && paused == old(paused) && pauseStart == old(pauseStart) && timeDelta == old(timeDelta)
      // space toggles the pause; resuming shifts the clock by the pause's length
      ensures key == PauseToggle ==>
        && paused == !old(paused)
        && history == old(history) && actions == old(actions)
        && actionType == old(actionType) && actionStart == old(actionStart)
      ensures key == PauseToggle && old(paused) ==>
        && timeDelta == old(timeDelta) + ((rawTime - old(timeDelta)) - old(pauseStart))
        && pauseStart == old(pauseStart)
      ensures key == PauseToggle && !old(paused) ==>
        pauseStart == rawTime - old(timeDelta) && timeDelta == old(timeDelta)
      // while paused every other key is ignored
      ensures key != Quit && key != PauseToggle && old(paused) ==>
        && paused && pauseStart == old(pauseStart) && timeDelta == old(timeDelta)
        && history == old(history) && actions == old(actions)
        && actionType == old(actionType) && actionStart == old(actionStart)
      // while recording, a key selects a behaviour (unknown keys select Other)
      ensures key != Quit && key != PauseToggle && !old(paused) ==>
        && !paused && pauseStart == old(pauseStart) && timeDelta == old(timeDelta)
        && actionType == Coerce(key)
      // the current behaviour again: the open interval simply continues
      ensures key != Quit && key != PauseToggle && !old(paused) && Coerce(key) == old(actionType) ==>
        history == old(history) && actions == old(actions) && actionStart == old(actionStart)
      // another behaviour: the open interval is logged and the new one starts where it ended
      ensures key != Quit && key != PauseToggle && !old(paused) && Coerce(key) != old(actionType) ==>
        && history == old(history) + [Entry(old(actionType), Interval(old(actionStart), rawTime - old(timeDelta)))]
        && actions == Append(old(actions), old(actionType), Interval(old(actionStart), rawTime - old(timeDelta)))
        && actionStart == rawTime - old(timeDelta)
    {
      warned := false;
      if key == Quit {
        Finish(rawTime);
      } else if key == PauseToggle {
        TogglePause(rawTime);
      } else if !paused {
        warned := !Recognised(key);
        Select(Coerce(key), rawTime);
      } else {
        lastRaw := rawTime;
      }
    }
  }

  /** Press 'a' at once, 's' after five seconds and 'q' after eight: the
      initial Other interval is logged even though it is empty. */
  method SwitchScenario() returns (actions: map<char, seq<Interval>>)
    ensures actions == map['o' := [Interval(0.0, 0.0)], 'a' := [Interval(0.0, 5.0)], 's' := [Interval(5.0, 8.0)]]
  {
    var r := new Recorder(100.0);
    var w := r.Step(Press('a'), 100.0);
    assert Coerce(Press('a')) == 'a' && Coerce(Press('s')) == 's';
    assert Logged(map[], Other) + [Interval(0.0, 0.0)] == [Interval(0.0, 0.0)];
    assert r.actions == map['o' := [Interval(0.0, 0.0)]] && r.actionStart == 0.0;
    assert r.actionType == 'a' && r.actionStart == 0.0 && r.timeDelta == 100.0 && !r.paused;
    w := r.Step(Press('s'), 105.0);
    assert Logged(map['o' := [Interval(0.0, 0.0)]], 'a') + [Interval(0.0, 5.0)] == [Interval(0.0, 5.0)];
    assert r.actions == map['o' := [Interval(0.0, 0.0)], 'a' := [Interval(0.0, 5.0)]];
    assert Logged(r.actions, 's') + [Interval(5.0, 8.0)] == [Interval(5.0, 8.0)];
    w := r.Step(Quit, 108.0);
    actions := r.actions;
  }

  /** Pause after two seconds, resume after six, quit after eleven: the four
      paused seconds are missing from the single Other interval, and the
      'a' read during the pause is ignored. */
  method PauseScenario() returns (actions: map<char, seq<Interval>>)
    ensures actions == map['o' := [Interval(0.0, 7.0)]]
  {
    var r := new Recorder(100.0);
    var w := r.Step(PauseToggle, 102.0);
    w := r.Step(Press('a'), 104.0);
    assert r.paused && r.pauseStart == 2.0 && r.actionType == Other;
    w := r.Step(PauseToggle, 106.0);
    assert r.timeDelta == 104.0 && r.actions == map[];
    w := r.Step(Quit, 111.0);
    assert Logged(map[], Other) + [Interval(0.0, 7.0)] == [Interval(0.0, 7.0)];
    actions := r.actions;
  }

  /** Pause after two seconds and quit after five without resuming: 'q' is
      honoured, and the final interval runs to a time that still includes
      the unfinished pause. */
  method QuitWhilePausedScenario() returns (actions: map<char, seq<Interval>>, paused: bool)
    ensures actions == map['o' := [Interval(0.0, 5.0)]] && paused
  {
    var r := new Recorder(100.0);
    var w := r.Step(PauseToggle, 102.0);
    w := r.Step(Quit, 105.0);
    assert Logged(map[], Other) + [Interval(0.0, 5.0)] == [Interval(0.0, 5.0)];
    actions, paused := r.actions, r.paused;
  }
}
