/**
 * The whole of `start()`: a recorder driven by the keys read one after the
 * other, each paired with the raw clock reading taken after it, until 'q'
 * ends the session and the summary is built from the logged intervals.
 */
module Session {
  import opened Behaviours
  import opened Intervals
  import opened Recording
  import opened Summary

  datatype Option<T> = None | Some(value: T)

  /** One turn of the loop: the key read and the raw clock reading after it. */
  datatype Event = Event(key: Key, raw: real)

  /** What a finished session yields: the per-behaviour lists (the value
      `start()` returns) and the three sequences the summary is built from. */
  datatype Report = Report(
    actions: map<char, seq<Interval>>,
    totals: seq<real>,
    usedLabels: seq<string>,
    usedColors: seq<string>)

  /** The raw clock never runs backwards, from the reading at the start on. */
  predicate Chronological(clockAtStart: real, events: seq<Event>)
  {
    && (forall i :: 0 <= i < |events| ==> clockAtStart <= events[i].raw)
    && (forall i, j :: 0 <= i < j < |events| ==> events[i].raw <= events[j].raw)
  }

  /** Reference account of pausing on the raw clock alone: the raw reading at
      which the pause still open after `events` began, if one is open. Each
      space opens a pause, or closes the one that is open. */
  function PauseOpen(events: seq<Event>): (since: Option<real>)
  {
    if events == [] then None
    else
      var init, e := events[..|events| - 1], events[|events| - 1];
      if e.key != PauseToggle then PauseOpen(init)
      else if PauseOpen(init).Some? then None
      else Some(e.raw)
  }

  /** Reference account of the raw time spent in the pauses that `events`
      opened and closed. */
  function PausedTotal(events: seq<Event>): (t: real)
  {
    if events == [] then 0.0
    else
      var init, e := events[..|events| - 1], events[|events| - 1];
      PausedTotal(init)
        + if e.key == PauseToggle && PauseOpen(init).Some? then e.raw - PauseOpen(init).value else 0.0
  }

  /** `n` is the turn at which 'q' is read first. */
  predicate QuitsAt(events: seq<Event>, n: int)
  {
    0 <= n < |events| && events[n].key == Quit && forall k :: 0 <= k < n ==> events[k].key != Quit
  }

  /** The pause bookkeeping of `r` agrees with the reference account of
      `prefix`, the events it has seen. */
  ghost predicate PausesAgree(r: Recorder, clockAtStart: real, prefix: seq<Event>)
    reads r
  {
    && r.timeDelta == clockAtStart + PausedTotal(prefix)
    && (r.paused <==> PauseOpen(prefix).Some?)
    && (r.paused ==> r.pauseStart + r.timeDelta == PauseOpen(prefix).value)
  }

  /** Session time when 'q' is read at turn `n`: raw time since the start,
      less the pauses completed before it. */
  function QuitTime(clockAtStart: real, events: seq<Event>, n: nat): (now: real)
    requires n < |events|
  {
    events[n].raw - clockAtStart - PausedTotal(events[..n])
  }

  /** The `while True` loop of `start()`: one Step per event until 'q' has
      been read or the events run out. Returns the per-behaviour lists and
      whether 'q' was read; `log` is the chronological log behind the lists
      and `n` the turn at which 'q' was read. */
  method Record(clockAtStart: real, events: seq<Event>)
    returns (actions: map<char, seq<Interval>>, quit: bool, ghost log: seq<Entry>, ghost n: nat)
    requires Chronological(clockAtStart, events)
    ensures quit <==> exists k :: 0 <= k < |events| && events[k].key == Quit
    ensures quit ==> QuitsAt(events, n)
    ensures quit ==> Recorder.WellFormed(log) && Contiguous(log) && actions == Group(log)
    ensures quit ==> Reached(log) == QuitTime(clockAtStart, events, n)
  {
    var r := new Recorder(clockAtStart);
    var i := 0;
    while i < |events| && !r.ended
      invariant i <= |events|
      invariant r.Valid()
      invariant r.lastRaw == if i == 0 then clockAtStart else events[i - 1].raw
      invariant PausesAgree(r, clockAtStart, events[..i])
      invariant !r.ended ==> forall k :: 0 <= k < i ==> events[k].key != Quit
      invariant r.ended ==> 0 < i && QuitsAt(events, i - 1)
    {
      var e := events[i];
      assert events[..i + 1][..i] == events[..i];
      var warned := r.Step(e.key, e.raw);
      i := i + 1;
    }
    actions, quit, log, n := r.actions, r.ended, r.history, if i == 0 then 0 else i - 1;
    if quit {
      assert events[..i] == events[..n] + [events[n]];
      assert events[..i][..n] == events[..n];
    }
  }

  /** Every logged code is one of the eight, and every logged interval
      runs forward from time 0 on. */
  ghost predicate WellLogged(actions: map<char, seq<Interval>>)
  {
    && actions.Keys <= Labels.Keys
    && forall c, iv :: c in actions && iv in actions[c] ==> 0.0 <= iv.beg <= iv.end
  }

  /** The lists are a log grouped by behaviour, and that log tiles session
      time from 0 up to `upTo` with no gap and no overlap. */
  ghost predicate Tiles(actions: map<char, seq<Interval>>, upTo: real)
  {
    exists h :: Contiguous(h) && actions == Group(h) && Reached(h) == upTo
  }

  /** What a finished session guarantees of its report, when the log behind
      its lists reaches session time `upTo`. */
  ghost predicate Sound(r: Report, upTo: real)
  {
    && WellLogged(r.actions)
    && Tiles(r.actions, upTo)
    && IsSummary(r.actions, r.totals, r.usedLabels, r.usedColors)
    && (forall i :: 0 <= i < |r.totals| ==> r.totals[i] >= 0.0)
    // the totals account for all of the logged session time
    && Sum(r.totals) == upTo
  }

  /** The key loop of `start()` run over `events`, then the summary. The
      result is None when the events run out before 'q' is read (the source
      would then go on waiting for a key). */
  method Start(clockAtStart: real, events: seq<Event>) returns (outcome: Option<Report>)
    requires Chronological(clockAtStart, events)
    ensures outcome.Some? <==> exists n :: 0 <= n < |events| && events[n].key == Quit
    ensures outcome.Some? ==>
      exists n :: QuitsAt(events, n) && Sound(outcome.value, QuitTime(clockAtStart, events, n))
  {
    var actions, quit, log, n := Record(clockAtStart, events);
    if !quit {
      return None;
    }
    var totals, usedLabels, usedColors := Summarize(actions);
    outcome := Some(Report(actions, totals, usedLabels, usedColors));
    ReportSound(log, outcome.value);
  }

  /** A report built from a well-formed contiguous log is sound up to the
      time the log reaches. */
  lemma ReportSound(log: seq<Entry>, r: Report)
    requires Recorder.WellFormed(log) && Contiguous(log) && r.actions == Group(log)
    requires IsSummary(r.actions, r.totals, r.usedLabels, r.usedColors)
    ensures Sound(r, Reached(log))
  {
    LoggedIntervals(log);
    Telescoping(log);
    SummaryAccountsForLog(log, r.totals, r.usedLabels, r.usedColors);
    var codes := UsedCodes(PieOrder, r.actions);
    forall i | 0 <= i < |r.totals|
      ensures r.totals[i] >= 0.0
    {
      TotalNonNegative(r.actions[codes[i]]);
    }
  }

  /** Every list of a well-formed log is under a label code and runs forward
      from time 0 on. */
  lemma LoggedIntervals(h: seq<Entry>)
    requires Recorder.WellFormed(h)
    ensures WellLogged(Group(h))
  {
    GroupMembers(h);
    forall c, iv | c in Group(h) && iv in Group(h)[c]
      ensures c in Labels && 0.0 <= iv.beg <= iv.end
    {
      var k :| 0 <= k < |h| && h[k] == Entry(c, iv);
    }
  }
}
