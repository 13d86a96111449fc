# mice_notes session recorder, modelled in Dafny

mice_notes logs mouse behaviour by single key presses. Eight one-letter codes
name the behaviours: a Allogrooming, b Burrowing, c Climbing, g Grooming,
n Nesting, o Other, r Rearing, s Sitting. The session starts in Other at
session time 0. Pressing the code of another behaviour closes the open interval
and logs it under the behaviour that was current. Space pauses and resumes, and
the clock offset is shifted by each completed pause. `q` logs the last interval
and ends the session. The summary then lists, in the order a, b, r, c, g, o, s,
n, each logged behaviour with the total length of its intervals, its label and
its colour.

This project models the key loop of `start()` and its summary. The key source
and the wall clock are inputs. Each turn of the loop is an `Event`: the key
that was read and the raw clock reading taken after it.

- `Behaviours` (Behaviours.dfy) holds the label and colour tables, the summary
  order and the coercion of unknown keys to Other. `Key` is either
  `Press(ch)` or `NoChar`. `NoChar` stands for the interrupt sentinel `0` and
  for the empty string read at end of input. The source treats both alike,
  since neither is `q`, space or a label code.
- `Intervals` (Intervals.dfy) holds the `(start, end)` pairs and the
  `defaultdict(list)` append. It also holds a ghost chronological log of every
  appended interval, and `Group` turns that log back into the per-behaviour
  lists. `Contiguous` says the log tiles session time from 0 with no gap and no
  overlap.
- `Recording` (Recorder.dfy) defines the class `Recorder`. Its fields are the
  variables the loop updates: `action_type`, `action_start`, `paused`,
  `pause_start`, `time_delta` and `actions`. `Step` is one turn of the loop.
  It is split into one method per branch: `Finish` for `q`, `TogglePause` for
  space, and `Select` for a behaviour key. `Valid()` is the invariant every
  turn keeps:
  - every logged code is a label code;
  - every interval satisfies 0 ≤ start ≤ end;
  - the lists are the grouped log, and the log is contiguous;
  - the open interval starts where the log ends;
  - pause-compensated time (`Active`) never runs backwards.
- `Summary` (Summary.dfy) holds the summary loop (`Summarize`) and the
  inner `total` loop (`SegmentTotal`). The specification functions are
  `UsedCodes`, `Total` and `IsSummary`, and lemmas relate the totals to the
  log.
- `Session` (Session.dfy) holds `Record`, the `while True` loop over a finite
  event sequence, and `Start`, which is `Record` followed by the summary.
  `PauseOpen` and `PausedTotal` give an independent account of pausing on the
  raw clock alone. With them, `Start` proves that the summary totals add up to
  the raw time from the start to the `q`, less the completed pauses.

Where the docstring and the code differ, the model follows the code:
- Pause is the space key (mice_notes.py:155), not `p` as the docstring says
  (mice_notes.py:77).
- `q` is tested before anything else (mice_notes.py:118), so it ends the
  session even while paused. The final interval then ends at a time that
  still includes the unfinished pause (`QuitWhilePausedScenario`).
- The initial Other interval is logged as soon as another behaviour is
  selected, even when it has zero length. For example, `a` at 0, `s` at 5
  and `q` at 8 yield `o: [(0,0)], a: [(0,5)], s: [(5,8)]`
  (`SwitchScenario`).
- A completed pause is cut out of the open interval. The interval's end is
  read on the shifted clock, so pause, resume and quit leave a single Other
  interval whose length excludes the pause (`PauseScenario`).
- Session time read at a key pressed during a pause runs ahead. After the
  resume, the reading falls back to the pause's start. So `curr_time` itself
  is not monotone. The quantity the model proves monotone is `Active`: session
  time with any pause in progress cut off at its start. Every logged interval
  is bounded by it.

## Model

| member | source | states |
|---|---|---|
| Behaviours.Coerce | mice_notes.py:166-169 | a key read while recording selects a label code: a label key selects its own code, and anything else, including the interrupt sentinel, selects Other |
| Behaviours.TablesAgree | mice_notes.py:84-104 | each of the eight codes has exactly one label and one colour; the summary order lists every code exactly once; neither `q` nor space is a behaviour |
| Intervals.Append | mice_notes.py:113 | appending to a `defaultdict(list)` creates the key if it is missing, grows that key's list by exactly the new interval, and leaves every other list alone |
| Intervals.TotalNonNegative | mice_notes.py:130-132 | the accumulated total of a list of forward intervals is never negative |
| Intervals.Telescoping | mice_notes.py:174-177 | in a contiguous log (each interval starts where the previous ended, the first at 0), the interval lengths add up to the time the log reaches |
| Intervals.GroupMembers | mice_notes.py:174-175 | the per-behaviour lists hold exactly the logged intervals, each under the code it was logged for (both directions) |
| Intervals.GroupKeepsOrder | mice_notes.py:174-175 | within each behaviour's list, intervals keep the order in which they were logged |
| Recording.Recorder.constructor | mice_notes.py:81-113 | a new session records Other from session time 0, is not paused, has nothing logged, and its clock offset is the clock reading at the start |
| Recording.Recorder.CloseInterval | mice_notes.py:174-175 | logs exactly one interval (open start, now) under the current behaviour; the log stays contiguous and now reaches `now` |
| Recording.Recorder.Finish | mice_notes.py:118-120 | `q` logs the open interval up to the current session time, which includes any pause in progress, and ends the session |
| Recording.Recorder.TogglePause | mice_notes.py:155-164 | space toggles `paused`; pausing records the pause start; resuming adds the pause's length to the clock offset; compensated time does not go backwards |
| Recording.Recorder.Select | mice_notes.py:166-177 | the current code again changes nothing logged and keeps the open start; another code logs one interval and opens the next one at the same instant |
| Recording.Recorder.Step | mice_notes.py:114-177 | one turn: `q` ends the session whether paused or not; space toggles the pause; other keys are ignored while paused; the warning is shown exactly for unknown keys while recording; `Valid()` is kept and compensated time never decreases |
| Recording.SwitchScenario | mice_notes.py:107-108 | `a` at 0, `s` at 5, `q` at 8 give `o: [(0,0)], a: [(0,5)], s: [(5,8)]` |
| Recording.PauseScenario | mice_notes.py:155-166 | pausing from 2 to 6 with a key ignored in between, then quitting at raw 11, gives `o: [(0,7)]` |
| Recording.QuitWhilePausedScenario | mice_notes.py:118-120 | `q` pressed while paused still ends the session; the interval runs to 5, pause included |
| Summary.UsedCodes | mice_notes.py:126-127 | the summary codes are exactly the codes of the order that have a list |
| Summary.UsedCodesInOrder | mice_notes.py:104-127 | the summary visits the logged codes in the order a, b, r, c, g, o, s, n, each once |
| Summary.SummaryCoversLog | mice_notes.py:126-127 | when all logged codes are label codes, every logged code appears in the summary |
| Summary.SegmentTotal | mice_notes.py:130-132 | the `total` loop computes the sum of `end - beg` over the list |
| Summary.Summarize | mice_notes.py:123-140 | totals, labels and colours have equal length and line up index by index with the logged codes in summary order |
| Summary.GroupTotal | mice_notes.py:126-133 | grouping the log by behaviour loses no time: the per-behaviour totals add up to the total length of the log |
| Summary.SummaryAccountsForLog | mice_notes.py:123-140 | the summary's totals add up to the total length of the log behind the lists |
| Session.Record | mice_notes.py:113-177 | the loop ends exactly when a `q` is read; the lists are then a well-formed, contiguous log, grouped by behaviour, reaching the raw time of the first `q` less the clock at the start and the completed pauses |
| Session.Start | mice_notes.py:104-182 | for a non-decreasing clock, a report exists iff a `q` is read. Its logged codes are label codes and its intervals run forward and tile session time up to the quit. The summary lists them in order with non-negative totals, and the totals add up to raw elapsed time less completed pauses |
| Session.ReportSound | mice_notes.py:118-140 | a report built from a well-formed contiguous log is sound up to the time the log reaches |
| Session.LoggedIntervals | mice_notes.py:166-177 | the lists of a well-formed log are keyed by label codes and hold forward intervals only |

## Left out

- The terminal handling in `ready_stdin`, `read_key` and `restore_stdin`
  (mice_notes.py:17-54) is not modelled. It is termios/fcntl foreign calls on
  process-wide terminal state. Keys are an input sequence instead. The
  interrupt sentinel and end of input become `NoChar`.
- `time.time()` (mice_notes.py:81, 116) is replaced by raw clock readings
  given as input. `Start` and `Step` require those readings never to run
  backwards. Timestamps are exact reals, so Python float rounding is not
  modelled.
- All printed text is left out: progress lines, the pause notices, the
  warning text and the summary block (mice_notes.py:135-137, 160, 164, 168,
  172). `Step` only reports whether the warning is shown. The
  `print_progress` flag affects printing only, so it is not modelled.
- The matplotlib pie chart and its catch-all `except` (mice_notes.py:142-150)
  are left out because they are a foreign library and UI. The model stops at
  the three sequences the chart would be given.
- The `__main__` entry point (mice_notes.py:184-185) is not modelled.
- Session.Start: when the events run out before a `q`, the result is `None`.
  The source would instead block forever waiting for another key.
- Recording.Recorder.Step: `pause_start` is unbound in the source until the
  first pause. The model gives it 0, and that value is never read before a
  pause sets it.
