/**
 * Intervals of session time and the two views of what has been logged: the
 * per-behaviour lists the recorder keeps (a dictionary that creates an
 * empty list for a code on first use), and the chronological log of every
 * interval appended to them.
 */
module Intervals {

  /** The pair (start, end) appended to a behaviour's list, in seconds of
      pause-compensated session time. */
  datatype Interval = Interval(beg: real, end: real)

  function Length(iv: Interval): (len: real)
  {
    iv.end - iv.beg
  }

  /** The sum of `end - beg` over a list of intervals, accumulated from the
      front as the summary does. */
  function Total(segments: seq<Interval>): (t: real)
  {
    if segments == [] then 0.0
    else Total(segments[..|segments| - 1]) + Length(segments[|segments| - 1])
  }

  lemma {:induction false} TotalNonNegative(segments: seq<Interval>)
    requires forall k :: 0 <= k < |segments| ==> segments[k].beg <= segments[k].end
    ensures Total(segments) >= 0.0
  {
    if segments != [] {
      TotalNonNegative(segments[..|segments| - 1]);
    }
  }

  /** The list logged so far for `code`; a behaviour never logged has none. */
  function Logged(actions: map<char, seq<Interval>>, code: char): (segments: seq<Interval>)
  {
    if code in actions then actions[code] else []
  }

  /** Adds `iv` to the end of `code`'s list, creating the list if `code` has
      none yet: that list grows by exactly `iv`, and no other list changes. */
  function Append(actions: map<char, seq<Interval>>, code: char, iv: Interval): (r: map<char, seq<Interval>>)
    ensures r.Keys == actions.Keys + {code}
    ensures r[code] == Logged(actions, code) + [iv]
    ensures forall c :: c in actions && c != code ==> r[c] == actions[c]
  {
    actions[code := Logged(actions, code) + [iv]]
  }

  /** One logged interval together with the behaviour it was logged for. */
  datatype Entry = Entry(code: char, span: Interval)

  function LogTotal(h: seq<Entry>): (t: real)
  {
    if h == [] then 0.0 else LogTotal(h[..|h| - 1]) + Length(h[|h| - 1].span)
  }

  /** The session time up to which the log accounts: the end of its last
      interval, or 0 before anything was logged. */
  function Reached(h: seq<Entry>): (upTo: real)
  {
    if h == [] then 0.0 else h[|h| - 1].span.end
  }

  /** The log tiles [0, Reached(h)] with no gap and no overlap: each interval
      starts where the previous one ended, and the first starts at 0. */
  predicate Contiguous(h: seq<Entry>)
  {
    h == [] || (Contiguous(h[..|h| - 1]) && h[|h| - 1].span.beg == Reached(h[..|h| - 1]))
  }

  /** Interval lengths of a contiguous log add up to the time it reaches. */
  lemma {:induction false} Telescoping(h: seq<Entry>)
    requires Contiguous(h)
    ensures LogTotal(h) == Reached(h)
  {
    if h != [] {
      Telescoping(h[..|h| - 1]);
    }
  }

  /** The per-behaviour lists built by appending every entry of the log in
      order. */
  function Group(h: seq<Entry>): (actions: map<char, seq<Interval>>)
  {
    if h == [] then map[]
    else Append(Group(h[..|h| - 1]), h[|h| - 1].code, h[|h| - 1].span)
  }

  /** The per-behaviour lists hold exactly the logged intervals, each under
      the code it was logged for. */
  lemma {:induction false} GroupMembers(h: seq<Entry>)
    ensures forall c, iv :: c in Group(h) && iv in Group(h)[c] <==> Entry(c, iv) in h
  {
    if h != [] {
      var init, e := h[..|h| - 1], h[|h| - 1];
      assert h == init + [e];
      GroupMembers(init);
      forall c, iv
        ensures c in Group(h) && iv in Group(h)[c] <==> Entry(c, iv) in h
      {
        if c == e.code {
          assert Group(h)[c] == Logged(Group(init), c) + [e.span];
        }
      }
    }
  }

  /** Within each behaviour's list, the intervals keep the order in which they
      were logged. */
  lemma {:induction false} GroupKeepsOrder(h: seq<Entry>, c: char, p: nat, q: nat)
    requires c in Group(h) && p < q < |Group(h)[c]|
    ensures exists i, j :: 0 <= i < j < |h| && h[i] == Entry(c, Group(h)[c][p]) && h[j] == Entry(c, Group(h)[c][q])
  {
    var init, e := h[..|h| - 1], h[|h| - 1];
    var g := Group(init);
    if e.code == c && q == |Group(h)[c]| - 1 {
      assert Group(h)[c][q] == e.span;
      assert Group(h)[c][p] == Logged(g, c)[p];
      GroupMembers(init);
      assert Entry(c, Logged(g, c)[p]) in init;
      var i :| 0 <= i < |init| && init[i] == Entry(c, Logged(g, c)[p]);
      assert h[i] == init[i] && h[|h| - 1] == e;
    } else {
      assert c in g && Group(h)[c][..|g[c]|] == g[c] && q < |g[c]|;
      GroupKeepsOrder(init, c, p, q);
      var i, j :| 0 <= i < j < |init| && init[i] == Entry(c, g[c][p]) && init[j] == Entry(c, g[c][q]);
      assert h[i] == init[i] && h[j] == init[j];
    }
  }
}
