/**
 * The summary built when the session ends: for each behaviour code that was
 * logged, visited in a fixed order, the total of its interval lengths, its
 * label and its colour, gathered into three parallel sequences.
 */
module Summary {
  import opened Behaviours
  import opened Intervals

  /** Position of the first occurrence of `c` in `order`. */
  function Rank(order: seq<char>, c: char): (r: nat)
    requires c in order
    ensures r < |order| && order[r] == c
    ensures forall k :: 0 <= k < r ==> order[k] != c
  {
    var init := order[..|order| - 1];
    if c in init then Rank(init, c) else |order| - 1
  }

  /** The codes of `order` that have a list in `actions`, in that order. */
  function UsedCodes(order: seq<char>, actions: map<char, seq<Interval>>): (r: seq<char>)
    ensures forall c :: c in r <==> c in order && c in actions
    ensures |r| <= |order|
  {
    if order == [] then []
    else
      var init, c := order[..|order| - 1], order[|order| - 1];
      UsedCodes(init, actions) + if c in actions then [c] else []
  }

  /** The summary lists the logged codes in summary order, each once. */
  lemma {:induction false} UsedCodesInOrder(order: seq<char>, actions: map<char, seq<Interval>>)
    requires Distinct(order)
    ensures forall i, j :: 0 <= i < j < |UsedCodes(order, actions)| ==>
      Rank(order, UsedCodes(order, actions)[i]) < Rank(order, UsedCodes(order, actions)[j])
  {
    if order != [] {
      var init, c := order[..|order| - 1], order[|order| - 1];
      var r, r' := UsedCodes(order, actions), UsedCodes(init, actions);
      UsedCodesInOrder(init, actions);
      forall i, j | 0 <= i < j < |r|
        ensures Rank(order, r[i]) < Rank(order, r[j])
      {
        assert r[i] == r'[i] && r[i] in init;
        if j < |r'| {
          assert r[j] == r'[j] && r[j] in init;
        } else {
          assert r[j] == c && c !in init;
        }
      }
    }
  }

  /** The summary misses no logged behaviour: when every logged code is a
      label code, every logged code is listed. */
  lemma SummaryCoversLog(actions: map<char, seq<Interval>>)
    requires actions.Keys <= Labels.Keys
    ensures forall c :: c in UsedCodes(PieOrder, actions) <==> c in actions
  {
    TablesAgree();
  }

  /** Sum of the totals of the codes of `order` that have a list. */
  function SumTotals(order: seq<char>, actions: map<char, seq<Interval>>): (t: real)
  {
    if order == [] then 0.0
    else
      var init, c := order[..|order| - 1], order[|order| - 1];
      SumTotals(init, actions) + if c in actions then Total(actions[c]) else 0.0
  }

  function Sum(s: seq<real>): (t: real)
  {
    if s == [] then 0.0 else Sum(s[..|s| - 1]) + s[|s| - 1]
  }

  lemma {:induction false} SumTotalsNothingLogged(order: seq<char>)
    ensures SumTotals(order, map[]) == 0.0
  {
    if order != [] {
      SumTotalsNothingLogged(order[..|order| - 1]);
    }
  }

  /** Appending one interval under a code listed once in `order` raises the
      sum of the totals by that interval's length. */
  lemma {:induction false} SumTotalsAppend(order: seq<char>, actions: map<char, seq<Interval>>, code: char, iv: Interval)
    requires Distinct(order)
    ensures SumTotals(order, Append(actions, code, iv))
         == SumTotals(order, actions) + if code in order then Length(iv) else 0.0
  {
    if order != [] {
      var init, c := order[..|order| - 1], order[|order| - 1];
      SumTotalsAppend(init, actions, code, iv);
      if c == code {
        var segments := Logged(actions, code);
        assert (segments + [iv])[..|segments|] == segments;
        assert Total(segments + [iv]) == Total(segments) + Length(iv);
      }
    }
  }

  /** Grouping the log by behaviour loses no time: over an order that lists
      every logged code once, the per-behaviour totals add up to the total
      length of the log. */
  lemma {:induction false} GroupTotal(order: seq<char>, h: seq<Entry>)
    requires Distinct(order)
    requires forall k :: 0 <= k < |h| ==> h[k].code in order
    ensures SumTotals(order, Group(h)) == LogTotal(h)
  {
    if h != [] {
      var init, e := h[..|h| - 1], h[|h| - 1];
      GroupTotal(order, init);
      SumTotalsAppend(order, Group(init), e.code, e.span);
    } else {
      SumTotalsNothingLogged(order);
    }
  }

  /** Totals laid out as the summary lays them out add up to SumTotals. */
  lemma {:induction false} SumOfTotals(order: seq<char>, actions: map<char, seq<Interval>>, totals: seq<real>)
    requires |totals| == |UsedCodes(order, actions)|
    requires forall i :: 0 <= i < |totals| ==> totals[i] == Total(actions[UsedCodes(order, actions)[i]])
    ensures Sum(totals) == SumTotals(order, actions)
  {
    if order != [] {
      var init, c := order[..|order| - 1], order[|order| - 1];
      var n := |UsedCodes(init, actions)|;
      SumOfTotals(init, actions, totals[..n]);
      if c in actions {
        assert totals[..|totals| - 1] == totals[..n];
      } else {
        assert totals == totals[..n];
      }
    }
  }

  /** The three sequences list the codes of `order` that have a list in
      `actions`, in that order, each with the total of its intervals, its
      label and its colour. */
  ghost predicate Summarizes(order: seq<char>, actions: map<char, seq<Interval>>,
                             totals: seq<real>, usedLabels: seq<string>, usedColors: seq<string>)
  {
    var codes := UsedCodes(order, actions);
    && |totals| == |usedLabels| == |usedColors| == |codes|
    && forall i :: 0 <= i < |codes| ==>
         codes[i] in Labels && codes[i] in Colors && totals[i] == Total(actions[codes[i]])
         && usedLabels[i] == Labels[codes[i]] && usedColors[i] == Colors[codes[i]]
  }

  /** The summary the source builds: the codes in summary order. */
  ghost predicate IsSummary(actions: map<char, seq<Interval>>, totals: seq<real>, usedLabels: seq<string>, usedColors: seq<string>)
  {
    Summarizes(PieOrder, actions, totals, usedLabels, usedColors)
  }

  /** One more code visited: if it has a list, its total, label and colour
      are appended; otherwise nothing is. */
  lemma SummarizesNext(order: seq<char>, c: char, actions: map<char, seq<Interval>>,
                       totals: seq<real>, usedLabels: seq<string>, usedColors: seq<string>)
    requires Summarizes(order, actions, totals, usedLabels, usedColors)
    requires c in Labels && c in Colors
    ensures c in actions ==>
      Summarizes(order + [c], actions, totals + [Total(actions[c])], usedLabels + [Labels[c]], usedColors + [Colors[c]])
    ensures c !in actions ==> Summarizes(order + [c], actions, totals, usedLabels, usedColors)
  {
    assert (order + [c])[..|order|] == order;
  }

  /** The inner summary loop: adds up the length of each segment, first to
      last. */
  method SegmentTotal(segments: seq<Interval>) returns (total: real)
    ensures total == Total(segments)
  {
    total := 0.0;
    for i := 0 to |segments|
      invariant total == Total(segments[..i])
    {
      var beg, end := segments[i].beg, segments[i].end;
      assert segments[..i + 1][..i] == segments[..i];
      total := total + (end - beg);
    }
    assert segments[..|segments|] == segments;
  }

  /** The summary loop over the summary order: for each code with a list,
      its total, label and colour are appended to the three sequences. */
  method Summarize(actions: map<char, seq<Interval>>)
    returns (totals: seq<real>, usedLabels: seq<string>, usedColors: seq<string>)
    ensures IsSummary(actions, totals, usedLabels, usedColors)
  {
    TablesAgree();
    totals, usedLabels, usedColors := [], [], [];
    for j := 0 to |PieOrder|
      invariant Summarizes(PieOrder[..j], actions, totals, usedLabels, usedColors)
    {
      var key := PieOrder[j];
      assert PieOrder[..j + 1] == PieOrder[..j] + [key];
      SummarizesNext(PieOrder[..j], key, actions, totals, usedLabels, usedColors);
      if key in actions {
        var total := SegmentTotal(actions[key]);
        totals := totals + [total];
        usedLabels := usedLabels + [Labels[key]];
        usedColors := usedColors + [Colors[key]];
      }
    }
    assert PieOrder[..|PieOrder|] == PieOrder;
  }

  /** The summary's totals add up to the total length of the log its lists
      were grouped from. */
  lemma SummaryAccountsForLog(h: seq<Entry>, totals: seq<real>, usedLabels: seq<string>, usedColors: seq<string>)
    requires forall k :: 0 <= k < |h| ==> h[k].code in Labels
    requires IsSummary(Group(h), totals, usedLabels, usedColors)
    ensures Sum(totals) == LogTotal(h)
  {
    TablesAgree();
    SumOfTotals(PieOrder, Group(h), totals);
    GroupTotal(PieOrder, h);
  }
}
