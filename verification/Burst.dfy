/** Grouping the frames of a continuous shot (`burst.rs`). */
module Burst {
  import opened Wrappers
  import opened Machine
  import opened Calendar

  type u32 = n: nat | n <= U32_MAX

  datatype Frame = Frame(path: string, sequenceNumber: Option<u32>, releaseMode: Option<string>,
                         capturedAt: Option<seq<Byte>>)

  datatype Group = Group(representative: string, members: seq<string>, releaseMode: Option<string>)

  predicate IsBracketing(frame: Frame) {
    frame.releaseMode == Some("Exposure Bracketing") || frame.releaseMode == Some("White Balance Bracketing")
    || frame.releaseMode == Some("DRO Bracketing")
  }

  predicate TakesPart(frame: Frame) {
    frame.sequenceNumber.Some? && !IsBracketing(frame)
  }

  /** `next` continues the burst of `previous`: the counter grows by one without overflow, in time. */
  predicate Continues(previous: Frame, next: Frame) {
    && previous.sequenceNumber.Some? && previous.sequenceNumber.value < U32_MAX
    && next.sequenceNumber == Some(previous.sequenceNumber.value + 1)
    && WithinBurstGap(previous.capturedAt, next.capturedAt)
  }

  // ---- The specification ----

  /** What grouping depends on: which frames count, and which continue one another. */
  datatype Rules = Rules(takesPart: Frame -> bool, continues: (Frame, Frame) -> bool)

  const BURST_RULES := Rules(TakesPart, Continues)

  /** The frames that matter, as positions in the input; a break stands for the others. */
  datatype Token = Break | At(index: nat)

  predicate Points(frames: seq<Frame>, tokens: seq<Token>) {
    forall k :: 0 <= k < |tokens| ==> tokens[k].At? ==> tokens[k].index < |frames|
  }

  /** A copy of a shot repeats the number of the frame kept just before it. */
  predicate Repeats(frames: seq<Frame>, tokens: seq<Token>, frame: Frame)
    requires Points(frames, tokens)
  {
    tokens != [] && tokens[|tokens| - 1].At?
    && frames[tokens[|tokens| - 1].index].sequenceNumber == frame.sequenceNumber
  }

  /** Split at the frames that take no part, and drop the copies. */
  function Kept(rules: Rules, frames: seq<Frame>, n: nat): (tokens: seq<Token>)
    requires n <= |frames|
    ensures Points(frames, tokens)
    ensures forall k :: 0 <= k < |tokens| ==> tokens[k].At? ==> tokens[k].index < n
  {
    if n == 0 then []
    else
      var tokens := Kept(rules, frames, n - 1);
      if !rules.takesPart(frames[n - 1]) then tokens + [Break]
      else if Repeats(frames, tokens, frames[n - 1]) then tokens
      else tokens + [At(n - 1)]
  }

  predicate Linked(rules: Rules, frames: seq<Frame>, a: Token, b: Token) {
    a.At? && b.At? && a.index < |frames| && b.index < |frames| && rules.continues(frames[a.index], frames[b.index])
  }

  /** A stretch of kept frames that continue one another and that no neighbour continues. */
  predicate Maximal(rules: Rules, frames: seq<Frame>, tokens: seq<Token>, i: nat, j: nat) {
    && i < j <= |tokens|
    && (forall k :: i <= k < j ==> tokens[k].At?)
    && (forall k :: i < k < j ==> Linked(rules, frames, tokens[k - 1], tokens[k]))
    && (i > 0 ==> !Linked(rules, frames, tokens[i - 1], tokens[i]))
    && (j < |tokens| ==> !Linked(rules, frames, tokens[j - 1], tokens[j]))
  }

  datatype Range = Range(lo: nat, hi: nat)

  /** The frames that a list of tokens points to. */
  function FramesOf(frames: seq<Frame>, tokens: seq<Token>): seq<Frame> {
    if tokens == [] then []
    else
      var last := tokens[|tokens| - 1];
      FramesOf(frames, tokens[..|tokens| - 1])
      + if last.At? && last.index < |frames| then [frames[last.index]] else []
  }

  function Stretch(frames: seq<Frame>, tokens: seq<Token>, r: Range): seq<Frame> {
    if r.lo <= r.hi <= |tokens| then FramesOf(frames, tokens[r.lo..r.hi]) else []
  }

  function Paths(run: seq<Frame>): seq<string> {
    seq(|run|, k requires 0 <= k < |run| => run[k].path)
  }

  function GroupOf(run: seq<Frame>): Group
    requires run != []
  {
    Group(run[0].path, Paths(run), run[0].releaseMode)
  }

  /** A finished run becomes a group when it has two frames or more. */
  function Flushed(groups: seq<Group>, run: seq<Frame>): seq<Group> {
    if |run| < 2 then groups else groups + [GroupOf(run)]
  }

  /** The groups of a list of ranges, in order. */
  function GroupsOf(frames: seq<Frame>, tokens: seq<Token>, ranges: seq<Range>): seq<Group> {
    if ranges == [] then []
    else Flushed(GroupsOf(frames, tokens, ranges[..|ranges| - 1]), Stretch(frames, tokens, ranges[|ranges| - 1]))
  }

  /** The ranges are disjoint and in order, and end by `limit`. */
  ghost predicate Ordered(ranges: seq<Range>, limit: nat) {
    ranges == [] ||
    (ranges[|ranges| - 1].lo < ranges[|ranges| - 1].hi <= limit && Ordered(ranges[..|ranges| - 1], ranges[|ranges| - 1].lo))
  }

  /** Every range is a maximal stretch, and every maximal stretch is a range. */
  ghost predicate Exact(rules: Rules, frames: seq<Frame>, tokens: seq<Token>, ranges: seq<Range>) {
    forall r: Range :: r in ranges <==> Maximal(rules, frames, tokens, r.lo, r.hi)
  }

  /** The declarative result: exactly the maximal chains, those of two frames or more as groups. */
  ghost predicate IsGrouping(rules: Rules, frames: seq<Frame>, groups: seq<Group>) {
    var tokens := Kept(rules, frames, |frames|);
    exists ranges :: Exact(rules, frames, tokens, ranges) && Ordered(ranges, |tokens|)
      && groups == GroupsOf(frames, tokens, ranges)
  }

  // ---- The maximal stretches, found from left to right ----

  predicate EndsOpen(tokens: seq<Token>) {
    tokens != [] && tokens[|tokens| - 1].At?
  }

  predicate Extends(rules: Rules, frames: seq<Frame>, tokens: seq<Token>, t: Token) {
    tokens != [] && Linked(rules, frames, tokens[|tokens| - 1], t)
  }

  /** The last range, one longer. */
  function Grown(ranges: seq<Range>): seq<Range> {
    if ranges == [] then []
    else ranges[..|ranges| - 1] + [Range(ranges[|ranges| - 1].lo, ranges[|ranges| - 1].hi + 1)]
  }

  function Added(rules: Rules, frames: seq<Frame>, tokens: seq<Token>, t: Token, ranges: seq<Range>): seq<Range> {
    if t.Break? then ranges
    else if Extends(rules, frames, tokens, t) then Grown(ranges)
    else ranges + [Range(|tokens|, |tokens| + 1)]
  }

  function Ranges(rules: Rules, frames: seq<Frame>, tokens: seq<Token>): seq<Range> {
    if tokens == [] then []
    else
      var init := tokens[..|tokens| - 1];
      Added(rules, frames, init, tokens[|tokens| - 1], Ranges(rules, frames, init))
  }

  lemma RangesSnoc(rules: Rules, frames: seq<Frame>, tokens: seq<Token>, t: Token)
    ensures Ranges(rules, frames, tokens + [t]) == Added(rules, frames, tokens, t, Ranges(rules, frames, tokens))
  {
    assert (tokens + [t])[..|tokens|] == tokens;
  }

  lemma {:induction false} OrderedWeaken(ranges: seq<Range>, limit: nat, more: nat)
    requires Ordered(ranges, limit) && limit <= more
    ensures Ordered(ranges, more)
  {
  }

  lemma OrderedGrown(ranges: seq<Range>, limit: nat)
    requires Ordered(ranges, limit) && ranges != [] && ranges[|ranges| - 1].hi == limit
    ensures Ordered(Grown(ranges), limit + 1)
    ensures Grown(ranges)[..|ranges| - 1] == ranges[..|ranges| - 1]
  {
    assert Grown(ranges)[..|ranges| - 1] == ranges[..|ranges| - 1];
  }

  lemma {:induction false} RangesAreOrdered(rules: Rules, frames: seq<Frame>, tokens: seq<Token>)
    ensures var ranges := Ranges(rules, frames, tokens);
      && Ordered(ranges, |tokens|)
      && (EndsOpen(tokens) ==> ranges != [] && ranges[|ranges| - 1].hi == |tokens|)
  {
    if tokens != [] {
      var init, t := tokens[..|tokens| - 1], tokens[|tokens| - 1];
      var ranges := Ranges(rules, frames, init);
      RangesAreOrdered(rules, frames, init);
      OrderedWeaken(ranges, |init|, |tokens|);
      if t.At? && Extends(rules, frames, init, t) {
        OrderedGrown(ranges, |init|);
      } else if t.At? {
        assert (ranges + [Range(|init|, |tokens|)])[..|ranges|] == ranges;
      }
    }
  }

  lemma MaximalUnlinked(rules: Rules, frames: seq<Frame>, tokens: seq<Token>, t: Token, r: Range)
    requires !Extends(rules, frames, tokens, t)
    ensures Maximal(rules, frames, tokens + [t], r.lo, r.hi) <==>
      Maximal(rules, frames, tokens, r.lo, r.hi) || (t.At? && r == Range(|tokens|, |tokens| + 1))
  {
    var longer := tokens + [t];
    assert forall k :: 0 <= k < |tokens| ==> longer[k] == tokens[k];
    assert longer[|tokens|] == t;
    if r.lo < |tokens| < r.hi {
      assert !Linked(rules, frames, longer[|tokens| - 1], longer[|tokens|]);
    }
  }

  lemma MaximalLinked(rules: Rules, frames: seq<Frame>, tokens: seq<Token>, t: Token, r: Range)
    requires Extends(rules, frames, tokens, t)
    ensures Maximal(rules, frames, tokens + [t], r.lo, r.hi) <==>
      (r.hi < |tokens| && Maximal(rules, frames, tokens, r.lo, r.hi))
      || (r.hi == |tokens| + 1 && Maximal(rules, frames, tokens, r.lo, |tokens|))
  {
    var longer := tokens + [t];
    assert forall k :: 0 <= k < |tokens| ==> longer[k] == tokens[k];
    assert longer[|tokens|] == t;
  }

  lemma {:induction false} OrderedBelow(ranges: seq<Range>, limit: nat)
    requires Ordered(ranges, limit)
    ensures forall r :: r in ranges ==> r.lo < r.hi <= limit
  {
    if ranges != [] {
      OrderedBelow(ranges[..|ranges| - 1], ranges[|ranges| - 1].lo);
      assert ranges == ranges[..|ranges| - 1] + [ranges[|ranges| - 1]];
    }
  }

  lemma GrownMembers(ranges: seq<Range>, limit: nat, r: Range)
    requires Ordered(ranges, limit) && ranges != [] && ranges[|ranges| - 1].hi == limit
    ensures r in Grown(ranges) <==>
      (r.hi < limit && r in ranges) || (r.hi == limit + 1 && Range(r.lo, limit) in ranges)
  {
    var last, init := ranges[|ranges| - 1], ranges[..|ranges| - 1];
    assert ranges == init + [last];
    OrderedBelow(init, last.lo);
  }

  /** Both directions: the ranges are the maximal stretches. */
  lemma {:induction false} RangesAreExact(rules: Rules, frames: seq<Frame>, tokens: seq<Token>, r: Range)
    ensures r in Ranges(rules, frames, tokens) <==> Maximal(rules, frames, tokens, r.lo, r.hi)
  {
    if tokens != [] {
      var init, t := tokens[..|tokens| - 1], tokens[|tokens| - 1];
      var ranges := Ranges(rules, frames, init);
      assert tokens == init + [t];
      RangesAreExact(rules, frames, init, r);
      if Extends(rules, frames, init, t) {
        RangesAreExact(rules, frames, init, Range(r.lo, |init|));
        RangesAreOrdered(rules, frames, init);
        MaximalLinked(rules, frames, init, t, r);
        GrownMembers(ranges, |init|, r);
      } else {
        MaximalUnlinked(rules, frames, init, t, r);
      }
    }
  }

  // ---- The loop ----

  method Flush(groups: seq<Group>, run: seq<Frame>) returns (groups': seq<Group>, run': seq<Frame>)
    ensures run' == [] && groups' == Flushed(groups, run)
  {
    if |run| < 2 {
      return groups, [];
    }
    groups' := groups + [Group(run[0].path, Paths(run), run[0].releaseMode)];
    run' := [];
  }

  /** The groups that are finished once the kept tokens are `tokens`. */
  function Finished(rules: Rules, frames: seq<Frame>, tokens: seq<Token>): seq<Group> {
    var ranges := Ranges(rules, frames, tokens);
    GroupsOf(frames, tokens, if EndsOpen(tokens) && ranges != [] then ranges[..|ranges| - 1] else ranges)
  }

  /** The run that is still open. */
  function Unfinished(rules: Rules, frames: seq<Frame>, tokens: seq<Token>): seq<Frame> {
    var ranges := Ranges(rules, frames, tokens);
    if EndsOpen(tokens) && ranges != [] then Stretch(frames, tokens, ranges[|ranges| - 1]) else []
  }

  lemma FlushFinishes(rules: Rules, frames: seq<Frame>, tokens: seq<Token>)
    ensures Flushed(Finished(rules, frames, tokens), Unfinished(rules, frames, tokens))
      == GroupsOf(frames, tokens, Ranges(rules, frames, tokens))
  {
    RangesAreOrdered(rules, frames, tokens);
  }

  lemma {:induction false} GroupsOfLonger(frames: seq<Frame>, tokens: seq<Token>, t: Token, ranges: seq<Range>, limit: nat)
    requires Ordered(ranges, limit) && limit <= |tokens|
    ensures GroupsOf(frames, tokens + [t], ranges) == GroupsOf(frames, tokens, ranges)
  {
    if ranges != [] {
      var r := ranges[|ranges| - 1];
      GroupsOfLonger(frames, tokens, t, ranges[..|ranges| - 1], r.lo);
      assert (tokens + [t])[r.lo..r.hi] == tokens[r.lo..r.hi];
    }
  }

  lemma StretchGrows(frames: seq<Frame>, tokens: seq<Token>, n: nat, lo: nat)
    requires n < |frames| && lo <= |tokens|
    ensures Stretch(frames, tokens + [At(n)], Range(lo, |tokens| + 1)) == Stretch(frames, tokens, Range(lo, |tokens|)) + [frames[n]]
  {
    var s := (tokens + [At(n)])[lo..|tokens| + 1];
    assert s[..|s| - 1] == tokens[lo..|tokens|];
  }

  /** The open run ends in the last kept frame. */
  lemma UnfinishedLast(rules: Rules, frames: seq<Frame>, tokens: seq<Token>)
    requires Points(frames, tokens)
    ensures var run := Unfinished(rules, frames, tokens);
      && (run == [] <==> !EndsOpen(tokens))
      && (EndsOpen(tokens) ==> run[|run| - 1] == frames[tokens[|tokens| - 1].index])
  {
    RangesAreOrdered(rules, frames, tokens);
    if EndsOpen(tokens) {
      var ranges := Ranges(rules, frames, tokens);
      var init, t := tokens[..|tokens| - 1], tokens[|tokens| - 1];
      assert tokens == init + [t];
      StretchGrows(frames, init, t.index, ranges[|ranges| - 1].lo);
    }
  }

  lemma BreakFinishes(rules: Rules, frames: seq<Frame>, tokens: seq<Token>)
    ensures Finished(rules, frames, tokens + [Break]) == GroupsOf(frames, tokens, Ranges(rules, frames, tokens))
    ensures Unfinished(rules, frames, tokens + [Break]) == []
  {
    RangesSnoc(rules, frames, tokens, Break);
    RangesAreOrdered(rules, frames, tokens);
    GroupsOfLonger(frames, tokens, Break, Ranges(rules, frames, tokens), |tokens|);
  }

  lemma StartFinishes(rules: Rules, frames: seq<Frame>, tokens: seq<Token>, n: nat)
    requires n < |frames| && !Extends(rules, frames, tokens, At(n))
    ensures Finished(rules, frames, tokens + [At(n)]) == GroupsOf(frames, tokens, Ranges(rules, frames, tokens))
    ensures Unfinished(rules, frames, tokens + [At(n)]) == [frames[n]]
  {
    var ranges := Ranges(rules, frames, tokens);
    RangesSnoc(rules, frames, tokens, At(n));
    RangesAreOrdered(rules, frames, tokens);
    GroupsOfLonger(frames, tokens, At(n), ranges, |tokens|);
    StretchGrows(frames, tokens, n, |tokens|);
    assert (ranges + [Range(|tokens|, |tokens| + 1)])[..|ranges|] == ranges;
  }

  lemma NextGrows(rules: Rules, frames: seq<Frame>, tokens: seq<Token>, n: nat)
    requires n < |frames| && Extends(rules, frames, tokens, At(n))
    ensures var ranges := Ranges(rules, frames, tokens);
      && ranges != [] && ranges[|ranges| - 1].hi == |tokens| && ranges[|ranges| - 1].lo <= |tokens|
      && Ranges(rules, frames, tokens + [At(n)]) == Grown(ranges)
      && Grown(ranges)[..|ranges| - 1] == ranges[..|ranges| - 1]
      && Ordered(ranges[..|ranges| - 1], ranges[|ranges| - 1].lo)
  {
    RangesSnoc(rules, frames, tokens, At(n));
    RangesAreOrdered(rules, frames, tokens);
    OrderedGrown(Ranges(rules, frames, tokens), |tokens|);
  }

  lemma NextContinues(rules: Rules, frames: seq<Frame>, tokens: seq<Token>, n: nat)
    requires n < |frames| && Extends(rules, frames, tokens, At(n))
    ensures Finished(rules, frames, tokens + [At(n)]) == Finished(rules, frames, tokens)
    ensures Unfinished(rules, frames, tokens + [At(n)]) == Unfinished(rules, frames, tokens) + [frames[n]]
  {
    var ranges := Ranges(rules, frames, tokens);
    NextGrows(rules, frames, tokens, n);
    GroupsOfLonger(frames, tokens, At(n), ranges[..|ranges| - 1], ranges[|ranges| - 1].lo);
    StretchGrows(frames, tokens, n, ranges[|ranges| - 1].lo);
    hide Ranges;
    hide GroupsOf;
    hide Ordered;
    hide Stretch;
  }

  /** One turn of the loop. */
  function Turn(rules: Rules, frame: Frame, groups: seq<Group>, run: seq<Frame>): (seq<Group>, seq<Frame>) {
    if !rules.takesPart(frame) then (Flushed(groups, run), [])
    else if run != [] && run[|run| - 1].sequenceNumber == frame.sequenceNumber then (groups, run)
    else if run != [] && rules.continues(run[|run| - 1], frame) then (groups, run + [frame])
    else (Flushed(groups, run), [frame])
  }

  predicate Reached(rules: Rules, frames: seq<Frame>, n: nat, groups: seq<Group>, run: seq<Frame>)
    requires n <= |frames|
  {
    var tokens := Kept(rules, frames, n);
    groups == Finished(rules, frames, tokens) && run == Unfinished(rules, frames, tokens)
  }

  /** A turn does to groups and run what keeping the frame does to the tokens. */
  lemma TurnKeeps(rules: Rules, frames: seq<Frame>, n: nat, groups: seq<Group>, run: seq<Frame>)
    requires n < |frames| && Reached(rules, frames, n, groups, run)
    ensures Reached(rules, frames, n + 1, Turn(rules, frames[n], groups, run).0, Turn(rules, frames[n], groups, run).1)
  {
    var tokens := Kept(rules, frames, n);
    hide Finished;
    hide Unfinished;
    hide GroupsOf;
    hide Flushed;
    FlushFinishes(rules, frames, tokens);
    UnfinishedLast(rules, frames, tokens);
    if !rules.takesPart(frames[n]) {
      BreakFinishes(rules, frames, tokens);
    } else if Repeats(frames, tokens, frames[n]) {
    } else if Extends(rules, frames, tokens, At(n)) {
      NextContinues(rules, frames, tokens, n);
    } else {
      StartFinishes(rules, frames, tokens, n);
    }
  }

  /** The groups and the open run after `n` turns. */
  function Turns(rules: Rules, frames: seq<Frame>, n: nat): (seq<Group>, seq<Frame>)
    requires n <= |frames|
  {
    if n == 0 then ([], [])
    else
      var before := Turns(rules, frames, n - 1);
      Turn(rules, frames[n - 1], before.0, before.1)
  }

  lemma NothingYet(rules: Rules, frames: seq<Frame>)
    ensures Reached(rules, frames, 0, [], [])
  {
  }

  lemma {:induction false} TurnsKeep(rules: Rules, frames: seq<Frame>, n: nat)
    requires n <= |frames|
    ensures Reached(rules, frames, n, Turns(rules, frames, n).0, Turns(rules, frames, n).1)
  {
    hide Turn;
    hide Reached;
    if n == 0 {
      NothingYet(rules, frames);
    } else {
      var before := Turns(rules, frames, n - 1);
      TurnsKeep(rules, frames, n - 1);
      TurnKeeps(rules, frames, n - 1, before.0, before.1);
    }
  }

  /** The loop, over any rules. */
  method GroupBy(rules: Rules, frames: seq<Frame>) returns (groups: seq<Group>)
    ensures IsGrouping(rules, frames, groups)
  {
    groups := [];
    var run: seq<Frame> := [];
    for n := 0 to |frames|
      invariant (groups, run) == Turns(rules, frames, n)
    {
      var frame := frames[n];
      if !rules.takesPart(frame) {
        groups, run := Flush(groups, run);
        continue;
      }
      if run == [] {
        run := [frame];
        continue;
      }
      var last := run[|run| - 1];
      if last.sequenceNumber == frame.sequenceNumber {
        continue;
      }
      if !rules.continues(last, frame) {
        groups, run := Flush(groups, run);
        assert run + [frame] == [frame];
      }
      run := run + [frame];
    }
    FinalGrouping(rules, frames);
    groups, run := Flush(groups, run);
  }

  lemma FinalGrouping(rules: Rules, frames: seq<Frame>)
    ensures var (groups, run) := Turns(rules, frames, |frames|); IsGrouping(rules, frames, Flushed(groups, run))
  {
    var tokens := Kept(rules, frames, |frames|);
    TurnsKeep(rules, frames, |frames|);
    FlushFinishes(rules, frames, tokens);
    RangesAreOrdered(rules, frames, tokens);
    forall r: Range
      ensures r in Ranges(rules, frames, tokens) <==> Maximal(rules, frames, tokens, r.lo, r.hi)
    {
      RangesAreExact(rules, frames, tokens, r);
    }
    assert Exact(rules, frames, tokens, Ranges(rules, frames, tokens));
  }

  method GroupBursts(frames: seq<Frame>) returns (groups: seq<Group>)
    ensures IsGrouping(BURST_RULES, frames, groups)
  {
    groups := GroupBy(BURST_RULES, frames);
  }

  // ---- What the declarative result means ----

  lemma MemberSplit(s: seq<Range>, r: Range)
    requires s != []
    ensures r in s <==> r in s[..|s| - 1] || r == s[|s| - 1]
  {
    assert s == s[..|s| - 1] + [s[|s| - 1]];
  }

  lemma {:induction false} OrderedSameSet(a: seq<Range>, b: seq<Range>, limit: nat)
    requires Ordered(a, limit) && Ordered(b, limit)
    requires forall r :: r in a <==> r in b
    ensures a == b
  {
    if a != [] && b != [] {
      var x, y, initA, initB := a[|a| - 1], b[|b| - 1], a[..|a| - 1], b[..|b| - 1];
      OrderedBelow(initA, x.lo);
      OrderedBelow(initB, y.lo);
      MemberSplit(a, y);
      MemberSplit(b, x);
      forall r: Range
        ensures r in initA <==> r in initB
      {
        MemberSplit(a, r);
        MemberSplit(b, r);
      }
      OrderedSameSet(initA, initB, x.lo);
    } else {
      SomeMember(a);
      SomeMember(b);
    }
  }

  lemma SomeMember(s: seq<Range>)
    ensures s == [] || s[0] in s
  {
  }

  /** The specification determines the groups. */
  lemma GroupingIsUnique(rules: Rules, frames: seq<Frame>, one: seq<Group>, other: seq<Group>)
    requires IsGrouping(rules, frames, one) && IsGrouping(rules, frames, other)
    ensures one == other
  {
    var tokens := Kept(rules, frames, |frames|);
    var a :| Exact(rules, frames, tokens, a) && Ordered(a, |tokens|) && one == GroupsOf(frames, tokens, a);
    var b :| Exact(rules, frames, tokens, b) && Ordered(b, |tokens|) && other == GroupsOf(frames, tokens, b);
    OrderedSameSet(a, b, |tokens|);
  }

  /** Kept positions grow, and every kept frame takes part. */
  ghost predicate Growing(rules: Rules, frames: seq<Frame>, tokens: seq<Token>) {
    && (forall k :: 0 <= k < |tokens| ==> tokens[k].At? ==> tokens[k].index < |frames| && rules.takesPart(frames[tokens[k].index]))
    && (forall j, k :: 0 <= j < k < |tokens| ==> tokens[j].At? && tokens[k].At? ==> tokens[j].index < tokens[k].index)
  }

  lemma {:induction false} KeptGrows(rules: Rules, frames: seq<Frame>, n: nat)
    requires n <= |frames|
    ensures Growing(rules, frames, Kept(rules, frames, n))
  {
    if n > 0 {
      KeptGrows(rules, frames, n - 1);
      var tokens, longer := Kept(rules, frames, n - 1), Kept(rules, frames, n);
      assert longer == tokens || longer == tokens + [Break] || longer == tokens + [At(n - 1)];
      assert forall k :: 0 <= k < |tokens| ==> longer[k] == tokens[k];
    }
  }

  /** One group is a chain of two or more frames, given by their positions in the input. */
  ghost predicate Chain(rules: Rules, frames: seq<Frame>, group: Group, picks: seq<nat>) {
    && |picks| == |group.members| >= 2
    && (forall k :: 0 <= k < |picks| ==>
          picks[k] < |frames| && rules.takesPart(frames[picks[k]]) && group.members[k] == frames[picks[k]].path)
    && (forall k :: 0 < k < |picks| ==>
          picks[k - 1] < picks[k] && rules.continues(frames[picks[k - 1]], frames[picks[k]]))
    && group.representative == frames[picks[0]].path && group.releaseMode == frames[picks[0]].releaseMode
  }

  function Picks(tokens: seq<Token>): (picks: seq<nat>)
    ensures (forall k :: 0 <= k < |tokens| ==> tokens[k].At?) ==>
      |picks| == |tokens| && forall k :: 0 <= k < |tokens| ==> tokens[k] == At(picks[k])
  {
    if tokens == [] then []
    else Picks(tokens[..|tokens| - 1]) + if tokens[|tokens| - 1].At? then [tokens[|tokens| - 1].index] else []
  }

  lemma {:induction false} FramesOfPicks(frames: seq<Frame>, tokens: seq<Token>)
    requires forall k :: 0 <= k < |tokens| ==> tokens[k].At? && tokens[k].index < |frames|
    ensures |FramesOf(frames, tokens)| == |tokens|
    ensures forall k :: 0 <= k < |tokens| ==> FramesOf(frames, tokens)[k] == frames[tokens[k].index]
  {
    if tokens != [] {
      FramesOfPicks(frames, tokens[..|tokens| - 1]);
    }
  }

  lemma StretchPicks(rules: Rules, frames: seq<Frame>, tokens: seq<Token>, r: Range)
    requires Growing(rules, frames, tokens) && Maximal(rules, frames, tokens, r.lo, r.hi)
    ensures var picks, run := Picks(tokens[r.lo..r.hi]), Stretch(frames, tokens, r);
      && |picks| == |run| == r.hi - r.lo
      && forall k :: 0 <= k < |picks| ==>
           tokens[r.lo + k] == At(picks[k]) && picks[k] < |frames| && run[k] == frames[picks[k]]
  {
    var part := tokens[r.lo..r.hi];
    assert forall k :: 0 <= k < |part| ==> part[k] == tokens[r.lo + k];
    FramesOfPicks(frames, part);
  }

  lemma RangeIsChain(rules: Rules, frames: seq<Frame>, tokens: seq<Token>, r: Range)
    requires Growing(rules, frames, tokens) && Maximal(rules, frames, tokens, r.lo, r.hi)
    ensures |Stretch(frames, tokens, r)| == r.hi - r.lo
    ensures r.hi - r.lo >= 2 ==> Chain(rules, frames, GroupOf(Stretch(frames, tokens, r)), Picks(tokens[r.lo..r.hi]))
  {
    var picks := Picks(tokens[r.lo..r.hi]);
    StretchPicks(rules, frames, tokens, r);
    forall k | 0 < k < |picks|
      ensures picks[k - 1] < picks[k] && rules.continues(frames[picks[k - 1]], frames[picks[k]])
    {
      var j := r.lo + k;
      assert Linked(rules, frames, tokens[j - 1], tokens[j]);
      assert tokens[r.lo + (k - 1)] == At(picks[k - 1]);
    }
    forall k | 0 <= k < |picks|
      ensures rules.takesPart(frames[picks[k]])
    {
      assert tokens[r.lo + k] == At(picks[k]);
    }
  }

  /** Groups are chains of the input, disjoint and in its order. */
  ghost predicate ChainsInOrder(rules: Rules, frames: seq<Frame>, groups: seq<Group>, picks: seq<seq<nat>>) {
    && |picks| == |groups|
    && (forall g :: 0 <= g < |groups| ==> Chain(rules, frames, groups[g], picks[g]))
    && (forall g, h :: 0 <= g < h < |picks| ==> AllBelow(picks[g], picks[h]))
  }

  ghost predicate AllBelow(a: seq<nat>, b: seq<nat>) {
    forall x, y :: x in a && y in b ==> x < y
  }

  /** The positions found among the first `limit` tokens. */
  ghost predicate PickedFrom(tokens: seq<Token>, limit: nat, picks: seq<nat>) {
    limit <= |tokens| && forall x :: x in picks ==> At(x) in tokens[..limit]
  }

  lemma PicksAreOrdered(rules: Rules, frames: seq<Frame>, tokens: seq<Token>, lo: nat, hi: nat, earlier: seq<nat>)
    requires Growing(rules, frames, tokens) && lo <= hi <= |tokens|
    requires forall k :: lo <= k < hi ==> tokens[k].At?
    requires PickedFrom(tokens, lo, earlier)
    ensures AllBelow(earlier, Picks(tokens[lo..hi]))
    ensures PickedFrom(tokens, hi, earlier) && PickedFrom(tokens, hi, Picks(tokens[lo..hi]))
  {
    var part := tokens[lo..hi];
    var picks := Picks(part);
    assert forall k :: 0 <= k < |part| ==> part[k] == tokens[lo + k] == tokens[..hi][lo + k];
    forall x, y | x in earlier && y in picks
      ensures x < y
    {
      var i :| 0 <= i < lo && tokens[..lo][i] == At(x);
      var k :| 0 <= k < |picks| && picks[k] == y;
      assert tokens[i] == At(x) && tokens[lo + k] == At(y);
    }
    forall x | x in earlier
      ensures At(x) in tokens[..hi]
    {
      var i :| 0 <= i < lo && tokens[..lo][i] == At(x);
      assert tokens[..hi][i] == At(x);
    }
  }

  lemma ChainsSnoc(rules: Rules, frames: seq<Frame>, groups: seq<Group>, picks: seq<seq<nat>>, group: Group, pick: seq<nat>)
    requires ChainsInOrder(rules, frames, groups, picks) && Chain(rules, frames, group, pick)
    requires forall g :: 0 <= g < |picks| ==> AllBelow(picks[g], pick)
    ensures ChainsInOrder(rules, frames, groups + [group], picks + [pick])
  {
  }

  lemma {:induction false} GroupsAreChains(rules: Rules, frames: seq<Frame>, tokens: seq<Token>, ranges: seq<Range>, limit: nat)
      returns (picks: seq<seq<nat>>)
    requires Growing(rules, frames, tokens) && limit <= |tokens| && Ordered(ranges, limit)
    requires forall r :: r in ranges ==> Maximal(rules, frames, tokens, r.lo, r.hi)
    ensures ChainsInOrder(rules, frames, GroupsOf(frames, tokens, ranges), picks)
    ensures forall g :: 0 <= g < |picks| ==> PickedFrom(tokens, limit, picks[g])
  {
    picks := [];
    if ranges != [] {
      var r, init := ranges[|ranges| - 1], ranges[..|ranges| - 1];
      assert ranges == init + [r] && r in ranges;
      picks := GroupsAreChains(rules, frames, tokens, init, r.lo);
      RangeIsChain(rules, frames, tokens, r);
      PicksFit(rules, frames, tokens, r, limit, picks);
      if r.hi - r.lo >= 2 {
        ChainsSnoc(rules, frames, GroupsOf(frames, tokens, init), picks, GroupOf(Stretch(frames, tokens, r)),
                   Picks(tokens[r.lo..r.hi]));
        picks := picks + [Picks(tokens[r.lo..r.hi])];
      }
    }
  }

  lemma PicksFit(rules: Rules, frames: seq<Frame>, tokens: seq<Token>, r: Range, limit: nat, picks: seq<seq<nat>>)
    requires Growing(rules, frames, tokens) && Maximal(rules, frames, tokens, r.lo, r.hi) && r.hi <= limit <= |tokens|
    requires forall g :: 0 <= g < |picks| ==> PickedFrom(tokens, r.lo, picks[g])
    ensures forall g :: 0 <= g < |picks| ==> PickedFrom(tokens, limit, picks[g])
    ensures forall g :: 0 <= g < |picks| ==> AllBelow(picks[g], Picks(tokens[r.lo..r.hi]))
    ensures PickedFrom(tokens, limit, Picks(tokens[r.lo..r.hi]))
  {
    assert tokens[..r.hi] == tokens[..limit][..r.hi];
    PicksAreOrdered(rules, frames, tokens, r.lo, r.hi, []);
    forall g | 0 <= g < |picks|
      ensures PickedFrom(tokens, limit, picks[g]) && AllBelow(picks[g], Picks(tokens[r.lo..r.hi]))
    {
      PicksAreOrdered(rules, frames, tokens, r.lo, r.hi, picks[g]);
    }
  }

  /**
   So every group is a chain of at least two frames that take part, each
   continuing the one before; groups share no frame and follow the input.
   */
  lemma GroupingIsChains(rules: Rules, frames: seq<Frame>, groups: seq<Group>)
    requires IsGrouping(rules, frames, groups)
    ensures exists picks :: ChainsInOrder(rules, frames, groups, picks)
  {
    var tokens := Kept(rules, frames, |frames|);
    var ranges :| Exact(rules, frames, tokens, ranges) && Ordered(ranges, |tokens|) && groups == GroupsOf(frames, tokens, ranges);
    KeptGrows(rules, frames, |frames|);
    var picks := GroupsAreChains(rules, frames, tokens, ranges, |tokens|);
  }

  /** In every group the counter goes up one by one, and no frame is a bracketing one. */
  lemma {:induction false} MembersCountUp(frames: seq<Frame>, group: Group, picks: seq<nat>, k: nat)
    requires Chain(BURST_RULES, frames, group, picks) && k < |picks|
    ensures var first, frame := frames[picks[0]], frames[picks[k]];
      && first.sequenceNumber.Some? && frame.sequenceNumber.Some? && !IsBracketing(frame)
      && frame.sequenceNumber.value == first.sequenceNumber.value + k
    ensures k > 0 ==> WithinBurstGap(frames[picks[k - 1]].capturedAt, frames[picks[k]].capturedAt)
  {
    hide WithinBurstGap;
    hide IsBracketing;
    assert BURST_RULES.takesPart(frames[picks[0]]) && BURST_RULES.takesPart(frames[picks[k]]);
    if k > 0 {
      MembersCountUp(frames, group, picks, k - 1);
      assert BURST_RULES.continues(frames[picks[k - 1]], frames[picks[k]]);
    }
  }

  lemma {:induction false} TurnsOfPrefix(rules: Rules, frames: seq<Frame>, others: seq<Frame>, n: nat)
    requires n <= |frames| && n <= |others| && frames[..n] == others[..n]
    ensures Turns(rules, frames, n) == Turns(rules, others, n) && Kept(rules, frames, n) == Kept(rules, others, n)
  {
    hide Turn;
    if n > 0 {
      assert frames[..n - 1] == frames[..n][..n - 1] && others[..n - 1] == others[..n][..n - 1];
      assert frames[n - 1] == frames[..n][n - 1] == others[..n][n - 1] == others[n - 1];
      TurnsOfPrefix(rules, frames, others, n - 1);
      assert Repeats(frames, Kept(rules, frames, n - 1), frames[n - 1])
        == Repeats(others, Kept(rules, others, n - 1), others[n - 1]) by {
        KeptIsBelow(rules, frames, others, n - 1);
      }
    }
  }

  /** The tokens point below `n`, where both lists agree. */
  lemma KeptIsBelow(rules: Rules, frames: seq<Frame>, others: seq<Frame>, n: nat)
    requires n <= |frames| && n <= |others| && frames[..n] == others[..n]
    ensures forall k :: 0 <= k < |Kept(rules, frames, n)| && Kept(rules, frames, n)[k].At? ==>
      Kept(rules, frames, n)[k].index < n
      && frames[Kept(rules, frames, n)[k].index] == others[Kept(rules, frames, n)[k].index]
  {
    forall k | 0 <= k < |Kept(rules, frames, n)| && Kept(rules, frames, n)[k].At?
      ensures frames[Kept(rules, frames, n)[k].index] == others[Kept(rules, frames, n)[k].index]
    {
      var i := Kept(rules, frames, n)[k].index;
      assert frames[i] == frames[..n][i] == others[..n][i] == others[i];
    }
  }

  /** A copy leaves groups and open run alone. */
  lemma CopyTurn(rules: Rules, frames: seq<Frame>, n: nat)
    requires n < |frames| && rules.takesPart(frames[n]) && Repeats(frames, Kept(rules, frames, n), frames[n])
    ensures Turns(rules, frames, n + 1) == Turns(rules, frames, n)
  {
    TurnsKeep(rules, frames, n);
    UnfinishedLast(rules, frames, Kept(rules, frames, n));
    hide Finished;
    hide Unfinished;
  }

  /** Behind the copy both lists go on alike. */
  lemma {:induction false} TurnsBehind(rules: Rules, before: seq<Frame>, copy: Frame, after: seq<Frame>, m: nat)
    requires m <= |after| && rules.takesPart(copy)
    requires Repeats(before + [copy] + after, Kept(rules, before + [copy] + after, |before|), copy)
    ensures Turns(rules, before + [copy] + after, |before| + 1 + m) == Turns(rules, before + after, |before| + m)
  {
    var long, short := before + [copy] + after, before + after;
    if m == 0 {
      assert long[..|before|] == before == short[..|before|];
      TurnsOfPrefix(rules, long, short, |before|);
      CopyTurn(rules, long, |before|);
    } else {
      TurnsBehind(rules, before, copy, after, m - 1);
      assert long[|before| + m] == after[m - 1] == short[|before| + m - 1];
      hide Turn;
    }
  }

  lemma TheGrouping(rules: Rules, frames: seq<Frame>, groups: seq<Group>)
    ensures var last := Turns(rules, frames, |frames|);
      IsGrouping(rules, frames, groups) <==> groups == Flushed(last.0, last.1)
  {
    FinalGrouping(rules, frames);
    var last := Turns(rules, frames, |frames|);
    if IsGrouping(rules, frames, groups) {
      GroupingIsUnique(rules, frames, groups, Flushed(last.0, last.1));
    }
    hide IsGrouping;
    hide Turns;
    hide Flushed;
  }

  /**
   A copy of a shot, that is, a frame that takes part and repeats the number of the frame kept
   last, may be left out of any input: the groups are the same. The comment at `burst.rs`
   line 64 says that a repeated index ends the run.
   */
  lemma ACopyDoesNotEndTheRun(
      rules: Rules, before: seq<Frame>, copy: Frame, after: seq<Frame>, groups: seq<Group>)
    requires rules.takesPart(copy)
    requires Repeats(before + [copy] + after, Kept(rules, before + [copy] + after, |before|), copy)
    ensures IsGrouping(rules, before + [copy] + after, groups) <==> IsGrouping(rules, before + after, groups)
  {
    hide IsGrouping;
    hide Turns;
    hide Flushed;
    hide Kept;
    TurnsBehind(rules, before, copy, after, |after|);
    TheGrouping(rules, before + [copy] + after, groups);
    TheGrouping(rules, before + after, groups);
  }

  // ---- Two frames ----

  const BRACKETING: set<string> := {"Exposure Bracketing", "White Balance Bracketing", "DRO Bracketing"}

  predicate InBurst(frame: Frame) {
    frame.sequenceNumber.Some? && (frame.releaseMode.Some? ==> frame.releaseMode.value !in BRACKETING)
  }

  predicate ReadableStamp(frame: Frame) {
    frame.capturedAt.Some? && IsReadable(frame.capturedAt.value)
  }

  /** Both count, the number goes up by one, and no two readable stamps lie more than ten seconds apart. */
  predicate Together(a: Frame, b: Frame) {
    && InBurst(a) && InBurst(b) && b.sequenceNumber.value == a.sequenceNumber.value + 1
    && (ReadableStamp(a) && ReadableStamp(b) ==>
          var first, second := ParseExifSeconds(a.capturedAt.value), ParseExifSeconds(b.capturedAt.value);
          first.Some? && second.Some? && -10 <= second.value - first.value <= 10)
  }

  lemma TogetherContinues(a: Frame, b: Frame)
    ensures TakesPart(a) <==> InBurst(a)
    ensures TakesPart(a) && TakesPart(b) ==> (Continues(a, b) <==> Together(a, b))
  {
    assert forall mode: string :: mode in BRACKETING <==>
      mode == "Exposure Bracketing" || mode == "White Balance Bracketing" || mode == "DRO Bracketing";
    GapFailsOnlyBetweenReadableStamps(a.capturedAt, b.capturedAt);
    if a.capturedAt.Some? {
      ReadableStampsAreRead(a.capturedAt.value);
    }
    if b.capturedAt.Some? {
      ReadableStampsAreRead(b.capturedAt.value);
    }
    hide WithinBurstGap;
    hide ParseExifSeconds;
    hide IsReadable;
    hide BRACKETING;
  }

  lemma TurnsOfTwo(a: Frame, b: Frame)
    ensures var last := Turns(BURST_RULES, [a, b], 2);
      Flushed(last.0, last.1) == if TakesPart(a) && TakesPart(b) && Continues(a, b) then [GroupOf([a] + [b])] else []
  {
    hide TakesPart;
    hide Continues;
    var first := Turns(BURST_RULES, [a, b], 1);
    assert Turns(BURST_RULES, [a, b], 0) == ([], []);
    assert first == ([], if TakesPart(a) then [a] else []);
    SameNumberDoesNotContinue(a, b);
  }

  lemma SameNumberDoesNotContinue(a: Frame, b: Frame)
    ensures a.sequenceNumber == b.sequenceNumber ==> !Continues(a, b)
  {
  }

  /** Two frames are one group exactly when they belong together, and no group otherwise. */
  lemma TwoFramesAreAGroupExactlyWhenTogether(a: Frame, b: Frame, groups: seq<Group>)
    requires IsGrouping(BURST_RULES, [a, b], groups)
    ensures groups == if Together(a, b) then [Group(a.path, [a.path, b.path], a.releaseMode)] else []
  {
    TheGrouping(BURST_RULES, [a, b], groups);
    TurnsOfTwo(a, b);
    TogetherContinues(a, b);
    TogetherContinues(b, a);
    hide IsGrouping;
    hide Turns;
    hide Continues;
    assert Paths([a] + [b]) == [a.path, b.path];
  }

  /** A stamp that is missing or cannot be read splits no burst. */
  lemma UnreadableStampsDoNotSplit(a: Frame, b: Frame, groups: seq<Group>)
    requires InBurst(a) && InBurst(b) && b.sequenceNumber.value == a.sequenceNumber.value + 1
    requires !ReadableStamp(a) || !ReadableStamp(b)
    requires IsGrouping(BURST_RULES, [a, b], groups)
    ensures groups == [Group(a.path, [a.path, b.path], a.releaseMode)]
  {
    TwoFramesAreAGroupExactlyWhenTogether(a, b, groups);
    hide IsGrouping;
    hide ReadableStamp;
  }

  /** A copy between two frames that belong together is skipped, and they are one group. */
  lemma ACopyIsSkipped(a: Frame, copy: Frame, b: Frame, groups: seq<Group>)
    requires Together(a, b) && InBurst(copy) && copy.sequenceNumber == a.sequenceNumber
    requires IsGrouping(BURST_RULES, [a] + [copy] + [b], groups)
    ensures groups == [Group(a.path, [a.path, b.path], a.releaseMode)]
  {
    TogetherContinues(a, copy);
    TogetherContinues(copy, a);
    var frames := [a] + [copy] + [b];
    KeptOfOne(frames);
    hide TakesPart;
    hide Continues;
    hide Together;
    ACopyDoesNotEndTheRun(BURST_RULES, [a], copy, [b], groups);
    assert [a] + [b] == [a, b];
    TwoFramesAreAGroupExactlyWhenTogether(a, b, groups);
    hide IsGrouping;
  }

  lemma KeptOfOne(frames: seq<Frame>)
    requires frames != [] && TakesPart(frames[0])
    ensures Kept(BURST_RULES, frames, 1) == [At(0)]
  {
    assert Kept(BURST_RULES, frames, 0) == [];
  }
}
