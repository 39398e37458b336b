/** Scrolling a list: the capped stepping loop equals stepping without a cap. */
module Scrolling {
  import opened Wrappers

  /** A row shows an entry or nothing selectable; several rows may show the same entry. */
  type Row = Option<int>

  datatype Position = Position(start: nat, selected: int)

  // ----- Searches -----

  function FirstSome(rows: seq<Row>, lo: nat, hi: nat): Row
    requires lo <= hi <= |rows|
    decreases hi - lo
  {
    if lo == hi then None
    else if rows[lo].Some? then rows[lo]
    else FirstSome(rows, lo + 1, hi)
  }

  function LastSome(rows: seq<Row>, lo: nat, hi: nat): Row
    requires lo <= hi <= |rows|
    decreases hi - lo
  {
    if lo == hi then None
    else if rows[hi - 1].Some? then rows[hi - 1]
    else LastSome(rows, lo, hi - 1)
  }

  function FirstAbove(rows: seq<Row>, selected: int, from: nat): Row
    requires from <= |rows|
    decreases |rows| - from
  {
    if from == |rows| then None
    else if rows[from].Some? && rows[from].value > selected then rows[from]
    else FirstAbove(rows, selected, from + 1)
  }

  function LastBelow(rows: seq<Row>, selected: int, to: nat): Row
    requires to <= |rows|
  {
    if to == 0 then None
    else if rows[to - 1].Some? && rows[to - 1].value < selected then rows[to - 1]
    else LastBelow(rows, selected, to - 1)
  }

  function FirstIndex(rows: seq<Row>, row: Row, from: nat): Option<nat>
    requires from <= |rows|
    decreases |rows| - from
  {
    if from == |rows| then None
    else if rows[from] == row then Some(from)
    else FirstIndex(rows, row, from + 1)
  }

  function LastIndex(rows: seq<Row>, row: Row, to: nat): Option<nat>
    requires to <= |rows|
  {
    if to == 0 then None
    else if rows[to - 1] == row then Some(to - 1)
    else LastIndex(rows, row, to - 1)
  }

  lemma {:induction false} FirstSomeFound(rows: seq<Row>, lo: nat, hi: nat) returns (i: nat)
    requires lo <= hi <= |rows|
    ensures FirstSome(rows, lo, hi).None? ==> forall k :: lo <= k < hi ==> rows[k].None?
    ensures FirstSome(rows, lo, hi).Some? ==> lo <= i < hi && rows[i] == FirstSome(rows, lo, hi)
    decreases hi - lo
  {
    i := lo;
    if lo < hi && rows[lo].None? { i := FirstSomeFound(rows, lo + 1, hi); }
  }

  lemma {:induction false} FirstAboveFound(rows: seq<Row>, selected: int, from: nat) returns (i: nat)
    requires from <= |rows|
    ensures FirstAbove(rows, selected, from).Some? ==>
              i < |rows| && rows[i] == FirstAbove(rows, selected, from) && rows[i].value > selected
    decreases |rows| - from
  {
    i := from;
    if from < |rows| && !(rows[from].Some? && rows[from].value > selected) { i := FirstAboveFound(rows, selected, from + 1); }
  }

  lemma {:induction false} LastIndexFound(rows: seq<Row>, row: Row, to: nat)
    requires to <= |rows|
    ensures var last := LastIndex(rows, row, to);
            && (last.Some? ==> last.value < to && rows[last.value] == row)
            && forall k :: 0 <= k < to && rows[k] == row ==> last.Some? && k <= last.value
  {
    if to > 0 && rows[to - 1] != row { LastIndexFound(rows, row, to - 1); }
  }

  // ----- One step -----

  function LastStart(rows: seq<Row>, visible: nat): nat {
    if |rows| < visible then 0 else |rows| - visible
  }

  /** The window has moved down to `start`; the selection follows once no row shows it any more. */
  function FollowDown(rows: seq<Row>, visible: nat, start: nat, selected: int): int
    requires start <= |rows|
  {
    var last := LastIndex(rows, Some(selected), |rows|);
    if last.None? || last.value < start then
      match FirstSome(rows, start, Min(start + visible, |rows|))
      case Some(first) => first
      case None => selected
    else selected
  }

  function FollowUp(rows: seq<Row>, visible: nat, start: nat, selected: int): int
    requires visible > 0 && start < |rows|
  {
    var edge := start + visible - 1;
    var first := FirstIndex(rows, Some(selected), 0);
    if first.None? || first.value > edge then
      match LastSome(rows, start, Min(edge, |rows| - 1) + 1)
      case Some(last) => last
      case None => selected
    else selected
  }

  /** One step down: the window moves, and takes the selection along once it leaves; at the end the selection moves. */
  function StepDown(rows: seq<Row>, visible: nat, p: Position): Position
    requires visible > 0 && p.start <= LastStart(rows, visible)
  {
    if p.start == LastStart(rows, visible) then
      match FirstAbove(rows, p.selected, 0)
      case Some(next) => p.(selected := next)
      case None => p
    else
      Position(p.start + 1, FollowDown(rows, visible, p.start + 1, p.selected))
  }

  function StepUp(rows: seq<Row>, visible: nat, p: Position): Position
    requires visible > 0 && p.start <= LastStart(rows, visible)
  {
    if p.start == 0 then
      match LastBelow(rows, p.selected, |rows|)
      case Some(next) => p.(selected := next)
      case None => p
    else
      Position(p.start - 1, FollowUp(rows, visible, p.start - 1, p.selected))
  }

  function Step(rows: seq<Row>, visible: nat, p: Position, down: bool): (next: Position)
    requires visible > 0 && p.start <= LastStart(rows, visible)
    ensures next.start <= LastStart(rows, visible)
  {
    if down then StepDown(rows, visible, p) else StepUp(rows, visible, p)
  }

  function Steps(rows: seq<Row>, visible: nat, p: Position, down: bool, count: nat): (last: Position)
    requires visible > 0 && p.start <= LastStart(rows, visible)
    ensures last.start <= LastStart(rows, visible)
    decreases count
  {
    if count == 0 then p else Steps(rows, visible, Step(rows, visible, p, down), down, count - 1)
  }

  lemma {:induction false} StepsAdd(rows: seq<Row>, visible: nat, p: Position, down: bool, first: nat, second: nat)
    requires visible > 0 && p.start <= LastStart(rows, visible)
    ensures Steps(rows, visible, Steps(rows, visible, p, down, first), down, second) == Steps(rows, visible, p, down, first + second)
    decreases first
  {
    if first > 0 { StepsAdd(rows, visible, Step(rows, visible, p, down), down, first - 1, second); }
  }

  // ----- What a step selects -----

  /** The entries shown never go back, which is how every list is laid out. */
  ghost predicate Sorted(rows: seq<Row>) {
    forall i, j :: 0 <= i < j < |rows| && rows[i].Some? && rows[j].Some? ==> rows[i].value <= rows[j].value
  }

  function Max(a: int, b: int): int {
    if a < b then b else a
  }

  /** In sorted rows, following the window down is moving up to the first entry it shows, if that is further. */
  lemma FollowDownClamps(rows: seq<Row>, visible: nat, start: nat, selected: int)
    requires Sorted(rows) && start + visible <= |rows| && Some(selected) in rows
    ensures FollowDown(rows, visible, start, selected)
            == match FirstSome(rows, start, start + visible)
               case Some(first) => Max(selected, first)
               case None => selected
  {
    var f := FirstSomeFound(rows, start, start + visible);
    LastIndexFound(rows, Some(selected), |rows|);
    if FirstSome(rows, start, start + visible).Some? { FirstSomeIsFirst(rows, start, start + visible); }
  }

  lemma {:induction false} FirstSomeIsFirst(rows: seq<Row>, lo: nat, hi: nat)
    requires Sorted(rows) && lo <= hi <= |rows| && FirstSome(rows, lo, hi).Some?
    ensures forall k :: lo <= k < |rows| && rows[k].Some? ==> FirstSome(rows, lo, hi).value <= rows[k].value
    decreases hi - lo
  {
    if rows[lo].None? { FirstSomeIsFirst(rows, lo + 1, hi); }
  }

  /** In sorted rows, stepping down at the end selects the next entry, and stays only at the last. */
  lemma {:induction false} FirstAboveIsNext(rows: seq<Row>, selected: int, from: nat)
    requires Sorted(rows) && from <= |rows|
    ensures match FirstAbove(rows, selected, from)
            case Some(next) =>
              next > selected
              && forall k :: from <= k < |rows| && rows[k].Some? && rows[k].value > selected ==> next <= rows[k].value
            case None => forall k :: from <= k < |rows| && rows[k].Some? ==> rows[k].value <= selected
    decreases |rows| - from
  {
    if from < |rows| && !(rows[from].Some? && rows[from].value > selected) { FirstAboveIsNext(rows, selected, from + 1); }
  }

  /**
   * A step down moves the window by one row, if it can. The selection stays as long as a row at or below the top of the
   * window shows it, and otherwise becomes the first entry the window shows.
   */
  lemma StepDownMoves(rows: seq<Row>, visible: nat, p: Position)
    requires visible > 0 && p.start < LastStart(rows, visible)
    ensures var next := StepDown(rows, visible, p);
            && next.start == p.start + 1
            && ((exists i :: p.start < i < |rows| && rows[i] == Some(p.selected)) ==> next.selected == p.selected)
            && ((forall i :: p.start < i < |rows| ==> rows[i] != Some(p.selected)) ==>
                  forall j :: p.start < j <= p.start + visible && rows[j].Some? && (forall k :: p.start < k < j ==> rows[k].None?) ==>
                                next.selected == rows[j].value)
            && ((forall j :: p.start < j <= p.start + visible ==> rows[j].None?) ==> next.selected == p.selected)
  {
    LastIndexFound(rows, Some(p.selected), |rows|);
    forall j | p.start < j <= p.start + visible && rows[j].Some? && (forall k :: p.start < k < j ==> rows[k].None?)
      ensures FirstSome(rows, p.start + 1, p.start + 1 + visible) == rows[j]
    {
      FirstSomeAt(rows, p.start + 1, p.start + 1 + visible, j);
    }
    var f := FirstSomeFound(rows, p.start + 1, p.start + 1 + visible);
  }

  lemma {:induction false} FirstSomeAt(rows: seq<Row>, lo: nat, hi: nat, j: nat)
    requires lo <= j < hi <= |rows| && rows[j].Some? && forall k :: lo <= k < j ==> rows[k].None?
    ensures FirstSome(rows, lo, hi) == rows[j]
    decreases j - lo
  {
    if lo < j { FirstSomeAt(rows, lo + 1, hi, j); }
  }

  /** With the window at the end, a step down selects the next entry, if there is one. */
  lemma StepDownAtEnd(rows: seq<Row>, visible: nat, p: Position)
    requires Sorted(rows) && visible > 0 && p.start == LastStart(rows, visible)
    ensures var next := StepDown(rows, visible, p);
            && next.start == p.start
            && ((exists i :: 0 <= i < |rows| && rows[i].Some? && rows[i].value > p.selected) ==>
                  Some(next.selected) in rows && next.selected > p.selected
                  && forall k :: 0 <= k < |rows| && rows[k].Some? && rows[k].value > p.selected ==> next.selected <= rows[k].value)
            && ((forall i :: 0 <= i < |rows| && rows[i].Some? ==> rows[i].value <= p.selected) ==> next == p)
  {
    FirstAboveIsNext(rows, p.selected, 0);
    var i := FirstAboveFound(rows, p.selected, 0);
  }

  /** However far: the window moves a row for each step until it is at its end. */
  lemma {:induction false} WindowMoves(rows: seq<Row>, visible: nat, p: Position, down: bool, count: nat)
    requires visible > 0 && p.start <= LastStart(rows, visible)
    ensures Steps(rows, visible, p, down, count).start
         == if down then Min(p.start + count, LastStart(rows, visible)) else if p.start < count then 0 else p.start - count
    decreases count
  {
    if count > 0 { WindowMoves(rows, visible, Step(rows, visible, p, down), down, count - 1); }
  }

  // ----- The mirror image: scrolling up is scrolling down on the reversed, negated rows -----

  function Negated(row: Row): Row {
    match row
    case Some(value) => Some(-value)
    case None => None
  }

  ghost predicate AreMirrored(rows: seq<Row>, mirrored: seq<Row>) {
    |mirrored| == |rows| && forall i :: 0 <= i < |rows| ==> mirrored[i] == Negated(rows[|rows| - 1 - i])
  }

  function Mirror(rows: seq<Row>): (mirrored: seq<Row>)
    ensures AreMirrored(rows, mirrored)
  {
    seq(|rows|, i requires 0 <= i < |rows| => Negated(rows[|rows| - 1 - i]))
  }

  function MirrorPosition(rows: seq<Row>, visible: nat, p: Position): Position
    requires p.start <= LastStart(rows, visible)
  {
    Position(LastStart(rows, visible) - p.start, -p.selected)
  }

  lemma {:induction false} MirrorLastSome(rows: seq<Row>, mirrored: seq<Row>, lo: nat, hi: nat)
    requires AreMirrored(rows, mirrored) && lo <= hi <= |rows|
    ensures FirstSome(mirrored, |rows| - hi, |rows| - lo) == Negated(LastSome(rows, lo, hi))
    decreases hi - lo
  {
    if lo < hi { MirrorLastSome(rows, mirrored, lo, hi - 1); }
  }

  lemma {:induction false} MirrorLastBelow(rows: seq<Row>, mirrored: seq<Row>, selected: int, to: nat)
    requires AreMirrored(rows, mirrored) && to <= |rows|
    ensures FirstAbove(mirrored, -selected, |rows| - to) == Negated(LastBelow(rows, selected, to))
  {
    if to > 0 { MirrorLastBelow(rows, mirrored, selected, to - 1); }
  }

  lemma {:induction false} MirrorFirstIndex(rows: seq<Row>, mirrored: seq<Row>, row: Row, from: nat)
    requires AreMirrored(rows, mirrored) && from <= |rows|
    ensures match FirstIndex(rows, row, from)
            case None => LastIndex(mirrored, Negated(row), |rows| - from).None?
            case Some(i) => i < |rows| && LastIndex(mirrored, Negated(row), |rows| - from) == Some(|rows| - 1 - i)
    decreases |rows| - from
  {
    if from < |rows| { MirrorFirstIndex(rows, mirrored, row, from + 1); }
  }

  lemma FollowUpIsMirrored(rows: seq<Row>, mirrored: seq<Row>, visible: nat, start: nat, selected: int)
    requires AreMirrored(rows, mirrored) && visible > 0 && start + visible <= |rows|
    ensures FollowDown(mirrored, visible, |rows| - (start + visible), -selected) == -FollowUp(rows, visible, start, selected)
  {
    MirrorFirstIndex(rows, mirrored, Some(selected), 0);
    MirrorLastSome(rows, mirrored, start, start + visible);
  }

  lemma StepUpIsMirrored(rows: seq<Row>, mirrored: seq<Row>, visible: nat, p: Position)
    requires AreMirrored(rows, mirrored) && visible > 0 && p.start <= LastStart(rows, visible)
    ensures MirrorPosition(rows, visible, StepUp(rows, visible, p)) == StepDown(mirrored, visible, MirrorPosition(rows, visible, p))
  {
    if p.start == 0 {
      MirrorLastBelow(rows, mirrored, p.selected, |rows|);
    } else {
      FollowUpIsMirrored(rows, mirrored, visible, p.start - 1, p.selected);
    }
  }

  lemma {:induction false} StepsUpAreMirrored(rows: seq<Row>, visible: nat, p: Position, count: nat)
    requires visible > 0 && p.start <= LastStart(rows, visible)
    ensures MirrorPosition(rows, visible, Steps(rows, visible, p, false, count))
            == Steps(Mirror(rows), visible, MirrorPosition(rows, visible, p), true, count)
    decreases count
  {
    if count > 0 {
      StepUpIsMirrored(rows, Mirror(rows), visible, p);
      StepsUpAreMirrored(rows, visible, StepUp(rows, visible, p), count - 1);
    }
  }

  // ----- The cap -----

  lemma MirrorSorted(rows: seq<Row>)
    requires Sorted(rows)
    ensures Sorted(Mirror(rows))
  {}

  /** The number of rows with an entry past the selection. */
  function Above(rows: seq<Row>, selected: int): (count: nat)
    ensures count <= |rows|
  {
    if rows == [] then 0
    else Above(rows[1..], selected) + if rows[0].Some? && rows[0].value > selected then 1 else 0
  }

  lemma {:induction false} AboveWithin(rows: seq<Row>, selected: int, from: nat, to: nat)
    requires from <= to <= |rows|
    requires forall i :: 0 <= i < |rows| && rows[i].Some? && rows[i].value > selected ==> from <= i < to
    ensures Above(rows, selected) <= to - from
  {
    if rows != [] {
      assert forall i :: 0 <= i < |rows[1..]| ==> rows[1..][i] == rows[i + 1];
      if from == 0 && to > 0 {
        AboveWithin(rows[1..], selected, 0, to - 1);
      } else if from > 0 {
        AboveWithin(rows[1..], selected, from - 1, to - 1);
      } else {
        AboveWithin(rows[1..], selected, 0, 0);
      }
    }
  }

  lemma {:induction false} AboveDecreases(rows: seq<Row>, lower: int, higher: int)
    requires lower <= higher
    ensures Above(rows, higher) <= Above(rows, lower)
    ensures lower < higher && Some(higher) in rows ==> Above(rows, higher) < Above(rows, lower)
  {
    if rows != [] {
      assert rows == [rows[0]] + rows[1..];
      AboveDecreases(rows[1..], lower, higher);
    }
  }

  ghost predicate MoreToShow(rows: seq<Row>, start: nat) {
    exists i :: start < i < |rows| && rows[i].Some?
  }

  /** How many steps down can still change the position. */
  ghost function StepsLeft(rows: seq<Row>, visible: nat, p: Position): nat
    requires visible > 0 && p.start <= LastStart(rows, visible)
  {
    LastStart(rows, visible) - p.start
    + if p.start < LastStart(rows, visible) && MoreToShow(rows, p.start) then visible else Above(rows, p.selected)
  }

  lemma StepsLeftWithinCap(rows: seq<Row>, visible: nat, p: Position)
    requires visible > 0 && p.start <= LastStart(rows, visible)
    ensures StepsLeft(rows, visible, p) <= |rows| + visible
  {
    if p.start < LastStart(rows, visible) && !MoreToShow(rows, p.start) {
      AboveWithin(rows, p.selected, 0, p.start + 1);
    }
  }

  /** After the window moved onto a row range with an entry, only rows of that range can be past the selection. */
  lemma FollowingLeavesFewAbove(rows: seq<Row>, visible: nat, p: Position)
    requires visible > 0 && p.start < LastStart(rows, visible) && Sorted(rows) && MoreToShow(rows, p.start)
    ensures var next := StepDown(rows, visible, p);
            next.start == LastStart(rows, visible) || !MoreToShow(rows, next.start) ==> Above(rows, next.selected) <= visible
  {
    var next := StepDown(rows, visible, p);
    var start := p.start + 1;
    var f := FirstSomeFound(rows, start, start + visible);
    LastIndexFound(rows, Some(p.selected), |rows|);
    if next.start == LastStart(rows, visible) || !MoreToShow(rows, next.start) {
      var i :| p.start < i < |rows| && rows[i].Some?;
      assert i < start + visible;
      assert exists k :: start <= k < |rows| && rows[k] == Some(next.selected) by {
        var last := LastIndex(rows, Some(p.selected), |rows|);
        if last.None? || last.value < start { assert rows[f] == Some(next.selected); }
      }
      var k :| start <= k < |rows| && rows[k] == Some(next.selected);
      AboveWithin(rows, next.selected, start, if next.start == LastStart(rows, visible) then |rows| else start + 1);
    }
  }

  /** Every step down either uses up one of the steps left or changes nothing, now and from then on. */
  lemma StepUsesUp(rows: seq<Row>, visible: nat, p: Position)
    requires visible > 0 && p.start <= LastStart(rows, visible) && Sorted(rows)
    ensures var next := StepDown(rows, visible, p);
            next == p || StepsLeft(rows, visible, next) < StepsLeft(rows, visible, p)
  {
    var next := StepDown(rows, visible, p);
    if p.start == LastStart(rows, visible) {
      var i := FirstAboveFound(rows, p.selected, 0);
      if next != p { AboveDecreases(rows, p.selected, next.selected); }
    } else if MoreToShow(rows, p.start) {
      FollowingLeavesFewAbove(rows, visible, p);
    } else {
      var i := FirstSomeFound(rows, p.start + 1, p.start + 1 + visible);
      assert next.selected == p.selected;
      assert !MoreToShow(rows, next.start);
    }
  }

  lemma {:induction false} FixpointStays(rows: seq<Row>, visible: nat, p: Position, down: bool, count: nat)
    requires visible > 0 && p.start <= LastStart(rows, visible) && Step(rows, visible, p, down) == p
    ensures Steps(rows, visible, p, down, count) == p
    decreases count
  {
    if count > 0 { FixpointStays(rows, visible, p, down, count - 1); }
  }

  lemma {:induction false} EnoughStepsDown(rows: seq<Row>, visible: nat, p: Position, enough: nat, count: nat)
    requires visible > 0 && p.start <= LastStart(rows, visible) && Sorted(rows)
    requires StepsLeft(rows, visible, p) <= enough <= count
    ensures Steps(rows, visible, p, true, count) == Steps(rows, visible, p, true, enough)
    decreases count
  {
    if count > 0 {
      StepUsesUp(rows, visible, p);
      if StepDown(rows, visible, p) == p {
        FixpointStays(rows, visible, p, true, count);
        FixpointStays(rows, visible, p, true, enough);
      } else {
        EnoughStepsDown(rows, visible, StepDown(rows, visible, p), enough - 1, count - 1);
      }
    }
  }

  lemma CapNeverMattersDown(rows: seq<Row>, visible: nat, p: Position, count: nat)
    requires visible > 0 && p.start <= LastStart(rows, visible) && Sorted(rows) && count > |rows| + visible
    ensures Steps(rows, visible, p, true, |rows| + visible) == Steps(rows, visible, p, true, count)
  {
    StepsLeftWithinCap(rows, visible, p);
    EnoughStepsDown(rows, visible, p, |rows| + visible, count);
  }

  /** For sorted rows no step beyond rows + visible changes anything, in either direction. */
  lemma CapNeverMatters(rows: seq<Row>, visible: nat, p: Position, down: bool, count: nat)
    requires visible > 0 && p.start <= LastStart(rows, visible) && Sorted(rows)
    ensures Steps(rows, visible, p, down, Min(count, |rows| + visible)) == Steps(rows, visible, p, down, count)
  {
    if count > |rows| + visible {
      if down {
        CapNeverMattersDown(rows, visible, p, count);
      } else {
        MirrorSorted(rows);
        CapNeverMattersDown(Mirror(rows), visible, MirrorPosition(rows, visible, p), count);
        StepsUpAreMirrored(rows, visible, p, |rows| + visible);
        StepsUpAreMirrored(rows, visible, p, count);
      }
    }
  }

  /** A remark: `CapNeverMatters` needs `Sorted`. Rows that go back, which no list has, can need more steps than the cap allows. */
  lemma CapMattersForUnsortedRows()
    ensures var rows := [Some(1), Some(2), Some(3), Some(0)];
            Steps(rows, 1, Position(0, 1), true, |rows| + 1) != Steps(rows, 1, Position(0, 1), true, |rows| + 2)
  {
    var rows := [Some(1), Some(2), Some(3), Some(0)];
    SelectionFollows(rows, Position(0, 1));
    SelectionFollows(rows, Position(1, 2));
    SelectionFollows(rows, Position(2, 3));
    assert StepDown(rows, 1, Position(3, 0)) == Position(3, 1);
    SelectsNext(rows, 1);
    SelectsNext(rows, 2);
    StepsAdd(rows, 1, Position(0, 1), true, 3, 2);
    StepsAdd(rows, 1, Position(0, 1), true, 3, 3);
    assert Steps(rows, 1, Position(0, 1), true, 3) == Position(3, 0);
    assert Steps(rows, 1, Position(3, 0), true, 2) == Position(3, 2);
    assert Steps(rows, 1, Position(3, 0), true, 3) == Position(3, 3);
  }

  lemma SelectionFollows(rows: seq<Row>, p: Position)
    requires p.start + 1 < |rows| && rows[p.start + 1].Some? && forall k :: p.start < k < |rows| ==> rows[k] != Some(p.selected)
    ensures StepDown(rows, 1, p) == Position(p.start + 1, rows[p.start + 1].value)
  {
    var start := p.start + 1;
    LastIndexFound(rows, Some(p.selected), |rows|);
    assert FirstSome(rows, start, start + 1) == rows[start];
  }

  lemma SelectsNext(rows: seq<Row>, k: nat)
    requires rows == [Some(1), Some(2), Some(3), Some(0)] && 1 <= k <= 2
    ensures StepDown(rows, 1, Position(3, k)) == Position(3, k + 1)
  {
    assert FirstAbove(rows, k, 0) == FirstAbove(rows, k, 1) == Some(k + 1);
  }

  // ----- The selection stays visible -----

  ghost predicate Contiguous(rows: seq<Row>) {
    forall i, j, k :: 0 <= i < j < k < |rows| && rows[i].Some? && rows[i] == rows[k] ==> rows[j] == rows[i]
  }

  lemma MirrorContiguous(rows: seq<Row>)
    requires Contiguous(rows)
    ensures Contiguous(Mirror(rows))
  {
    var mirrored := Mirror(rows);
    forall i, j, k | 0 <= i < j < k < |mirrored| && mirrored[i].Some? && mirrored[i] == mirrored[k]
      ensures mirrored[j] == mirrored[i]
    {
      assert rows[|rows| - 1 - k] == rows[|rows| - 1 - i];
      assert rows[|rows| - 1 - j] == rows[|rows| - 1 - k];
    }
  }

  predicate InWindow(rows: seq<Row>, visible: nat, start: nat, i: int) {
    start <= i < start + visible && i < |rows|
  }

  ghost predicate Shown(rows: seq<Row>, visible: nat, p: Position) {
    exists i :: 0 <= i < |rows| && InWindow(rows, visible, p.start, i) && rows[i] == Some(p.selected)
  }

  ghost predicate NothingSelectable(rows: seq<Row>, visible: nat, start: nat) {
    forall i :: 0 <= i < |rows| && InWindow(rows, visible, start, i) ==> rows[i].None?
  }

  /** Either the selection is shown, or nothing shown can be selected and the window has passed the selection. */
  ghost predicate ShownOrPassed(rows: seq<Row>, visible: nat, p: Position) {
    Shown(rows, visible, p)
    || (NothingSelectable(rows, visible, p.start)
        && exists i :: 0 <= i < p.start && i < |rows| && rows[i] == Some(p.selected))
  }

  /** The selection still occurs from the new start on: its rows reach into the window. */
  lemma StayingKeepsShown(rows: seq<Row>, visible: nat, start: nat, selected: int, i: nat, last: nat)
    requires visible > 0 && 0 < start && start + visible <= |rows| && Contiguous(rows)
    requires i <= last < |rows| && start <= last && rows[i] == Some(selected) && rows[last] == Some(selected)
    requires i < start + visible
    ensures Shown(rows, visible, Position(start, selected))
  {
    var k := if i >= start then i else start;
    assert rows[k] == Some(selected);
    assert InWindow(rows, visible, start, k);
  }

  /** The selection is behind the new start: the first row that can be selected takes over, if there is one. */
  lemma FollowingKeepsShown(rows: seq<Row>, visible: nat, start: nat, selected: int, i: nat)
    requires visible > 0 && start + visible <= |rows| && i < start && rows[i] == Some(selected)
    ensures match FirstSome(rows, start, start + visible)
            case Some(first) => Shown(rows, visible, Position(start, first))
            case None => ShownOrPassed(rows, visible, Position(start, selected))
  {
    var f := FirstSomeFound(rows, start, start + visible);
    match FirstSome(rows, start, start + visible) {
      case Some(first) => assert InWindow(rows, visible, start, f);
      case None =>
    }
  }

  lemma OccursByNow(rows: seq<Row>, visible: nat, p: Position) returns (i: nat)
    requires visible > 0 && ShownOrPassed(rows, visible, p)
    ensures i < p.start + visible && i < |rows| && rows[i] == Some(p.selected)
  {
    i :| i < |rows| && rows[i] == Some(p.selected) && (InWindow(rows, visible, p.start, i) || i < p.start);
  }

  lemma MovingKeepsShown(rows: seq<Row>, visible: nat, p: Position)
    requires visible > 0 && p.start < LastStart(rows, visible) && Contiguous(rows)
    requires ShownOrPassed(rows, visible, p)
    ensures ShownOrPassed(rows, visible, StepDown(rows, visible, p))
  {
    var start := p.start + 1;
    var last := LastIndex(rows, Some(p.selected), |rows|);
    LastIndexFound(rows, Some(p.selected), |rows|);
    var i := OccursByNow(rows, visible, p);
    if last.value >= start {
      StayingKeepsShown(rows, visible, start, p.selected, i, last.value);
    } else {
      FollowingKeepsShown(rows, visible, start, p.selected, i);
    }
  }

  lemma SelectingKeepsShown(rows: seq<Row>, visible: nat, p: Position)
    requires visible > 0 && p.start == LastStart(rows, visible) && Sorted(rows)
    requires ShownOrPassed(rows, visible, p)
    ensures ShownOrPassed(rows, visible, StepDown(rows, visible, p))
  {
    var next := StepDown(rows, visible, p);
    var k := FirstAboveFound(rows, p.selected, 0);
    if next != p {
      if Shown(rows, visible, p) {
        assert InWindow(rows, visible, p.start, k);
      } else {
        assert !InWindow(rows, visible, p.start, k);
      }
    }
  }

  lemma {:induction false} StepsDownKeepShown(rows: seq<Row>, visible: nat, p: Position, count: nat)
    requires visible > 0 && p.start <= LastStart(rows, visible) && Sorted(rows) && Contiguous(rows)
    requires ShownOrPassed(rows, visible, p)
    ensures ShownOrPassed(rows, visible, Steps(rows, visible, p, true, count))
    decreases count
  {
    if count > 0 {
      if p.start == LastStart(rows, visible) {
        SelectingKeepsShown(rows, visible, p);
      } else {
        MovingKeepsShown(rows, visible, p);
      }
      StepsDownKeepShown(rows, visible, StepDown(rows, visible, p), count - 1);
    }
  }

  lemma MirrorShown(rows: seq<Row>, visible: nat, p: Position)
    requires p.start <= LastStart(rows, visible)
    ensures Shown(rows, visible, p) <==> Shown(Mirror(rows), visible, MirrorPosition(rows, visible, p))
    ensures NothingSelectable(rows, visible, p.start)
            <==> NothingSelectable(Mirror(rows), visible, MirrorPosition(rows, visible, p).start)
  {
    var mirrored, q := Mirror(rows), MirrorPosition(rows, visible, p);
    forall i | 0 <= i < |rows|
      ensures InWindow(rows, visible, p.start, i) <==> InWindow(mirrored, visible, q.start, |rows| - 1 - i)
    {}
    forall i | 0 <= i < |rows| && InWindow(rows, visible, p.start, i) && rows[i] == Some(p.selected)
      ensures Shown(mirrored, visible, q)
    {
      assert mirrored[|rows| - 1 - i] == Some(q.selected);
    }
    forall i | 0 <= i < |rows| && InWindow(mirrored, visible, q.start, i) && mirrored[i] == Some(q.selected)
      ensures Shown(rows, visible, p)
    {
      assert InWindow(rows, visible, p.start, |rows| - 1 - i) && rows[|rows| - 1 - i] == Some(p.selected);
    }
    forall i | 0 <= i < |rows|
      ensures rows[i].None? <==> mirrored[|rows| - 1 - i].None?
      ensures mirrored[i].None? <==> rows[|rows| - 1 - i].None?
    {}
  }

  /** A visible selection stays visible, whatever the direction and distance, unless nothing shown can be selected. */
  lemma SelectionStaysVisible(rows: seq<Row>, visible: nat, p: Position, down: bool, count: nat)
    requires visible > 0 && p.start <= LastStart(rows, visible) && Sorted(rows) && Contiguous(rows)
    requires Shown(rows, visible, p)
    ensures var last := Steps(rows, visible, p, down, count);
            Shown(rows, visible, last) || NothingSelectable(rows, visible, last.start)
  {
    if down {
      StepsDownKeepShown(rows, visible, p, count);
    } else {
      MirrorShown(rows, visible, p);
      MirrorSorted(rows);
      MirrorContiguous(rows);
      StepsDownKeepShown(Mirror(rows), visible, MirrorPosition(rows, visible, p), count);
      StepsUpAreMirrored(rows, visible, p, count);
      MirrorShown(rows, visible, Steps(rows, visible, p, false, count));
    }
  }

  // ----- The operation -----

  predicate NothingToScroll(rows: seq<Row>, visible: nat) {
    visible == 0 || forall i :: 0 <= i < |rows| ==> rows[i].None?
  }

  function Magnitude(delta: int): nat {
    if delta < 0 then -delta else delta
  }

  /** Scrolling as it is meant: one uncapped step for each unit of the delta. */
  function Scrolled(rows: seq<Row>, visible: nat, p: Position, delta: int): Position {
    if NothingToScroll(rows, visible) then p
    else Steps(rows, visible, p.(start := Min(p.start, LastStart(rows, visible))), delta > 0, Magnitude(delta))
  }

  method Scroll(rows: seq<Row>, visible: nat, position: Position, delta: int) returns (p: Position)
    ensures Sorted(rows) ==> p == Scrolled(rows, visible, position, delta)
    ensures NothingToScroll(rows, visible) ==> p == position
    ensures !NothingToScroll(rows, visible) ==>
              p == Steps(rows, visible, position.(start := Min(position.start, LastStart(rows, visible))), delta > 0,
                         Min(Magnitude(delta), |rows| + visible))
  {
    p := position;
    if NothingToScroll(rows, visible) { return; }
    var lastStart := LastStart(rows, visible);
    p := p.(start := Min(p.start, lastStart));
    ghost var first := p;
    var down := delta > 0;
    var count := Min(Magnitude(delta), |rows| + visible);
    var i := 0;
    while i < count
      invariant 0 <= i <= count && p.start <= lastStart
      invariant p == Steps(rows, visible, first, down, i)
    {
      StepsAdd(rows, visible, first, down, i, 1);
      assert Steps(rows, visible, p, down, 1) == Step(rows, visible, p, down);
      var nextStart := if down then Min(p.start + 1, lastStart) else if p.start == 0 then 0 else p.start - 1;
      if nextStart == p.start {
        var next := if down then FirstAbove(rows, p.selected, 0) else LastBelow(rows, p.selected, |rows|);
        if next.Some? { p := p.(selected := next.value); }
      } else {
        p := p.(start := nextStart);
        p := p.(selected := if down then FollowDown(rows, visible, p.start, p.selected)
                            else FollowUp(rows, visible, p.start, p.selected));
      }
      i := i + 1;
    }
    if Sorted(rows) { CapNeverMatters(rows, visible, first, down, Magnitude(delta)); }
  }

  /** Without room or anything to select, nothing happens. */
  lemma NothingScrolls(rows: seq<Row>, visible: nat, p: Position, delta: int)
    requires visible == 0 || None == FirstSome(rows, 0, |rows|)
    ensures Scrolled(rows, visible, p, delta) == p
  {
    var i := FirstSomeFound(rows, 0, |rows|);
  }

  /**
   * Otherwise a scroll by `delta` moves the window by that many rows, within the list; by one it is one step in that
   * direction from the clamped position, and by nothing it only clamps.
   */
  lemma ScrollMovesWindow(rows: seq<Row>, visible: nat, p: Position, delta: int)
    requires visible > 0 && exists i :: 0 <= i < |rows| && rows[i].Some?
    ensures var first := p.(start := Min(p.start, LastStart(rows, visible)));
            var wanted := first.start + delta;
            && Scrolled(rows, visible, p, delta).start
               == (if wanted < 0 then 0 else if wanted > LastStart(rows, visible) then LastStart(rows, visible) else wanted)
            && Scrolled(rows, visible, p, 0) == first
            && Scrolled(rows, visible, p, 1) == StepDown(rows, visible, first)
            && Scrolled(rows, visible, p, -1) == StepUp(rows, visible, first)
  {
    var first := p.(start := Min(p.start, LastStart(rows, visible)));
    WindowMoves(rows, visible, first, delta > 0, Magnitude(delta));
    assert Steps(rows, visible, first, true, 1) == Step(rows, visible, first, true);
    assert Steps(rows, visible, first, false, 1) == Step(rows, visible, first, false);
  }

  /** Two scrolls in one direction are one scroll by the sum. */
  lemma ScrollsCompose(rows: seq<Row>, visible: nat, p: Position, first: int, second: int)
    requires (first >= 0 && second >= 0) || (first <= 0 && second <= 0)
    ensures Scrolled(rows, visible, Scrolled(rows, visible, p, first), second) == Scrolled(rows, visible, p, first + second)
  {
    if !NothingToScroll(rows, visible) {
      var clamped := p.(start := Min(p.start, LastStart(rows, visible)));
      StepsAdd(rows, visible, clamped, first + second > 0, Magnitude(first), Magnitude(second));
    }
  }
}
