/**
 * Cursors (src/cursor.rs, the range operation of src/db.rs, UserKeyRange in src/index/mod.rs):
 * a bidirectional iterator and a bounded range over one fixed, sorted view of the user index.
 */
module Cursor {
  import opened Basics

  const MAX_KEY_SIZE: nat := 60_000

  datatype Entry = Entry(key: Bytes, value: Bytes)

  // ---------------------------------------------------------------- key order

  /** Byte strings in lexicographic order. */
  predicate KeyLess(a: Bytes, b: Bytes) {
    if b == [] then false
    else if a == [] then true
    else a[0] < b[0] || (a[0] == b[0] && KeyLess(a[1..], b[1..]))
  }

  lemma {:induction false} KeyOrderIsTotal(a: Bytes, b: Bytes)
    ensures KeyLess(a, b) || KeyLess(b, a) || a == b
    ensures !(KeyLess(a, b) && KeyLess(b, a))
  {
    if a != [] && b != [] {
      KeyOrderIsTotal(a[1..], b[1..]);
      assert a == [a[0]] + a[1..] && b == [b[0]] + b[1..];
    }
  }

  lemma {:induction false} KeyOrderIsTransitive(a: Bytes, b: Bytes, c: Bytes)
    requires KeyLess(a, b) && KeyLess(b, c)
    ensures KeyLess(a, c)
  {
    if a != [] && a[0] == b[0] == c[0] { KeyOrderIsTransitive(a[1..], b[1..], c[1..]); }
  }

  predicate Sorted(view: seq<Entry>) {
    forall i, j :: 0 <= i < j < |view| ==> KeyLess(view[i].key, view[j].key)
  }

  // ---------------------------------------------------------------- ranges

  datatype Bound = Unbounded | Included(key: Bytes) | Excluded(key: Bytes)

  datatype KeyRange = KeyRange(start: Bound, end: Bound)

  predicate Contains(r: KeyRange, key: Bytes) {
    && (match r.start
        case Unbounded => true
        case Included(start) => !KeyLess(key, start)
        case Excluded(start) => KeyLess(start, key))
    && (match r.end
        case Unbounded => true
        case Included(end) => !KeyLess(end, key)
        case Excluded(end) => KeyLess(key, end))
  }

  const ALL := KeyRange(Unbounded, Unbounded)

  /** What a backend iterator over a range yields from front to back. */
  function Selected(view: seq<Entry>, r: KeyRange): seq<Entry> {
    if view == [] then []
    else if Contains(r, view[0].key) then [view[0]] + Selected(view[1..], r)
    else Selected(view[1..], r)
  }

  lemma {:induction false} SelectsAll(view: seq<Entry>, r: KeyRange)
    requires forall i :: 0 <= i < |view| ==> Contains(r, view[i].key)
    ensures Selected(view, r) == view
  {
    if view != [] { SelectsAll(view[1..], r); }
  }

  lemma {:induction false} SelectsNone(view: seq<Entry>, r: KeyRange)
    requires forall i :: 0 <= i < |view| ==> !Contains(r, view[i].key)
    ensures Selected(view, r) == []
  {
    if view != [] { SelectsNone(view[1..], r); }
  }

  lemma {:induction false} SelectsConcat(a: seq<Entry>, b: seq<Entry>, r: KeyRange)
    ensures Selected(a + b, r) == Selected(a, r) + Selected(b, r)
  {
    if a == [] {
      assert a + b == b;
    } else {
      assert (a + b)[1..] == a[1..] + b;
      SelectsConcat(a[1..], b, r);
    }
  }

  /** A range that contains exactly the positions from `lo` to `hi` selects that slice. */
  lemma {:induction false} SelectsSlice(view: seq<Entry>, r: KeyRange, lo: nat, hi: nat)
    requires lo <= hi <= |view|
    requires forall i :: 0 <= i < |view| ==> (Contains(r, view[i].key) <==> lo <= i < hi)
    ensures Selected(view, r) == view[lo..hi]
  {
    assert view == view[..lo] + (view[lo..hi] + view[hi..]);
    SelectsConcat(view[..lo], view[lo..hi] + view[hi..], r);
    SelectsConcat(view[lo..hi], view[hi..], r);
    SelectsNone(view[..lo], r);
    SelectsAll(view[lo..hi], r);
    SelectsNone(view[hi..], r);
  }

  lemma {:induction false} SelectsAfter(view: seq<Entry>, i: nat)
    requires Sorted(view) && i < |view|
    ensures Selected(view, KeyRange(Excluded(view[i].key), Unbounded)) == view[i + 1..]
  {
    var r := KeyRange(Excluded(view[i].key), Unbounded);
    forall j | 0 <= j < |view| ensures Contains(r, view[j].key) <==> i + 1 <= j < |view| {
      KeyOrderIsTotal(view[i].key, view[j].key);
    }
    SelectsSlice(view, r, i + 1, |view|);
  }

  lemma {:induction false} SelectsBefore(view: seq<Entry>, i: nat)
    requires Sorted(view) && i < |view|
    ensures Selected(view, KeyRange(Unbounded, Excluded(view[i].key))) == view[..i]
  {
    var r := KeyRange(Unbounded, Excluded(view[i].key));
    forall j | 0 <= j < |view| ensures Contains(r, view[j].key) <==> 0 <= j < i {
      KeyOrderIsTotal(view[i].key, view[j].key);
    }
    SelectsSlice(view, r, 0, i);
  }

  /** The first position whose key is not below the target. */
  function LowerBound(view: seq<Entry>, target: Bytes): (n: nat)
    ensures n <= |view|
    ensures forall i :: 0 <= i < n ==> KeyLess(view[i].key, target)
    ensures n < |view| ==> !KeyLess(view[n].key, target)
  {
    if view == [] || !KeyLess(view[0].key, target) then 0 else 1 + LowerBound(view[1..], target)
  }

  lemma {:induction false} SelectsFrom(view: seq<Entry>, target: Bytes)
    requires Sorted(view)
    ensures Selected(view, KeyRange(Included(target), Unbounded)) == view[LowerBound(view, target)..]
  {
    var r, n := KeyRange(Included(target), Unbounded), LowerBound(view, target);
    forall j | 0 <= j < |view| ensures Contains(r, view[j].key) <==> n <= j < |view| {
      if n < j && KeyLess(view[j].key, target) {
        KeyOrderIsTransitive(view[n].key, view[j].key, target);
      }
    }
    SelectsSlice(view, r, n, |view|);
  }

  // ---------------------------------------------------------------- the specification

  /** Where a cursor is, as an index into the sorted list. */
  datatype Spot = Unpositioned | At(index: nat) | Exhausted | Failed

  function SpotAt(view: seq<Entry>, i: int): Spot {
    if 0 <= i < |view| then At(i) else Exhausted
  }

  function First(view: seq<Entry>, s: Spot): Spot {
    if s == Failed then Failed else SpotAt(view, 0)
  }

  function Last(view: seq<Entry>, s: Spot): Spot {
    if s == Failed then Failed else SpotAt(view, |view| - 1)
  }

  function Seek(view: seq<Entry>, s: Spot, target: Bytes): Spot {
    if s == Failed || |target| > MAX_KEY_SIZE then Failed else SpotAt(view, LowerBound(view, target))
  }

  function Next(view: seq<Entry>, s: Spot): Spot {
    if s.At? then SpotAt(view, s.index + 1) else s
  }

  function Prev(view: seq<Entry>, s: Spot): Spot {
    if s.At? then SpotAt(view, s.index - 1) else s
  }

  // ---------------------------------------------------------------- the cursor

  datatype CursorState = UnpositionedState | ValidState | ExhaustedState | FailedState

  datatype Direction = Forward | Reverse

  /**
   * `ahead` holds what a backend iterator has not yielded from either side. `window` is what the
   * first iterator was made for: the whole view, or the slice of it that a range asked for.
   */
  class DbIterator {
    var ahead: Option<seq<Entry>>
    var view: seq<Entry>
    var state: CursorState
    var direction: Option<Direction>
    var current: Option<Entry>
    ghost var window: seq<Entry>
    ghost var index: nat

    ghost predicate Valid()
      reads this
    {
      && Sorted(view) && Sorted(window)
      && (state == ValidState <==> current.Some?)
      && match state
         case UnpositionedState => direction.None? && ahead == Some(window)
         case ValidState =>
           && index < |window| && current.value == window[index] && direction.Some? && ahead.Some?
           && ahead.value == if direction.value == Forward then window[index + 1..] else window[..index]
         case ExhaustedState => direction.None? && ahead.None?
         case FailedState => direction.None? && ahead.None?
    }

    /** A cursor over the whole view may move freely; one over a range only moves forward. */
    ghost predicate Free()
      reads this
    {
      window == view
    }

    ghost function Spot(): Spot
      reads this
    {
      match state
      case UnpositionedState => Unpositioned
      case ValidState => At(index)
      case ExhaustedState => Exhausted
      case FailedState => Failed
    }

    constructor (view: seq<Entry>, initial: seq<Entry>)
      requires Sorted(view) && Sorted(initial)
      ensures Valid() && this.view == view && window == initial && Spot() == Unpositioned
    {
      ahead, this.view, state, direction, current := Some(initial), view, UnpositionedState, None, None;
      window, index := initial, 0;
    }

    method SeekToFirst()
      requires Valid() && (Free() || state == UnpositionedState || state == FailedState)
      modifies this
      ensures Valid() && view == old(view) && window == old(window)
      ensures Spot() == First(window, old(Spot())) && (state == ValidState ==> direction == Some(Forward))
    {
      if state == FailedState {
        return;
      }
      var entries := view;
      if state == UnpositionedState {
        entries := ahead.value;
      } else {
        SelectsAll(view, ALL);
        entries := Selected(view, ALL);
      }
      Position(entries, Forward, 0);
    }

    method SeekToLast()
      requires Valid() && Free()
      modifies this
      ensures Valid() && view == old(view) && window == old(window)
      ensures Spot() == Last(view, old(Spot()))
    {
      if state == FailedState {
        return;
      }
      SelectsAll(view, ALL);
      var entries := Selected(view, ALL);
      if state == UnpositionedState {
        entries := ahead.value;
      }
      Position(entries, Reverse, |view| - 1);
    }

    method SeekTo(target: Bytes)
      requires Valid() && Free()
      modifies this
      ensures Valid() && view == old(view) && window == old(window)
      ensures Spot() == Seek(view, old(Spot()), target)
    {
      if state == FailedState {
        return;
      }
      if |target| > MAX_KEY_SIZE {
        ahead, direction, current, state := None, None, None, FailedState;
        return;
      }
      SelectsFrom(view, target);
      Position(Selected(view, KeyRange(Included(target), Unbounded)), Forward, LowerBound(view, target));
    }

    method MoveNext()
      requires Valid() && (Free() || direction == Some(Forward) || state != ValidState)
      modifies this
      ensures Valid() && view == old(view) && window == old(window)
      ensures Spot() == Next(window, old(Spot()))
      ensures state == ValidState ==> direction == Some(Forward)
    {
      if state != ValidState {
        return;
      }
      if direction != Some(Forward) {
        SelectsAfter(view, index);
        Position(Selected(view, KeyRange(Excluded(current.value.key), Unbounded)), Forward, index + 1);
      } else {
        Position(ahead.value, Forward, index + 1);
      }
    }

    method MovePrev()
      requires Valid() && Free()
      modifies this
      ensures Valid() && view == old(view) && window == old(window)
      ensures Spot() == Prev(view, old(Spot()))
    {
      if state != ValidState {
        return;
      }
      if direction != Some(Reverse) {
        SelectsBefore(view, index);
        Position(Selected(view, KeyRange(Unbounded, Excluded(current.value.key))), Reverse, index - 1);
      } else {
        Position(ahead.value, Reverse, index - 1);
      }
    }

    /** consume_adjacent over an iterator: take the next entry from its near side, or be exhausted. */
    method Position(entries: seq<Entry>, d: Direction, ghost at: int)
      requires Sorted(view) && Sorted(window)
      requires if d == Forward then 0 <= at <= |window| else -1 <= at < |window|
      requires entries == if d == Forward then window[at..] else window[..at + 1]
      modifies this
      ensures Valid() && view == old(view) && window == old(window)
      ensures Spot() == SpotAt(window, at)
      ensures state == ValidState ==> direction == Some(d)
    {
      if entries == [] {
        ahead, direction, current, state := None, None, None, ExhaustedState;
        return;
      }
      if d == Forward {
        current, ahead := Some(entries[0]), Some(entries[1..]);
      } else {
        current, ahead := Some(entries[|entries| - 1]), Some(entries[..|entries| - 1]);
      }
      direction, state, index := Some(d), ValidState, at;
    }

    method Exhaust()
      requires Valid()
      modifies this
      ensures Valid() && view == old(view) && window == old(window)
      ensures Spot() == if old(Spot()) == Failed then Failed else Exhausted
    {
      if state != FailedState {
        ahead, direction, current, state := None, None, None, ExhaustedState;
      }
    }
  }

  // ---------------------------------------------------------------- ranges with a limit

  lemma {:induction false} SelectedMembers(view: seq<Entry>, r: KeyRange)
    ensures forall e :: e in Selected(view, r) <==> e in view && Contains(r, e.key)
  {
    if view != [] {
      SelectedMembers(view[1..], r);
      assert view == [view[0]] + view[1..];
    }
  }

  lemma {:induction false} SelectedIsSorted(view: seq<Entry>, r: KeyRange)
    requires Sorted(view)
    ensures Sorted(Selected(view, r))
  {
    if view != [] {
      SelectedIsSorted(view[1..], r);
      SelectedMembers(view[1..], r);
      var rest := Selected(view[1..], r);
      forall j | 0 <= j < |rest| ensures KeyLess(view[0].key, rest[j].key) {
        assert rest[j] in view[1..];
      }
    }
  }

  function ForwardRange(start: Option<Bytes>, end: Option<Bytes>): KeyRange {
    KeyRange(if start.Some? then Included(start.value) else Unbounded, if end.Some? then Excluded(end.value) else Unbounded)
  }

  /** RangeCursor: a forward cursor with an end key and a number of entries still to yield. */
  class RangeCursor {
    const inner: DbIterator
    const end: Option<Bytes>
    var remaining: nat

    constructor (inner: DbIterator, end: Option<Bytes>, limit: nat)
      ensures this.inner == inner && this.end == end && remaining == limit
    {
      this.inner, this.end, remaining := inner, end, limit;
    }

    /** Positioned on entry `i` of the window, with room for the rest of the limit. */
    ghost predicate Valid()
      reads this, inner
    {
      && inner.Valid() && inner.state != UnpositionedState
      && (inner.state == ValidState ==> inner.direction == Some(Forward) && remaining > 0)
      && (end.Some? ==> forall e :: e in inner.window ==> KeyLess(e.key, end.value))
    }

    /** What is still to come. */
    ghost function Rest(): seq<Entry>
      reads this, inner
    {
      if inner.state != ValidState || inner.index >= |inner.window| then []
      else
        var left := inner.window[inner.index..];
        if |left| <= remaining then left else left[..remaining]
    }

    /** enforce_boundary: the end key and the limit are checked again after every move. */
    method EnforceBoundary()
      requires inner.Valid()
      modifies inner
      ensures inner.Valid() && inner.window == old(inner.window) && inner.view == old(inner.view)
      ensures inner.direction == old(inner.direction) || inner.direction.None?
      ensures inner.Spot() ==
              if old(inner.Spot()) == Failed then Failed
              else if remaining == 0 then Exhausted
              else if old(inner.state) == ValidState && end.Some? && !KeyLess(old(inner.window[inner.index].key), end.value) then Exhausted
              else old(inner.Spot())
    {
      if remaining == 0 {
        inner.Exhaust();
        return;
      }
      if inner.current.Some? && end.Some? && !KeyLess(inner.current.value.key, end.value) {
        inner.Exhaust();
      }
    }

    /** Takes the current entry, if there is one, and moves on. */
    method Take() returns (e: Option<Entry>)
      requires Valid()
      modifies this, inner
      ensures Valid() && inner.window == old(inner.window)
      ensures old(Rest()) == [] <==> e.None?
      ensures e.Some? ==> old(Rest()) == [e.value] + Rest() && remaining < old(remaining)
      ensures e.None? ==> Rest() == []
    {
      if inner.state != ValidState {
        return None;
      }
      e := inner.current;
      remaining := remaining - 1;
      if remaining == 0 {
        inner.Exhaust();
        return;
      }
      inner.MoveNext();
      EnforceBoundary();
    }
  }

  lemma {:induction false} EmptyRanges(view: seq<Entry>, start: Option<Bytes>, end: Option<Bytes>)
    requires end.Some? && (if start.None? then end.value == [] else !KeyLess(start.value, end.value))
    ensures Selected(view, ForwardRange(start, end)) == []
  {
    var r := ForwardRange(start, end);
    forall i | 0 <= i < |view| ensures !Contains(r, view[i].key) {
      if start.Some? && KeyLess(view[i].key, end.value) && !KeyLess(view[i].key, start.value) {
        KeyOrderIsTotal(view[i].key, start.value);
        if KeyLess(start.value, view[i].key) { KeyOrderIsTransitive(start.value, view[i].key, end.value); }
      }
    }
    SelectsNone(view, r);
  }

  /** The longest start of `s` that is no longer than the limit. */
  function AtMost(s: seq<Entry>, limit: nat): (r: seq<Entry>)
    ensures r <= s && |r| <= limit && (|r| < limit ==> r == s)
  {
    if |s| <= limit then s else s[..limit]
  }

  /** Where a half-open range begins and ends in a sorted view. */
  function RangeStart(view: seq<Entry>, start: Option<Bytes>): (lo: nat)
    ensures lo <= |view|
  {
    if start.None? then 0 else LowerBound(view, start.value)
  }

  function RangeEnd(view: seq<Entry>, lo: nat, end: Option<Bytes>): (hi: nat)
    requires lo <= |view|
    ensures lo <= hi <= |view|
  {
    if end.None? then |view|
    else
      var n := LowerBound(view, end.value);
      if n < lo then lo else n
  }

  /** In a sorted view exactly the positions before the lower bound lie below the target. */
  lemma {:induction false} BoundSplits(view: seq<Entry>, target: Bytes, j: nat)
    requires Sorted(view) && j < |view|
    ensures KeyLess(view[j].key, target) <==> j < LowerBound(view, target)
  {
    var n := LowerBound(view, target);
    if n < j && KeyLess(view[j].key, target) {
      KeyOrderIsTransitive(view[n].key, view[j].key, target);
    }
  }

  /** Exactly the entries of [start, end) lie between the two. */
  lemma {:induction false} RangeIsHalfOpen(view: seq<Entry>, start: Option<Bytes>, end: Option<Bytes>, j: nat)
    requires Sorted(view) && j < |view|
    ensures var lo := RangeStart(view, start);
            (lo <= j < RangeEnd(view, lo, end)
             <==> && (start.None? || !KeyLess(view[j].key, start.value))
                  && (end.None? || KeyLess(view[j].key, end.value)))
  {
    if start.Some? { BoundSplits(view, start.value, j); }
    if end.Some? { BoundSplits(view, end.value, j); }
  }

  /** A half-open range over a sorted view selects the entries from its start up to its end. */
  lemma {:induction false} ForwardSelectsSlice(view: seq<Entry>, start: Option<Bytes>, end: Option<Bytes>)
    requires Sorted(view)
    ensures var lo := RangeStart(view, start);
            Selected(view, ForwardRange(start, end)) == view[lo..RangeEnd(view, lo, end)]
  {
    var r, lo := ForwardRange(start, end), RangeStart(view, start);
    var hi := RangeEnd(view, lo, end);
    forall j | 0 <= j < |view| ensures Contains(r, view[j].key) <==> lo <= j < hi {
      RangeIsHalfOpen(view, start, end, j);
    }
    SelectsSlice(view, r, lo, hi);
  }

  predicate BoundTooLong(bound: Option<Bytes>) {
    bound.Some? && |bound.value| > MAX_KEY_SIZE
  }

  /**
   * The range operation, driven to its end: refused exactly for an oversized bound; otherwise exactly
   * the entries from the first key at or after `start` up to the last key before `end`, cut at `limit`.
   */
  method ScanRange(view: seq<Entry>, start: Option<Bytes>, end: Option<Bytes>, limit: nat) returns (r: Result<seq<Entry>>)
    requires Sorted(view)
    ensures r.Err? <==> BoundTooLong(start) || BoundTooLong(end)
    ensures r.Err? ==> r.error == InvalidArgument
    ensures r.Ok? ==>
              var lo := RangeStart(view, start);
              r.value == AtMost(view[lo..RangeEnd(view, lo, end)], limit)
  {
    if (start.Some? && |start.value| > MAX_KEY_SIZE) || (end.Some? && |end.value| > MAX_KEY_SIZE) {
      return Err(InvalidArgument);
    }
    ForwardSelectsSlice(view, start, end);
    var all := RunRange(view, start, end, limit);
    return Ok(all);
  }

  /** The range with checked bounds. */
  method RunRange(view: seq<Entry>, start: Option<Bytes>, end: Option<Bytes>, limit: nat) returns (r: seq<Entry>)
    requires Sorted(view)
    ensures r == AtMost(Selected(view, ForwardRange(start, end)), limit)
  {
    var empty := limit == 0 || (end.Some? && (if start.None? then end.value == [] else !KeyLess(start.value, end.value)));
    if empty {
      if limit > 0 { EmptyRanges(view, start, end); }
      return [];
    }
    var window := Selected(view, ForwardRange(start, end));
    SelectedIsSorted(view, ForwardRange(start, end));
    SelectedMembers(view, ForwardRange(start, end));
    var inner := new DbIterator(view, window);
    inner.SeekToFirst();
    var cursor := new RangeCursor(inner, end, limit);
    cursor.EnforceBoundary();
    assert cursor.Rest() == AtMost(window, limit);
    r := DrainRange(cursor);
  }

  method DrainRange(cursor: RangeCursor) returns (r: seq<Entry>)
    requires cursor.Valid()
    modifies cursor, cursor.inner
    ensures r == old(cursor.Rest())
  {
    r := [];
    ghost var all, left := cursor.Rest(), cursor.Rest();
    while true
      invariant cursor.Valid() && cursor.Rest() == left && r + left == all
      decreases cursor.remaining
    {
      var e := cursor.Take();
      if e.None? {
        return;
      }
      ghost var rest := cursor.Rest();
      TakenIsAppended(r, e.value, rest, left);
      r := r + [e.value];
      left := rest;
    }
  }

  lemma {:induction false} TakenIsAppended(r: seq<Entry>, e: Entry, rest: seq<Entry>, left: seq<Entry>)
    requires left == [e] + rest
    ensures (r + [e]) + rest == r + left
  {
  }
}
