/** The measuring line: a vertical marker the user places by clicking on the chart and drags
    while the button is held. Axis coordinates are whole days. */
module Probe {
  import opened Wrappers

  /** The drawn line and its caption. */
  datatype Marker = Marker(x: int, caption: string)

  /** The handlers' state: whether a drag is in progress and the marker, if any. */
  datatype State = State(dragging: bool, marker: Option<Marker>)

  /** No marker and no drag: the state when the window opens and after "clear all" drops a chart. */
  const Idle := State(false, None)

  /** The caption of the date under axis position `x`; it stands for converting the position to
      a Gregorian date, then to a Jalali date, formatting it as YYYY-MM-DD and shaping the text. */
  type Captioner = int -> string

  /** The states the handlers can reach: a drag always has a marker to move, and the caption
      always names the date under the line. */
  predicate Coherent(st: State, caption: Captioner) {
    && (st.dragging ==> st.marker.Some?)
    && (st.marker.Some? ==> st.marker.value.caption == caption(st.marker.value.x))
  }

  /** Button press. Outside the plot area nothing happens; inside, any previous marker is
      discarded, a new one is drawn at `x` with the caption for `x`, and a drag begins. */
  function OnClick(st: State, x: int, inAxes: bool, caption: Captioner): (r: State)
    ensures !inAxes ==> r == st
    ensures inAxes ==> r.dragging && r.marker == Some(Marker(x, caption(x)))
    ensures Coherent(st, caption) ==> Coherent(r, caption)
  {
    if !inAxes then st
    else State(true, Some(Marker(x, caption(x))))
  }

  /** Pointer motion. Only during a drag and inside the plot area does the marker follow the
      pointer, and then line and caption move together to `x`; the drag goes on. */
  function OnMotion(st: State, x: int, inAxes: bool, caption: Captioner): (r: State)
    ensures !st.dragging || !inAxes || st.marker.None? ==> r == st
    ensures st.dragging && inAxes && st.marker.Some? ==>
              r == State(true, Some(Marker(x, caption(x))))
    ensures Coherent(st, caption) ==> Coherent(r, caption)
  {
    if !st.dragging || !inAxes then st
    else if st.marker.None? then st
    else State(true, Some(Marker(x, caption(x))))
  }

  /** Button release, wherever it happens: the drag ends and the marker stays where it is. */
  function OnRelease(st: State): (r: State)
    ensures !r.dragging && r.marker == st.marker
  {
    State(false, st.marker)
  }

  /** A pointer event as the chart canvas delivers it. */
  datatype Event = Press(x: int, inAxes: bool) | Move(x: int, inAxes: bool) | Release

  function Step(st: State, e: Event, caption: Captioner): State {
    match e
    case Press(x, inAxes) => OnClick(st, x, inAxes, caption)
    case Move(x, inAxes) => OnMotion(st, x, inAxes, caption)
    case Release => OnRelease(st)
  }

  /** The state after a sequence of events, first to last. */
  function Run(st: State, es: seq<Event>, caption: Captioner): State
    decreases |es|
  {
    if es == [] then st else Run(Step(st, es[0], caption), es[1..], caption)
  }

  /** Whatever events arrive, line and caption never drift apart and no drag lacks a marker. */
  lemma {:induction false} RunCoherent(st: State, es: seq<Event>, caption: Captioner)
    requires Coherent(st, caption)
    ensures Coherent(Run(st, es, caption), caption)
    decreases |es|
  {
    if es != [] {
      RunCoherent(Step(st, es[0], caption), es[1..], caption);
    }
  }

  predicate AllMoves(es: seq<Event>) {
    forall i :: 0 <= i < |es| ==> es[i].Move?
  }

  /** Once the button is up, moving the pointer around never moves the marker. */
  lemma {:induction false} MovesAfterReleaseChangeNothing(st: State, es: seq<Event>, caption: Captioner)
    requires !st.dragging && AllMoves(es)
    ensures Run(st, es, caption) == st
    decreases |es|
  {
    if es != [] {
      MovesAfterReleaseChangeNothing(Step(st, es[0], caption), es[1..], caption);
    }
  }

  /** During a drag, the marker ends up under the last position the pointer reached inside the
      plot area, captioned for that position, however many moves outside the area follow it;
      the drag is still on. */
  lemma {:induction false} DragEndsAtLastMove(st: State, es: seq<Event>, k: nat, caption: Captioner)
    requires st.dragging && st.marker.Some?
    requires AllMoves(es) && k < |es| && es[k].inAxes
    requires forall j :: k < j < |es| ==> !es[j].inAxes
    ensures Run(st, es, caption) == State(true, Some(Marker(es[k].x, caption(es[k].x))))
    decreases |es|
  {
    var next := Step(st, es[0], caption);
    if k == 0 {
      MovesOutsideChangeNothing(next, es[1..], caption);
    } else {
      DragEndsAtLastMove(next, es[1..], k - 1, caption);
    }
  }

  /** Moves that all stay outside the plot area never move the marker, even during a drag. */
  lemma {:induction false} MovesOutsideChangeNothing(st: State, es: seq<Event>, caption: Captioner)
    requires forall i :: 0 <= i < |es| ==> es[i].Move? && !es[i].inAxes
    ensures Run(st, es, caption) == st
    decreases |es|
  {
    if es != [] {
      MovesOutsideChangeNothing(Step(st, es[0], caption), es[1..], caption);
    }
  }
}
