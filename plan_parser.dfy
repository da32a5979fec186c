/**
 * The floor-plan annotator (src/components/PlanParser.jsx). A loaded plan image enables
 * clicking room corners; "finish room" commits the clicked corners as one saved room when
 * there are at least three of them, and "clear all" forgets every room and corner.
 * Each handler's new state is given by a pure transition on `Plan`, and the component's
 * state is a class whose methods apply those transitions.
 */
module PlanParser {

  /** A click position, already scaled to canvas pixels. */
  datatype Point2 = Point2(x: real, y: real)

  datatype Room = Room(points: seq<Point2>, color: string)

  const ROOM_FILL := "rgba(40, 167, 69, 0.4)"
  const MIN_ROOM_CORNERS: nat := 3

  const STATUS_UPLOAD := "Step 1: Upload a floor plan image"
  const STATUS_CLICK := "Step 2: Click the corners of a room to highlight it"
  const STATUS_SAVED := "Room Saved! Start clicking the next room."
  const STATUS_CLEARED := "Cleared. Start clicking to define a room."

  /** The component state: whether an image is loaded, the saved rooms, the open corners, the status line. */
  datatype Plan = Plan(hasImage: bool, savedRooms: seq<Room>, currentPoints: seq<Point2>, status: string)

  const Initial := Plan(false, [], [], STATUS_UPLOAD)

  /** The image's onload handler: clicking is enabled, and saved rooms and corners are kept. */
  function ImageLoaded(p: Plan): (r: Plan)
    ensures r.hasImage && r.status == STATUS_CLICK
    ensures AllCorners(r) == AllCorners(p) && r.savedRooms == p.savedRooms
  {
    p.(hasImage := true, status := STATUS_CLICK)
  }

  /** handleCanvasClick: a corner is recorded only once an image is loaded. */
  function CanvasClick(p: Plan, at: Point2): (r: Plan)
    ensures r.hasImage == p.hasImage && r.savedRooms == p.savedRooms && r.status == p.status
    ensures |r.currentPoints| == |p.currentPoints| + (if p.hasImage then 1 else 0)
  {
    if !p.hasImage then p else p.(currentPoints := p.currentPoints + [at])
  }

  /** Whether finishRoom commits a room rather than alerting. */
  predicate CanFinish(p: Plan) {
    |p.currentPoints| > 2
  }

  /** finishRoom: commit the open corners as one room, or alert and change nothing. */
  function Finish(p: Plan): (r: Plan)
    ensures r.hasImage == p.hasImage
    ensures |r.savedRooms| == |p.savedRooms| + (if CanFinish(p) then 1 else 0)
    ensures CanFinish(p) <==> r.currentPoints == [] && r.status == STATUS_SAVED && r != p
  {
    if CanFinish(p) then
      p.(savedRooms := p.savedRooms + [Room(p.currentPoints, ROOM_FILL)], currentPoints := [], status := STATUS_SAVED)
    else
      p
  }

  /** clearAll: forget every room and corner; the image stays loaded. */
  function Clear(p: Plan): (r: Plan)
    ensures r.hasImage == p.hasImage && r.status == STATUS_CLEARED
    ensures AllCorners(r) == []
  {
    p.(savedRooms := [], currentPoints := [], status := STATUS_CLEARED)
  }

  /** Every saved room is a polygon of at least three corners. */
  ghost predicate RoomsValid(p: Plan) {
    forall i :: 0 <= i < |p.savedRooms| ==> |p.savedRooms[i].points| >= MIN_ROOM_CORNERS
  }

  /** The corners of the saved rooms, room after room. */
  function Corners(rooms: seq<Room>): seq<Point2> {
    if |rooms| == 0 then [] else Corners(rooms[..|rooms| - 1]) + rooms[|rooms| - 1].points
  }

  /** Every corner the user has placed and not cleared, saved or open, in click order. */
  function AllCorners(p: Plan): seq<Point2> {
    Corners(p.savedRooms) + p.currentPoints
  }

  lemma InitialValid()
    ensures RoomsValid(Initial) && AllCorners(Initial) == [] && !Initial.hasImage
  {
  }

  lemma ClickWithoutImageIgnored(p: Plan, at: Point2)
    requires !p.hasImage
    ensures CanvasClick(p, at) == p
  {
  }

  lemma ClickAppendsOneCorner(p: Plan, at: Point2)
    requires p.hasImage
    ensures CanvasClick(p, at).currentPoints == p.currentPoints + [at]
    ensures CanvasClick(p, at).savedRooms == p.savedRooms
    ensures AllCorners(CanvasClick(p, at)) == AllCorners(p) + [at]
  {
  }

  lemma FinishRoomSaves(p: Plan)
    requires CanFinish(p)
    ensures Finish(p).savedRooms == p.savedRooms + [Room(p.currentPoints, ROOM_FILL)]
    ensures Finish(p).currentPoints == [] && Finish(p).status == STATUS_SAVED
    ensures Finish(p).hasImage == p.hasImage
  {
  }

  lemma FinishRoomRefusesShortOutline(p: Plan)
    requires !CanFinish(p)
    ensures Finish(p) == p
  {
  }

  /** Finishing a room moves its corners into the saved list without losing or reordering any. */
  lemma {:induction false} FinishRoomKeepsCorners(p: Plan)
    ensures AllCorners(Finish(p)) == AllCorners(p)
  {
    if CanFinish(p) {
      var rooms := p.savedRooms + [Room(p.currentPoints, ROOM_FILL)];
      assert rooms[..|rooms| - 1] == p.savedRooms;
      assert Corners(rooms) == Corners(p.savedRooms) + p.currentPoints;
    }
  }

  lemma ClearAllEmpties(p: Plan)
    ensures Clear(p).savedRooms == [] && Clear(p).currentPoints == []
    ensures AllCorners(Clear(p)) == []
    ensures Clear(Clear(p)) == Clear(p)
    ensures Clear(p).hasImage == p.hasImage
  {
  }

  /** No handler can save a room with fewer than three corners. */
  lemma HandlersKeepRoomsValid(p: Plan, at: Point2)
    requires RoomsValid(p)
    ensures RoomsValid(ImageLoaded(p)) && RoomsValid(CanvasClick(p, at))
    ensures RoomsValid(Finish(p)) && RoomsValid(Clear(p))
  {
  }

  class PlanEditor {
    var hasImage: bool
    var savedRooms: seq<Room>
    var currentPoints: seq<Point2>
    var status: string

    function State(): Plan
      reads this
    {
      Plan(hasImage, savedRooms, currentPoints, status)
    }

    ghost predicate Valid()
      reads this
    {
      RoomsValid(State())
    }

    constructor ()
      ensures State() == Initial && Valid()
    {
      hasImage := false;
      savedRooms := [];
      currentPoints := [];
      status := STATUS_UPLOAD;
    }

    method OnImageLoad()
      requires Valid()
      modifies this
      ensures Valid() && State() == ImageLoaded(old(State()))
    {
      hasImage := true;
      status := STATUS_CLICK;
    }

    method HandleCanvasClick(at: Point2)
      requires Valid()
      modifies this
      ensures Valid() && State() == CanvasClick(old(State()), at)
    {
      if !hasImage {
        return;
      }
      currentPoints := currentPoints + [at];
    }

    /** `alerted` reports the alert shown when fewer than three corners are open. */
    method FinishRoom() returns (alerted: bool)
      requires Valid()
      modifies this
      ensures Valid() && State() == Finish(old(State()))
      ensures alerted <==> !CanFinish(old(State()))
    {
      if |currentPoints| > 2 {
        savedRooms := savedRooms + [Room(currentPoints, ROOM_FILL)];
        currentPoints := [];
        status := STATUS_SAVED;
        alerted := false;
      } else {
        alerted := true;
      }
    }

    method ClearAll()
      requires Valid()
      modifies this
      ensures Valid() && State() == Clear(old(State()))
    {
      savedRooms := [];
      currentPoints := [];
      status := STATUS_CLEARED;
    }
  }
}
