/** Face boxes as the detector scripts pass them around: face_recognition's
    (top, right, bottom, left) tuples, the x/y/width/height dicts posted to
    the backend, the ×2 rescaling from the half-size detection frame, and
    numpy's argmin over a list of face distances. */
module Geometry {

  /** A face_recognition location: (top, right, bottom, left) in pixels. */
  datatype Location = Location(top: int, right: int, bottom: int, left: int)

  /** The `bbox` dict of a posted detection. */
  datatype BBox = BBox(x: int, y: int, width: int, height: int)

  /** (top*2, right*2, bottom*2, left*2): back from the half-size frame. */
  function Scale2(l: Location): Location
  {
    Location(l.top * 2, l.right * 2, l.bottom * 2, l.left * 2)
  }

  /** The rescaling comprehension over every detected location. */
  function ScaleAll(locs: seq<Location>): (r: seq<Location>)
    ensures |r| == |locs|
  {
    if locs == [] then [] else ScaleAll(locs[..|locs| - 1]) + [Scale2(locs[|locs| - 1])]
  }

  /** Rescaling keeps count and order: the i-th result is the i-th input doubled. */
  lemma {:induction false} ScaleAllAt(locs: seq<Location>, i: int)
    requires 0 <= i < |locs|
    ensures ScaleAll(locs)[i] == Scale2(locs[i])
  {
    if i < |locs| - 1 {
      ScaleAllAt(locs[..|locs| - 1], i);
    }
  }

  /** x = left, y = top, width = right - left, height = bottom - top. */
  function ToBox(l: Location): BBox
  {
    BBox(l.left, l.top, l.right - l.left, l.bottom - l.top)
  }

  /** The location a posted bbox describes. */
  function FromBox(b: BBox): Location
  {
    Location(b.y, b.x + b.width, b.y + b.height, b.x)
  }

  /** The bbox fields lose nothing: each form determines the other. */
  lemma BoxRoundTrip(l: Location, b: BBox)
    ensures FromBox(ToBox(l)) == l
    ensures ToBox(FromBox(b)) == b
  {
  }

  /** Doubling a location doubles every field of its bbox. */
  lemma BoxOfScaled(l: Location)
    ensures ToBox(Scale2(l)) == BBox(2 * ToBox(l).x, 2 * ToBox(l).y, 2 * ToBox(l).width, 2 * ToBox(l).height)
  {
  }

  /** np.argmin: the first index holding the smallest value. */
  function FirstArgMin(ds: seq<real>): (i: nat)
    requires |ds| > 0
    ensures i < |ds|
    ensures forall j :: 0 <= j < |ds| ==> ds[i] <= ds[j]
    ensures forall j :: 0 <= j < i ==> ds[i] < ds[j]
  {
    if |ds| == 1 then 0
    else
      var k := FirstArgMin(ds[..|ds| - 1]);
      if ds[|ds| - 1] < ds[k] then |ds| - 1 else k
  }

  /** Python's int() on a float: truncation toward zero. */
  function Trunc(x: real): (r: int)
    ensures 0.0 <= x ==> r as real <= x < r as real + 1.0
    ensures x < 0.0 ==> r as real - 1.0 < x <= r as real
  {
    if x >= 0.0 then x.Floor else -((-x).Floor)
  }
}
