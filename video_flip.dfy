/** Per-video mirroring: purely local presentation state, never sent to
    the other side. */
module VideoFlip {
  datatype Video = OpponentVideo | YourVideo
  datatype Direction = Horizontal | Vertical

  /** One entry of `flipStates`. */
  datatype Flip = Flip(horizontal: bool, vertical: bool)

  /** The entry after one toggle: exactly the chosen flag is inverted. */
  function Toggled(f: Flip, d: Direction): (r: Flip)
    ensures (r.horizontal != f.horizontal) <==> d == Horizontal
    ensures (r.vertical != f.vertical) <==> d == Vertical
  {
    match d
    case Horizontal => f.(horizontal := !f.horizontal)
    case Vertical => f.(vertical := !f.vertical)
  }

  /** Toggling the same direction twice restores the entry. */
  lemma ToggleTwice(f: Flip, d: Direction)
    ensures Toggled(Toggled(f, d), d) == f
  {
  }

  /** The CSS scale factor for one axis: -1 mirrors, 1 does not. */
  function Scale(mirrored: bool): (s: int)
    ensures s == -1 || s == 1
    ensures s == -1 <==> mirrored
  {
    if mirrored then -1 else 1
  }

  class FlipStates {
    var flips: map<Video, Flip>

    ghost predicate Valid()
      reads this
    {
      OpponentVideo in flips && YourVideo in flips
    }

    /** Both videos start unmirrored. */
    constructor ()
      ensures Valid()
      ensures flips[OpponentVideo] == Flip(false, false) && flips[YourVideo] == Flip(false, false)
    {
      flips := map[OpponentVideo := Flip(false, false), YourVideo := Flip(false, false)];
    }

    /** toggleFlip: invert one flag of one video and return the transform
        applied to that video, which reflects both of its flags. */
    method ToggleFlip(video: Video, d: Direction) returns (scaleX: int, scaleY: int)
      requires Valid()
      modifies this
      ensures Valid()
      ensures flips == old(flips)[video := Toggled(old(flips[video]), d)]
      ensures scaleX == Scale(flips[video].horizontal) && scaleY == Scale(flips[video].vertical)
    {
      var entry := flips[video];
      if d == Horizontal {
        entry := entry.(horizontal := !entry.horizontal);
      } else {
        entry := entry.(vertical := !entry.vertical);
      }
      flips := flips[video := entry];
      scaleX := Scale(flips[video].horizontal);
      scaleY := Scale(flips[video].vertical);
    }
  }
}
