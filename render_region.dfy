/** The render rectangle the draw callback hands to the video overlay. */
module RenderRegion {
  import opened GstTypes

  /** C's integer division, which truncates toward zero (Dafny's `/` on int is Euclidean). */
  function TruncDiv(a: int, b: int): (q: int)
    requires b > 0
    ensures a >= 0 ==> q * b <= a < q * b + b
    ensures a < 0 ==> q * b - b < a <= q * b
  {
    if a >= 0 then a / b else -((-a) / b)
  }

  /**
   * An extent `w` placed at offset `x` inside the span [a0, a0 + aw) is
   * centred the way truncating halving centres it: the two margins differ
   * by at most one, and the odd pixel goes to the far side of the span when
   * the extent fits and to the near side when it overhangs.
   */
  predicate Centred(a0: int, aw: int, x: int, w: int)
  {
    var near := x - a0;
    var far := (a0 + aw) - (x + w);
    (w <= aw ==> 0 <= near <= far <= near + 1) &&
    (aw < w ==> far <= near <= 0 && near <= far + 1)
  }

  /**
   * The rectangle for an allocation: the whole allocation in fullscreen mode;
   * in fixed-size mode, the video size centred in the allocation.
   */
  function RenderRect(alloc: Rect, noFullscreen: bool, videoWidth: int, videoHeight: int): (r: Rect)
    ensures !noFullscreen ==> r == alloc
    ensures noFullscreen ==> r.width == videoWidth && r.height == videoHeight
    ensures noFullscreen ==> Centred(alloc.x, alloc.width, r.x, r.width)
    ensures noFullscreen ==> Centred(alloc.y, alloc.height, r.y, r.height)
  {
    if noFullscreen then
      Rect(alloc.x + TruncDiv(alloc.width - videoWidth, 2),
           alloc.y + TruncDiv(alloc.height - videoHeight, 2),
           videoWidth, videoHeight)
    else
      alloc
  }

  /** Centring pins the offset down: at most one offset is centred for a given span and extent. */
  lemma CentredIsUnique(a0: int, aw: int, w: int, x1: int, x2: int)
    requires Centred(a0, aw, x1, w) && Centred(a0, aw, x2, w)
    ensures x1 == x2
  {
  }
}
