/**
 * The pixel <-> world conversion of index.js, class `AffineTransformation`:
 * on each axis a pixel coordinate is `world * scale + translate`. Only the
 * X axis is read back; the Y fields are carried along. Coordinates are
 * exact reals.
 */
module Affine {

  /** `forwardX`: world to pixel; with a non-zero scale the world point is recovered from the pixel. */
  function Forward(scale: real, translate: real, x: real): (r: real)
    ensures scale != 0.0 ==> (r - translate) / scale == x
  {
    x * scale + translate
  }

  /** `inverseX`: pixel to world, the world point that is drawn at `xP`. */
  function Inverse(scale: real, translate: real, xP: real): (r: real)
    requires scale != 0.0
    ensures r * scale + translate == xP
  {
    (xP - translate) / scale
  }

  /** `inverseXLength`: a pixel length as a world length, the length that spans `xWidth` pixels. */
  function InverseLength(scale: real, xWidth: real): (r: real)
    requires scale != 0.0
    ensures r * scale == xWidth
  {
    xWidth / scale
  }

  /** The translation that keeps the world point under pixel `xP` in place when the scale becomes `newScale`. */
  function ZoomTranslate(scale: real, translate: real, xP: real, newScale: real): real
    requires scale != 0.0
  {
    xP - newScale * Inverse(scale, translate, xP)
  }

  /** `Math.max` on two numbers. */
  function Max(a: real, b: real): (r: real)
    ensures r >= a && r >= b
    ensures r == a || r == b
  {
    if a >= b then a else b
  }

  /** With a non-zero scale, `inverseX` undoes `forwardX` and `forwardX` undoes `inverseX`. */
  lemma ForwardInverseRoundTrip(scale: real, translate: real, x: real, xP: real)
    requires scale != 0.0
    ensures Inverse(scale, translate, Forward(scale, translate, x)) == x
    ensures Forward(scale, translate, Inverse(scale, translate, xP)) == xP
  {
    var w := Inverse(scale, translate, xP);
    assert w * scale == xP - translate;
  }

  /** A pixel distance converts to the distance between the two world points. */
  lemma InverseLengthIsDifference(scale: real, translate: real, a: real, b: real)
    requires scale != 0.0
    ensures InverseLength(scale, a - b) == Inverse(scale, translate, a) - Inverse(scale, translate, b)
  {
    var wa, wb := Inverse(scale, translate, a), Inverse(scale, translate, b);
    assert wa * scale == a - translate;
    assert wb * scale == b - translate;
    assert (wa - wb) * scale == a - b;
  }

  /**
   * Zooming about pixel `xP`: after the scale becomes `newScale`, the world
   * point that was under `xP` is still drawn at `xP`, and, when the new scale
   * is usable, `xP` still converts back to it.
   */
  lemma ZoomFixesPoint(scale: real, translate: real, xP: real, newScale: real)
    requires scale != 0.0
    ensures Forward(newScale, ZoomTranslate(scale, translate, xP, newScale), Inverse(scale, translate, xP)) == xP
    ensures newScale != 0.0 ==>
      Inverse(newScale, ZoomTranslate(scale, translate, xP, newScale), xP) == Inverse(scale, translate, xP)
  {
    var x := Inverse(scale, translate, xP);
    var t := ZoomTranslate(scale, translate, xP, newScale);
    assert t == xP - newScale * x;
    if newScale != 0.0 {
      ForwardInverseRoundTrip(newScale, t, x, xP);
    }
  }

  /**
   * The lower bound `scaleOnXRestrictByDomain` puts on the scale: with a
   * scale of at least `pixelWidth / (maxX - minX)`, the domain `[minX, maxX]`
   * covers at least `pixelWidth` pixels, so zooming out never shrinks the
   * data below the canvas width.
   */
  lemma {:induction false} DomainFillsWidth(scale: real, translate: real, minX: real, maxX: real, pixelWidth: real)
    requires minX < maxX
    requires scale >= pixelWidth / (maxX - minX)
    ensures Forward(scale, translate, maxX) - Forward(scale, translate, minX) >= pixelWidth
  {
    var d := maxX - minX;
    assert Forward(scale, translate, maxX) - Forward(scale, translate, minX) == d * scale;
    assert d * (pixelWidth / d) == pixelWidth;
    assert d * scale >= d * (pixelWidth / d);
  }

  class AffineTransformation {
    var scaleX: real
    var scaleY: real
    var translateX: real
    var translateY: real

    /** The identity transformation. */
    constructor()
      ensures scaleX == 1.0 && scaleY == 1.0 && translateX == 0.0 && translateY == 0.0
      ensures ForwardX(0.0) == 0.0 && ForwardX(1.0) == 1.0
    {
      scaleX, scaleY, translateX, translateY := 1.0, 1.0, 0.0, 0.0;
    }

    /** `forwardX` with this transformation's X coefficients. */
    function ForwardX(x: real): (r: real)
      reads this
      ensures scaleX != 0.0 ==> (r - translateX) / scaleX == x
    {
      Forward(scaleX, translateX, x)
    }

    /** `inverseX` with this transformation's X coefficients. */
    function InverseX(xP: real): (r: real)
      reads this
      requires scaleX != 0.0
      ensures r * scaleX + translateX == xP
    {
      Inverse(scaleX, translateX, xP)
    }

    /** `inverseXLength` with this transformation's X scale. */
    function InverseXLength(xWidth: real): (r: real)
      reads this
      requires scaleX != 0.0
      ensures r * scaleX == xWidth
    {
      InverseLength(scaleX, xWidth)
    }

    /**
     * `scaleOnX`: multiplies the X scale by `scaleFactor` and moves the
     * translation so that the world point under `xP` stays under `xP`.
     */
    method ScaleOnX(xP: real, scaleFactor: real)
      requires scaleX != 0.0
      modifies this
      ensures scaleX == old(scaleX) * scaleFactor
      ensures translateX == ZoomTranslate(old(scaleX), old(translateX), xP, scaleX)
      ensures ForwardX(old(InverseX(xP))) == xP
      ensures scaleX != 0.0 ==> InverseX(xP) == old(InverseX(xP))
      ensures scaleY == old(scaleY) && translateY == old(translateY)
    {
      var newScale := scaleX * scaleFactor;
      var x := InverseX(xP);
      var newTranslate := xP - newScale * x;
      ZoomFixesPoint(scaleX, translateX, xP, newScale);
      scaleX := newScale;
      translateX := newTranslate;
    }

    /** `setTransformation`: replaces all four coefficients. */
    method SetTransformation(sx: real, sy: real, tx: real, ty: real)
      modifies this
      ensures scaleX == sx && scaleY == sy && translateX == tx && translateY == ty
      ensures forall x :: ForwardX(x) == x * sx + tx
    {
      scaleX, scaleY, translateX, translateY := sx, sy, tx, ty;
    }

    /**
     * `scaleOnXRestrictByDomain`: like `ScaleOnX`, but the new scale is at
     * least `pixelWidth / (maxX - minX)`; the world point under `xP` stays
     * fixed either way.
     */
    method ScaleOnXRestrictByDomain(xP: real, scaleFactor: real, minX: real, maxX: real, pixelWidth: real)
      requires scaleX != 0.0
      requires maxX != minX
      modifies this
      ensures scaleX == Max(pixelWidth / (maxX - minX), old(scaleX) * scaleFactor)
      ensures translateX == ZoomTranslate(old(scaleX), old(translateX), xP, scaleX)
      ensures ForwardX(old(InverseX(xP))) == xP
      ensures scaleX != 0.0 ==> InverseX(xP) == old(InverseX(xP))
      ensures minX < maxX ==> ForwardX(maxX) - ForwardX(minX) >= pixelWidth
      ensures scaleY == old(scaleY) && translateY == old(translateY)
    {
      var newScale := scaleX * scaleFactor;
      var x := InverseX(xP);
      var minScale := pixelWidth / (maxX - minX);
      newScale := Max(minScale, newScale);
      var newTranslate := xP - newScale * x;
      ZoomFixesPoint(scaleX, translateX, xP, newScale);
      scaleX := newScale;
      translateX := newTranslate;
      if minX < maxX {
        DomainFillsWidth(scaleX, translateX, minX, maxX, pixelWidth);
      }
    }
  }
}
