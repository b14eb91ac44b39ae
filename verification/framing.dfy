/** The crop rectangle of `drawToCanvas` in check_in/js/app_checkin.js,
    computed over exact reals: the largest centred 900:1600 region of the
    video frame, shrunk about its centre by the simulated zoom factor. */
module Framing {
  import opened Wrappers

  const TargetW: real := 900.0
  const TargetH: real := 1600.0

  /** A source rectangle of `drawImage`: left, top, width, height. */
  datatype Rect = Rect(x: real, y: real, w: real, h: real)

  predicate InsideFrame(r: Rect, fw: real, fh: real) {
    0.0 <= r.x && 0.0 <= r.y && 0.0 < r.w && 0.0 < r.h && r.x + r.w <= fw && r.y + r.h <= fh
  }

  predicate CentredIn(r: Rect, fw: real, fh: real) {
    r.x + r.w / 2.0 == fw / 2.0 && r.y + r.h / 2.0 == fh / 2.0
  }

  predicate HasTargetAspect(r: Rect) {
    r.w * TargetH == r.h * TargetW
  }

  /** The centre crop to 900:1600: a frame wider than that loses width, any
      other loses height, so the crop spans the frame in one direction. */
  function CentreCrop(fw: real, fh: real): (r: Rect)
    requires fw > 0.0 && fh > 0.0
    ensures InsideFrame(r, fw, fh) && CentredIn(r, fw, fh) && HasTargetAspect(r)
    ensures r.w == fw || r.h == fh
  {
    var desired := TargetW / TargetH;
    var ar := fw / fh;
    if ar > desired then
      var sw := fh * desired;
      assert sw < fw by { assert fw == ar * fh; }
      Rect((fw - sw) / 2.0, 0.0, sw, fh)
    else
      var sh := fw / desired;
      assert sh <= fh by { assert fw == ar * fh; assert sh == ar * fh / desired; }
      Rect(0.0, (fh - sh) / 2.0, fw, sh)
  }

  /** The same rectangle shrunk by a factor z about its own centre. */
  function ShrinkAboutCentre(r: Rect, z: real): (s: Rect)
    requires z > 0.0
    ensures s.w * z == r.w && s.h * z == r.h
    ensures s.x + s.w / 2.0 == r.x + r.w / 2.0 && s.y + s.h / 2.0 == r.y + r.h / 2.0
  {
    var cx := r.x + r.w / 2.0;
    var cy := r.y + r.h / 2.0;
    var w := r.w / z;
    var h := r.h / z;
    Rect(cx - w / 2.0, cy - h / 2.0, w, h)
  }

  /** The source rectangle `drawToCanvas` draws from a `fw` by `fh` frame,
      given the simulated-zoom flag and value; None when a dimension is 0
      and nothing is drawn. With simulated zoom z > 1 the centre crop is
      divided by z in both directions and stays centred; otherwise it is the
      centre crop itself. */
  function CaptureCrop(fw: nat, fh: nat, cssZoom: bool, zoom: real): (r: Option<Rect>)
    ensures r.None? <==> fw == 0 || fh == 0
    ensures r.Some? ==> InsideFrame(r.value, fw as real, fh as real)
                        && CentredIn(r.value, fw as real, fh as real)
                        && HasTargetAspect(r.value)
    ensures r.Some? && !(cssZoom && zoom > 1.0) ==> r.value == CentreCrop(fw as real, fh as real)
  {
    if fw == 0 || fh == 0 then None
    else
      var base := CentreCrop(fw as real, fh as real);
      if cssZoom && zoom > 1.0 then
        var s := ShrinkAboutCentre(base, zoom);
        ShrunkInside(base, zoom, fw as real, fh as real);
        Some(s)
      else Some(base)
  }

  /** Under simulated zoom z > 1 the crop is the centre crop divided by z
      in each direction, so what is drawn is magnified z times. */
  lemma ZoomedCropScale(fw: nat, fh: nat, zoom: real)
    requires fw > 0 && fh > 0 && zoom > 1.0
    ensures var r := CaptureCrop(fw, fh, true, zoom).value;
            var base := CentreCrop(fw as real, fh as real);
            r.w * zoom == base.w && r.h * zoom == base.h && r.w < base.w && r.h < base.h
  {
    var base := CentreCrop(fw as real, fh as real);
    assert CaptureCrop(fw, fh, true, zoom) == Some(ShrinkAboutCentre(base, zoom));
    ShrinkScale(base, zoom);
  }

  /** Shrinking by z > 1 divides both sides by z, so both get smaller. */
  lemma ShrinkScale(r: Rect, z: real)
    requires r.w > 0.0 && r.h > 0.0 && z > 1.0
    ensures var s := ShrinkAboutCentre(r, z);
            s.w * z == r.w && s.h * z == r.h && s.w < r.w && s.h < r.h
  {
    DivShrinks(r.w, z);
    DivShrinks(r.h, z);
  }

  /** Shrinking by z > 1 about the centre keeps a centred crop inside the
      frame, centred, and of the same aspect. */
  lemma ShrunkInside(r: Rect, z: real, fw: real, fh: real)
    requires z > 1.0
    requires InsideFrame(r, fw, fh) && CentredIn(r, fw, fh) && HasTargetAspect(r)
    ensures InsideFrame(ShrinkAboutCentre(r, z), fw, fh)
    ensures CentredIn(ShrinkAboutCentre(r, z), fw, fh)
    ensures HasTargetAspect(ShrinkAboutCentre(r, z))
  {
    var s := ShrinkAboutCentre(r, z);
    DivShrinks(r.w, z);
    DivShrinks(r.h, z);
    assert (s.w * TargetH) * z == (s.h * TargetW) * z by {
      assert (s.w * TargetH) * z == (s.w * z) * TargetH;
      assert (s.h * TargetW) * z == (s.h * z) * TargetW;
    }
    ScaleEq(s.w * TargetH, s.h * TargetW, z);
  }

  lemma DivShrinks(a: real, z: real)
    requires a > 0.0 && z > 1.0
    ensures 0.0 < a / z < a
  {
    var q := a / z;
    assert q * z == a;
    assert a - q == q * (z - 1.0);
    PosMul(q, z - 1.0);
  }

  lemma PosMul(a: real, b: real)
    requires a > 0.0 && b > 0.0
    ensures a * b > 0.0
  {}

  lemma ScaleEq(a: real, b: real, z: real)
    requires z != 0.0 && a * z == b * z
    ensures a == b
  {
    assert (a - b) * z == 0.0;
  }
}
