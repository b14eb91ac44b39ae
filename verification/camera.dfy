/** The camera page of check_in/js/app_checkin.js: the stream, zoom and
    torch state kept in module-level variables, the constraint fallback of
    `getBestStream`, and the shot button with its re-entry guard, session
    payload and check-in URL. Every browser call (getUserMedia, play,
    getCapabilities, applyConstraints, toDataURL, geolocation, storage
    quota) is an oracle parameter saying how that call ended. */
module Camera {
  import opened Wrappers
  import opened Text
  import opened Framing
  import opened Proximity

  /** The facingMode constraint of one getUserMedia attempt; every attempt
      also asks for an ideal 1080x1920 video without audio. */
  datatype Facing = ExactEnvironment | IdealEnvironment | ExactUser | IdealUser | AnyCamera

  /** The attempts of `getBestStream`, in order. */
  const Trials: seq<Facing> := [ExactEnvironment, IdealEnvironment, ExactUser, IdealUser, AnyCamera]

  /** `r` is what trying the attempts in order yields when `grants` says
      which of them getUserMedia accepts: the first accepted one, or None
      (the rethrown error) when none is. */
  predicate FirstGranted(grants: Facing -> bool, r: Option<Facing>) {
    && (r.None? <==> forall k :: 0 <= k < |Trials| ==> !grants(Trials[k]))
    && (r.Some? ==> exists i :: 0 <= i < |Trials| && Trials[i] == r.value && grants(Trials[i])
                                && forall k :: 0 <= k < i ==> !grants(Trials[k]))
  }

  /** At most one outcome is the first granted attempt. */
  lemma FirstGrantedUnique(grants: Facing -> bool, a: Option<Facing>, b: Option<Facing>)
    requires FirstGranted(grants, a) && FirstGranted(grants, b)
    ensures a == b
  {
    if a.Some? && b.Some? {
      var i :| 0 <= i < |Trials| && Trials[i] == a.value && grants(Trials[i])
                && forall k :: 0 <= k < i ==> !grants(Trials[k]);
      var j :| 0 <= j < |Trials| && Trials[j] == b.value && grants(Trials[j])
                && forall k :: 0 <= k < j ==> !grants(Trials[k]);
    }
  }

  method GetBestStream(grants: Facing -> bool) returns (r: Option<Facing>)
    ensures FirstGranted(grants, r)
  {
    var i := 0;
    while i < |Trials|
      invariant 0 <= i <= |Trials|
      invariant forall k :: 0 <= k < i ==> !grants(Trials[k])
    {
      if grants(Trials[i]) {
        return Some(Trials[i]);
      }
      i := i + 1;
    }
    return None;
  }

  /** `Math.max(lo, Math.min(hi, x))`. */
  function Clamp(lo: real, hi: real, x: real): (r: real)
    ensures lo <= hi ==> lo <= r <= hi
    ensures lo <= x <= hi ==> r == x
    ensures x < lo || hi < lo ==> r == lo
    ensures lo <= hi < x ==> r == hi
  {
    var m := if hi < x then hi else x;
    if lo < m then m else lo
  }

  /** `a || d` for a number that may be undefined or NaN (None): one of the
      two, and 0 only when neither is a non-zero number. */
  function NumberOr(a: Option<real>, d: real): (r: real)
    ensures a.Some? && a.value != 0.0 ==> r == a.value
    ensures a.None? || a == Some(0.0) ==> r == d
    ensures r == d || Some(r) == a
    ensures r != 0.0 <==> (a.Some? && a.value != 0.0) || d != 0.0
  {
    if a.Some? && a.value != 0.0 then a.value else d
  }

  /** `Number(next) || 1`, where None stands for NaN. */
  function ZoomRequest(n: Option<real>): (r: real)
    ensures r != 0.0
    ensures n.Some? && n.value != 0.0 ==> r == n.value
    ensures n.None? || n == Some(0.0) ==> r == 1.0
  {
    NumberOr(n, 1.0)
  }

  function Abs(x: real): real {
    if x < 0.0 then -x else x
  }

  const CssDigitalZoomMax: real := 5.0
  const CssZoomStep: real := 0.2
  const NativeZoomStep: real := 0.1
  /** A requested zoom closer than this to the current one is ignored. */
  const ZoomEpsilon: real := 0.001
  /** The slack of the zoom buttons' end-of-range test in `setZoom`. */
  const ButtonSlack: real := 0.000001

  /** `caps.zoom` as reported by getCapabilities: each member is None when
      it is not a number (or NaN). */
  datatype ZoomRange = ZoomRange(min: Option<real>, max: Option<real>, step: Option<real>)

  /** The outcome of `videoTrack.getCapabilities()`: it throws, or it
      reports a zoom object (or none) and whether `torch` is a key. A track
      without getCapabilities reports `Caps(None, false)`. */
  datatype CapsProbe = CapsThrows | Caps(zoom: Option<ZoomRange>, torch: bool)

  predicate HasNativeZoom(p: CapsProbe) {
    p.Caps? && p.zoom.Some? && p.zoom.value.min.Some?
  }

  /** The zoom variables and the two zoom buttons' disabled flags. */
  datatype ZoomState = ZoomState(supported: bool, cssFallback: bool, min: real, max: real,
                                 step: real, val: real, inDisabled: bool, outDisabled: bool)

  /** The zoom state `initZoom` leaves, given what the track reports
      (`Caps(None, false)` when there is no track) and whether applying the
      native zoom succeeds: the native range at its minimum, or else the
      simulated range at 1. The value lies in the range and the buttons
      are disabled at its ends. */
  function ZoomAfterInit(caps: CapsProbe, applyOk: bool): (z: ZoomState)
    ensures z.min <= z.max ==> z.min <= z.val <= z.max
    ensures z.inDisabled == (z.val >= z.max) && z.outDisabled == (z.val <= z.min)
    ensures z.supported <==> HasNativeZoom(caps)
    ensures z.cssFallback <==> !(HasNativeZoom(caps) && applyOk)
  {
    if HasNativeZoom(caps) && applyOk then
      var r := caps.zoom.value;
      var lo := r.min.value;
      var hi := NumberOr(r.max, lo);
      ZoomState(true, false, lo, hi, NumberOr(r.step, NativeZoomStep), lo, lo >= hi, true)
    else
      ZoomState(HasNativeZoom(caps), true, 1.0, CssDigitalZoomMax, CssZoomStep, 1.0, false, true)
  }

  /** The zoom state `setZoom(n)` leaves from `z`, where `applied` says
      whether a native apply would succeed: the range never changes, and a
      value within the range stays within it. */
  function ZoomAfterSet(z: ZoomState, n: Option<real>, applied: bool): (y: ZoomState)
    ensures y.min == z.min && y.max == z.max && y.step == z.step
    ensures (z.min <= z.max ==> z.min <= z.val <= z.max) ==> (y.min <= y.max ==> y.min <= y.val <= y.max)
    ensures Abs(y.val - Clamp(z.min, z.max, ZoomRequest(n))) < ZoomEpsilon
  {
    var next := Clamp(z.min, z.max, ZoomRequest(n));
    if Abs(next - z.val) < ZoomEpsilon then z
    else
      var degrade := z.supported && !applied;
      ZoomState(z.supported && !degrade, z.cssFallback || degrade, z.min, z.max, z.step, next,
                next >= z.max - ButtonSlack, next <= z.min + ButtonSlack)
  }

  /** What `setZoom` does: a clamped request less than 1e-3 from the
      current value changes nothing; otherwise it becomes the value, a
      native zoom whose apply fails degrades to simulated zoom for good,
      any other flag is kept, and each button is disabled at its end of the
      range. */
  lemma ZoomAfterSetSpec(z: ZoomState, n: Option<real>, applied: bool)
    ensures var next := Clamp(z.min, z.max, ZoomRequest(n));
            Abs(next - z.val) < ZoomEpsilon ==> ZoomAfterSet(z, n, applied) == z
    ensures var next := Clamp(z.min, z.max, ZoomRequest(n));
            var y := ZoomAfterSet(z, n, applied);
            Abs(next - z.val) >= ZoomEpsilon ==>
              && y.val == next
              && (z.supported && !applied ==> y.cssFallback && !y.supported)
              && (!(z.supported && !applied) ==> y.cssFallback == z.cssFallback && y.supported == z.supported)
              && y.outDisabled == (y.val <= y.min + ButtonSlack)
              && y.inDisabled == (y.val >= y.max - ButtonSlack)
  {
  }

  /** The zoom a started camera shows: 1 clamped into the range, to within
      1e-3. Without a working native zoom it is the simulated range [1, 5]
      at exactly 1, zoom-out disabled and zoom-in enabled; with one, the
      native range, kept native unless moving to 1 needed an apply that
      failed. */
  lemma StartedZoom(caps: CapsProbe, initOk: bool, applied: bool)
    ensures var z := ZoomAfterSet(ZoomAfterInit(caps, initOk), Some(1.0), applied);
            Abs(z.val - Clamp(z.min, z.max, 1.0)) < ZoomEpsilon
    ensures var z := ZoomAfterSet(ZoomAfterInit(caps, initOk), Some(1.0), applied);
            !(HasNativeZoom(caps) && initOk) ==>
              && z.cssFallback && z.supported == HasNativeZoom(caps)
              && z.min == 1.0 && z.max == CssDigitalZoomMax && z.step == CssZoomStep && z.val == 1.0
              && !z.inDisabled && z.outDisabled
    ensures var z := ZoomAfterSet(ZoomAfterInit(caps, initOk), Some(1.0), applied);
            HasNativeZoom(caps) && initOk ==>
              var lo := caps.zoom.value.min.value;
              && z.min == lo && z.max == NumberOr(caps.zoom.value.max, lo)
              && (z.supported <==> applied || Abs(Clamp(z.min, z.max, 1.0) - lo) < ZoomEpsilon)
              && z.cssFallback == !z.supported
  {
    var z0 := ZoomAfterInit(caps, initOk);
    assert ZoomRequest(Some(1.0)) == 1.0;
    if !(HasNativeZoom(caps) && initOk) {
      assert Clamp(z0.min, z0.max, 1.0) == 1.0;
    }
  }

  /** The query value set on the check-in URL: `String(number)` or a string. */
  datatype QueryValue = Num(x: real) | Str(s: string)

  /** The URL the shot handler navigates to, before serialisation. */
  datatype Target = Target(path: string, query: seq<(string, QueryValue)>)

  /** The JSON object stored under CHECKIN_IMAGE_PAYLOAD, before stringify. */
  datatype Payload = Payload(mime: string, b64: string, maKh: string, maHd: string)

  /** Where a shot handler run throws, if it does: in the shutter sound, in
      `toDataURL`, or in `sessionStorage.setItem`. */
  datatype ShotFault = NoFault | AudioFault | EncodeFault | StoreFault

  datatype ShotOutcome = Busy | Navigated(target: Target) | Failed

  const CheckinPath: string := "/checkin_khach_hang.html"
  const SessionImgKey: string := "CHECKIN_IMAGE_PAYLOAD"
  const ImageMime: string := "image/jpeg"

  /** The base64 data of a data URL: the text between its first comma and
      the next one, or '' when it has no comma. */
  function Base64Part(dataUrl: string): (b: string)
    ensures ',' !in b
  {
    match After(dataUrl, ',')
    case None => ""
    case Some(t) => UpTo(t, ',')
  }

  /** `Base64Part` is `dataUrl.split(',')[1] || ''`. */
  lemma Base64PartIsSplit(dataUrl: string)
    ensures var parts := Split(dataUrl, ',');
            Base64Part(dataUrl) == if |parts| >= 2 && parts[1] != "" then parts[1] else ""
  {
    SplitSecond(dataUrl, ',');
  }

  /** A data URL `header,data` yields its data. */
  lemma Base64PartOfDataUrl(header: string, data: string)
    requires ',' !in header && ',' !in data
    ensures Base64Part(header + [','] + data) == data
  {
    Base64PartIsSplit(header + [','] + data);
    SplitAtFirst(header, ',', data);
    SplitNoSeparator(data, ',');
  }

  /** `URLSearchParams.get`: the value of the first entry with key `k`. */
  function Lookup(q: seq<(string, QueryValue)>, k: string): (v: Option<QueryValue>)
    ensures v.None? <==> forall i :: 0 <= i < |q| ==> q[i].0 != k
    ensures v.Some? ==> exists i :: 0 <= i < |q| && q[i] == (k, v.value)
  {
    if q == [] then None
    else if q[0].0 == k then Some(q[0].1)
    else Lookup(q[1..], k)
  }

  /** A query parameter that `searchParams.set` adds when `present`. */
  datatype Param = Param(present: bool, key: string, value: QueryValue)

  /** The query built by setting, in order, the present parameters. */
  function Entries(ps: seq<Param>): (q: seq<(string, QueryValue)>)
    ensures |q| <= |ps|
  {
    if ps == [] then []
    else (if ps[0].present then [(ps[0].key, ps[0].value)] else []) + Entries(ps[1..])
  }

  /** The parameters of the check-in URL: lat, lng and lag (a copy of lat)
      from the fix when there is one, ma_kh and ma_hd when non-empty, then
      img=session. */
  function CheckinParams(gps: Option<Fix>, maKh: string, maHd: string): seq<Param> {
    var lat := if gps.Some? then gps.value.lat else 0.0;
    var lng := if gps.Some? then gps.value.lng else 0.0;
    [Param(gps.Some?, "lat", Num(lat)), Param(gps.Some?, "lng", Num(lng)),
     Param(gps.Some?, "lag", Num(lat)), Param(maKh != "", "ma_kh", Str(maKh)),
     Param(maHd != "", "ma_hd", Str(maHd)), Param(true, "img", Str("session"))]
  }

  /** The check-in URL the shot handler opens. */
  function TargetFor(gps: Option<Fix>, maKh: string, maHd: string): Target {
    Target(CheckinPath, Entries(CheckinParams(gps, maKh, maHd)))
  }

  /** No key occurs twice. */
  predicate DistinctKeys(q: seq<(string, QueryValue)>) {
    forall i, j :: 0 <= i < j < |q| ==> q[i].0 != q[j].0
  }

  predicate DistinctParams(ps: seq<Param>) {
    forall i, j :: 0 <= i < j < |ps| ==> ps[i].key != ps[j].key
  }

  /** Looking a key up in a concatenation looks in the first part first. */
  lemma {:induction false} LookupAppend(a: seq<(string, QueryValue)>, b: seq<(string, QueryValue)>, k: string)
    ensures Lookup(a + b, k) == if Lookup(a, k).Some? then Lookup(a, k) else Lookup(b, k)
  {
    if a == [] {
      assert a + b == b;
    } else {
      assert (a + b)[1..] == a[1..] + b;
      LookupAppend(a[1..], b, k);
    }
  }

  /** A key no parameter carries is on no entry and reads as absent. */
  lemma {:induction false} KeyAbsent(ps: seq<Param>, k: string)
    requires forall j :: 0 <= j < |ps| ==> ps[j].key != k
    ensures forall m :: 0 <= m < |Entries(ps)| ==> Entries(ps)[m].0 != k
    ensures Lookup(Entries(ps), k) == None
  {
    if ps != [] {
      var head := if ps[0].present then [(ps[0].key, ps[0].value)] else [];
      var rest := Entries(ps[1..]);
      assert Entries(ps) == head + rest;
      KeyAbsent(ps[1..], k);
      LookupAppend(head, rest, k);
    }
  }

  /** With distinct keys, no key is set twice. */
  lemma {:induction false} EntriesDistinct(ps: seq<Param>)
    requires DistinctParams(ps)
    ensures DistinctKeys(Entries(ps))
  {
    if ps != [] {
      var head := if ps[0].present then [(ps[0].key, ps[0].value)] else [];
      var rest := Entries(ps[1..]);
      assert Entries(ps) == head + rest;
      assert DistinctParams(ps[1..]);
      EntriesDistinct(ps[1..]);
      assert forall j :: 0 <= j < |ps[1..]| ==> ps[1..][j].key != ps[0].key;
      KeyAbsent(ps[1..], ps[0].key);
    }
  }

  /** With distinct keys, each parameter reads back as its value when it
      was set and as absent otherwise. */
  lemma {:induction false} EntriesLookup(ps: seq<Param>, i: nat)
    requires DistinctParams(ps) && i < |ps|
    ensures Lookup(Entries(ps), ps[i].key) == if ps[i].present then Some(ps[i].value) else None
  {
    var k := ps[i].key;
    var head := if ps[0].present then [(ps[0].key, ps[0].value)] else [];
    var rest := Entries(ps[1..]);
    assert Entries(ps) == head + rest;
    LookupAppend(head, rest, k);
    if i == 0 {
      if !ps[0].present {
        assert forall j :: 0 <= j < |ps[1..]| ==> ps[1..][j].key != k;
        KeyAbsent(ps[1..], k);
      }
    } else {
      assert DistinctParams(ps[1..]);
      assert ps[1..][i - 1] == ps[i];
      EntriesLookup(ps[1..], i - 1);
    }
  }

  /** The coordinates on the check-in URL: lat, lng and lag (a copy of
      lat) read back as the fix's values when there is a fix, and are
      absent otherwise. */
  lemma TargetCoordinates(gps: Option<Fix>, maKh: string, maHd: string)
    ensures var q := TargetFor(gps, maKh, maHd).query;
            && Lookup(q, "lat") == (if gps.Some? then Some(Num(gps.value.lat)) else None)
            && Lookup(q, "lng") == (if gps.Some? then Some(Num(gps.value.lng)) else None)
            && Lookup(q, "lag") == (if gps.Some? then Some(Num(gps.value.lat)) else None)
  {
    var ps := CheckinParams(gps, maKh, maHd);
    assert DistinctParams(ps);
    EntriesLookup(ps, 0);
    EntriesLookup(ps, 1);
    EntriesLookup(ps, 2);
  }

  /** The codes on the check-in URL: ma_kh and ma_hd are present exactly
      when non-empty, img is always 'session', and no key is set twice. */
  lemma TargetCodes(gps: Option<Fix>, maKh: string, maHd: string)
    ensures var q := TargetFor(gps, maKh, maHd).query;
            && Lookup(q, "ma_kh") == (if maKh != "" then Some(Str(maKh)) else None)
            && Lookup(q, "ma_hd") == (if maHd != "" then Some(Str(maHd)) else None)
            && Lookup(q, "img") == Some(Str("session"))
    ensures DistinctKeys(TargetFor(gps, maKh, maHd).query)
  {
    var ps := CheckinParams(gps, maKh, maHd);
    assert DistinctParams(ps);
    EntriesLookup(ps, 3);
    EntriesLookup(ps, 4);
    EntriesLookup(ps, 5);
    EntriesDistinct(ps);
  }

  class CameraPage {
    var stream: Option<Facing>
    var hasTrack: bool
    var torchOn: bool
    var torchDisabled: bool
    var zoomSupported: bool
    var cssZoomFallback: bool
    var zoomMin: real
    var zoomMax: real
    var zoomStep: real
    var zoomVal: real
    var zoomInDisabled: bool
    var zoomOutDisabled: bool
    var shotDisabled: bool
    var shooting: bool
    var session: map<string, Payload>
    var navigations: seq<Target>
    var lastCrop: Option<Rect>
    /** The `ma_kh` and `ma_hd` query parameters of the page, or ''. */
    const maKh: string
    const maHd: string

    function Zoom(): ZoomState
      reads this
    {
      ZoomState(zoomSupported, cssZoomFallback, zoomMin, zoomMax, zoomStep, zoomVal,
                zoomInDisabled, zoomOutDisabled)
    }

    /** The zoom value lies in the zoom range whenever that range is not
        empty. */
    predicate ZoomValid()
      reads this
    {
      zoomMin <= zoomMax ==> zoomMin <= zoomVal <= zoomMax
    }

    predicate SimulatedRange()
      reads this
    {
      zoomMin == 1.0 && zoomMax == CssDigitalZoomMax && zoomStep == CssZoomStep && zoomVal == 1.0
    }

    /** The page as loaded: `qp.get('ma_kh') || ''` and likewise ma_hd, no
        stream, zoom 1 in [1, 1] with step 0.1, nothing stored. */
    constructor(maKhParam: Option<string>, maHdParam: Option<string>)
      ensures maKh == OrElse(maKhParam, "") && maHd == OrElse(maHdParam, "")
      ensures stream == None && !hasTrack && !torchOn && !torchDisabled
      ensures Zoom() == ZoomState(false, false, 1.0, 1.0, NativeZoomStep, 1.0, false, false)
      ensures !shotDisabled && !shooting && session == map[] && navigations == [] && lastCrop == None
      ensures ZoomValid()
    {
      maKh := OrElse(maKhParam, "");
      maHd := OrElse(maHdParam, "");
      stream := None;
      hasTrack := false;
      torchOn := false;
      torchDisabled := false;
      zoomSupported := false;
      cssZoomFallback := false;
      zoomMin := 1.0;
      zoomMax := 1.0;
      zoomStep := NativeZoomStep;
      zoomVal := 1.0;
      zoomInDisabled := false;
      zoomOutDisabled := false;
      // The page's markup gives the shot button's initial state; the
      // script itself only sets it in startCam and after a shot.
      shotDisabled := false;
      shooting := false;
      session := map[];
      navigations := [];
      lastCrop := None;
    }

    /** `stopCam`: the tracks are stopped and the stream and track dropped. */
    method StopCam()
      modifies this`stream, this`hasTrack
      ensures stream == None && !hasTrack
    {
      stream := None;
      hasTrack := false;
    }

    /** The simulated (CSS) zoom range [1, 5] with step 0.2 at value 1. */
    method UseCssZoom()
      modifies this`cssZoomFallback, this`zoomMin, this`zoomMax, this`zoomStep, this`zoomVal
      ensures cssZoomFallback && SimulatedRange()
    {
      cssZoomFallback := true;
      zoomMin := 1.0;
      zoomMax := CssDigitalZoomMax;
      zoomStep := CssZoomStep;
      zoomVal := 1.0;
    }

    /** `initZoom`: reset, then take the native zoom range when the track
        reports a numeric `zoom.min` and applying it succeeds; otherwise
        fall back to simulated zoom. A failed native apply keeps
        `zoomSupported` set while switching to the simulated range. */
    method InitZoom(probe: CapsProbe, applyOk: bool)
      modifies this`zoomSupported, this`cssZoomFallback, this`zoomMin, this`zoomMax, this`zoomStep,
               this`zoomVal, this`zoomInDisabled, this`zoomOutDisabled
      ensures hasTrack && HasNativeZoom(probe) && applyOk ==>
                var z := probe.zoom.value;
                && zoomSupported && !cssZoomFallback
                && zoomMin == z.min.value && zoomMax == NumberOr(z.max, z.min.value)
                && zoomStep == NumberOr(z.step, NativeZoomStep) && zoomVal == zoomMin
      ensures hasTrack && HasNativeZoom(probe) && !applyOk ==>
                zoomSupported && cssZoomFallback && SimulatedRange()
      ensures !(hasTrack && HasNativeZoom(probe)) ==>
                !zoomSupported && cssZoomFallback && SimulatedRange()
      ensures zoomInDisabled == (zoomVal >= zoomMax) && zoomOutDisabled == (zoomVal <= zoomMin)
      ensures ZoomValid()
      ensures Zoom() == ZoomAfterInit(if hasTrack then probe else Caps(None, false), applyOk)
    {
      zoomSupported := false;
      cssZoomFallback := false;
      zoomMin := 1.0;
      zoomMax := 1.0;
      zoomStep := NativeZoomStep;
      zoomVal := 1.0;
      var caps := if hasTrack then probe else Caps(None, false);
      if HasNativeZoom(caps) {
        var z := caps.zoom.value;
        zoomSupported := true;
        zoomMin := z.min.value;
        zoomMax := NumberOr(z.max, z.min.value);
        zoomStep := NumberOr(z.step, NativeZoomStep);
        zoomVal := zoomMin;
        if !applyOk {
          UseCssZoom();
        }
      } else {
        UseCssZoom();
      }
      zoomInDisabled := zoomVal >= zoomMax;
      zoomOutDisabled := zoomVal <= zoomMin;
    }

    /** `setZoom(next)`: coerce with `Number(next) || 1`, clamp into the
        range, ignore a change under 1e-3, else apply it natively when
        supported; a failed native apply (or a missing track) degrades to
        simulated zoom for good. The range itself never changes. */
    method SetZoom(n: Option<real>, applyOk: bool)
      modifies this`zoomVal, this`zoomSupported, this`cssZoomFallback, this`zoomInDisabled,
               this`zoomOutDisabled
      ensures Zoom() == ZoomAfterSet(old(Zoom()), n, hasTrack && applyOk)
    {
      var next := Clamp(zoomMin, zoomMax, ZoomRequest(n));
      if Abs(next - zoomVal) < ZoomEpsilon {
        return;
      }
      zoomVal := next;
      if zoomSupported && !(hasTrack && applyOk) {
        cssZoomFallback := true;
        zoomSupported := false;
      }
      zoomOutDisabled := zoomVal <= zoomMin + ButtonSlack;
      zoomInDisabled := zoomVal >= zoomMax - ButtonSlack;
    }

    /** `tryApplyTorch(turnOn)`: false without a track; false with the torch
        button disabled when the capabilities throw, lack `torch`, or the
        apply fails; otherwise the torch is switched and the answer is true. */
    method TryApplyTorch(turnOn: bool, probe: CapsProbe, applyOk: bool) returns (ok: bool)
      modifies this`torchOn, this`torchDisabled
      ensures ok <==> hasTrack && probe.Caps? && probe.torch && applyOk
      ensures ok ==> torchOn == turnOn && torchDisabled == old(torchDisabled)
      ensures !ok ==> torchOn == old(torchOn)
      ensures !ok ==> torchDisabled == (old(torchDisabled) || hasTrack)
    {
      if !hasTrack {
        return false;
      }
      if probe.CapsThrows? || !probe.torch || !applyOk {
        torchDisabled := true;
        return false;
      }
      torchOn := turnOn;
      return true;
    }

    /** `startCam`: stop, take the first stream getUserMedia grants and play
        it; then enable the shot button, take the video track, initialise
        zoom, request zoom 1 and switch the torch off. When no stream is
        granted or play() fails, the shot button is disabled and zoom and
        torch are untouched; a stream whose play() failed stays assigned.
        The 20 m proximity notice that follows is `Proximity.NearbyNotice`. */
    method StartCam(grants: Facing -> bool, playOk: bool, trackPresent: bool, probe: CapsProbe,
                    initApplyOk: bool, zoomApplyOk: bool, torchApplyOk: bool)
      modifies this`stream, this`hasTrack, this`torchOn, this`torchDisabled, this`shotDisabled,
               this`zoomSupported, this`cssZoomFallback, this`zoomMin, this`zoomMax, this`zoomStep,
               this`zoomVal, this`zoomInDisabled, this`zoomOutDisabled
      ensures FirstGranted(grants, stream)
      ensures shotDisabled <==> !(stream.Some? && playOk)
      ensures stream.Some? && playOk ==> hasTrack == trackPresent && ZoomValid()
      ensures stream.Some? && playOk ==>
                Zoom() == ZoomAfterSet(ZoomAfterInit(if trackPresent then probe else Caps(None, false), initApplyOk),
                                       Some(1.0), trackPresent && zoomApplyOk)
      ensures stream.Some? && playOk ==> Abs(zoomVal - Clamp(zoomMin, zoomMax, 1.0)) < ZoomEpsilon
      ensures stream.Some? && playOk ==>
                torchOn == (if trackPresent && probe.Caps? && probe.torch && torchApplyOk
                            then false else old(torchOn))
      ensures stream.Some? && playOk ==>
                torchDisabled == (old(torchDisabled) || (trackPresent && !(probe.Caps? && probe.torch && torchApplyOk)))
      ensures !(stream.Some? && playOk) ==>
                !hasTrack && Zoom() == old(Zoom()) && torchOn == old(torchOn)
                && torchDisabled == old(torchDisabled)
    {
      StopCam();
      var s := GetBestStream(grants);
      if s.None? {
        shotDisabled := true;
        return;
      }
      stream := s;
      if !playOk {
        shotDisabled := true;
        return;
      }
      hasTrack := trackPresent;
      shotDisabled := false;
      InitZoom(probe, initApplyOk);
      assert ZoomRequest(Some(1.0)) == 1.0;
      SetZoom(Some(1.0), zoomApplyOk);
      var _ := TryApplyTorch(false, probe, torchApplyOk);
    }

    /** `drawToCanvas`: the frame is drawn through the crop, and nothing
        happens while the video has no size yet. */
    method DrawToCanvas(frameW: nat, frameH: nat)
      modifies this`lastCrop
      ensures var crop := CaptureCrop(frameW, frameH, cssZoomFallback, zoomVal);
              lastCrop == (if crop.Some? then crop else old(lastCrop))
    {
      var crop := CaptureCrop(frameW, frameH, cssZoomFallback, zoomVal);
      if crop.Some? {
        lastCrop := crop;
      }
    }

    /** The shot button. Busy, changing nothing, without a stream or while
        a shot is in progress. Otherwise the shot flag is raised and the
        button disabled; unless a step throws, the frame is cropped, the
        payload stored under CHECKIN_IMAGE_PAYLOAD and the check-in URL
        opened. The flag is lowered only by `Cooldown`. */
    method PressShot(frameW: nat, frameH: nat, dataUrl: string, gps: Option<Fix>, fault: ShotFault)
      returns (o: ShotOutcome)
      modifies this`shooting, this`shotDisabled, this`lastCrop, this`session, this`navigations
      ensures (stream.None? || old(shooting)) <==> o == Busy
      ensures o == Busy ==> shooting == old(shooting) && shotDisabled == old(shotDisabled)
      ensures o != Busy ==> shooting && shotDisabled
      ensures o.Navigated? <==> o != Busy && fault == NoFault
      ensures o.Navigated? ==>
                && o.target == TargetFor(gps, maKh, maHd)
                && navigations == old(navigations) + [o.target]
                && session == old(session)[SessionImgKey := Payload(ImageMime, Base64Part(dataUrl), maKh, maHd)]
      ensures !o.Navigated? ==> navigations == old(navigations) && session == old(session)
      ensures var crop := CaptureCrop(frameW, frameH, cssZoomFallback, zoomVal);
              lastCrop == (if o != Busy && fault != AudioFault && crop.Some? then crop else old(lastCrop))
    {
      if stream.None? || shooting {
        return Busy;
      }
      shooting := true;
      shotDisabled := true;
      if fault == AudioFault {
        return Failed;
      }
      DrawToCanvas(frameW, frameH);
      if fault == EncodeFault {
        return Failed;
      }
      var payload := Payload(ImageMime, Base64Part(dataUrl), maKh, maHd);
      if fault == StoreFault {
        return Failed;
      }
      session := session[SessionImgKey := payload];
      var t := TargetFor(gps, maKh, maHd);
      navigations := navigations + [t];
      return Navigated(t);
    }

    /** The 800 ms timer after a shot: the flag is lowered and the button
        enabled exactly when a stream is present. */
    method Cooldown()
      modifies this`shooting, this`shotDisabled
      ensures !shooting && shotDisabled == stream.None?
    {
      shooting := false;
      shotDisabled := stream.None?;
    }
  }
}
