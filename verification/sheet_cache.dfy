/** The reference point cache of the capture page (`ensureSheetPoints` in
    check_in/js/app_checkin.js): the in-memory list, then the copy in
    localStorage while it is younger than five minutes, then the remote
    sheet, which is written back to memory and storage. */
module SheetCache {
  import opened Wrappers
  import opened Text
  import opened SheetCsv

  const SheetTtlMs: int := 5 * 60 * 1000
  const CacheKey: string := "SHEET_POINTS_CACHE"
  const StampKey: string := "SHEET_POINTS_TS"

  /** A localStorage entry as `lsGet` decodes it: the point list or the
      fetch time, both written by this page. */
  datatype Stored = StoredPoints(points: seq<Point>) | StoredNumber(n: int)

  /** A record of the JSON point source, already decoded: `Number(r.lat)` and
      `Number(r.lng)` (None for NaN or an infinite value), and each text field
      as present or absent. */
  datatype JsonRecord = JsonRecord(lat: Option<real>, lng: Option<real>,
                                   name: Option<string>, ten: Option<string>,
                                   maKh: Option<string>, maHd: Option<string>, mahd: Option<string>)

  /** The value `res.json()` resolves to: an array, an object with or without
      an array under `data` (any other value has no such array either), or
      `null`. An array item is a record, or None for `null`, whose fields
      cannot be read. */
  datatype JsonBody = JsonArray(items: seq<Option<JsonRecord>>) | JsonObject(data: Option<seq<Option<JsonRecord>>>) | JsonNull

  /** What the request to the sheet URL gives: a response with its
      content-type header (None when absent), its text, and its JSON value
      (None when the body is not JSON); or a network failure. */
  datatype Response = Response(contentType: Option<string>, text: string, json: Option<JsonBody>) | NetworkError

  /** How a call was answered: from memory, from storage, or by fetching. */
  datatype Source = Memory | Storage | Network

  /** The point of one JSON record: `name||ten||''`, `ma_kh||''`,
      `ma_hd||mahd||''`; None when a coordinate is not finite. */
  function RecordPoint(r: JsonRecord): Option<Point> {
    if r.lat.None? || r.lng.None? then None
    else Some(Point(r.lat.value, r.lng.value,
                    Some(if Truthy(r.name) then r.name.value else OrElse(r.ten, "")),
                    Some(OrElse(r.maKh, "")),
                    Some(if Truthy(r.maHd) then r.maHd.value else OrElse(r.mahd, ""))))
  }

  /** `arr.map(...).filter(isFinite lat and lng)`. */
  function RecordPoints(items: seq<JsonRecord>): (ps: seq<Point>)
    ensures |ps| <= |items|
  {
    if items == [] then []
    else RecordPoints(items[..|items| - 1]) + OptionToSeq(RecordPoint(items[|items| - 1]))
  }

  /** The records of an array, or None when an item is `null` (reading
      `r.lat` of it throws). */
  function Records(items: seq<Option<JsonRecord>>): (rs: Option<seq<JsonRecord>>)
    ensures rs.None? <==> exists k :: 0 <= k < |items| && items[k].None?
    ensures rs.Some? ==> |rs.value| == |items| && forall k :: 0 <= k < |items| ==> items[k] == Some(rs.value[k])
  {
    if items == [] then Some([])
    else
      var init := Records(items[..|items| - 1]);
      var last := items[|items| - 1];
      assert forall k :: 0 <= k < |items| - 1 ==> items[..|items| - 1][k] == items[k];
      if init.None? || last.None? then None else Some(init.value + [last.value])
  }

  /** The points of an array, or None when it holds a `null` item. */
  function ArrayPoints(items: seq<Option<JsonRecord>>): Option<seq<Point>> {
    match Records(items)
    case None => None
    case Some(rs) => Some(RecordPoints(rs))
  }

  /** The points of a JSON body; None when reading `data` of `null`, or a
      field of a `null` item, throws. */
  function JsonPoints(body: JsonBody): Option<seq<Point>> {
    match body
    case JsonArray(items) => ArrayPoints(items)
    case JsonObject(data) => if data.Some? then ArrayPoints(data.value) else Some([])
    case JsonNull => None
  }

  /** The points a response gives, or None when the request or the decoding
      fails (the promise rejects). */
  function Download(res: Response): Option<seq<Point>> {
    match res
    case NetworkError => None
    case Response(ct, text, json) =>
      if Contains(ToLower(OrElse(ct, "")), "application/json") then
        if json.None? then None else JsonPoints(json.value)
      else Some(ParseSheet(text))
  }

  /** The stored list when it is fresh: a list under the cache key, a
      non-zero time under the stamp key, and less than the TTL elapsed. */
  function FreshStored(storage: map<string, Stored>, now: int): Option<seq<Point>> {
    if CacheKey in storage && storage[CacheKey].StoredPoints?
       && StampKey in storage && storage[StampKey].StoredNumber?
       && storage[StampKey].n != 0 && now - storage[StampKey].n < SheetTtlMs
    then Some(storage[CacheKey].points)
    else None
  }

  /** Storage after a fetch at time `now` wrote the points back. */
  function WrittenBack(storage: map<string, Stored>, ps: seq<Point>, now: int): map<string, Stored> {
    storage[CacheKey := StoredPoints(ps)][StampKey := StoredNumber(now)]
  }

  /** The module-level list `SHEET_POINTS` and the page's localStorage. */
  class PointCache {
    var points: seq<Point>
    var storage: map<string, Stored>

    constructor (storage0: map<string, Stored>)
      ensures points == [] && storage == storage0
    {
      points := [];
      storage := storage0;
    }

    /** `ensureSheetPoints()` at time `now`, with `res` what the request would
        give, `writtenAt` the clock read again once the download is done
        (the stamp written back), and `writesOk` how many of the two `lsSet` calls succeed before
        one throws (a full quota). A non-empty list in memory short-circuits
        (an empty one does not, since only its length is tested); a fresh
        stored list is taken into memory; otherwise the sheet is fetched,
        becomes the memory list, and is written to storage, list first and
        stamp second. A failed request rejects (None) and changes nothing; a
        failed write rejects too, after memory and the writes before it
        have taken effect. */
    method EnsurePoints(now: int, res: Response, writtenAt: int, writesOk: nat) returns (r: Option<seq<Point>>, src: Source)
      modifies this
      ensures old(points) != [] ==> src == Memory && r == Some(old(points)) && points == old(points) && storage == old(storage)
      ensures old(points) == [] && FreshStored(old(storage), now).Some? ==>
                src == Storage && r == FreshStored(old(storage), now) && points == r.value && storage == old(storage)
      ensures old(points) == [] && FreshStored(old(storage), now).None? ==> src == Network
      ensures src == Network && Download(res).None? ==> r.None? && points == old(points) && storage == old(storage)
      ensures src == Network && Download(res).Some? ==>
                && points == Download(res).value
                && r == (if writesOk >= 2 then Download(res) else None)
                && storage == (if writesOk == 0 then old(storage)
                               else if writesOk == 1 then old(storage)[CacheKey := StoredPoints(points)]
                               else WrittenBack(old(storage), points, writtenAt))
    {
      if |points| > 0 {
        return Some(points), Memory;
      }
      var cached := FreshStored(storage, now);
      if cached.Some? {
        points := cached.value;
        return Some(points), Storage;
      }
      src := Network;
      var data := Download(res);
      if data.None? {
        return None, Network;
      }
      points := data.value;
      if writesOk == 0 {
        return None, Network;
      }
      storage := storage[CacheKey := StoredPoints(points)];
      if writesOk == 1 {
        return None, Network;
      }
      storage := storage[StampKey := StoredNumber(writtenAt)];
      r := Some(points);
    }
  }

  /** The content-type dispatch: a JSON content type (any case) reads the
      JSON value, giving the points of an array itself or of the array
      under `data`, none for any other object, and a rejection for `null`,
      for an array holding a `null` item,
      or a body that is not JSON; any other content type parses the text
      as CSV. A network failure rejects. */
  lemma DownloadDispatch(res: Response)
    ensures res.NetworkError? ==> Download(res).None?
    ensures res.Response? && !Contains(ToLower(OrElse(res.contentType, "")), "application/json") ==>
              Download(res) == Some(ParseSheet(res.text))
    ensures res.Response? && Contains(ToLower(OrElse(res.contentType, "")), "application/json") ==>
              && (res.json.None? ==> Download(res).None?)
              && (res.json == Some(JsonNull) ==> Download(res).None?)
              && (forall items :: res.json == Some(JsonArray(items)) ==> Download(res) == ArrayPoints(items))
              && (forall items :: res.json == Some(JsonObject(Some(items))) ==> Download(res) == ArrayPoints(items))
              && (res.json == Some(JsonObject(None)) ==> Download(res) == Some([]))
  {
  }

  /** An array yields the points of its records when every item is a
      record, and rejects as soon as one item is `null`; it never yields
      more points than items. */
  lemma ArrayPointsSpec(items: seq<Option<JsonRecord>>)
    ensures ArrayPoints(items).None? <==> exists k :: 0 <= k < |items| && items[k].None?
    ensures (forall k :: 0 <= k < |items| ==> items[k].Some?) ==>
              ArrayPoints(items) == Some(RecordPoints(seq(|items|, k requires 0 <= k < |items| => items[k].value)))
    ensures ArrayPoints(items).Some? ==> |ArrayPoints(items).value| <= |items|
  {
    var rs := Records(items);
    if rs.Some? {
      assert rs.value == seq(|items|, k requires 0 <= k < |items| => items[k].value);
    }
  }

  /** `map` and `filter` keep the records' order: the points of two runs
      of records back to back are the points of each, concatenated. */
  lemma {:induction false} RecordPointsAppend(a: seq<JsonRecord>, b: seq<JsonRecord>)
    ensures RecordPoints(a + b) == RecordPoints(a) + RecordPoints(b)
    decreases |b|
  {
    if b == [] {
      assert a + b == a;
    } else {
      var b' := b[..|b| - 1];
      assert (a + b)[..|a + b| - 1] == a + b';
      assert (a + b)[|a + b| - 1] == b[|b| - 1];
      RecordPointsAppend(a, b');
    }
  }

  /** What a fetch writes back is read back as fresh until the TTL has
      elapsed, and from then on is stale, so the sheet is fetched again. */
  lemma WrittenBackFreshness(storage: map<string, Stored>, ps: seq<Point>, fetchedAt: int, later: int)
    requires fetchedAt != 0
    ensures later - fetchedAt < SheetTtlMs ==> FreshStored(WrittenBack(storage, ps, fetchedAt), later) == Some(ps)
    ensures later - fetchedAt >= SheetTtlMs ==> FreshStored(WrittenBack(storage, ps, fetchedAt), later).None?
  {
    var s := WrittenBack(storage, ps, fetchedAt);
    assert CacheKey != StampKey;
    assert s[CacheKey] == StoredPoints(ps) && s[StampKey] == StoredNumber(fetchedAt);
  }

  /** The fallbacks of one record: a point exactly when both coordinates
      are finite, with `ten` standing in for an empty `name`, `mahd` for an
      empty `ma_hd`, and '' for a field that is absent or empty. */
  lemma RecordPointFields(r: JsonRecord)
    ensures RecordPoint(r).Some? <==> r.lat.Some? && r.lng.Some?
    ensures RecordPoint(r).Some? ==>
              var p := RecordPoint(r).value;
              && p.lat == r.lat.value && p.lng == r.lng.value
              && (Truthy(r.name) ==> p.name == r.name)
              && (!Truthy(r.name) && Truthy(r.ten) ==> p.name == r.ten)
              && (!Truthy(r.name) && !Truthy(r.ten) ==> p.name == Some(""))
              && (Truthy(r.maKh) ==> p.maKh == r.maKh)
              && (!Truthy(r.maKh) ==> p.maKh == Some(""))
              && (Truthy(r.maHd) ==> p.maHd == r.maHd)
              && (!Truthy(r.maHd) && Truthy(r.mahd) ==> p.maHd == r.mahd)
              && (!Truthy(r.maHd) && !Truthy(r.mahd) ==> p.maHd == Some(""))
  {
  }

  /** Every point comes from one of the records, and every record with
      finite coordinates contributes its point. */
  lemma {:induction false} RecordPointsFromRecords(items: seq<JsonRecord>)
    ensures forall p :: p in RecordPoints(items) ==> exists j :: 0 <= j < |items| && RecordPoint(items[j]) == Some(p)
    ensures forall j :: 0 <= j < |items| && RecordPoint(items[j]).Some? ==> RecordPoint(items[j]).value in RecordPoints(items)
  {
    if items != [] {
      var init := items[..|items| - 1];
      RecordPointsFromRecords(init);
      forall p | p in RecordPoints(items)
        ensures exists j :: 0 <= j < |items| && RecordPoint(items[j]) == Some(p)
      {
        if p in RecordPoints(init) {
          var j :| 0 <= j < |init| && RecordPoint(init[j]) == Some(p);
          assert items[j] == init[j];
        } else {
          assert RecordPoint(items[|items| - 1]) == Some(p);
        }
      }
      forall j | 0 <= j < |items| && RecordPoint(items[j]).Some?
        ensures RecordPoint(items[j]).value in RecordPoints(items)
      {
        if j < |items| - 1 {
          assert items[j] == init[j];
        }
      }
    }
  }
}
