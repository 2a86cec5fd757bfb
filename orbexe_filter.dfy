/** The acceptance filter of orbexe.py (`fetch_map_by_id`): whether a looked-up
    beatmapset matches the selected modes and star range, and the result built from
    its first matching difficulty. */
module OrbexeFilter {
  import opened Wrappers
  import opened OsuApi
  import Text

  /** The four game modes, one checkbox each. */
  datatype Mode = Osu | Taiko | Fruits | Mania

  /** The key of a mode in `mode_map`. */
  function ModeIndex(m: Mode): int {
    match m
    case Osu => 0
    case Taiko => 1
    case Fruits => 2
    case Mania => 3
  }

  /** `mode_map.get(mode_int)`: the mode numbered `mode_int`, if it is one of the four. */
  function ModeOf(modeInt: Option<int>): (m: Option<Mode>)
    ensures m.Some? <==> modeInt.Some? && 0 <= modeInt.value <= 3
    ensures m.Some? ==> ModeIndex(m.value) == modeInt.value
  {
    if modeInt == Some(0) then Some(Osu)
    else if modeInt == Some(1) then Some(Taiko)
    else if modeInt == Some(2) then Some(Fruits)
    else if modeInt == Some(3) then Some(Mania)
    else None
  }

  /** The upper end of the star range: a number, or infinity (`float('inf')`). */
  datatype Bound = Finite(limit: real) | Infinity

  predicate AtMost(x: real, b: Bound) {
    b.Infinity? || x <= b.limit
  }

  /** What the search reads from the window: the ticked modes and the star range. */
  datatype Filter = Filter(modes: set<Mode>, minRating: real, maxRating: Bound)

  const ALLOWED_STATUSES: seq<string> := ["ranked", "loved", "qualified", "approved"]

  predicate StatusAllowed(status: Option<string>) {
    status.Some? && status.value in ALLOWED_STATUSES
  }

  /** `b.get('difficulty_rating', 0)`. */
  function RatingOf(b: Beatmap): real {
    b.rating.GetOr(0.0)
  }

  /** `data.get('beatmaps', [])`. */
  function BeatmapsOf(data: Beatmapset): seq<Beatmap> {
    data.beatmaps.GetOr([])
  }

  /** A difficulty passes when its mode is one of the four and is ticked, and its
      rating lies in [minRating, maxRating]. */
  predicate Qualifies(f: Filter, b: Beatmap)
    ensures Qualifies(f, b) ==> f.modes != {} && (f.maxRating.Finite? ==> f.minRating <= f.maxRating.limit)
    ensures Qualifies(f, b) && b.rating.None? ==> f.minRating <= 0.0
  {
    && ModeOf(b.modeInt).Some?
    && ModeOf(b.modeInt).value in f.modes
    && f.minRating <= RatingOf(b)
    && AtMost(RatingOf(b), f.maxRating)
  }

  /** The `valid` list: every passing difficulty with its mode, in list order. */
  function ValidBeatmaps(f: Filter, bs: seq<Beatmap>): (valid: seq<(Beatmap, Mode)>)
    ensures |valid| <= |bs|
    ensures forall p :: p in valid ==> p.0 in bs && Qualifies(f, p.0) && ModeOf(p.0.modeInt) == Some(p.1)
    decreases |bs|
  {
    if bs == [] then []
    else
      var b := bs[|bs| - 1];
      ValidBeatmaps(f, bs[..|bs| - 1]) + (if Qualifies(f, b) then [(b, ModeOf(b.modeInt).value)] else [])
  }

  ghost predicate IsFirstQualifying(f: Filter, bs: seq<Beatmap>, k: int) {
    && 0 <= k < |bs|
    && Qualifies(f, bs[k])
    && forall j :: 0 <= j < k ==> !Qualifies(f, bs[j])
  }

  /** The `valid` list is empty exactly when no difficulty passes. */
  lemma {:induction false} ValidBeatmapsEmptyIff(f: Filter, bs: seq<Beatmap>)
    ensures ValidBeatmaps(f, bs) == [] <==> forall i :: 0 <= i < |bs| ==> !Qualifies(f, bs[i])
    decreases |bs|
  {
    if bs != [] {
      var pre := bs[..|bs| - 1];
      ValidBeatmapsEmptyIff(f, pre);
      assert forall i :: 0 <= i < |pre| ==> pre[i] == bs[i];
    }
  }

  /** The head of a non-empty `valid` list is the first passing difficulty in list order. */
  lemma {:induction false} ValidBeatmapsHead(f: Filter, bs: seq<Beatmap>)
    requires ValidBeatmaps(f, bs) != []
    ensures exists k :: IsFirstQualifying(f, bs, k) && ValidBeatmaps(f, bs)[0] == (bs[k], ModeOf(bs[k].modeInt).value)
    decreases |bs|
  {
    var pre := bs[..|bs| - 1];
    assert forall i :: 0 <= i < |pre| ==> pre[i] == bs[i];
    if ValidBeatmaps(f, pre) != [] {
      ValidBeatmapsHead(f, pre);
      var k :| IsFirstQualifying(f, pre, k) && ValidBeatmaps(f, pre)[0] == (pre[k], ModeOf(pre[k].modeInt).value);
      assert IsFirstQualifying(f, bs, k);
    } else {
      ValidBeatmapsEmptyIff(f, pre);
      assert IsFirstQualifying(f, bs, |bs| - 1);
    }
  }

  /** `covers.get('cover@2x') or covers.get('cover')`, an absent `covers` read as `{}`. */
  function Thumbnail(covers: Option<Covers>): (thumb: Option<string>)
    ensures thumb.Some? ==> covers.Some? && (thumb == covers.value.cover2x || thumb == covers.value.cover)
    ensures covers.Some? && Truthy(covers.value.cover2x) ==> thumb == covers.value.cover2x
    ensures covers.Some? ==> (Truthy(thumb) <==> Truthy(covers.value.cover2x) || Truthy(covers.value.cover))
  {
    match covers
    case None => None
    case Some(c) => if Truthy(c.cover2x) then c.cover2x else c.cover
  }

  /** `str(data.get('id'))`: the decimal identifier, or "None" when the key is absent. */
  function IdText(id: Option<int>): (t: string)
    ensures t != [] && '/' !in t
    ensures t == "None" <==> id.None?
    ensures id.Some? ==> t == Text.IntToDecimal(id.value) && Text.IntValue(t) == id.value
  {
    match id
    case None => "None"
    case Some(n) =>
      var s := Text.IntToDecimal(n);
      assert s != "None" by {
        assert Text.IsDigit(s[|s| - 1]);
        assert !Text.IsDigit("None"[3]);
      }
      assert '/' !in s by {
        forall i | 0 <= i < |s| ensures s[i] != '/' { }
      }
      Text.IntRoundTrip(n);
      s
  }

  /** What `fetch_map_by_id` hands back on success. The display title (capitalised
      status and mode, rating rounded to two places) is not built; its parts are kept. */
  datatype MapResult = MapResult(
    title: string,
    artist: string,
    status: string,
    mode: Mode,
    rating: real,
    url: string,
    mapId: string,
    thumb: Option<string>)

  /** The result for difficulty `bm` of record `data`: the link is the beatmapset page of
      the identifier text, which reads back as the record's `id`. */
  function Build(data: Beatmapset, bm: Beatmap, mode: Mode): (m: MapResult)
    ensures m.url == BEATMAPSET_URL_PREFIX + m.mapId
    ensures m.mode == mode && m.rating == RatingOf(bm)
    ensures data.id.Some? ==> m.mapId == Text.IntToDecimal(data.id.value) && Text.IntValue(m.mapId) == data.id.value
    ensures data.status.Some? ==> m.status == data.status.value
  {
    var idText := IdText(data.id);
    MapResult(data.title.GetOr("N/A"), data.artist.GetOr("N/A"), data.status.GetOr("N/A"),
              mode, RatingOf(bm), BeatmapsetUrl(idText), idText, Thumbnail(data.covers))
  }

  /** The filter as a property of the result alone. */
  predicate Satisfies(f: Filter, m: MapResult) {
    && m.mode in f.modes
    && f.minRating <= m.rating
    && AtMost(m.rating, f.maxRating)
    && m.status in ALLOWED_STATUSES
  }

  /** The outcome of `fetch_map_by_id` for one lookup while a search is running. */
  function Accept(f: Filter, resp: Response): (r: Option<MapResult>)
    ensures r.Some? ==> resp.Reply? && !(400 <= resp.statusCode < 600) && resp.body.Some?
                        && StatusAllowed(resp.body.value.status)
    ensures r.Some? ==> Satisfies(f, r.value)
  {
    match resp
    case NoReply => None
    case Reply(code, body) =>
      if 400 <= code < 600 || body.None? then None
      else
        var data := body.value;
        if !StatusAllowed(data.status) then None
        else
          var valid := ValidBeatmaps(f, BeatmapsOf(data));
          if valid == [] then None
          else
            assert valid[0] in valid;
            Some(Build(data, valid[0].0, valid[0].1))
  }

  /** The independent statement of when a lookup yields nothing: no reply, an error
      status, a body that is not an object, a status outside the allowed four, or no
      passing difficulty. */
  ghost predicate Rejects(f: Filter, resp: Response) {
    || resp.NoReply?
    || 400 <= resp.statusCode < 600
    || resp.body.None?
    || !StatusAllowed(resp.body.value.status)
    || forall i :: 0 <= i < |BeatmapsOf(resp.body.value)| ==> !Qualifies(f, BeatmapsOf(resp.body.value)[i])
  }

  lemma AcceptNoneIff(f: Filter, resp: Response)
    ensures Accept(f, resp) == None <==> Rejects(f, resp)
  {
    if resp.Reply? && resp.body.Some? {
      ValidBeatmapsEmptyIff(f, BeatmapsOf(resp.body.value));
    }
  }

  /** A found map comes from the first passing difficulty of an accepted record; its
      URL is the beatmapset page of its identifier text, which is `str(id)`, and its
      thumbnail is `cover@2x` when that is non-empty and `cover` otherwise. */
  lemma AcceptChoosesFirst(f: Filter, resp: Response, m: MapResult)
    requires Accept(f, resp) == Some(m)
    ensures resp.Reply? && !(400 <= resp.statusCode < 600) && resp.body.Some?
    ensures var data := resp.body.value;
      && StatusAllowed(data.status) && m.status == data.status.value
      && (exists k :: IsFirstQualifying(f, BeatmapsOf(data), k)
                      && Some(m.mode) == ModeOf(BeatmapsOf(data)[k].modeInt)
                      && m.rating == RatingOf(BeatmapsOf(data)[k]))
      && m.url == BEATMAPSET_URL_PREFIX + m.mapId
      && m.mapId == IdText(data.id)
      && m.thumb == Thumbnail(data.covers)
      && m.title == data.title.GetOr("N/A")
      && m.artist == data.artist.GetOr("N/A")
  {
    ValidBeatmapsHead(f, BeatmapsOf(resp.body.value));
  }

  lemma AcceptSatisfies(f: Filter, resp: Response, m: MapResult)
    requires Accept(f, resp) == Some(m)
    ensures Satisfies(f, m) && m.url == BEATMAPSET_URL_PREFIX + m.mapId
  {
    AcceptChoosesFirst(f, resp, m);
  }

  /** `fetch_map_by_id(key, token)`: nothing while no search is running (the record is
      not even looked up), otherwise the filter's verdict on `lookup(key)`. */
  method FetchMapById(loading: bool, f: Filter, lookup: int -> Response, key: int) returns (r: Option<MapResult>)
    ensures !loading ==> r == None
    ensures loading ==> r == Accept(f, lookup(key))
  {
    if !loading {
      return None;
    }
    var res := lookup(key);
    if res.NoReply? || 400 <= res.statusCode < 600 || res.body.None? {
      return None;
    }
    var data := res.body.value;
    if !StatusAllowed(data.status) {
      return None;
    }
    var beatmaps := BeatmapsOf(data);
    var valid: seq<(Beatmap, Mode)> := [];
    for i := 0 to |beatmaps|
      invariant valid == ValidBeatmaps(f, beatmaps[..i])
    {
      var b := beatmaps[i];
      var mode := ModeOf(b.modeInt);
      var rating := RatingOf(b);
      if mode.Some? && mode.value in f.modes && f.minRating <= rating && AtMost(rating, f.maxRating) {
        valid := valid + [(b, mode.value)];
      }
      assert beatmaps[..i + 1][..i] == beatmaps[..i];
    }
    assert beatmaps[..|beatmaps|] == beatmaps;
    if valid == [] {
      return None;
    }
    r := Some(Build(data, valid[0].0, valid[0].1));
  }
}
