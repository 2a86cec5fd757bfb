/** The osu! API v2 beatmapset record both applications receive, the outcome of one
    lookup, and the keyspace they draw candidate identifiers from. A record field is
    `None` when its key is absent from the JSON object. */
module OsuApi {
  import opened Wrappers

  /** Candidate beatmapset identifiers are drawn from [KEY_MIN, KEY_MAX]. */
  const KEY_MIN: int := 1
  const KEY_MAX: int := 3000000

  predicate InKeyspace(key: int) {
    KEY_MIN <= key <= KEY_MAX
  }

  /** One difficulty of a beatmapset: `mode_int`, `mode` and `difficulty_rating`. */
  datatype Beatmap = Beatmap(modeInt: Option<int>, mode: Option<string>, rating: Option<real>)

  /** The `covers` object: `cover@2x` and `cover`. */
  datatype Covers = Covers(cover2x: Option<string>, cover: Option<string>)

  datatype Beatmapset = Beatmapset(
    status: Option<string>,
    beatmaps: Option<seq<Beatmap>>,
    id: Option<int>,
    title: Option<string>,
    artist: Option<string>,
    covers: Option<Covers>)

  /** What `GET /api/v2/beatmapsets/{key}` produced: no reply at all (the request raised;
      only orbexe.py sets a timeout, so only there can a slow server give this), or an
      HTTP status and a body that is a JSON object (`Some`) or is not (`None`, which
      makes `res.json()` or the first `.get` raise). */
  datatype Response = NoReply | Reply(statusCode: int, body: Option<Beatmapset>)

  /** The page of a beatmapset on the osu! website, for the identifier text `idText`. */
  const BEATMAPSET_URL_PREFIX: string := "https://osu.ppy.sh/beatmapsets/"

  function BeatmapsetUrl(idText: string): string {
    BEATMAPSET_URL_PREFIX + idText
  }

  /** Python truthiness of an optional string: present and non-empty. */
  predicate Truthy(s: Option<string>) {
    s.Some? && s.value != ""
  }
}
