/** main.py, the simpler finder: a beatmapset is accepted when it is ranked, loved or
    qualified and has an osu!standard difficulty; rounds of NUM_ATTEMPTS lookups repeat
    until one finds something, which is delivered once; the window copies the link or
    the identifier and animates "Searching...". */
module MainApp {
  import opened Wrappers
  import opened OsuApi
  import Text

  const NUM_ATTEMPTS: nat := 8

  const ACCEPTED_STATUSES: seq<string> := ["ranked", "loved", "qualified"]

  /** What `fetch_map_by_id` returns on success: the title line and the beatmapset URL. */
  datatype Listing = Listing(title: string, url: string)

  /** `any(b['mode'] == 'osu' for b in beatmaps)`, which stops at the first osu
      difficulty: `None` when it meets a difficulty without a `mode` key before that
      (the KeyError that the surrounding `except` turns into no result). */
  function AnyOsu(bs: seq<Beatmap>): (r: Option<bool>)
    ensures r == Some(false) <==> forall i :: 0 <= i < |bs| ==> bs[i].mode.Some? && bs[i].mode.value != "osu"
    ensures r.None? ==> exists i :: 0 <= i < |bs| && bs[i].mode.None?
    decreases |bs|
  {
    if bs == [] then Some(false)
    else if bs[0].mode.None? then None
    else if bs[0].mode.value == "osu" then Some(true)
    else
      var rest := bs[1..];
      assert forall i :: 0 <= i < |rest| ==> rest[i] == bs[i + 1];
      AnyOsu(rest)
  }

  /** Difficulty `k` is an osu one and every difficulty before it has some other mode. */
  ghost predicate IsFirstOsu(bs: seq<Beatmap>, k: int) {
    && 0 <= k < |bs|
    && bs[k].mode == Some("osu")
    && forall j :: 0 <= j < k ==> bs[j].mode.Some? && bs[j].mode.value != "osu"
  }

  lemma {:induction false} AnyOsuTrueIff(bs: seq<Beatmap>)
    ensures AnyOsu(bs) == Some(true) <==> exists k :: IsFirstOsu(bs, k)
    decreases |bs|
  {
    if bs != [] && bs[0].mode.Some? && bs[0].mode.value != "osu" {
      var rest := bs[1..];
      AnyOsuTrueIff(rest);
      if AnyOsu(rest) == Some(true) {
        var k :| IsFirstOsu(rest, k);
        assert IsFirstOsu(bs, k + 1);
      }
      if exists k :: IsFirstOsu(bs, k) {
        var k :| IsFirstOsu(bs, k);
        assert IsFirstOsu(rest, k - 1);
      }
    } else if bs != [] && bs[0].mode == Some("osu") {
      assert IsFirstOsu(bs, 0);
    }
  }

  /** `fetch_map_by_id(random_id, token)`: no result for no reply, a status code other
      than 200, a body that is not an object, a missing or unaccepted `status`, no osu
      difficulty, or a missing `title`, `artist` or `id`. */
  function FetchMapById(resp: Response): (r: Option<Listing>)
    ensures r.Some? ==> resp.Reply? && resp.statusCode == 200 && resp.body.Some?
                        && resp.body.value.status.Some? && resp.body.value.status.value in ACCEPTED_STATUSES
    ensures r.Some? ==> resp.body.value.title.Some? && resp.body.value.artist.Some? && resp.body.value.id.Some?
                        && r.value.url == BEATMAPSET_URL_PREFIX + Text.IntToDecimal(resp.body.value.id.value)
  {
    match resp
    case NoReply => None
    case Reply(code, body) =>
      if code != 200 || body.None? then None
      else
        var data := body.value;
        if data.status.None? || data.status.value !in ACCEPTED_STATUSES then None
        else if AnyOsu(data.beatmaps.GetOr([])) != Some(true) then None
        else if data.title.None? || data.artist.None? || data.id.None? then None
        else Some(Listing(data.title.value + " [" + data.artist.value + "] (" + data.status.value + ")",
                          BeatmapsetUrl(Text.IntToDecimal(data.id.value))))
  }

  /** The acceptance of `fetch_map_by_id` in both directions, and the listing it builds.
      "approved" is not among the accepted statuses. */
  lemma FetchMapByIdIff(resp: Response)
    ensures FetchMapById(resp).Some? <==>
      && resp.Reply? && resp.statusCode == 200 && resp.body.Some?
      && var data := resp.body.value;
      && data.status.Some? && data.status.value in ["ranked", "loved", "qualified"]
      && (exists k :: IsFirstOsu(data.beatmaps.GetOr([]), k))
      && data.title.Some? && data.artist.Some? && data.id.Some?
    ensures resp.Reply? && resp.body.Some? && resp.body.value.status == Some("approved") ==> FetchMapById(resp).None?
    ensures FetchMapById(resp).Some? ==>
      var data := resp.body.value;
      FetchMapById(resp).value == Listing(
        data.title.value + " [" + data.artist.value + "] (" + data.status.value + ")",
        BEATMAPSET_URL_PREFIX + Text.IntToDecimal(data.id.value))
  {
    if resp.Reply? && resp.body.Some? {
      AnyOsuTrueIff(resp.body.value.beatmaps.GetOr([]));
    }
  }

  /** `current_url.rstrip("/").split("/")[-1]`: the part after the last `/` once the
      trailing slashes are gone. */
  function BeatmapIdOf(url: string): (id: string)
    ensures '/' !in id
    ensures var base := Text.RStrip(url, '/');
      && |id| <= |base|
      && id == base[|base| - |id|..]
      && (|id| < |base| ==> base[|base| - |id| - 1] == '/')
  {
    Text.SplitLastSegment(Text.RStrip(url, '/'), '/');
    Text.Last(Text.Split(Text.RStrip(url, '/'), '/'))
  }

  /** Copying the identifier of a beatmapset page gives back the identifier the page
      was built from, whenever that has no `/`. */
  lemma CopyIdRoundTrip(idText: string)
    requires idText != [] && '/' !in idText
    ensures BeatmapIdOf(BeatmapsetUrl(idText)) == idText
  {
    var url := BeatmapsetUrl(idText);
    assert url[|url| - 1] == idText[|idText| - 1];
    var p := |BEATMAPSET_URL_PREFIX|;
    assert url[p - 1] == '/';
  }

  /** A delivered listing's "Copy ID" yields the decimal identifier of the beatmapset,
      which reads back as that identifier. */
  lemma FetchedListingId(resp: Response)
    requires FetchMapById(resp).Some?
    ensures var id := resp.body.value.id.value;
      && BeatmapIdOf(FetchMapById(resp).value.url) == Text.IntToDecimal(id)
      && Text.IntValue(BeatmapIdOf(FetchMapById(resp).value.url)) == id
  {
    var id := resp.body.value.id.value;
    var s := Text.IntToDecimal(id);
    assert '/' !in s by {
      forall i | 0 <= i < |s| ensures s[i] != '/' { }
    }
    CopyIdRoundTrip(s);
    Text.IntRoundTrip(id);
  }

  predicate WellFormedKeys(keys: seq<int>) {
    |keys| == NUM_ATTEMPTS && forall i :: 0 <= i < |keys| ==> InKeyspace(keys[i])
  }

  function Probes(lookup: int -> Response, keys: seq<int>): (ps: seq<Option<Listing>>)
    ensures |ps| == |keys|
    ensures forall i :: 0 <= i < |keys| ==> ps[i] == FetchMapById(lookup(keys[i]))
  {
    seq(|keys|, i requires 0 <= i < |keys| => FetchMapById(lookup(keys[i])))
  }

  /** The result of one round: the first listing collected, if any. */
  function RoundOutcome(lookup: int -> Response, keys: seq<int>): Option<Listing> {
    var results := Somes(Probes(lookup, keys));
    if results != [] then Some(results[0]) else None
  }

  /** A round yields nothing exactly when every lookup does, and otherwise the listing
      of the first key whose lookup yields one. */
  lemma RoundOutcomeIff(lookup: int -> Response, keys: seq<int>)
    ensures RoundOutcome(lookup, keys).None? <==> forall i :: 0 <= i < |keys| ==> FetchMapById(lookup(keys[i])).None?
    ensures RoundOutcome(lookup, keys).Some? ==>
      exists k :: IsFirstSome(Probes(lookup, keys), k) && RoundOutcome(lookup, keys) == FetchMapById(lookup(keys[k]))
  {
    var ps := Probes(lookup, keys);
    SomesEmptyIff(ps);
    if Somes(ps) != [] {
      SomesHead(ps);
    }
  }

  /** `get_random_map(token)`: one lookup per drawn key, each result appended to
      `results`, then the first of them. The round yields nothing exactly when every
      lookup does, and otherwise the listing of the first key that yields one. */
  method GetRandomMap(lookup: int -> Response, keys: seq<int>) returns (r: Option<Listing>)
    requires WellFormedKeys(keys)
    ensures r == RoundOutcome(lookup, keys)
    ensures r.None? <==> forall i :: 0 <= i < |keys| ==> FetchMapById(lookup(keys[i])).None?
    ensures r.Some? ==> exists k :: IsFirstSome(Probes(lookup, keys), k) && r == FetchMapById(lookup(keys[k]))
  {
    ghost var ps := Probes(lookup, keys);
    var results: seq<Listing> := [];
    for i := 0 to |keys|
      invariant results == Somes(ps[..i])
    {
      assert ps[..i + 1][..i] == ps[..i];
      var result := FetchMapById(lookup(keys[i]));
      assert ps[..i + 1][i] == result;
      if result.Some? {
        results := results + [result.value];
      }
    }
    assert ps[..|keys|] == ps;
    r := if results != [] then Some(results[0]) else None;
    RoundOutcomeIff(lookup, keys);
  }

  /** `fetch_and_update_map`: rounds run until one finds something, which is handed to
      the window once, and then no further round starts. `rounds` are the keys each
      round draws; when none of them finds anything, nothing has been delivered yet. */
  method FetchAndUpdateMap(lookup: int -> Response, rounds: seq<seq<int>>) returns (deliveries: seq<Listing>)
    requires forall i :: 0 <= i < |rounds| ==> WellFormedKeys(rounds[i])
    ensures |deliveries| <= 1
    ensures |deliveries| == 1 <==> exists i :: 0 <= i < |rounds| && RoundOutcome(lookup, rounds[i]).Some?
    ensures |deliveries| == 1 ==> exists i :: 0 <= i < |rounds| && RoundOutcome(lookup, rounds[i]) == Some(deliveries[0])
                                              && forall j :: 0 <= j < i ==> RoundOutcome(lookup, rounds[j]).None?
  {
    deliveries := [];
    var i := 0;
    while i < |rounds|
      invariant 0 <= i <= |rounds|
      invariant forall j :: 0 <= j < i ==> RoundOutcome(lookup, rounds[j]).None?
    {
      var result := GetRandomMap(lookup, rounds[i]);
      if result.Some? {
        // handed to the window thread once; no further round starts
        deliveries := [result.value];
        assert RoundOutcome(lookup, rounds[i]) == Some(deliveries[0]);
        return;
      }
      i := i + 1;
    }
  }

  /** The text `animate_loading` shows for counter value `dots`: "Searching" and 0 to 3 dots. */
  function LoadingText(dots: nat): (t: string)
    ensures |t| == 9 + dots % 4 && t[..9] == "Searching"
    ensures forall i :: 9 <= i < |t| ==> t[i] == '.'
  {
    "Searching" + seq(dots % 4, _ => '.')
  }

  /** The animation repeats every four ticks. */
  lemma LoadingTextCycles(dots: nat)
    ensures LoadingText(dots + 4) == LoadingText(dots)
  {
  }

  class Window {
    var currentUrl: string
    var loadingDots: nat
    var loadingRunning: bool
    var loadingText: string
    var resultText: string
    var buttonEnabled: bool
    var clipboard: string
    var searchesStarted: nat

    /** The search button is disabled exactly while the animation runs. */
    ghost predicate Valid()
      reads this
    {
      buttonEnabled == !loadingRunning
    }

    constructor ()
      ensures Valid()
      ensures currentUrl == "" && loadingDots == 0 && !loadingRunning
      ensures loadingText == "" && resultText == "" && clipboard == "" && searchesStarted == 0
    {
      currentUrl := "";
      loadingDots := 0;
      loadingRunning := false;
      loadingText := "";
      resultText := "";
      buttonEnabled := true;
      clipboard := "";
      searchesStarted := 0;
    }

    /** `animate_loading`, one tick: while running, show the dots for the counter and
        advance it. */
    method AnimateLoading()
      modifies this`loadingText, this`loadingDots
      ensures old(loadingRunning) ==> loadingText == LoadingText(old(loadingDots)) && loadingDots == old(loadingDots) + 1
      ensures !old(loadingRunning) ==> loadingText == old(loadingText) && loadingDots == old(loadingDots)
    {
      if loadingRunning {
        loadingText := LoadingText(loadingDots);
        loadingDots := loadingDots + 1;
      }
    }

    /** `show_random_map`, the search button's command: restart the animation, disable
        the button, start one search thread. A disabled button does not fire, which is
        the `buttonEnabled` precondition; with `Valid()` it gives `!old(loadingRunning)`,
        which the last ensures restates rather than proves of the body. */
    method ShowRandomMap()
      requires Valid() && buttonEnabled
      modifies this`loadingDots, this`loadingRunning, this`loadingText, this`buttonEnabled, this`searchesStarted
      ensures Valid()
      ensures loadingRunning && !buttonEnabled && loadingText == "Searching" && loadingDots == 1
      ensures searchesStarted == old(searchesStarted) + 1
      ensures !old(loadingRunning)
    {
      loadingDots := 0;
      loadingRunning := true;
      buttonEnabled := false;
      AnimateLoading();
      searchesStarted := searchesStarted + 1;
    }

    /** `update_interface`: stop the animation, show the listing, enable the button. */
    method UpdateInterface(listing: Listing)
      modifies this`loadingRunning, this`currentUrl, this`loadingText, this`resultText, this`buttonEnabled
      ensures Valid()
      ensures !loadingRunning && buttonEnabled && currentUrl == listing.url
      ensures resultText == listing.title && loadingText == ""
    {
      loadingRunning := false;
      currentUrl := listing.url;
      loadingText := "";
      resultText := listing.title;
      buttonEnabled := true;
    }

    /** `copy_link`: nothing happens while no map has been shown. */
    method CopyLink()
      modifies this`clipboard
      ensures clipboard == if currentUrl != "" then currentUrl else old(clipboard)
    {
      if currentUrl != "" {
        clipboard := currentUrl;
      }
    }

    /** `copy_id`: nothing happens while no map has been shown. */
    method CopyId()
      modifies this`clipboard
      ensures clipboard == if currentUrl != "" then BeatmapIdOf(currentUrl) else old(clipboard)
    {
      if currentUrl != "" {
        clipboard := BeatmapIdOf(currentUrl);
      }
    }
  }
}
