/** The window state of orbexe.py that the search depends on: the credentials, the mode
    checkboxes, the two star sliders, the `loading` flag that the search button toggles,
    and the map last shown. Widget layout and labels are not modelled. */
module OrbexePanel {
  import opened Wrappers
  import opened OsuApi
  import opened OrbexeFilter
  import opened OrbexeSearch

  const ALL_MODES: set<Mode> := {Osu, Taiko, Fruits, Mania}

  /** `max > min`, with infinity above every number. */
  predicate StrictlyAbove(max: Bound, min: real) {
    max.Infinity? || min < max.limit
  }

  /** `on_max_rating`: the slider's top value 10 means no upper limit. */
  function MaxBound(val: real): (b: Bound)
    ensures b.Finite? ==> b.limit == val
    ensures forall x :: AtMost(x, b) <==> (val >= 10.0 || x <= val)
  {
    if val >= 10.0 then Infinity else Finite(val)
  }

  /** Why a click on the search button was refused; the checks run in this order. */
  datatype Rejection = MissingCredentials | NoModeSelected | MaxBelowMin | MaxEqualsMin

  /** What a click on the search button does. */
  datatype Click = Rejected(reason: Rejection) | Stopped | Started

  /** The decision `on_search` takes. The validation runs before the `loading` test, so
      it also applies to a click meant to stop a running search. */
  function SearchClick(credsPresent: bool, modes: set<Mode>, minRating: real, maxRating: Bound, loading: bool): (c: Click)
    ensures c == Rejected(MissingCredentials) <==> !credsPresent
    ensures c == Rejected(NoModeSelected) <==> credsPresent && modes == {}
    ensures c == Rejected(MaxBelowMin) <==>
      credsPresent && modes != {} && maxRating.Finite? && maxRating.limit < minRating
    ensures c.Rejected? <==> !(credsPresent && modes != {} && StrictlyAbove(maxRating, minRating))
    ensures c == Rejected(MaxEqualsMin) <==> credsPresent && modes != {} && maxRating == Finite(minRating)
    ensures !c.Rejected? ==> (c == Stopped <==> loading)
  {
    if !credsPresent then Rejected(MissingCredentials)
    else if modes == {} then Rejected(NoModeSelected)
    else if maxRating.Finite? && maxRating.limit < minRating then Rejected(MaxBelowMin)
    else if maxRating.Finite? && maxRating.limit == minRating then Rejected(MaxEqualsMin)
    else if loading then Stopped
    else Started
  }

  /** A click that is not refused leaves a filter that some difficulty passes. */
  lemma AcceptedFilterSatisfiable(credsPresent: bool, modes: set<Mode>, minRating: real, maxRating: Bound, loading: bool)
    requires !SearchClick(credsPresent, modes, minRating, maxRating, loading).Rejected?
    ensures exists b :: Qualifies(Filter(modes, minRating, maxRating), b)
  {
    var m :| m in modes;
    var b := Beatmap(Some(ModeIndex(m)), None, Some(minRating));
    assert ModeOf(b.modeInt) == Some(m);
    assert Qualifies(Filter(modes, minRating, maxRating), b);
  }

  /** A filter that no difficulty can pass is refused before any search starts. */
  lemma UnsatisfiableFilterRejected(credsPresent: bool, modes: set<Mode>, minRating: real, maxRating: Bound, loading: bool)
    requires forall b :: !Qualifies(Filter(modes, minRating, maxRating), b)
    ensures SearchClick(credsPresent, modes, minRating, maxRating, loading).Rejected?
  {
    if !SearchClick(credsPresent, modes, minRating, maxRating, loading).Rejected? {
      AcceptedFilterSatisfiable(credsPresent, modes, minRating, maxRating, loading);
      assert false;
    }
  }

  /** How the search thread ends. `TokenFailed` sets the "Failed to get API token"
      text, but the `update_ui` scheduled right after it clears that text again, so it
      leaves the same state as `Cleared`: the search ended and the result area empty. */
  datatype Display = TokenFailed | Shown(item: MapResult) | Cleared | StillRunning

  /** The gating in `fetch_and_display`: no token ends the search at once; a found map
      is shown only if `loading` is still set afterwards; otherwise the result area is
      cleared. `StillRunning` is a search that has not ended within the given rounds. */
  function DisplayFor(token: Option<string>, outcome: Outcome, liveAtEnd: bool): (d: Display)
    ensures d.TokenFailed? <==> !Truthy(token)
    ensures d.Shown? <==> Truthy(token) && outcome.Found? && liveAtEnd
    ensures d.Shown? ==> d.item == outcome.item
    ensures d.StillRunning? <==> Truthy(token) && outcome.StillSearching?
  {
    if !Truthy(token) then TokenFailed
    else match outcome
      case Found(m) => if liveAtEnd then Shown(m) else Cleared
      case Cancelled => Cleared
      case StillSearching => StillRunning
  }

  /** A shown map needed a token, passes the filter the search ran with, and links to the
      page of the identifier it shows. */
  lemma ShownMapMatches(token: Option<string>, f: Filter, lookup: int -> Response, rounds: seq<Round>, liveAtEnd: bool)
    requires DisplayFor(token, Search(f, lookup, rounds), liveAtEnd).Shown?
    ensures Truthy(token) && liveAtEnd
    ensures var m := DisplayFor(token, Search(f, lookup, rounds), liveAtEnd).item;
      Satisfies(f, m) && m.url == BEATMAPSET_URL_PREFIX + m.mapId
  {
    SearchFoundSatisfies(f, lookup, rounds);
  }

  class SearchPanel {
    var clientId: Option<string>
    var clientSecret: Option<string>
    var modes: set<Mode>
    var minRating: real
    var maxRating: Bound
    var loading: bool
    var slidersEnabled: bool
    var searchesStarted: nat
    var currentUrl: string
    var currentMapId: string

    /** The sliders are disabled while a search runs, so the star range it reads is fixed. */
    ghost predicate Valid()
      reads this
    {
      slidersEnabled ==> !loading
    }

    /** `OSU_CLIENT_ID and OSU_CLIENT_SECRET` are both set and non-empty. */
    predicate CredsPresent()
      reads this
    {
      Truthy(clientId) && Truthy(clientSecret)
    }

    function CurrentFilter(): Filter
      reads this
    {
      Filter(modes, minRating, maxRating)
    }

    /** The window at start-up, with the credentials `load_credentials` found. The upper
        star limit starts as `selected_max_rating = 10.0`, but `max_scale.set(10.0)` moves
        the max slider from its lowest value 1 to 10, so Tk runs `on_max_rating` and the
        limit the first search reads is infinity. */
    constructor (clientId: Option<string>, clientSecret: Option<string>)
      ensures Valid()
      ensures this.clientId == clientId && this.clientSecret == clientSecret
      ensures modes == ALL_MODES && minRating == 0.0 && maxRating == Infinity
      ensures !loading && slidersEnabled && searchesStarted == 0
      ensures currentUrl == "" && currentMapId == ""
    {
      this.clientId := clientId;
      this.clientSecret := clientSecret;
      modes := ALL_MODES;
      minRating := 0.0;
      maxRating := MaxBound(10.0);
      loading := false;
      slidersEnabled := true;
      searchesStarted := 0;
      currentUrl := "";
      currentMapId := "";
    }

    /** The Save button of the credentials window (keeping them in memory). */
    method SaveCredentials(cid: string, secret: string)
      requires Valid()
      modifies this`clientId, this`clientSecret
      ensures Valid()
      ensures clientId == Some(cid) && clientSecret == Some(secret)
    {
      clientId := Some(cid);
      clientSecret := Some(secret);
    }

    /** Ticking or unticking a mode checkbox; these stay enabled during a search. */
    method SetMode(m: Mode, ticked: bool)
      requires Valid()
      modifies this`modes
      ensures Valid()
      ensures modes == if ticked then old(modes) + {m} else old(modes) - {m}
    {
      modes := if ticked then modes + {m} else modes - {m};
    }

    /** `on_min_rating`, called by the slider. A disabled slider does not fire its
        command, which is the `slidersEnabled` precondition; with `Valid()` that gives
        `!loading`, which the last ensures restates rather than proves of the body. */
    method OnMinRating(val: real)
      requires Valid() && slidersEnabled
      modifies this`minRating
      ensures Valid()
      ensures minRating == val
      ensures !loading
    {
      minRating := val;
    }

    /** `on_max_rating`, called by the slider. As for `OnMinRating`, `!loading` follows
        from the precondition that a disabled slider does not fire. */
    method OnMaxRating(val: real)
      requires Valid() && slidersEnabled
      modifies this`maxRating
      ensures Valid()
      ensures maxRating == MaxBound(val)
      ensures !loading
    {
      if val >= 10.0 {
        maxRating := Infinity;
      } else {
        maxRating := Finite(val);
      }
    }

    /** `on_search`: a refused click changes nothing; otherwise the click stops a running
        search, or starts one search thread. The filter and the shown map are untouched. */
    method OnSearch() returns (click: Click)
      requires Valid()
      modifies this`loading, this`slidersEnabled, this`searchesStarted
      ensures Valid()
      ensures click == SearchClick(old(CredsPresent()), modes, minRating, maxRating, old(loading))
      ensures click.Rejected? ==> loading == old(loading) && slidersEnabled == old(slidersEnabled)
                                  && searchesStarted == old(searchesStarted)
      ensures click == Stopped ==> !loading && slidersEnabled == old(slidersEnabled)
                                   && searchesStarted == old(searchesStarted)
      ensures click == Started ==> loading && !slidersEnabled && searchesStarted == old(searchesStarted) + 1
    {
      if !CredsPresent() {
        return Rejected(MissingCredentials);
      }
      if modes == {} {
        return Rejected(NoModeSelected);
      }
      if maxRating.Finite? && maxRating.limit < minRating {
        return Rejected(MaxBelowMin);
      }
      if maxRating.Finite? && maxRating.limit == minRating {
        return Rejected(MaxEqualsMin);
      }
      if loading {
        loading := false;
        return Stopped;
      }
      loading := true;
      slidersEnabled := false;
      searchesStarted := searchesStarted + 1;
      click := Started;
    }

    /** `update_ui`: shows a map (or an empty result), re-enables the sliders and ends
        the search. */
    method UpdateUi(url: string, mapId: string)
      modifies this`currentUrl, this`currentMapId, this`slidersEnabled, this`loading
      ensures Valid()
      ensures currentUrl == url && currentMapId == mapId && slidersEnabled && !loading
    {
      currentUrl := url;
      currentMapId := mapId;
      slidersEnabled := true;
      loading := false;
    }

    /** `fetch_and_display`, the body of the search thread. `token` is what
        `get_osu_token` returned, `rounds` are the rounds `get_random_map` runs, and
        `liveAtEnd` is `loading` as read after it returns. */
    method FetchAndDisplay(token: Option<string>, lookup: int -> Response, rounds: seq<Round>, liveAtEnd: bool)
      returns (display: Display)
      requires Valid() && WellFormedRounds(rounds)
      modifies this`currentUrl, this`currentMapId, this`slidersEnabled, this`loading
      ensures Valid()
      ensures display == DisplayFor(token, Search(old(CurrentFilter()), lookup, rounds), liveAtEnd)
      ensures display.Shown? ==> currentUrl == display.item.url && currentMapId == display.item.mapId
                                 && !loading && slidersEnabled
      ensures display.TokenFailed? || display.Cleared? ==>
                currentUrl == "" && currentMapId == "" && !loading && slidersEnabled
      ensures display.StillRunning? ==> unchanged(this)
    {
      if !Truthy(token) {
        UpdateUi("", "");
        return TokenFailed;
      }
      var outcome := GetRandomMap(CurrentFilter(), lookup, rounds);
      if outcome.Found? && liveAtEnd {
        UpdateUi(outcome.item.url, outcome.item.mapId);
        display := Shown(outcome.item);
      } else if outcome.StillSearching? {
        display := StillRunning;
      } else {
        UpdateUi("", "");
        display := Cleared;
      }
    }
  }
}
