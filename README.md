# osu! random beatmap finder — a Dafny model

The repository holds two small desktop tools that look for a random osu! beatmapset.
They draw random identifiers in [1, 3 000 000], look each one up through the osu! API v2,
and show the first beatmapset that passes a filter:

- `orbexe.py`, "osu! Random Beatmap Finder". It runs rounds of 15 lookups while its
  `loading` flag stays set. A set matches when its status is ranked, loved, qualified or
  approved and one of its difficulties has a ticked mode and a star rating inside the
  slider range. The search button starts a search and, clicked again, stops it.
- `main.py`, "osu! Random Beatmap". It runs rounds of 8 lookups until one finds a set that
  is ranked, loved or qualified and has an osu!standard difficulty. The window can copy
  the link or the identifier and animates "Searching...".

This project models the deterministic part of both tools and proves what it promises:
- the acceptance filters;
- the construction of the result;
- the round and loop semantics;
- the search button's validation and start/stop toggle;
- the `copy_id` string handling and the animation counter.

Modules:
- `Wrappers` (wrappers.dfy): `Option`, and `Somes`, the list built by appending every result.
- `Text` (text.dfy): Python's `str()` of an integer, `rstrip` and `split`.
- `OsuApi` (osu_api.dfy): the beatmapset record, the outcome of a lookup, the keyspace.
- `OrbexeFilter` (orbexe_filter.dfy): `fetch_map_by_id` of orbexe.py.
- `OrbexeSearch` (orbexe_search.dfy): `get_random_map` of orbexe.py.
- `OrbexePanel` (orbexe_panel.dfy): the window state of orbexe.py as the class
  `SearchPanel`, with `on_search`, the slider callbacks, `update_ui` and
  `fetch_and_display`.
- `MainApp` (main_app.dfy): main.py, with its window state as the class `Window`.

Abstractions:
- The HTTP lookup is a function `lookup: int -> Response`. A `Response` is either no
  reply, or a status code with a body that is a JSON object or is not.
- Being a function, `lookup` gives the same response every time a key is drawn. A
  transient failure of one draw followed by a success on a later draw of the same key
  is outside the model. `SearchFindsOnlyMatch` is a statement about such a fixed
  lookup (a stub that answers for one key only), not about a flaky network.
- A JSON key that is absent is `None`.
- The keys that `random.randint` draws are inputs, each required to lie in the keyspace.
- The OAuth token is an input.
- Threads are not modelled. A round's attempts run one after another, and results are
  collected in attempt order.
- In orbexe.py the window thread can change `loading` while the search thread runs.
  So every read of the flag by the search thread is an input: `Round.live` for the loop
  test, `Attempt.live` for an attempt, and `liveAtEnd` for the test after the search.

Behaviour of the code that the model makes explicit:
- In orbexe.py, `on_search` validates the window before it looks at `loading`. So the
  click that should stop a running search is refused when, for instance, every mode
  checkbox was unticked during the search: the checkboxes stay enabled. `SearchClick`
  states that the refusal does not depend on `loading`.
- A refused click never starts a search with a filter nothing can pass
  (`UnsatisfiableFilterRejected`). A click that is accepted always leaves a filter some
  difficulty passes (`AcceptedFilterSatisfiable`). The filter is also refused when the two
  star values are equal, although one rating could pass it.
- The lookups of a round do not race to a first success. The code joins all threads of
  a round (for at most 5 seconds each in orbexe.py) and only then takes `results[0]`.
  The model follows the code.
- main.py has no cancellation at all, and its loop never ends without a result.

## Model

| member | source | states |
|---|---|---|
| `Text.NatToDecimal` | orbexe.py:85 | `str()` of a non-negative integer is a non-empty string of decimal digits, with a leading `0` only for zero |
| `Text.DecimalRoundTrip` | orbexe.py:85 | the digits of `str(n)` read back as `n` |
| `Text.IntToDecimal` | main.py:39 | `str()` / f-string of any integer: digits, with a leading `-` exactly for negatives, ending in a digit |
| `Text.IntRoundTrip` | main.py:39 | no two integers print alike: the printed text reads back as the integer |
| `Text.RStrip` | main.py:106 | `rstrip("/")` gives the longest prefix not ending in `/`, and only `/` follows it |
| `Text.Split` | main.py:106 | `split("/")` gives at least one piece, and no piece holds the separator |
| `Text.JoinSplit` | main.py:106 | joining the pieces of `split` with the separator restores the string |
| `Text.SplitLastSegment` | main.py:106 | `split(sep)[-1]` is the suffix after the last separator, or the whole string when there is none |
| `Wrappers.Somes` | orbexe.py:93-99 | the `results` list holds only values some attempt returned, and no more of them than there were attempts |
| `Wrappers.SomesEmptyIff` | orbexe.py:105 | `results` is empty exactly when every attempt returned None |
| `Wrappers.SomesHead` | orbexe.py:105-106 | `results[0]` is the value of the first attempt that returned one |
| `OrbexeFilter.Qualifies` | orbexe.py:67-73 | a difficulty passes only under a filter with some mode ticked and a non-empty star range; one without `difficulty_rating` counts as rated 0 |
| `OrbexeFilter.ModeOf` | orbexe.py:23 | `mode_map.get` knows exactly the mode numbers 0..3, each of the four modes under its own number |
| `OrbexeFilter.ValidBeatmaps` | orbexe.py:67-73 | the `valid` list holds only difficulties of the record that pass the mode and rating checks, each with its own mode |
| `OrbexeFilter.ValidBeatmapsEmptyIff` | orbexe.py:67-75 | `valid` is empty exactly when no difficulty passes |
| `OrbexeFilter.ValidBeatmapsHead` | orbexe.py:76 | `valid[0]` is the first passing difficulty in list order |
| `OrbexeFilter.Thumbnail` | orbexe.py:83 | the thumbnail is one of the two covers, `cover@2x` whenever that is non-empty, and it is non-empty exactly when one of the two is |
| `OrbexeFilter.IdText` | orbexe.py:81-85 | `str(map_id)` is non-empty and holds no `/`; it is "None" exactly when `id` is absent, and otherwise it is the decimal text that reads back as `id` |
| `OrbexeFilter.Build` | orbexe.py:76-85 | the URL is the beatmapset page of the identifier text, which reads back as `id`; the mode and rating are those of the chosen difficulty; the status is the record's |
| `OrbexeFilter.Accept` | orbexe.py:60-87 | a result needs a reply without an HTTP error status, an object body and an allowed status, and it passes the filter |
| `OrbexeFilter.AcceptNoneIff` | orbexe.py:60-75 | no result exactly when there is no reply, an HTTP error status, a body that is not an object, a status outside ranked/loved/qualified/approved, or no passing difficulty |
| `OrbexeFilter.AcceptChoosesFirst` | orbexe.py:76-85 | a result comes from the first passing difficulty; its URL is the beatmapset page of `str(id)`; its thumbnail is `cover@2x` when that is non-empty, else `cover` |
| `OrbexeFilter.AcceptSatisfies` | orbexe.py:65-76 | a result's mode is ticked, its rating lies in the star range, its status is allowed, and its URL ends in its identifier |
| `OrbexeFilter.FetchMapById` | orbexe.py:57-87 | while `loading` is cleared there is no result and nothing is looked up; otherwise the result is the filter's verdict on the lookup |
| `OrbexeSearch.Probe` | orbexe.py:94-99 | an attempt yields a map only while it sees `loading` set, and that map passes the filter; while set, it yields the filter's verdict on its key |
| `OrbexeSearch.RoundResultsSatisfy` | orbexe.py:94-99 | everything a round collects passes the filter |
| `OrbexeSearch.RunRound` | orbexe.py:92-104 | one round's `results`: in attempt order, the outcome of every attempt that still saw `loading` set |
| `OrbexeSearch.Search` | orbexe.py:90-107 | a found map was collected by a round whose loop test saw `loading` set; a search that is still going saw `loading` set at every loop test |
| `OrbexeSearch.GetRandomMap` | orbexe.py:90-107 | the loop's outcome over the given rounds equals the search specification |
| `OrbexeSearch.SearchEndsAt` | orbexe.py:91-107 | after rounds that collected nothing comes another round; a loop test that reads `loading` cleared returns None; the first round that collects something returns its first result |
| `OrbexeSearch.SearchHasEndRound` | orbexe.py:91-107 | every run has such a deciding round, or has used up the given rounds |
| `OrbexeSearch.NoneOnlyWhenCancelled` | orbexe.py:91-107 | `get_random_map` returns None only after a loop test read `loading` cleared |
| `OrbexeSearch.SearchFoundSatisfies` | orbexe.py:105-106 | a found map passes the filter the search ran with |
| `OrbexeSearch.OnlyMatchRound` | orbexe.py:94-99 | with a lookup that matches one key only, a round collects that key's map exactly when it draws the key while `loading` is set |
| `OrbexeSearch.SearchFindsOnlyMatch` | orbexe.py:90-107 | with a lookup that matches one key only, a search that keeps running returns that key's map once some round draws it |
| `OrbexeSearch.SearchWithoutMatches` | orbexe.py:90-107 | a lookup that never matches (every lookup fails or misses) never produces a map |
| `OrbexePanel.MaxBound` | orbexe.py:262-270 | the max slider at 10 or above sets no upper limit; below 10 the limit is that value |
| `OrbexePanel.SearchClick` | orbexe.py:170-189 | the checks run in order and each has its own reason: missing credentials exactly when they are missing; no mode exactly when credentials are present and no mode is ticked; max below min exactly when both pass and the finite max is below min; max equal to min exactly when both pass and max equals min; a click is refused exactly when one of these holds, whether `loading` is set or not; an accepted click stops exactly when `loading` is set |
| `OrbexePanel.AcceptedFilterSatisfiable` | orbexe.py:177-185 | a filter that passes validation lets some difficulty through |
| `OrbexePanel.UnsatisfiableFilterRejected` | orbexe.py:177-185 | a filter no difficulty can pass is refused before any search starts |
| `OrbexePanel.DisplayFor` | orbexe.py:148-167 | the token branch is taken exactly when the token is empty or missing; it ends the search and clears the result area, and its message is overwritten at once by `update_ui`; a map is shown exactly when there is a token, the search found it and `loading` is still set afterwards; the search is still running exactly when there is a token and it has not ended |
| `OrbexePanel.ShownMapMatches` | orbexe.py:148-165 | a map is shown only with a token and with `loading` still set, and it passes the filter and links to the identifier shown |
| `OrbexePanel.SearchPanel.constructor` | orbexe.py:15-23 | start-up state: all four modes ticked, stars from 0 with no upper limit (the max slider set to 10 runs `on_max_rating`), not loading, nothing shown, the loaded credentials |
| `OrbexePanel.SearchPanel.SaveCredentials` | orbexe.py:222-226 | the credentials window's Save sets both credentials |
| `OrbexePanel.SearchPanel.SetMode` | orbexe.py:246-252 | a mode checkbox adds or removes exactly its own mode |
| `OrbexePanel.SearchPanel.OnMinRating` | orbexe.py:257-260 | the min slider sets the lower star limit, and cannot move while a search runs |
| `OrbexePanel.SearchPanel.OnMaxRating` | orbexe.py:262-270 | the max slider sets the upper limit, with infinity for 10 and above, and cannot move while a search runs |
| `OrbexePanel.SearchPanel.OnSearch` | orbexe.py:170-198 | a refused click changes nothing; a stop clears `loading` and starts nothing; a start sets `loading`, disables the sliders and starts exactly one search; the filter stays as it was |
| `OrbexePanel.SearchPanel.UpdateUi` | orbexe.py:120-131 | shows the given URL and identifier, re-enables the sliders, and clears `loading` |
| `OrbexePanel.SearchPanel.FetchAndDisplay` | orbexe.py:148-167 | no token clears the result area and ends the search; a found map is shown only if `loading` is still set; otherwise the area is cleared and the search ends |
| `MainApp.AnyOsu` | main.py:37-38 | the `any` test is false exactly when every difficulty has a `mode` and none is osu; it raises only when some difficulty has no `mode` |
| `MainApp.AnyOsuTrueIff` | main.py:37-38 | the `any` test holds exactly when an osu difficulty comes before any difficulty without a `mode` key |
| `MainApp.FetchMapById` | main.py:27-42 | a listing needs a 200 reply, an object body, an accepted status and a title, an artist and an id, and it links to the beatmapset page of `str(id)` |
| `MainApp.FetchMapByIdIff` | main.py:27-42 | a listing exactly for a 200 reply with an object body, status ranked/loved/qualified (not approved), an osu difficulty, and title, artist and id present; the listing is `title [artist] (status)` and the beatmapset URL of `str(id)` |
| `MainApp.BeatmapIdOf` | main.py:104-106 | `copy_id`'s text is the part after the last `/` of the URL without trailing slashes, and holds no `/` |
| `MainApp.CopyIdRoundTrip` | main.py:39 | copying the identifier of any beatmapset URL gives back the identifier it was built from, if that is non-empty and holds no `/` |
| `MainApp.FetchedListingId` | main.py:39 | "Copy ID" on a delivered listing gives `str(id)`, which reads back as the beatmapset's identifier |
| `MainApp.RoundOutcomeIff` | main.py:44-62 | the value of `results[0] if results else None`: nothing exactly when every lookup yields nothing, otherwise the listing of the first key whose lookup yields one |
| `MainApp.GetRandomMap` | main.py:44-62 | a round yields nothing exactly when every lookup yields nothing, and otherwise the listing of the first key that yields one |
| `MainApp.FetchAndUpdateMap` | main.py:80-86 | at most one listing is delivered; it is delivered exactly when some round finds one; it comes from the first such round |
| `MainApp.LoadingText` | main.py:66-68 | the animation shows "Searching" followed by 0 to 3 dots, `loading_dots % 4` of them |
| `MainApp.LoadingTextCycles` | main.py:67 | the animation text repeats every four ticks |
| `MainApp.Window.constructor` | main.py:12-14 | start-up state: no URL, counter 0, animation stopped |
| `MainApp.Window.AnimateLoading` | main.py:64-70 | while running, a tick shows the text for the counter and advances it; stopped, it changes nothing |
| `MainApp.Window.ShowRandomMap` | main.py:72-78 | restarts the counter, shows "Searching", disables the button and starts one search; it cannot fire while the animation of another search runs |
| `MainApp.Window.UpdateInterface` | main.py:88-96 | stops the animation, stores and shows the listing, and enables the button |
| `MainApp.Window.CopyLink` | main.py:98-102 | copies the URL, and does nothing while there is none |
| `MainApp.Window.CopyId` | main.py:104-109 | copies the identifier part of the URL, and does nothing while there is none |

## Left out

- Widget construction, layout, label texts, `.config`/`.bind` calls, timers (`after`) and `show_feedback`: presentation. A refused click's message is represented by its `Rejection`.
- The OAuth token request (`get_osu_token`, both files), the beatmapset lookup and the thumbnail download: network I/O. The token is an input and the lookup is the `lookup` function. In main.py a failing token request raises out of the thread; that is not modelled.
- `load_credentials` and `save_credentials`: file I/O. The constructor takes the loaded credentials, and `SaveCredentials` models only the in-memory update.
- Time-outs in main.py: its `requests.get` and `t.join()` have none, so a request that never answers stalls `get_random_map` and `fetch_and_update_map` forever. The model assumes every lookup answers, with a reply or with `NoReply`. Only orbexe.py bounds each request (10 seconds) and each join (5 seconds).
- Threads, `join(timeout=5)`, daemon threads and the unsynchronised `results.append`: concurrency. A round's attempts run one after another, and results are collected in attempt order, not completion order. An attempt that outlives its join timeout and appends late is not modelled.
- Restart during a search: after a stop click, a new start click can run a second search thread beside one still running. One search is modelled at a time.
- Mode changes during a search: the mode checkboxes stay enabled, and ticking one changes the filter of later lookups. `FetchAndDisplay` fixes the filter when the search starts.
- `random.randint`: the drawn keys are inputs in [1, 3000000]. Uniformity and repeated draws play no part.
- PIL decoding, `webbrowser.open`, the clipboard: foreign libraries. The clipboard of main.py is a field of `Window`.
- The display title of orbexe.py (`capitalize()`, `round(rating, 2)`, the star sign): floating-point rounding and cosmetic text. `MapResult` keeps the title, artist, status, mode and unrounded rating it is built from.
- JSON `null` values and values of the wrong type: the record type cannot hold them. Some of them raise, and the `except` turns that into no result: a null `beatmaps` or `covers` in orbexe.py, a null `beatmaps` in main.py, a null `difficulty_rating` of a difficulty whose mode passes in orbexe.py, and a non-numeric rating in orbexe.py. Others do not raise. A null `status` is not an allowed status. A null `mode_int` in orbexe.py, or a null `cover@2x` or `cover`, acts like an absent key. A null `mode` in main.py is not osu, so `any` moves on to the next difficulty. An absent `mode` raises instead. A null `title` or `artist` in either file, and a null `id` in main.py, are printed as `None`.
- OrbexeSearch.GetRandomMap: the loop can run forever. The model runs over a finite list of rounds and reports `StillSearching` when all of them found nothing.
- OrbexePanel.SearchPanel.FetchAndDisplay: a search that has not ended within the given rounds is `StillRunning` and leaves the state unchanged.
- MainApp.FetchAndUpdateMap: its `while True` loop is modelled over a finite list of rounds, so a run that has not found anything has delivered nothing yet.
- Start-up of orbexe.py's sliders: the model takes from Tk that `max_scale.set(10.0)` runs `on_max_rating`, because it moves the slider from its lowest value 1. So the first search has no upper star limit, and difficulties above 10 stars pass. The constructor states this outcome; the Tk event that produces it is not modelled.
