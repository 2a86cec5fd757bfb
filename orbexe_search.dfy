/** The search loop of orbexe.py (`get_random_map`): rounds of NUM_ATTEMPTS lookups
    of random identifiers, repeated while `loading` stays set, ending with the first
    result a round collects. The attempts of a round run one after another here; the
    value of `loading` each check reads is an input, because the window's thread
    writes it while the search runs. */
module OrbexeSearch {
  import opened Wrappers
  import opened OsuApi
  import opened OrbexeFilter

  const NUM_ATTEMPTS: nat := 15

  /** One attempt: the value of `loading` it reads and the key `random.randint(1, 3000000)`
      drew for it. */
  datatype Attempt = Attempt(live: bool, key: int)

  /** One pass of `while loading`: the flag as the loop test reads it, and the attempts. */
  datatype Round = Round(live: bool, attempts: seq<Attempt>)

  predicate WellFormedAttempts(attempts: seq<Attempt>) {
    |attempts| == NUM_ATTEMPTS && forall i :: 0 <= i < |attempts| ==> InKeyspace(attempts[i].key)
  }

  predicate WellFormedRounds(rounds: seq<Round>) {
    forall i :: 0 <= i < |rounds| ==> WellFormedAttempts(rounds[i].attempts)
  }

  /** What one attempt yields: nothing once `loading` is cleared, else the filter's verdict. */
  function Probe(f: Filter, lookup: int -> Response, a: Attempt): (r: Option<MapResult>)
    ensures r.Some? ==> a.live && Satisfies(f, r.value)
    ensures a.live ==> r == Accept(f, lookup(a.key))
  {
    if a.live then Accept(f, lookup(a.key)) else None
  }

  function Probes(f: Filter, lookup: int -> Response, attempts: seq<Attempt>): (ps: seq<Option<MapResult>>)
    ensures |ps| == |attempts|
    ensures forall i :: 0 <= i < |attempts| ==> ps[i] == Probe(f, lookup, attempts[i])
  {
    seq(|attempts|, i requires 0 <= i < |attempts| => Probe(f, lookup, attempts[i]))
  }

  /** The `results` list of a round, in the order the attempts ran. */
  function RoundResults(f: Filter, lookup: int -> Response, attempts: seq<Attempt>): seq<MapResult> {
    Somes(Probes(f, lookup, attempts))
  }

  /** Everything a round collects passes the filter and links to its own identifier. */
  lemma RoundResultsSatisfy(f: Filter, lookup: int -> Response, attempts: seq<Attempt>, m: MapResult)
    requires m in RoundResults(f, lookup, attempts)
    ensures Satisfies(f, m) && m.url == BEATMAPSET_URL_PREFIX + m.mapId
  {
    var ps := Probes(f, lookup, attempts);
    var i :| 0 <= i < |ps| && ps[i] == Some(m);
    AcceptSatisfies(f, lookup(attempts[i].key), m);
  }

  /** One round: every attempt that still sees `loading` set looks up its key, and each
      result is appended to `results`. */
  method RunRound(f: Filter, lookup: int -> Response, attempts: seq<Attempt>) returns (results: seq<MapResult>)
    requires WellFormedAttempts(attempts)
    ensures results == RoundResults(f, lookup, attempts)
  {
    ghost var ps := Probes(f, lookup, attempts);
    results := [];
    for i := 0 to |attempts|
      invariant results == Somes(ps[..i])
    {
      assert ps[..i + 1][..i] == ps[..i];
      if attempts[i].live {
        var r := FetchMapById(attempts[i].live, f, lookup, attempts[i].key);
        if r.Some? {
          results := results + [r.value];
        }
      }
    }
    assert ps[..|attempts|] == ps;
  }

  /** How a search over the given rounds ends. `StillSearching` means every given round
      ran and found nothing, so the loop would go on with further rounds. */
  datatype Outcome = Found(item: MapResult) | Cancelled | StillSearching

  /** The search over the given rounds. A found map was collected by a round whose
      loop test saw `loading` set; a search still going saw it set at every test. */
  function Search(f: Filter, lookup: int -> Response, rounds: seq<Round>): (r: Outcome)
    ensures r.Found? ==> exists i :: 0 <= i < |rounds| && rounds[i].live
                                     && r.item in RoundResults(f, lookup, rounds[i].attempts)
    ensures r.StillSearching? ==> forall i :: 0 <= i < |rounds| ==> rounds[i].live
    decreases |rounds|
  {
    if rounds == [] then StillSearching
    else if !rounds[0].live then Cancelled
    else
      var results := RoundResults(f, lookup, rounds[0].attempts);
      if results != [] then
        assert results[0] in results;
        Found(results[0])
      else
        var rest := rounds[1..];
        assert forall i :: 0 <= i < |rest| ==> rest[i] == rounds[i + 1];
        Search(f, lookup, rest)
  }

  /** `get_random_map(token)`: `Cancelled` is its `return None`. */
  method GetRandomMap(f: Filter, lookup: int -> Response, rounds: seq<Round>) returns (outcome: Outcome)
    requires WellFormedRounds(rounds)
    ensures outcome == Search(f, lookup, rounds)
  {
    var i := 0;
    while i < |rounds| && rounds[i].live
      invariant 0 <= i <= |rounds|
      invariant Search(f, lookup, rounds) == Search(f, lookup, rounds[i..])
    {
      var results := RunRound(f, lookup, rounds[i].attempts);
      if results != [] {
        return Found(results[0]);
      }
      assert rounds[i..][1..] == rounds[i + 1..];
      i := i + 1;
    }
    if i < |rounds| {
      return Cancelled;
    }
    return StillSearching;
  }

  /** The first `k` rounds all ran (their loop test saw `loading` set) and collected nothing. */
  ghost predicate Continued(f: Filter, lookup: int -> Response, rounds: seq<Round>, k: int) {
    && 0 <= k <= |rounds|
    && forall j :: 0 <= j < k ==> rounds[j].live && RoundResults(f, lookup, rounds[j].attempts) == []
  }

  /** A round with nothing collected is followed by the next one, so the outcome is
      decided by the first round that either sees `loading` cleared (the search returns
      None) or collects something (the search returns the first result collected). */
  lemma {:induction false} SearchEndsAt(f: Filter, lookup: int -> Response, rounds: seq<Round>, k: int)
    requires Continued(f, lookup, rounds, k)
    ensures k == |rounds| ==> Search(f, lookup, rounds) == StillSearching
    ensures k < |rounds| && !rounds[k].live ==> Search(f, lookup, rounds) == Cancelled
    ensures k < |rounds| && rounds[k].live && RoundResults(f, lookup, rounds[k].attempts) != [] ==>
              Search(f, lookup, rounds) == Found(RoundResults(f, lookup, rounds[k].attempts)[0])
    decreases k
  {
    if k > 0 {
      var rest := rounds[1..];
      assert forall j :: 0 <= j < k - 1 ==> rest[j] == rounds[j + 1];
      assert Continued(f, lookup, rest, k - 1);
      SearchEndsAt(f, lookup, rest, k - 1);
    }
  }

  /** Every search has such a deciding round (or uses up all rounds given). */
  lemma {:induction false} SearchHasEndRound(f: Filter, lookup: int -> Response, rounds: seq<Round>)
    ensures exists k :: (Continued(f, lookup, rounds, k)
      && (k == |rounds| || !rounds[k].live || RoundResults(f, lookup, rounds[k].attempts) != []))
    decreases |rounds|
  {
    if rounds == [] {
      assert Continued(f, lookup, rounds, 0);
    } else if !rounds[0].live || RoundResults(f, lookup, rounds[0].attempts) != [] {
      assert Continued(f, lookup, rounds, 0);
    } else {
      var rest := rounds[1..];
      SearchHasEndRound(f, lookup, rest);
      var k :| Continued(f, lookup, rest, k)
        && (k == |rest| || !rest[k].live || RoundResults(f, lookup, rest[k].attempts) != []);
      assert forall j :: 1 <= j < k + 1 ==> rounds[j] == rest[j - 1];
      assert Continued(f, lookup, rounds, k + 1);
    }
  }

  /** The search returns None only when a loop test read `loading` cleared. */
  lemma NoneOnlyWhenCancelled(f: Filter, lookup: int -> Response, rounds: seq<Round>)
    requires Search(f, lookup, rounds) == Cancelled
    ensures exists k :: Continued(f, lookup, rounds, k) && k < |rounds| && !rounds[k].live
  {
    SearchHasEndRound(f, lookup, rounds);
    var k :| Continued(f, lookup, rounds, k)
      && (k == |rounds| || !rounds[k].live || RoundResults(f, lookup, rounds[k].attempts) != []);
    SearchEndsAt(f, lookup, rounds, k);
  }

  /** A found map passes the filter the search ran with and links to its own identifier. */
  lemma {:induction false} SearchFoundSatisfies(f: Filter, lookup: int -> Response, rounds: seq<Round>)
    requires Search(f, lookup, rounds).Found?
    ensures var m := Search(f, lookup, rounds).item;
      Satisfies(f, m) && m.url == BEATMAPSET_URL_PREFIX + m.mapId
    decreases |rounds|
  {
    var results := RoundResults(f, lookup, rounds[0].attempts);
    if results != [] {
      RoundResultsSatisfy(f, lookup, rounds[0].attempts, results[0]);
    } else {
      SearchFoundSatisfies(f, lookup, rounds[1..]);
    }
  }

  /** With a lookup that matches only `key`, a round collects only the map of `key`,
      and collects it when one of its attempts draws `key` while `loading` is set. */
  lemma OnlyMatchRound(f: Filter, lookup: int -> Response, attempts: seq<Attempt>, key: int, m: MapResult)
    requires Accept(f, lookup(key)) == Some(m)
    requires forall k :: k != key ==> Accept(f, lookup(k)) == None
    ensures forall v :: v in RoundResults(f, lookup, attempts) ==> v == m
    ensures (exists j :: 0 <= j < |attempts| && attempts[j] == Attempt(true, key)) <==> RoundResults(f, lookup, attempts) != []
  {
    var ps := Probes(f, lookup, attempts);
    forall v | v in Somes(ps)
      ensures v == m
    {
      var i :| 0 <= i < |ps| && ps[i] == Some(v);
      assert attempts[i].key == key;
    }
    SomesEmptyIff(ps);
    if Somes(ps) != [] {
      var i :| 0 <= i < |ps| && ps[i].Some?;
      assert attempts[i] == Attempt(true, key);
    }
  }

  /** A lookup that matches only one key: whichever round first draws that key while
      `loading` is set, the search returns the map of that key. */
  lemma {:induction false} SearchFindsOnlyMatch(f: Filter, lookup: int -> Response, rounds: seq<Round>, key: int, m: MapResult)
    requires Accept(f, lookup(key)) == Some(m)
    requires forall k :: k != key ==> Accept(f, lookup(k)) == None
    requires forall i :: 0 <= i < |rounds| ==> rounds[i].live
    requires exists i, j :: 0 <= i < |rounds| && 0 <= j < |rounds[i].attempts| && rounds[i].attempts[j] == Attempt(true, key)
    ensures Search(f, lookup, rounds) == Found(m)
    decreases |rounds|
  {
    OnlyMatchRound(f, lookup, rounds[0].attempts, key, m);
    var results := RoundResults(f, lookup, rounds[0].attempts);
    if results == [] {
      var rest := rounds[1..];
      var i, j :| 0 <= i < |rounds| && 0 <= j < |rounds[i].attempts| && rounds[i].attempts[j] == Attempt(true, key);
      assert i > 0 && rest[i - 1] == rounds[i];
      SearchFindsOnlyMatch(f, lookup, rest, key, m);
    } else {
      assert results[0] in results;
    }
  }

  /** A lookup that never matches (every probe fails or misses) never finds a map. */
  lemma {:induction false} SearchWithoutMatches(f: Filter, lookup: int -> Response, rounds: seq<Round>)
    requires forall k :: Accept(f, lookup(k)) == None
    ensures !Search(f, lookup, rounds).Found?
    decreases |rounds|
  {
    if rounds != [] && rounds[0].live {
      var ps := Probes(f, lookup, rounds[0].attempts);
      SomesEmptyIff(ps);
      SearchWithoutMatches(f, lookup, rounds[1..]);
    }
  }
}
