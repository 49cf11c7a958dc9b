/** RPC failover: the failure map shared by all sessions, and the calls that go through it (workflows/reconcile/src/rpc.ts). */
module Failover {
  import opened Prelude

  datatype FailureState = FailureState(failures: nat, cooldownUntil: int)

  type FailureMap = map<string, FailureState>

  /** The circuit settings within their bounds: after how many failures, and for how long. */
  datatype Settings = Settings(threshold: nat, cooldownMs: int)

  predicate InBounds(settings: Settings) {
    1 <= settings.threshold <= 10 && 1000 <= settings.cooldownMs <= 300000
  }

  /** How one session ended at an endpoint, and when. */
  datatype Note = Note(url: string, ok: bool, at: int)

  function CooldownUntil(failures: FailureMap, url: string): int {
    if url in failures then failures[url].cooldownUntil else 0
  }

  function NoteSuccess(failures: FailureMap, url: string): FailureMap {
    failures - {url}
  }

  function NoteFailure(settings: Settings, failures: FailureMap, url: string, now: int): FailureMap {
    var count := (if url in failures then failures[url].failures else 0) + 1;
    failures[url := FailureState(count, if count >= settings.threshold then now + settings.cooldownMs else 0)]
  }

  function Noted(settings: Settings, failures: FailureMap, note: Note): FailureMap {
    if note.ok then NoteSuccess(failures, note.url) else NoteFailure(settings, failures, note.url, note.at)
  }

  /** The map after sessions of any number of callers, in the order in which they ended. */
  function MapOf(settings: Settings, log: seq<Note>): FailureMap {
    if log == [] then map[] else Noted(settings, MapOf(settings, log[..|log| - 1]), log[|log| - 1])
  }

  /** The failures of an endpoint since its last success. */
  function ConsecutiveFailures(log: seq<Note>, url: string): nat {
    if log == [] then 0
    else
      var last := log[|log| - 1];
      if last.url != url then ConsecutiveFailures(log[..|log| - 1], url)
      else if last.ok then 0
      else ConsecutiveFailures(log[..|log| - 1], url) + 1
  }

  function LastFailureAt(log: seq<Note>, url: string): int {
    if log == [] then 0
    else if log[|log| - 1].url == url && !log[|log| - 1].ok then log[|log| - 1].at
    else LastFailureAt(log[..|log| - 1], url)
  }

  /**
   * Over any run the map holds each endpoint's failures since its last success, and an endpoint cools down, from its last
   * failure on, exactly when these have reached the threshold.
   */
  lemma {:induction false} MapCountsConsecutiveFailures(settings: Settings, log: seq<Note>, url: string)
    ensures var failures, count := MapOf(settings, log), ConsecutiveFailures(log, url);
            && (url in failures <==> count > 0)
            && (url in failures ==> failures[url].failures == count)
            && CooldownUntil(failures, url)
               == if count >= settings.threshold && count > 0 then LastFailureAt(log, url) + settings.cooldownMs else 0
  {
    if log != [] {
      MapCountsConsecutiveFailures(settings, log[..|log| - 1], url);
    }
  }

  // ---- Candidates --------------------------------------------------------------------------------------------------

  function Available(failures: FailureMap, urls: seq<string>, now: int): (open: seq<string>)
    ensures forall url :: url in open <==> url in urls && CooldownUntil(failures, url) <= now
    ensures |open| <= |urls|
  {
    if urls == [] then []
    else (if CooldownUntil(failures, urls[0]) <= now then [urls[0]] else []) + Available(failures, urls[1..], now)
  }

  lemma ConcatAssociates<T>(a: seq<T>, b: seq<T>, c: seq<T>)
    ensures a + (b + c) == (a + b) + c
  {
  }

  /** The candidates stand in the configured order: each further endpoint comes last, if it does not cool down. */
  lemma {:induction false} AvailableInOrder(failures: FailureMap, urls: seq<string>, url: string, now: int)
    ensures Available(failures, urls + [url], now)
            == Available(failures, urls, now) + if CooldownUntil(failures, url) <= now then [url] else []
  {
    var all, last := urls + [url], if CooldownUntil(failures, url) <= now then [url] else [];
    if urls == [] {
      assert all == [url] && all[1..] == [];
    } else {
      var first := if CooldownUntil(failures, urls[0]) <= now then [urls[0]] else [];
      assert all[0] == urls[0] && all[1..] == urls[1..] + [url];
      AvailableInOrder(failures, urls[1..], url, now);
      assert Available(failures, all, now) == first + Available(failures, all[1..], now);
      ConcatAssociates(first, Available(failures, urls[1..], now), last);
    }
  }

  /** The endpoint that cools down first; the earlier one of two. */
  function SoonestOpen(failures: FailureMap, urls: seq<string>): (url: string)
    requires urls != []
    ensures url in urls
    ensures forall u :: u in urls ==> CooldownUntil(failures, url) <= CooldownUntil(failures, u)
    ensures exists i :: 0 <= i < |urls| && urls[i] == url
                        && forall j :: 0 <= j < i ==> CooldownUntil(failures, urls[j]) > CooldownUntil(failures, url)
  {
    if |urls| == 1 then urls[0]
    else
      var later := SoonestOpen(failures, urls[1..]);
      if CooldownUntil(failures, urls[0]) <= CooldownUntil(failures, later) then urls[0] else later
  }

  function HealthyFirst(failures: FailureMap, urls: seq<string>, now: int): seq<string>
    requires urls != []
  {
    var available := Available(failures, urls, now);
    if available != [] then available else [SoonestOpen(failures, urls)]
  }

  /**
   * There is always a candidate. After any run, an endpoint whose last success was followed by fewer failures than the
   * threshold is one; an endpoint that still cools down is one only when every endpoint does and none ends sooner.
   */
  lemma CandidatesAfterAnyRun(settings: Settings, log: seq<Note>, urls: seq<string>, now: int, url: string)
    requires InBounds(settings) && urls != [] && now >= 0
    requires url in urls
    ensures var failures := MapOf(settings, log);
            var candidates := HealthyFirst(failures, urls, now);
            && candidates != []
            && (forall u :: u in candidates ==> u in urls)
            && (ConsecutiveFailures(log, url) < settings.threshold ==> url in candidates)
            && (url in candidates && CooldownUntil(failures, url) > now ==>
                  candidates == [url]
                  && forall u :: u in urls ==> now < CooldownUntil(failures, url) <= CooldownUntil(failures, u))
  {
    MapCountsConsecutiveFailures(settings, log, url);
    var failures := MapOf(settings, log);
    var available := Available(failures, urls, now);
    forall u | u in urls && available == []
      ensures now < CooldownUntil(failures, u)
    {
      assert u !in available;
    }
  }

  // ---- Calls -------------------------------------------------------------------------------------------------------

  /** What the world does to one call: whether its try number k succeeds, when that ends, and which other sessions end before. */
  datatype World = World(start: int, succeeds: nat -> bool, at: nat -> int, others: nat -> seq<Note>)

  function CallLog(candidates: seq<string>, world: World, tries: nat): seq<Note>
    requires tries <= |candidates|
  {
    if tries == 0 then []
    else CallLog(candidates, world, tries - 1) + world.others(tries - 1)
         + [Note(candidates[tries - 1], world.succeeds(tries - 1), world.at(tries - 1))]
  }

  class Circuit {
    const settings: Settings
    var failures: FailureMap
    ghost var log: seq<Note>

    ghost predicate Valid()
      reads this
    {
      failures == MapOf(settings, log)
    }

    constructor (settings: Settings)
      ensures Valid() && log == [] && this.settings == settings
    {
      this.settings := settings;
      failures, log := map[], [];
    }

    method NoteEndpointSuccess(url: string, now: int)
      requires Valid()
      modifies this
      ensures Valid() && log == old(log) + [Note(url, true, now)]
    {
      failures := failures - {url};
      log := log + [Note(url, true, now)];
      assert log[..|log| - 1] == old(log);
    }

    method NoteEndpointFailure(url: string, now: int)
      requires Valid()
      modifies this
      ensures Valid() && log == old(log) + [Note(url, false, now)]
    {
      var count := 1;
      if url in failures {
        count := failures[url].failures + 1;
      }
      var cooldownUntil := 0;
      if count >= settings.threshold {
        cooldownUntil := now + settings.cooldownMs;
      }
      failures := failures[url := FailureState(count, cooldownUntil)];
      log := log + [Note(url, false, now)];
      assert log[..|log| - 1] == old(log);
    }

    /** Sessions of other callers end. */
    method NoteOthers(notes: seq<Note>)
      requires Valid()
      modifies this
      ensures Valid() && log == old(log) + notes
    {
      for k := 0 to |notes|
        invariant Valid() && log == old(log) + notes[..k]
      {
        if notes[k].ok {
          NoteEndpointSuccess(notes[k].url, notes[k].at);
        } else {
          NoteEndpointFailure(notes[k].url, notes[k].at);
        }
      }
    }

    /** Tries the candidates in order, each once, until one succeeds; fails only when all of them failed. */
    method WithSession(urls: seq<string>, world: World) returns (served: Option<string>, tries: nat)
      requires Valid() && urls != []
      modifies this
      ensures Valid()
      ensures var candidates := HealthyFirst(old(failures), urls, world.start);
              && 1 <= tries <= |candidates|
              && log == old(log) + CallLog(candidates, world, tries)
              && (forall k: nat :: k < tries - 1 ==> !world.succeeds(k))
              && served == (if world.succeeds(tries - 1) then Some(candidates[tries - 1]) else None)
              && (served.None? ==> tries == |candidates|)
    {
      var candidates := HealthyFirst(failures, urls, world.start);
      tries := 0;
      while tries < |candidates|
        invariant tries <= |candidates| && Valid()
        invariant log == old(log) + CallLog(candidates, world, tries)
        invariant forall k: nat :: k < tries ==> !world.succeeds(k)
      {
        var url := candidates[tries];
        NoteOthers(world.others(tries));
        tries := tries + 1;
        if world.succeeds(tries - 1) {
          NoteEndpointSuccess(url, world.at(tries - 1));
          return Some(url), tries;
        }
        NoteEndpointFailure(url, world.at(tries - 1));
      }
      served := None;
    }
  }
}
