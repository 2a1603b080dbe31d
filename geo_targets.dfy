/**
 * Resolution of country names to geo target constant resource names, with a
 * name-to-resource cache that is loaded once per batch, updated in place as
 * names resolve, and saved once after the batch.
 *
 * The suggestion service is a function parameter: for a name it yields the
 * suggestions, or `ServiceError` for any exception the call raises.
 */
module GeoTargets {
  import opened Wrappers
  import opened Text

  /** One suggestion: its target type's name and its geo target constant's resource name. */
  datatype Suggestion = Suggestion(targetType: string, resourceName: string)

  datatype SuggestReply = Suggestions(items: seq<Suggestion>) | ServiceError

  type SuggestService = string -> SuggestReply

  /**
   * The cache file as `load_cache` finds it: absent, present but failing to
   * open or read (an IOError), text that is not JSON (empty, cut short or
   * malformed), bytes that are not UTF-8, or a stored object of strings.
   */
  datatype CacheFile = NoFile | Unreadable | NotJson | NotUtf8 | Stored(entries: map<string, string>)

  /**
   * `load_cache`: the stored map, and the empty map for a missing or
   * unreadable file or one that is not JSON. A file that is not UTF-8 raises
   * a decoding error that `load_cache` does not catch: `None`.
   */
  function LoadCache(file: CacheFile): (cache: Option<map<string, string>>)
    ensures cache.None? <==> file.NotUtf8?
    ensures file.Stored? ==> cache == Some(file.entries)
    ensures file.NoFile? || file.Unreadable? || file.NotJson? ==> cache == Some(map[])
  {
    match file
    case Stored(entries) => Some(entries)
    case NotUtf8 => None
    case _ => Some(map[])
  }

  /**
   * How the write in `save_cache` went: written in full; refused at `open`,
   * before the file was emptied; or failed after `open` had emptied the
   * file, leaving a cut-short text. Both failures are reported and swallowed.
   */
  datatype WriteOutcome = Written | OpenRefused | WriteFailed

  /** `save_cache`: the file after the save. */
  function SaveCache(file: CacheFile, cache: map<string, string>, write: WriteOutcome): (after: CacheFile)
    ensures write.Written? ==> LoadCache(after) == Some(cache)
    ensures write.OpenRefused? ==> after == file
    ensures write.WriteFailed? ==> LoadCache(after) == Some(map[])
  {
    match write
    case Written => Stored(cache)
    case OpenRefused => file
    case WriteFailed => NotJson
  }

  /** The position of the first suggestion whose type name contains `tag`. */
  function FirstOfType(items: seq<Suggestion>, tag: string): (r: Option<nat>)
    ensures r.Some? ==> r.value < |items| && Contains(items[r.value].targetType, tag)
    ensures r.Some? ==> forall j :: 0 <= j < r.value ==> !Contains(items[j].targetType, tag)
    ensures r.None? ==> forall j :: 0 <= j < |items| ==> !Contains(items[j].targetType, tag)
    decreases |items|
  {
    if items == [] then None
    else if Contains(items[0].targetType, tag) then Some(0)
    else
      match FirstOfType(items[1..], tag)
      case None => None
      case Some(j) => Some(j + 1)
  }

  /** The position the resolver settles on: first COUNTRY, else first PROVINCE, else the first. */
  function ChosenIndex(items: seq<Suggestion>): Option<nat> {
    var country := FirstOfType(items, "COUNTRY");
    if country.Some? then country
    else
      var province := FirstOfType(items, "PROVINCE");
      if province.Some? then province
      else if items != [] then Some(0)
      else None
  }

  /** The resource name a service reply resolves to, if any. */
  function Chosen(reply: SuggestReply): Option<string> {
    match reply
    case ServiceError => None
    case Suggestions(items) =>
      var i := ChosenIndex(items);
      if i.Some? && i.value < |items| then Some(items[i.value].resourceName) else None
  }

  ghost predicate IsFirstOfType(items: seq<Suggestion>, i: nat, tag: string) {
    i < |items| && Contains(items[i].targetType, tag)
    && forall j :: 0 <= j < i ==> !Contains(items[j].targetType, tag)
  }

  ghost predicate NoneOfType(items: seq<Suggestion>, tag: string) {
    forall j :: 0 <= j < |items| ==> !Contains(items[j].targetType, tag)
  }

  /** The pick policy, stated on its own: which position may be the answer. */
  ghost predicate IsChoice(items: seq<Suggestion>, i: nat) {
    || IsFirstOfType(items, i, "COUNTRY")
    || (NoneOfType(items, "COUNTRY") && IsFirstOfType(items, i, "PROVINCE"))
    || (NoneOfType(items, "COUNTRY") && NoneOfType(items, "PROVINCE") && i == 0 < |items|)
  }

  /**
   * The chosen position is exactly the one the policy allows: there is one
   * for every non-empty list of suggestions, and none for the empty list.
   */
  lemma ChosenIndexIsChoice(items: seq<Suggestion>, i: nat)
    ensures ChosenIndex(items) == Some(i) <==> IsChoice(items, i)
    ensures ChosenIndex(items).None? <==> items == []
  {
    if IsChoice(items, i) {
      if IsFirstOfType(items, i, "COUNTRY") {
        FirstIsUnique(items, "COUNTRY", i);
      } else if NoneOfType(items, "COUNTRY") && IsFirstOfType(items, i, "PROVINCE") {
        FirstIsUnique(items, "PROVINCE", i);
      }
    }
  }

  lemma FirstIsUnique(items: seq<Suggestion>, tag: string, i: nat)
    requires IsFirstOfType(items, i, tag)
    ensures FirstOfType(items, tag) == Some(i)
  {
  }

  /** The two scans of the suggestion list, one per preferred type, then the fallback. */
  method PickSuggestion(items: seq<Suggestion>) returns (target: Option<string>)
    ensures target == Chosen(Suggestions(items))
  {
    if items == [] {
      return None;
    }
    var i := 0;
    while i < |items|
      invariant 0 <= i <= |items|
      invariant forall j :: 0 <= j < i ==> !Contains(items[j].targetType, "COUNTRY")
    {
      if Contains(items[i].targetType, "COUNTRY") {
        FirstIsUnique(items, "COUNTRY", i);
        return Some(items[i].resourceName);
      }
      i := i + 1;
    }
    i := 0;
    while i < |items|
      invariant 0 <= i <= |items|
      invariant forall j :: 0 <= j < i ==> !Contains(items[j].targetType, "PROVINCE")
    {
      if Contains(items[i].targetType, "PROVINCE") {
        FirstIsUnique(items, "PROVINCE", i);
        return Some(items[i].resourceName);
      }
      i := i + 1;
    }
    target := Some(items[0].resourceName);
  }

  /** The resolver's state: the cache it threads, and the names it has sent to the service. */
  class Resolver {
    var cache: map<string, string>
    var queried: seq<string>

    constructor (initial: map<string, string>)
      ensures cache == initial && queried == []
    {
      cache := initial;
      queried := [];
    }

    /**
     * `resolve_country_to_geo_target`: a cached name answers from the cache
     * without a query; otherwise the service is asked once, and a resolved
     * name is added to the cache. Failures give None and change no entry.
     */
    method ResolveCountry(name: string, suggest: SuggestService) returns (target: Option<string>)
      modifies this
      ensures name in old(cache) ==> target == Some(old(cache)[name]) && cache == old(cache) && queried == old(queried)
      ensures name !in old(cache) ==> queried == old(queried) + [name] && target == Chosen(suggest(name))
      ensures name !in old(cache) ==> cache == if target.Some? then old(cache)[name := target.value] else old(cache)
    {
      if name in cache {
        return Some(cache[name]);
      }
      queried := queried + [name];
      match suggest(name) {
        case ServiceError =>
          target := None;
        case Suggestions(items) =>
          target := PickSuggestion(items);
          if target.Some? {
            cache := cache[name := target.value];
          }
      }
    }
  }

  /** The answer for one name given the cache it meets. */
  function Lookup(cache: map<string, string>, name: string, suggest: SuggestService): Option<string> {
    if name in cache then Some(cache[name]) else Chosen(suggest(name))
  }

  /** The cache after resolving one name. */
  function Remember(cache: map<string, string>, name: string, suggest: SuggestService): map<string, string> {
    var t := Lookup(cache, name, suggest);
    if name !in cache && t.Some? then cache[name := t.value] else cache
  }

  /** `if geo_target:` keeps a resolved, non-empty resource name. */
  function Kept(t: Option<string>): seq<string> {
    if t.Some? && t.value != "" then [t.value] else []
  }

  datatype Batch = Batch(targets: seq<string>, cache: map<string, string>, queried: seq<string>)

  /** The loop of `resolve_countries`, from a given cache. */
  function RunBatch(cache: map<string, string>, names: seq<string>, suggest: SuggestService): Batch
    decreases |names|
  {
    if names == [] then Batch([], cache, [])
    else
      var name := names[0];
      var rest := RunBatch(Remember(cache, name, suggest), names[1..], suggest);
      Batch(Kept(Lookup(cache, name, suggest)) + rest.targets,
            rest.cache,
            (if name in cache then [] else [name]) + rest.queried)
  }

  /**
   * `resolve_countries`: load the cache, resolve every name in order
   * through one resolver, then save the cache once. Returns the kept
   * resource names, the cache file afterwards, and the names sent to the
   * suggestion service. A cache file that fails to load with an uncaught
   * error ends the call before any name is resolved: `targets` is `None`.
   */
  method ResolveCountries(file: CacheFile, names: seq<string>, suggest: SuggestService, write: WriteOutcome)
    returns (targets: Option<seq<string>>, after: CacheFile, queries: seq<string>)
    ensures LoadCache(file).None? ==> targets.None? && after == file && queries == []
    ensures LoadCache(file).Some? ==> var b := RunBatch(LoadCache(file).value, names, suggest);
      targets == Some(b.targets) && queries == b.queried && after == SaveCache(file, b.cache, write)
  {
    var loaded := LoadCache(file);
    if loaded.None? {
      return None, file, [];
    }
    var found, cache;
    found, cache, queries := ResolveBatch(loaded.value, names, suggest);
    targets, after := Some(found), SaveCache(file, cache, write);
  }

  /**
   * The loop of `resolve_countries`: one resolver over the loaded cache
   * resolves every name in order, and the non-empty results are kept.
   * Returns the kept resource names, the final cache and the names sent to
   * the suggestion service, which together are the batch specification.
   */
  method ResolveBatch(loaded: map<string, string>, names: seq<string>, suggest: SuggestService)
    returns (found: seq<string>, cache: map<string, string>, queries: seq<string>)
    ensures Batch(found, cache, queries) == RunBatch(loaded, names, suggest)
  {
    var resolver := new Resolver(loaded);
    found := [];
    ghost var b := RunBatch(loaded, names, suggest);
    assert names[0..] == names;
    var i := 0;
    while i < |names|
      invariant 0 <= i <= |names|
      invariant var rest := RunBatch(resolver.cache, names[i..], suggest);
        && b.targets == found + rest.targets
        && b.queried == resolver.queried + rest.queried
        && b.cache == rest.cache
    {
      ghost var before, asked, done := resolver.cache, resolver.queried, found;
      ghost var kept := Kept(Lookup(before, names[i], suggest));
      ghost var step: seq<string> := if names[i] in before then [] else [names[i]];
      ghost var rest := RunBatch(Remember(before, names[i], suggest), names[i + 1..], suggest);
      assert RunBatch(before, names[i..], suggest) == Batch(kept + rest.targets, rest.cache, step + rest.queried) by {
        BatchStep(before, names, i, suggest);
      }
      var target := resolver.ResolveCountry(names[i], suggest);
      if target.Some? && target.value != "" {
        found := found + [target.value];
      }
      assert found == done + kept && resolver.queried == asked + step;
      assert resolver.cache == Remember(before, names[i], suggest);
      ContinueBatch(b, RunBatch(before, names[i..], suggest), rest, kept, step, done, asked);
      assert RunBatch(resolver.cache, names[i + 1..], suggest) == rest;
      i := i + 1;
    }
    assert names[i..] == [];
    cache, queries := resolver.cache, resolver.queried;
  }

  lemma BatchStep(cache: map<string, string>, names: seq<string>, i: nat, suggest: SuggestService)
    requires i < |names|
    ensures var rest := RunBatch(Remember(cache, names[i], suggest), names[i + 1..], suggest);
      RunBatch(cache, names[i..], suggest)
        == Batch(Kept(Lookup(cache, names[i], suggest)) + rest.targets, rest.cache,
                 (if names[i] in cache then [] else [names[i]]) + rest.queried)
  {
    assert names[i..][1..] == names[i + 1..];
  }

  /**
   * One loop step of `ResolveBatch` keeps its invariant: the result of
   * the step moves from the unresolved rest to what has been collected.
   */
  lemma ContinueBatch(b: Batch, whole: Batch, rest: Batch, kept: seq<string>, asked: seq<string>,
                      done: seq<string>, queried: seq<string>)
    requires whole == Batch(kept + rest.targets, rest.cache, asked + rest.queried)
    requires b.targets == done + whole.targets && b.queried == queried + whole.queried && b.cache == whole.cache
    ensures b.targets == (done + kept) + rest.targets
    ensures b.queried == (queried + asked) + rest.queried
    ensures b.cache == rest.cache
  {
  }

  /** The kept results of a batch: no more of them than names. */
  lemma {:induction false} BatchTargetsBound(cache: map<string, string>, names: seq<string>, suggest: SuggestService)
    ensures |RunBatch(cache, names, suggest).targets| <= |names|
    decreases |names|
  {
    if names != [] {
      BatchTargetsBound(Remember(cache, names[0], suggest), names[1..], suggest);
    }
  }

  /** Every cached entry is one the service would give again. */
  ghost predicate Agrees(initial: map<string, string>, cache: map<string, string>, suggest: SuggestService) {
    && initial.Keys <= cache.Keys
    && (forall k :: k in initial ==> cache[k] == initial[k])
    && (forall k :: k in cache && k !in initial ==> Chosen(suggest(k)) == Some(cache[k]))
  }

  /** The per-name answers of a batch, read from the initial cache and the service alone. */
  function Answers(initial: map<string, string>, names: seq<string>, suggest: SuggestService): seq<string>
    decreases |names|
  {
    if names == [] then [] else Kept(Lookup(initial, names[0], suggest)) + Answers(initial, names[1..], suggest)
  }

  /**
   * The output is the in-order sequence of per-name results with failures
   * and empty names dropped, and nothing de-duplicated: a repeated name
   * contributes its resource name at every occurrence.
   */
  lemma {:induction false} BatchTargetsAreAnswers(initial: map<string, string>, cache: map<string, string>,
                                                 names: seq<string>, suggest: SuggestService)
    requires Agrees(initial, cache, suggest)
    ensures RunBatch(cache, names, suggest).targets == Answers(initial, names, suggest)
    decreases |names|
  {
    if names != [] {
      var name := names[0];
      assert Lookup(cache, name, suggest) == Lookup(initial, name, suggest);
      BatchTargetsAreAnswers(initial, Remember(cache, name, suggest), names[1..], suggest);
    }
  }

  /** The names of a batch that resolve afresh, with what they resolve to. */
  function Fresh(cache: map<string, string>, names: seq<string>, suggest: SuggestService): map<string, string> {
    map n | n in names && n !in cache && Chosen(suggest(n)).Some? :: Chosen(suggest(n)).value
  }

  /**
   * The cache after a batch is the cache before it plus exactly the names
   * that resolved; cached entries keep their values and names that failed
   * never become keys.
   */
  lemma {:induction false} BatchFinalCache(cache: map<string, string>, names: seq<string>, suggest: SuggestService)
    ensures RunBatch(cache, names, suggest).cache == cache + Fresh(cache, names, suggest)
    decreases |names|
  {
    if names == [] {
      assert Fresh(cache, names, suggest) == map[];
    } else {
      var next := Remember(cache, names[0], suggest);
      assert RunBatch(cache, names, suggest).cache == RunBatch(next, names[1..], suggest).cache;
      BatchFinalCache(next, names[1..], suggest);
      FreshStep(cache, names, suggest);
    }
  }

  /** Resolving the first name moves it, if it resolves afresh, from the fresh names into the cache. */
  lemma FreshStep(cache: map<string, string>, names: seq<string>, suggest: SuggestService)
    requires names != []
    ensures var next := Remember(cache, names[0], suggest);
      next + Fresh(next, names[1..], suggest) == cache + Fresh(cache, names, suggest)
  {
    var name, rest := names[0], names[1..];
    assert forall n :: n in names <==> n == name || n in rest by {
      assert names == [name] + rest;
    }
    var t := Chosen(suggest(name));
    if name !in cache && t.Some? {
      assert Remember(cache, name, suggest) == cache[name := t.value];
      FreshResolved(cache, name, rest, names, suggest, t.value);
    } else {
      assert Remember(cache, name, suggest) == cache;
      FreshUnchanged(cache, name, rest, names, suggest);
    }
  }

  /** A first name that fails or is cached adds nothing to the fresh names. */
  lemma FreshUnchanged(cache: map<string, string>, name: string, rest: seq<string>, names: seq<string>,
                       suggest: SuggestService)
    requires forall n :: n in names <==> n == name || n in rest
    requires name in cache || Chosen(suggest(name)).None?
    ensures Fresh(cache, rest, suggest) == Fresh(cache, names, suggest)
  {
    var a, b := Fresh(cache, rest, suggest), Fresh(cache, names, suggest);
    assert a.Keys == b.Keys;
  }

  /** A first name that resolves afresh to `v` is in the cache afterwards, and no longer fresh. */
  lemma FreshResolved(cache: map<string, string>, name: string, rest: seq<string>, names: seq<string>,
                      suggest: SuggestService, v: string)
    requires forall n :: n in names <==> n == name || n in rest
    requires name !in cache && Chosen(suggest(name)) == Some(v)
    ensures cache[name := v] + Fresh(cache[name := v], rest, suggest) == cache + Fresh(cache, names, suggest)
  {
    var next := cache[name := v];
    var fn, fr := Fresh(next, rest, suggest), Fresh(cache, names, suggest);
    assert name in fr && fr[name] == v;
    assert fn.Keys == fr.Keys - {name};
    var lhs, rhs := next + fn, cache + fr;
    assert lhs.Keys == rhs.Keys;
    forall k | k in lhs ensures lhs[k] == rhs[k] {
      if k in fn {
        assert k in fr;
      } else if k == name {
      } else {
        assert k in cache;
      }
    }
  }

  /**
   * How often the service is asked about a name in one batch: never for a
   * cached name; once for a name that resolves; at every occurrence for a
   * name that fails, since failures are not cached.
   */
  lemma {:induction false} BatchQueryCount(cache: map<string, string>, names: seq<string>,
                                          suggest: SuggestService, x: string)
    ensures multiset(RunBatch(cache, names, suggest).queried)[x] ==
      if x in cache then 0
      else if Chosen(suggest(x)).Some? then (if x in names then 1 else 0)
      else multiset(names)[x]
    decreases |names|
  {
    if names != [] {
      var name, rest := names[0], names[1..];
      var next := Remember(cache, name, suggest);
      BatchQueryCount(next, rest, suggest, x);
      QueriedStep(cache, names, suggest, x);
      assert multiset(names)[x] == (if x == name then 1 else 0) + multiset(rest)[x] && (x in names <==> x == name || x in rest) by {
        assert names == [name] + rest;
      }
      if x != name {
        assert x in next <==> x in cache;
      } else if x in cache {
        assert next == cache;
      } else if Chosen(suggest(x)).Some? {
        assert x in next;
      } else {
        assert next == cache;
      }
    }
  }

  /** One name's share of the queries: itself when it is not cached, then the rest's. */
  lemma QueriedStep(cache: map<string, string>, names: seq<string>, suggest: SuggestService, x: string)
    requires names != []
    ensures multiset(RunBatch(cache, names, suggest).queried)[x] ==
      (if names[0] !in cache && x == names[0] then 1 else 0)
      + multiset(RunBatch(Remember(cache, names[0], suggest), names[1..], suggest).queried)[x]
  {
    var q := RunBatch(Remember(cache, names[0], suggest), names[1..], suggest).queried;
    var asked := if names[0] in cache then [] else [names[0]];
    assert RunBatch(cache, names, suggest).queried == asked + q;
    assert multiset(asked + q) == multiset(asked) + multiset(q);
  }

  /**
   * A name missing from the cache whose lookup the service fails; a name
   * already cached: only the cached one comes back, and the cache is
   * saved without a key for the failed name.
   */
  lemma UnresolvedNameDropped(suggest: SuggestService)
    requires suggest("Fakeland") == Suggestions([])
    ensures var b := RunBatch(map["Canada" := "geoTargetConstants/2124"], ["Fakeland", "Canada"], suggest);
      b.targets == ["geoTargetConstants/2124"] && b.cache == map["Canada" := "geoTargetConstants/2124"]
      && b.queried == ["Fakeland"]
  {
    var cache := map["Canada" := "geoTargetConstants/2124"];
    assert "Fakeland" !in cache;
    assert ChosenIndex([]) == None;
    assert RunBatch(cache, ["Fakeland", "Canada"], suggest).targets
        == [] + RunBatch(cache, ["Canada"], suggest).targets;
  }
}
