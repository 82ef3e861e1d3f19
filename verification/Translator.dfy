/**
 The translator with its cache and statistics (translator.go:29-111). The critical sections of a
 call are separate methods; `Translate` strings them together for one caller.
 */
module Translator {

  datatype Outcome<+T> = Success(value: T) | Failure(error: string)

  /** A parse may be blocked (recognised, not adapted); its statement is normalised, and a failed normalisation may be
      final (SHOW and SET). */
  datatype Parsed<+S> = Parsed(blocked: bool, fatal: bool, normalized: Outcome<S>) | Unparsed

  /** The parsers, normalisers and renderers that the translator calls, for one dialect pair; `S` are the normalised
      statements. */
  datatype Backend<!S> = Backend(
    input: string, target: string,
    parseOne: string -> Parsed<S>,
    render: S -> Outcome<string>,
    legacy: string -> Outcome<S>)

  const NOT_ADAPTED := "statement is recognized but not adapted"

  /** The direct translation of a statement. */
  function TranslateSQL<S>(b: Backend<S>, sql: string): Outcome<string> {
    if b.input == b.target then Success(sql) else
      match b.parseOne(sql)
      case Unparsed => Legacy(b, sql)
      case Parsed(blocked, fatal, normalized) =>
        if blocked then Failure(NOT_ADAPTED)
        else if normalized.Success? then b.render(normalized.value)
        else if fatal then Failure(normalized.error)
        else Legacy(b, sql)
  }

  function Legacy<S>(b: Backend<S>, sql: string): Outcome<string> {
    match b.legacy(sql)
    case Failure(e) => Failure(e)
    case Success(stmt) => b.render(stmt)
  }

  function Key<S>(b: Backend<S>, sql: string): string {
    b.input + "->" + b.target + ":" + sql
  }

  /** Within one translator, different statements never share a cache entry. */
  lemma KeyInjective<S>(b: Backend<S>, s: string, t: string)
    ensures Key(b, s) == Key(b, t) <==> s == t
  {
    var p := b.input + "->" + b.target + ":";
    assert (p + s)[|p|..] == s && (p + t)[|p|..] == t;
  }

  class TranslatorObject<S> {
    const backend: Backend<S>
    var cache: map<string, string>
    var hits: nat
    var misses: nat

    constructor (backend: Backend<S>)
      ensures this.backend == backend && cache == map[] && hits == 0 && misses == 0
    {
      this.backend := backend;
      cache, hits, misses := map[], 0, 0;
    }

    /** Every entry is the direct translation of the statement in its key. */
    ghost predicate Valid()
      reads this
    {
      forall s: string {:trigger Key(backend, s)} :: Key(backend, s) in cache ==>
        TranslateSQL(backend, s) == Success(cache[Key(backend, s)])
    }

    // ----- the critical sections

    method Lookup(sql: string) returns (ok: bool, cached: string)
      ensures ok <==> Key(backend, sql) in cache
      ensures ok ==> cached == cache[Key(backend, sql)]
    {
      ok := Key(backend, sql) in cache;
      cached := if ok then cache[Key(backend, sql)] else "";
    }

    method CountHit()
      modifies `hits
      ensures hits == old(hits) + 1
    {
      hits := hits + 1;
    }

    method Store(sql: string, translated: string)
      modifies `cache, `misses
      ensures cache == old(cache)[Key(backend, sql) := translated] && misses == old(misses) + 1
    {
      cache := cache[Key(backend, sql) := translated];
      misses := misses + 1;
    }

    /** A call without interference: the result is the direct translation, a success counts once and
        leaves its entry in the cache, a failure leaves no trace. */
    method Translate(sql: string) returns (r: Outcome<string>)
      requires Valid()
      modifies this
      ensures Valid() && r == TranslateSQL(backend, sql)
      ensures r.Failure? ==> cache == old(cache) && hits == old(hits) && misses == old(misses)
      ensures r.Success? ==> cache == old(cache)[Key(backend, sql) := r.value]
      ensures r.Success? && Key(backend, sql) in old(cache) ==> hits == old(hits) + 1 && misses == old(misses)
      ensures r.Success? && Key(backend, sql) !in old(cache) ==> hits == old(hits) && misses == old(misses) + 1
    {
      var ok, cached := Lookup(sql);
      if ok {
        CountHit();
        return Success(cached);
      }
      r := TranslateSQL(backend, sql);
      if r.Failure? { return; }
      Store(sql, r.value);
      forall s: string | Key(backend, s) in cache ensures TranslateSQL(backend, s) == Success(cache[Key(backend, s)]) {
        KeyInjective(backend, s, sql);
      }
    }
  }
}
