/**
 The version and freshness protocol of a terminus instance. A concrete
 terminus may provide `find`, may override `version`, or neither; `version`
 falls back to the version of what `find` returns, and `fresh?` compares that
 version with the one a caller holds.
 */
module Versioning {
  import opened Wrappers
  import opened Errors

  /** An object a terminus can find, as far as this protocol looks at it. */
  datatype Stored = Stored(version: int)

  /**
   The operations a concrete terminus provides: `find` (None when the terminus
   has no `find` method) and an overriding `version` (None when it keeps the
   default one).
   */
  datatype Backend = Backend(
    find: Option<string -> Option<Stored>>,
    version: Option<string -> Option<int>>)

  /**
   `version(key)`: an overriding `version` answers directly; otherwise `find`
   is asked and the found object's version returned, `nil` when nothing is
   found; with neither, a DevError.
   */
  function Version(b: Backend, key: string): (r: Result<Option<int>, TerminusError>)
    ensures b.version.Some? ==> r == Ok(b.version.value(key))
    ensures b.version.None? && b.find.None? ==> r == Err(DevError)
    ensures b.version.None? && b.find.Some? ==>
      && r.Ok?
      && (r.value.None? <==> b.find.value(key).None?)
      && (r.value.Some? ==> r.value.value == b.find.value(key).value.version)
  {
    match b.version
    case Some(override) => Ok(override(key))
    case None =>
      match b.find
      case None => Err(DevError)
      case Some(find) =>
        match find(key)
        case None => Ok(None)
        case Some(found) => Ok(Some(found.version))
  }

  /**
   `fresh?(key, v)`: `version(key) >= v`. An error from `version` is raised
   again; a key with no version (`nil`) is not fresh.
   */
  function Fresh(b: Backend, key: string, provided: int): (r: Result<bool, TerminusError>)
    ensures r.Ok? <==> Version(b, key).Ok?
    ensures r.Ok? ==> (r.value <==> Version(b, key).value.Some? && Version(b, key).value.value >= provided)
    ensures Version(b, key).Err? ==> r == Err(Version(b, key).error)
    ensures Version(b, key) == Ok(None) ==> r == Ok(false)
  {
    match Version(b, key)
    case Err(e) => Err(e)
    case Ok(None) => Ok(false)
    case Ok(Some(current)) => Ok(current >= provided)
  }

  // ---------------------------------------------------------------------
  // Properties of freshness

  /** The version a terminus reports is fresh against itself: equal counts as fresh. */
  lemma FreshAtOwnVersion(b: Backend, key: string, current: int)
    requires Version(b, key) == Ok(Some(current))
    ensures Fresh(b, key, current) == Ok(true)
    ensures Fresh(b, key, current + 1) == Ok(false)
  {
  }

  /** Anything fresh against a version is fresh against every older one. */
  lemma FreshMonotone(b: Backend, key: string, newer: int, older: int)
    requires older <= newer
    requires Fresh(b, key, newer) == Ok(true)
    ensures Fresh(b, key, older) == Ok(true)
  {
  }

  /** A terminus whose `version` reports 5 for a key. */
  function VersionFive(): Backend {
    Backend(None, Some((key: string) => Some(5)))
  }

  /** A terminus whose `version` reports 4 for a key. */
  function VersionFour(): Backend {
    Backend(None, Some((key: string) => Some(4)))
  }

  /** Version 5 against a provided 4 or 5 is fresh; version 4 against a provided 5 is not. */
  lemma FreshExamples(key: string)
    ensures Fresh(VersionFive(), key, 4) == Ok(true)
    ensures Fresh(VersionFive(), key, 5) == Ok(true)
    ensures Fresh(VersionFour(), key, 5) == Ok(false)
  {
  }

  /** Without `find` and without an overriding `version`, asking for a version is a DevError. */
  lemma VersionWithoutFind(key: string)
    ensures Version(Backend(None, None), key) == Err(DevError)
  {
  }

  /** The default `version` reports what `find` returns: 2 for an object at version 2, nil for nothing. */
  lemma VersionFromFind(key: string)
    ensures Version(Backend(Some((k: string) => Some(Stored(2))), None), key) == Ok(Some(2))
    ensures Version(Backend(Some((k: string) => None), None), key) == Ok(None)
  {
  }
}
