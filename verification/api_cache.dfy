/**
 * The caching policy of xmlApiWrap: an API response is taken from the cache
 * file while its cachedUntil time has not passed, otherwise from the server
 * (and written to the cache), and as a last resort from the expired cache
 * file. The cache directory is a map from file name to contents; whether a
 * file can be read or written, what its XML holds, the clock and the outcome
 * of the download are inputs.
 */
module ApiCache {
  import opened Common

  /** What loading a cache file's text as XML and reading /eveapi/cachedUntil gives. */
  datatype Stamp = NotXml | NoCachedUntil | CachedUntil(time: int)

  /** A cache file with this stamp is used at time `now`: it has a cachedUntil that has not passed, or the time is ignored. */
  predicate Usable(stamp: Stamp, now: int, ignoreTimestamp: bool) {
    stamp.CachedUntil? && (ignoreTimestamp || !(stamp.time < now))
  }

  /** The cached copy of a response: the file's contents, when the file exists, can be read and is usable. */
  function CachedCopy(files: map<string, string>, unreadable: set<string>, stampOf: string -> Stamp, now: int,
                      filename: string, ignoreTimestamp: bool): Option<string>
  {
    if filename in files && filename !in unreadable && Usable(stampOf(files[filename]), now, ignoreTimestamp)
    then Some(files[filename])
    else None
  }

  /**
   * The answer of apiRequest: the fresh cached copy, else the download, else the
   * cached copy with its time ignored. A failed download writes nothing, so the
   * last step sees the same files as the first.
   */
  function RequestResult(files: map<string, string>, unreadable: set<string>, stampOf: string -> Stamp, now: int,
                         filename: string, download: Option<string>): Option<string>
  {
    var hit := CachedCopy(files, unreadable, stampOf, now, filename, false);
    if hit.Some? then hit
    else if download.Some? then download
    else CachedCopy(files, unreadable, stampOf, now, filename, true)
  }

  /** A cache file that is usable while its time counts is usable with the time ignored, and a hit is the file verbatim. */
  lemma FreshHitIsStaleHit(files: map<string, string>, unreadable: set<string>, stampOf: string -> Stamp, now: int, filename: string)
    ensures var hit := CachedCopy(files, unreadable, stampOf, now, filename, false);
            hit.Some? ==> hit == CachedCopy(files, unreadable, stampOf, now, filename, true)
    ensures forall ignore: bool :: CachedCopy(files, unreadable, stampOf, now, filename, ignore).Some? ==>
              filename in files && CachedCopy(files, unreadable, stampOf, now, filename, ignore).value == files[filename]
  {
  }

  /**
   * Expiry is strict, and only expiry depends on the clock: with the time
   * ignored, a readable file with a cachedUntil is used at any time; while it
   * counts, it is used until and including the cachedUntil instant.
   */
  lemma ExpiryRule(files: map<string, string>, unreadable: set<string>, stampOf: string -> Stamp, now: int, filename: string)
    requires filename in files && filename !in unreadable && stampOf(files[filename]).CachedUntil?
    ensures CachedCopy(files, unreadable, stampOf, now, filename, true) == Some(files[filename])
    ensures CachedCopy(files, unreadable, stampOf, now, filename, false).Some? <==> now <= stampOf(files[filename]).time
  {
  }

  /** apiRequest fails only when the fresh cache, the server and the expired cache all fail. */
  lemma RequestFailsOnlyWhenAllFail(files: map<string, string>, unreadable: set<string>, stampOf: string -> Stamp, now: int,
                                    filename: string, download: Option<string>)
    ensures RequestResult(files, unreadable, stampOf, now, filename, download).None? <==>
              CachedCopy(files, unreadable, stampOf, now, filename, false).None? && download.None? &&
              CachedCopy(files, unreadable, stampOf, now, filename, true).None?
  {
  }

  /** The cache directory, the state that apiRequest reads and loadFromServer writes. */
  class ApiCache {
    var files: map<string, string>

    constructor(files0: map<string, string>)
      ensures files == files0
    {
      files := files0;
    }

    /**
     * loadFromCache: the contents of the file, unless it is missing, cannot be
     * read, is not XML, has no cachedUntil, or has expired while the time counts.
     */
    method LoadFromCache(filename: string, ignoreTimestamp: bool, unreadable: set<string>, stampOf: string -> Stamp, now: int)
      returns (rawdata: Option<string>)
      ensures rawdata == CachedCopy(files, unreadable, stampOf, now, filename, ignoreTimestamp)
    {
      var refreshRequired := false;
      var text := "";
      if filename in files {
        var success := true;
        if filename in unreadable {
          success := false;
        } else {
          text := files[filename];
          success := !stampOf(text).NotXml?;
        }
        if success {
          var stamp := stampOf(text);
          if stamp.CachedUntil? {
            var expired := stamp.time < now;
            refreshRequired := expired && !ignoreTimestamp;
          } else {
            refreshRequired := true;
          }
        } else {
          refreshRequired := true;
        }
      } else {
        refreshRequired := true;
      }
      rawdata := if !refreshRequired then Some(text) else None;
    }

    /** writeToCache: the file holds the text afterwards, unless the write fails, which is caught. */
    method WriteToCache(filename: string, xml: string, writable: bool)
      modifies this
      ensures files == if writable then old(files)[filename := xml] else old(files)
    {
      if writable {
        files := files[filename := xml];
      }
    }

    /**
     * loadFromServer: a successful download is written to the cache and returned,
     * even when the write fails; a failed download writes nothing and gives null.
     */
    method LoadFromServer(download: Option<string>, filename: string, writable: bool) returns (xml: Option<string>)
      modifies this
      ensures xml == download
      ensures files == if download.Some? && writable then old(files)[filename := download.value] else old(files)
    {
      if download.None? {
        return None;
      }
      WriteToCache(filename, download.value, writable);
      xml := download;
    }

    /**
     * apiRequest: the fresh cached copy without contacting the server; otherwise
     * the server's answer; otherwise the expired cached copy.
     */
    method ApiRequest(filename: string, download: Option<string>, writable: bool,
                      unreadable: set<string>, stampOf: string -> Stamp, now: int)
      returns (rawdata: Option<string>, contactedServer: bool)
      modifies this
      ensures rawdata == RequestResult(old(files), unreadable, stampOf, now, filename, download)
      ensures contactedServer <==> CachedCopy(old(files), unreadable, stampOf, now, filename, false).None?
      ensures files == if contactedServer && download.Some? && writable then old(files)[filename := download.value] else old(files)
    {
      contactedServer := false;
      rawdata := LoadFromCache(filename, false, unreadable, stampOf, now);
      if rawdata.None? {
        contactedServer := true;
        rawdata := LoadFromServer(download, filename, writable);
        if rawdata.None? {
          rawdata := LoadFromCache(filename, true, unreadable, stampOf, now);
        }
      }
    }
  }
}
