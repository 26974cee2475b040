/**
 * The activity statistics of EveApi, over records already decoded from the
 * server's JSON: kills and jumps per system, the top-N ranking, and the
 * wrapper that turns a bare JSON array into an object with an "Items" field.
 */
module EveApi {
  import opened Common
  import opened Dictionaries

  // ---------------------------------------------------------------------------
  // The JSON wrapper

  const ItemsPrefix: string := "{\"Items\":"
  const ItemsSuffix: string := "}"

  /** fixJson: the value wrapped as the "Items" field of an object. */
  function FixJson(value: string): (wrapped: string)
    ensures |wrapped| == |ItemsPrefix| + |value| + |ItemsSuffix|
  {
    ItemsPrefix + value + ItemsSuffix
  }

  /** The inverse of FixJson: the value inside the wrapper, if the text is wrapped. */
  function UnwrapItems(s: string): (value: Option<string>)
    ensures value.Some? ==> |value.value| == |s| - |ItemsPrefix| - |ItemsSuffix|
  {
    if |s| >= |ItemsPrefix| + |ItemsSuffix| && s[..|ItemsPrefix|] == ItemsPrefix && s[|s| - |ItemsSuffix|..] == ItemsSuffix
    then Some(s[|ItemsPrefix|..|s| - |ItemsSuffix|])
    else None
  }

  /** Wrapping and unwrapping are inverse: every wrapped text comes from exactly one value. */
  lemma FixJsonRoundTrip(value: string, s: string)
    ensures UnwrapItems(FixJson(value)) == Some(value)
    ensures UnwrapItems(s) == Some(value) ==> FixJson(value) == s
  {
    var w := FixJson(value);
    assert w[..|ItemsPrefix|] == ItemsPrefix;
    assert w[|w| - |ItemsSuffix|..] == ItemsSuffix;
    assert w[|ItemsPrefix|..|w| - |ItemsSuffix|] == value;
    if UnwrapItems(s) == Some(value) {
      assert s == s[..|ItemsPrefix|] + s[|ItemsPrefix|..|s| - |ItemsSuffix|] + s[|s| - |ItemsSuffix|..];
    }
  }

  // ---------------------------------------------------------------------------
  // Kills and jumps

  /** One decoded element of the system kills response. */
  datatype KillRecord = KillRecord(npcKills: Int32, podKills: Int32, shipKills: Int32, systemId: Int32)

  /** One decoded element of the system jumps response. */
  datatype JumpRecord = JumpRecord(shipJumps: Int32, systemId: Int32)

  /** The exception that ends the loops: Add with a system ID already present. */
  datatype StatsError = DuplicateSystem

  /** What one kills record adds: its pod and ship kills (an int sum), when positive. */
  function KillEntry(r: KillRecord): (e: Entry<int, StatsError>)
    ensures !e.Throw?
    ensures e.Add? ==> e.key == r.systemId && e.val > 0
  {
    var total := Wrap32(r.podKills + r.shipKills);
    if total > 0 then Add(r.systemId, total) else Skip
  }

  /** What one jumps record adds: its jump count, zero included. */
  function JumpEntry(r: JumpRecord): (e: Entry<int, StatsError>)
    ensures e == Add(r.systemId, r.shipJumps)
  {
    Add(r.systemId, r.shipJumps)
  }

  /** The kills dictionary getKills returns for a decoded response; None when the download or decoding threw. */
  function Kills(response: Option<seq<KillRecord>>): map<int, int> {
    match response
    case None => map[]
    case Some(records) => FillFrom(map[], records, KillEntry, DuplicateSystem).entries
  }

  /** The jumps dictionary getJumps returns for a decoded response. */
  function Jumps(response: Option<seq<JumpRecord>>): map<int, int> {
    match response
    case None => map[]
    case Some(records) => FillFrom(map[], records, JumpEntry, DuplicateSystem).entries
  }

  /**
   * getKills after the download: the loop over the records. The exception of
   * a repeated system ID is caught, so the entries added before it are returned.
   */
  method GetKills(response: Option<seq<KillRecord>>) returns (systemDetails: map<int, int>)
    ensures systemDetails == Kills(response)
  {
    systemDetails := map[];
    if response.None? {
      return;
    }
    var records := response.value;
    var i := 0;
    while i < |records|
      invariant 0 <= i <= |records|
      invariant FillFrom(systemDetails, records[i..], KillEntry, DuplicateSystem)
                == FillFrom(map[], records, KillEntry, DuplicateSystem)
    {
      assert records[i..][1..] == records[i + 1..];
      var totalKills := Wrap32(records[i].podKills + records[i].shipKills);
      if totalKills > 0 {
        if records[i].systemId in systemDetails {
          return;
        }
        systemDetails := systemDetails[records[i].systemId := totalKills];
      }
      i := i + 1;
    }
  }

  /** getJumps after the download: the loop over the records, caught the same way. */
  method GetJumps(response: Option<seq<JumpRecord>>) returns (systemDetails: map<int, int>)
    ensures systemDetails == Jumps(response)
  {
    systemDetails := map[];
    if response.None? {
      return;
    }
    var records := response.value;
    var i := 0;
    while i < |records|
      invariant 0 <= i <= |records|
      invariant FillFrom(systemDetails, records[i..], JumpEntry, DuplicateSystem)
                == FillFrom(map[], records, JumpEntry, DuplicateSystem)
    {
      assert records[i..][1..] == records[i + 1..];
      if records[i].systemId in systemDetails {
        return;
      }
      systemDetails := systemDetails[records[i].systemId := records[i].shipJumps];
      i := i + 1;
    }
  }

  /** Every kills entry is the positive pod-plus-ship total of a record for that system. */
  lemma KillsSound(records: seq<KillRecord>)
    ensures var kills := Kills(Some(records));
            forall id :: id in kills ==>
              && kills[id] > 0
              && exists i :: 0 <= i < |records| && records[i].systemId == id &&
                             Wrap32(records[i].podKills + records[i].shipKills) == kills[id]
  {
    var kills := Kills(Some(records));
    FillSound(map[], records, KillEntry, DuplicateSystem);
    forall id | id in kills
      ensures kills[id] > 0
      ensures exists i :: 0 <= i < |records| && records[i].systemId == id &&
                          Wrap32(records[i].podKills + records[i].shipKills) == kills[id]
    {
      assert Yields(records, KillEntry, id, kills[id]);
      var i :| 0 <= i < |records| && KillEntry(records[i]) == Add(id, kills[id]);
    }
  }

  /**
   * When no system ID repeats among the records with positive kills, every such
   * record has its entry; records without kills have none of their own.
   */
  lemma KillsComplete(records: seq<KillRecord>)
    requires forall i, j :: 0 <= i < j < |records| && KillEntry(records[i]).Add? && KillEntry(records[j]).Add? ==>
               records[i].systemId != records[j].systemId
    ensures var kills := Kills(Some(records));
            forall i :: 0 <= i < |records| && Wrap32(records[i].podKills + records[i].shipKills) > 0 ==>
              records[i].systemId in kills && kills[records[i].systemId] == Wrap32(records[i].podKills + records[i].shipKills)
  {
    FillWithoutError(map[], records, KillEntry, DuplicateSystem);
    FillComplete(map[], records, KillEntry, DuplicateSystem);
    forall i | 0 <= i < |records| && Wrap32(records[i].podKills + records[i].shipKills) > 0
      ensures KillEntry(records[i]).Add?
    {
    }
  }

  /** The NPC kills of a record never matter. */
  lemma KillsIgnoreNpc(records: seq<KillRecord>, others: seq<KillRecord>)
    requires |records| == |others|
    requires forall i :: 0 <= i < |records| ==> records[i].(npcKills := others[i].npcKills) == others[i]
    ensures Kills(Some(records)) == Kills(Some(others))
  {
    FillSameEntries(map[], records, KillEntry, others, KillEntry, DuplicateSystem);
  }

  /** When no system ID repeats, every record has its entry, zero jump counts included. */
  lemma JumpsComplete(records: seq<JumpRecord>)
    requires forall i, j :: 0 <= i < j < |records| ==> records[i].systemId != records[j].systemId
    ensures var jumps := Jumps(Some(records));
            forall i :: 0 <= i < |records| ==> records[i].systemId in jumps && jumps[records[i].systemId] == records[i].shipJumps
  {
    FillWithoutError(map[], records, JumpEntry, DuplicateSystem);
    FillComplete(map[], records, JumpEntry, DuplicateSystem);
  }

  /** Every jumps entry is the count of a record for that system. */
  lemma JumpsSound(records: seq<JumpRecord>)
    ensures var jumps := Jumps(Some(records));
            forall id :: id in jumps ==>
              exists i :: 0 <= i < |records| && records[i].systemId == id && records[i].shipJumps == jumps[id]
  {
    var jumps := Jumps(Some(records));
    FillSound(map[], records, JumpEntry, DuplicateSystem);
    forall id | id in jumps
      ensures exists i :: 0 <= i < |records| && records[i].systemId == id && records[i].shipJumps == jumps[id]
    {
      assert Yields(records, JumpEntry, id, jumps[id]);
      var i :| 0 <= i < |records| && JumpEntry(records[i]) == Add(id, jumps[id]);
    }
  }

  // ---------------------------------------------------------------------------
  // Top systems

  /**
   * The entries of a dictionary in the order OrderByDescending on the value
   * enumerates them: each entry exactly once, values not increasing.
   */
  ghost predicate DescendingOrder(details: map<int, int>, ordered: seq<(int, int)>) {
    (forall i :: 0 <= i < |ordered| ==> ordered[i].0 in details && details[ordered[i].0] == ordered[i].1)
    && (forall i, j :: 0 <= i < j < |ordered| ==> ordered[i].0 != ordered[j].0)
    && (forall k :: k in details ==> exists i :: 0 <= i < |ordered| && ordered[i].0 == k)
    && (forall i, j :: 0 <= i < j < |ordered| ==> ordered[i].1 >= ordered[j].1)
  }

  /** The dictionary holding the given entries. */
  function MapOf(entries: seq<(int, int)>): map<int, int> {
    if entries == [] then map[]
    else MapOf(entries[..|entries| - 1])[entries[|entries| - 1].0 := entries[|entries| - 1].1]
  }

  /** The number of entries getTop keeps: it stops only after the Add that takes its counter past `max`. */
  function TopCount(n: nat, max: int): (c: nat)
    ensures c <= n
    ensures n > 0 ==> c > 0
  {
    var limit := if max + 1 >= 1 then max + 1 else 1;
    if n <= limit then n else limit
  }

  /** getTop: the first entries of the descending enumeration, added until the counter passes `max`. */
  method GetTop(details: map<int, int>, ordered: seq<(int, int)>, max: int) returns (result: map<int, int>)
    requires DescendingOrder(details, ordered)
    ensures result == MapOf(ordered[..TopCount(|ordered|, max)])
  {
    result := map[];
    var counter := 0;
    var i := 0;
    while i < |ordered|
      invariant 0 <= i <= |ordered| && counter == i
      invariant result == MapOf(ordered[..i])
      invariant i <= TopCount(|ordered|, max)
      invariant i > 0 ==> i <= max
    {
      MapOfSnoc(ordered, i);
      result := result[ordered[i].0 := ordered[i].1];
      counter := counter + 1;
      i := i + 1;
      if counter > max {
        assert i == TopCount(|ordered|, max);
        break;
      }
    }
  }

  /** Collecting one more entry of a list updates the dictionary with that entry. */
  lemma MapOfSnoc(entries: seq<(int, int)>, i: nat)
    requires i < |entries|
    ensures MapOf(entries[..i + 1]) == MapOf(entries[..i])[entries[i].0 := entries[i].1]
  {
    assert entries[..i + 1][..i] == entries[..i];
  }

  /** The number of entries the corrected ranking keeps: at most `max`. */
  function TopCountCorrected(n: nat, max: int): (c: nat)
    ensures c <= n
    ensures max >= 0 ==> c <= max
  {
    if max <= 0 then 0 else if n <= max then n else max
  }

  /** getTop as its documentation describes it: the counter is compared before the Add, so at most `max` entries are kept. */
  method GetTopCorrected(details: map<int, int>, ordered: seq<(int, int)>, max: int) returns (result: map<int, int>)
    requires DescendingOrder(details, ordered)
    ensures result == MapOf(ordered[..TopCountCorrected(|ordered|, max)])
  {
    result := map[];
    var counter := 0;
    var i := 0;
    while i < |ordered|
      invariant 0 <= i <= |ordered| && counter == i
      invariant result == MapOf(ordered[..i])
      invariant i <= TopCountCorrected(|ordered|, max)
    {
      if counter >= max {
        break;
      }
      MapOfSnoc(ordered, i);
      result := result[ordered[i].0 := ordered[i].1];
      counter := counter + 1;
      i := i + 1;
    }
  }

  /** The keys of MapOf are the keys of the entries. */
  lemma {:induction false} MapOfKeys(entries: seq<(int, int)>)
    ensures forall k :: k in MapOf(entries) <==> exists i :: 0 <= i < |entries| && entries[i].0 == k
  {
    if entries != [] {
      var init := entries[..|entries| - 1];
      MapOfKeys(init);
      forall k ensures k in MapOf(entries) <==> exists i :: 0 <= i < |entries| && entries[i].0 == k {
        if k in MapOf(entries) && k != entries[|entries| - 1].0 {
          assert k in MapOf(init);
          var i :| 0 <= i < |init| && init[i].0 == k;
          assert entries[i].0 == k;
        }
        if exists i :: 0 <= i < |entries| && entries[i].0 == k {
          var i :| 0 <= i < |entries| && entries[i].0 == k;
          if i < |entries| - 1 {
            assert init[i].0 == k;
          }
        }
      }
    }
  }

  /** With distinct keys, MapOf keeps the value of every entry and has one key per entry. */
  lemma {:induction false} MapOfValues(entries: seq<(int, int)>)
    requires forall i, j :: 0 <= i < j < |entries| ==> entries[i].0 != entries[j].0
    ensures forall i :: 0 <= i < |entries| ==> entries[i].0 in MapOf(entries) && MapOf(entries)[entries[i].0] == entries[i].1
    ensures |MapOf(entries).Keys| == |entries|
  {
    if entries != [] {
      var init := entries[..|entries| - 1];
      var last := entries[|entries| - 1];
      MapOfValues(init);
      MapOfKeys(init);
      assert last.0 !in MapOf(init) by {
        forall i | 0 <= i < |init| ensures init[i].0 != last.0 {
          assert init[i] == entries[i];
        }
      }
      assert MapOf(entries).Keys == MapOf(init).Keys + {last.0};
      forall i | 0 <= i < |entries|
        ensures entries[i].0 in MapOf(entries) && MapOf(entries)[entries[i].0] == entries[i].1
      {
        if i < |entries| - 1 {
          assert entries[i] == init[i];
        }
      }
    }
  }

  /**
   * A prefix of the descending enumeration keeps entries of the input unchanged,
   * as many as its length, and every value it keeps is at least every value it drops.
   */
  lemma TopPrefix(details: map<int, int>, ordered: seq<(int, int)>, n: nat)
    requires DescendingOrder(details, ordered) && n <= |ordered|
    ensures var top := MapOf(ordered[..n]);
            forall k :: k in top ==> k in details && top[k] == details[k]
    ensures |MapOf(ordered[..n]).Keys| == n
    ensures var top := MapOf(ordered[..n]);
            forall k, d :: k in top && d in details && d !in top ==> details[k] >= details[d]
  {
    var prefix := ordered[..n];
    MapOfKeys(prefix);
    assert forall i, j :: 0 <= i < j < |prefix| ==> prefix[i].0 != prefix[j].0 by {
      forall i, j | 0 <= i < j < |prefix| ensures prefix[i].0 != prefix[j].0 {
        assert prefix[i] == ordered[i] && prefix[j] == ordered[j];
      }
    }
    MapOfValues(prefix);
    var top := MapOf(prefix);
    forall k | k in top ensures k in details && top[k] == details[k] {
      var i :| 0 <= i < |prefix| && prefix[i].0 == k;
      assert prefix[i] == ordered[i];
    }
    forall k, d | k in top && d in details && d !in top
      ensures details[k] >= details[d]
    {
      TopBeatsDropped(details, ordered, n, k, d);
    }
  }

  /** A key in the prefix of the enumeration has a value at least that of a key left out of it. */
  lemma TopBeatsDropped(details: map<int, int>, ordered: seq<(int, int)>, n: nat, k: int, d: int)
    requires DescendingOrder(details, ordered) && n <= |ordered|
    requires forall k :: k in MapOf(ordered[..n]) <==> exists i :: 0 <= i < n && ordered[..n][i].0 == k
    requires k in MapOf(ordered[..n]) && d in details && d !in MapOf(ordered[..n])
    ensures details[k] >= details[d]
  {
    var prefix := ordered[..n];
    var i :| 0 <= i < n && prefix[i].0 == k;
    var j :| 0 <= j < |ordered| && ordered[j].0 == d;
    assert prefix[i] == ordered[i];
    assert n <= j by {
      forall m | 0 <= m < n ensures ordered[m].0 != d {
        assert prefix[m] == ordered[m];
      }
    }
  }

  /** An enumeration of the whole dictionary has one entry per key. */
  lemma OrderCoversAll(details: map<int, int>, ordered: seq<(int, int)>)
    requires DescendingOrder(details, ordered)
    ensures |ordered| == |details.Keys|
  {
    MapOfKeys(ordered);
    MapOfValues(ordered);
    forall k ensures k in MapOf(ordered) <==> k in details {
      if k in details {
        var i :| 0 <= i < |ordered| && ordered[i].0 == k;
      }
    }
    assert MapOf(ordered).Keys == details.Keys;
  }

  /**
   * getTop keeps one entry more than `max`, whenever the input has that many:
   * with max = 50 it returns 51 systems.
   */
  lemma TopKeepsOneMore(details: map<int, int>, ordered: seq<(int, int)>, max: int)
    requires DescendingOrder(details, ordered) && 0 <= max < |details.Keys|
    ensures |MapOf(ordered[..TopCount(|ordered|, max)]).Keys| == max + 1
  {
    OrderCoversAll(details, ordered);
    TopPrefix(details, ordered, TopCount(|ordered|, max));
  }

  /** The corrected ranking keeps min(|input|, max) entries. */
  lemma TopCorrectedSize(details: map<int, int>, ordered: seq<(int, int)>, max: int)
    requires DescendingOrder(details, ordered) && max >= 0
    ensures var n := |MapOf(ordered[..TopCountCorrected(|ordered|, max)]).Keys|;
            n <= max && (n == max || n == |details.Keys|)
  {
    OrderCoversAll(details, ordered);
    TopPrefix(details, ordered, TopCountCorrected(|ordered|, max));
  }
}
