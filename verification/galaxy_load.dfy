/**
 * The row loops of the galaxy loader (GenerateRegions, GenerateSolarSystems)
 * and the attachment of the activity statistics to the systems
 * (RetrieveSystemDetails), with the engine objects left out: each kept row
 * becomes a dictionary entry; a conversion that throws, a missing region or a
 * repeated ID ends the loading.
 */
module GalaxyLoad {
  import opened Common
  import opened NamedColors
  import opened GalaxyData
  import opened Dictionaries

  /** The exceptions a loader loop can throw. */
  datatype LoadError = BadNumber | MissingClass | EmptyClass | UnknownRegion | DuplicateKey

  /** Convert.ToInt32 on a CSV cell: a missing cell reads as 0, anything else must parse. */
  function ToInt32(cell: Option<string>): (n: Option<Int32>)
    ensures cell == None ==> n == Some(0)
    ensures cell.Some? ==> n == ParseInt32(cell.value)
  {
    match cell
    case None => Some(0)
    case Some(s) => ParseInt32(s)
  }

  /** A missing cell converts to 0, and a cell holding an int, white space around it allowed, to that int. */
  lemma ToInt32RoundTrip(n: Int32, pre: string, post: string)
    requires AllSpace(pre) && AllSpace(post)
    ensures ToInt32(None) == Some(0)
    ensures ToInt32(Some(pre + FormatInt32(n) + post)) == Some(n)
  {
    ParseFormatRoundTrip(n, pre, post);
  }

  // ---------------------------------------------------------------------------
  // Regions

  /**
   * The cells of a region row the loader reads: the region ID and the faction
   * ID, and whether the three coordinate cells convert with Convert.ToSingle.
   */
  datatype RegionRow = RegionRow(idCell: Option<string>, coordsConvert: bool, factionCell: Option<string>)

  /** A loaded region. */
  datatype Region = Region(id: int, factionId: int)

  /**
   * What one region row adds: rows outside the region ID range are skipped; an
   * unparsable ID, or a coordinate of a kept row that does not convert, throws.
   */
  function RegionEntry(row: RegionRow): Entry<Region, LoadError> {
    match ToInt32(row.idCell)
    case None => Throw(BadNumber)
    case Some(id) =>
      if !IsRegionId(id) then Skip
      else if !row.coordsConvert then Throw(BadNumber)
      else Add(id, Region(id, ClampFaction(ConvertIDFromString(row.factionCell))))
  }

  /** The regions dictionary a list of rows leaves, and the exception that ended the loop, if any. */
  function LoadRegions(rows: seq<RegionRow>): Filled<Region, LoadError> {
    FillFrom(map[], rows, RegionEntry, DuplicateKey)
  }

  /** The loop of GenerateRegions over the data rows of the region table. */
  method GenerateRegions(rows: seq<RegionRow>) returns (regions: map<int, Region>, error: Option<LoadError>)
    ensures Filled(regions, error) == LoadRegions(rows)
  {
    regions := map[];
    var i := 0;
    while i < |rows|
      invariant 0 <= i <= |rows|
      invariant FillFrom(regions, rows[i..], RegionEntry, DuplicateKey) == LoadRegions(rows)
    {
      assert rows[i..][1..] == rows[i + 1..];
      var id := ToInt32(rows[i].idCell);
      if id.None? {
        return regions, Some(BadNumber);
      }
      if IsRegionId(id.value) {
        if !rows[i].coordsConvert {
          return regions, Some(BadNumber);
        }
        var factionId := ConvertIDFromString(rows[i].factionCell);
        factionId := if FactionIdMin <= factionId <= FactionIdMax then factionId else NoFaction;
        if id.value in regions {
          return regions, Some(DuplicateKey);
        }
        regions := regions[id.value := Region(id.value, factionId)];
      }
      i := i + 1;
    }
    error := None;
  }

  /**
   * Every loaded region has an ID in the region range, stored under that ID,
   * and a faction ID inside the clamp range; when the loop ran to the end,
   * every row whose ID is in the range was loaded.
   */
  lemma LoadedRegions(rows: seq<RegionRow>)
    ensures var f := LoadRegions(rows);
            forall id :: id in f.entries ==>
              IsRegionId(id) && f.entries[id].id == id && FactionIdMin <= f.entries[id].factionId <= FactionIdMax
    ensures var f := LoadRegions(rows);
            f.error == None ==>
              forall i :: 0 <= i < |rows| && ToInt32(rows[i].idCell).Some? && IsRegionId(ToInt32(rows[i].idCell).value) ==>
                ToInt32(rows[i].idCell).value in f.entries
  {
    var f := LoadRegions(rows);
    FillSound(map[], rows, RegionEntry, DuplicateKey);
    forall id | id in f.entries
      ensures IsRegionId(id) && f.entries[id].id == id && FactionIdMin <= f.entries[id].factionId <= FactionIdMax
    {
      assert Yields(rows, RegionEntry, id, f.entries[id]);
      var i :| 0 <= i < |rows| && RegionEntry(rows[i]) == Add(id, f.entries[id]);
      RegionEntrySound(rows[i], id, f.entries[id]);
    }
    if f.error == None {
      FillComplete(map[], rows, RegionEntry, DuplicateKey);
      FillNoThrow(map[], rows, RegionEntry, DuplicateKey);
      forall i | 0 <= i < |rows| && ToInt32(rows[i].idCell).Some? && IsRegionId(ToInt32(rows[i].idCell).value)
        ensures ToInt32(rows[i].idCell).value in f.entries
      {
        RegionEntryKept(rows[i]);
      }
    }
  }

  /** What a single region row adds already has the properties of a loaded region. */
  lemma RegionEntrySound(row: RegionRow, id: int, rg: Region)
    requires RegionEntry(row) == Add(id, rg)
    ensures IsRegionId(id) && rg.id == id && FactionIdMin <= rg.factionId <= FactionIdMax
  {
  }

  /** A row whose ID is in the region range either throws or adds a region under that ID. */
  lemma RegionEntryKept(row: RegionRow)
    requires ToInt32(row.idCell).Some? && IsRegionId(ToInt32(row.idCell).value)
    ensures RegionEntry(row).Throw? || (RegionEntry(row).Add? && RegionEntry(row).key == ToInt32(row.idCell).value)
  {
  }

  // ---------------------------------------------------------------------------
  // Solar systems

  /**
   * The cells of a system row the loader reads: region ID, system ID, security
   * status (already rounded to tenths), faction ID and spectral class, and
   * whether the other numeric cells (constellation, coordinates, luminosity,
   * the two hub flags and the security status) convert.
   */
  datatype SystemRow = SystemRow(regionCell: Option<string>, idCell: Option<string>, numbersConvert: bool,
                                 secTenths: int, factionCell: Option<string>, classCell: Option<string>)

  /** A loaded solar system with the attributes the colour schemes use. */
  datatype SolarSystem = SolarSystem(id: int, regionId: int, secTenths: int, factionId: int, star: Color32)

  /**
   * What one system row adds: rows outside the system ID range are skipped; an
   * unparsable number, a missing or empty class text or a region that was not
   * loaded throw, in that order.
   */
  function SystemEntry(regions: map<int, Region>, row: SystemRow): Entry<SolarSystem, LoadError> {
    match ToInt32(row.idCell)
    case None => Throw(BadNumber)
    case Some(id) =>
      if !IsSystemId(id) then Skip
      else match ToInt32(row.regionCell)
        case None => Throw(BadNumber)
        case Some(regionId) =>
          if !row.numbersConvert then Throw(BadNumber)
          else match row.classCell
            case None => Throw(MissingClass)
            case Some(classText) =>
              match StarColor(classText)
              case None => Throw(EmptyClass)
              case Some(star) =>
                if regionId !in regions then Throw(UnknownRegion)
                else Add(id, SolarSystem(id, regionId, row.secTenths,
                                         ClampFaction(ConvertIDFromString(row.factionCell)), star))
  }

  /** The systems dictionary a list of rows leaves, given the loaded regions. */
  function LoadSystems(regions: map<int, Region>, rows: seq<SystemRow>): Filled<SolarSystem, LoadError> {
    FillFrom(map[], rows, row => SystemEntry(regions, row), DuplicateKey)
  }

  /** The loop of GenerateSolarSystems over the data rows of the system table. */
  method GenerateSolarSystems(regions: map<int, Region>, rows: seq<SystemRow>)
    returns (systems: map<int, SolarSystem>, error: Option<LoadError>)
    ensures Filled(systems, error) == LoadSystems(regions, rows)
  {
    systems := map[];
    var i := 0;
    while i < |rows|
      invariant 0 <= i <= |rows|
      invariant FillFrom(systems, rows[i..], row => SystemEntry(regions, row), DuplicateKey) == LoadSystems(regions, rows)
    {
      assert rows[i..][1..] == rows[i + 1..];
      var row := rows[i];
      ghost var e := SystemEntry(regions, row);
      assert FillFrom(systems, rows[i..], row => SystemEntry(regions, row), DuplicateKey)
          == match e
             case Throw(err) => Filled(systems, Some(err))
             case Skip => FillFrom(systems, rows[i + 1..], row => SystemEntry(regions, row), DuplicateKey)
             case Add(k, v) =>
               if k in systems then Filled(systems, Some(DuplicateKey))
               else FillFrom(systems[k := v], rows[i + 1..], row => SystemEntry(regions, row), DuplicateKey);
      var id := ToInt32(row.idCell);
      if id.None? {
        return systems, Some(BadNumber);
      }
      if IsSystemId(id.value) {
        var regionId := ToInt32(row.regionCell);
        if regionId.None? {
          return systems, Some(BadNumber);
        }
        if !row.numbersConvert {
          return systems, Some(BadNumber);
        }
        var factionId := ConvertIDFromString(row.factionCell);
        factionId := if FactionIdMin <= factionId <= FactionIdMax then factionId else NoFaction;
        if row.classCell.None? {
          return systems, Some(MissingClass);
        }
        var star := StarColor(row.classCell.value);
        if star.None? {
          return systems, Some(EmptyClass);
        }
        if regionId.value !in regions {
          return systems, Some(UnknownRegion);
        }
        assert e == Add(id.value, SolarSystem(id.value, regionId.value, row.secTenths, factionId, star.value));
        if id.value in systems {
          return systems, Some(DuplicateKey);
        }
        systems := systems[id.value := SolarSystem(id.value, regionId.value, row.secTenths, factionId, star.value)];
      }
      i := i + 1;
    }
    error := None;
  }

  /**
   * Every loaded system has an ID in the system range, stored under that ID,
   * lies in a loaded region and has a faction ID inside the clamp range.
   */
  lemma LoadedSystems(regions: map<int, Region>, rows: seq<SystemRow>)
    ensures var f := LoadSystems(regions, rows);
            forall id :: id in f.entries ==>
              IsSystemId(id) && f.entries[id].id == id && f.entries[id].regionId in regions &&
              FactionIdMin <= f.entries[id].factionId <= FactionIdMax
  {
    var f := LoadSystems(regions, rows);
    var entry := row => SystemEntry(regions, row);
    FillSound(map[], rows, entry, DuplicateKey);
    forall id | id in f.entries
      ensures IsSystemId(id) && f.entries[id].id == id && f.entries[id].regionId in regions
      ensures FactionIdMin <= f.entries[id].factionId <= FactionIdMax
    {
      assert Yields(rows, entry, id, f.entries[id]);
      var i :| 0 <= i < |rows| && entry(rows[i]) == Add(id, f.entries[id]);
      SystemEntrySound(regions, rows[i], id, f.entries[id]);
    }
  }

  /** What a single system row adds already has the properties of a loaded system. */
  lemma SystemEntrySound(regions: map<int, Region>, row: SystemRow, id: int, s: SolarSystem)
    requires SystemEntry(regions, row) == Add(id, s)
    ensures IsSystemId(id) && s.id == id && s.regionId in regions
    ensures FactionIdMin <= s.factionId <= FactionIdMax
  {
  }

  // ---------------------------------------------------------------------------
  // Activity statistics per system

  /** The kills and jumps of the last hour attached to a system. */
  datatype Stats = Stats(kills: int, jumps: int)

  /** A dictionary lookup that reads a missing key as 0. */
  function CountOf(m: map<int, int>, id: int): (n: int)
    ensures id !in m ==> n == 0
    ensures id in m ==> n == m[id]
  {
    if id in m then m[id] else 0
  }

  /**
   * The loop of RetrieveSystemDetails that attaches kills and jumps to every
   * loaded system, 0 where the statistics have no entry for it; `order` is the
   * order in which the systems dictionary enumerates its keys.
   */
  method AttachStats(systems: map<int, SolarSystem>, order: seq<int>, kills: map<int, int>, jumps: map<int, int>)
    returns (stats: map<int, Stats>)
    requires forall id :: id in systems <==> id in order
    ensures stats.Keys == systems.Keys
    ensures forall id :: id in stats ==> stats[id] == Stats(CountOf(kills, id), CountOf(jumps, id))
  {
    stats := map[];
    for i := 0 to |order|
      invariant forall id :: id in stats <==> id in order[..i]
      invariant forall id :: id in stats ==> stats[id] == Stats(CountOf(kills, id), CountOf(jumps, id))
    {
      var id := order[i];
      var k := if id in kills then kills[id] else 0;
      var j := if id in jumps then jumps[id] else 0;
      stats := stats[id := Stats(k, j)];
      assert order[..i + 1] == order[..i] + [id];
    }
    assert order[..|order|] == order;
    assert forall id :: id in stats.Keys <==> id in systems.Keys;
  }
}
