/**
 * The memory-pressure test: it says "plenty of memory, skip the cleanup"
 * only when the user allows the game to use memory freely, the OS status
 * could be read, and the status is within every limit of the active profile.
 */
module MemoryPressure {
  import opened Wrappers
  import opened Settings

  /** The fields of the OS memory status that the test reads. */
  datatype Snapshot = Snapshot(
    memoryLoad: nat,     // percentage of physical memory in use
    totalPageFile: nat,  // bytes
    availPageFile: nat)  // bytes

  /** The dance profile while the dance flag is set, the normal one otherwise. */
  function ActiveProfile(config: Config, danceFlag: bool): Profile
  {
    if danceFlag then config.dance else config.normal
  }

  /**
   * The free page-file ratio test, avail / total > threshold, with the
   * division multiplied out so that it is exact and defined for total == 0.
   */
  predicate PageFileFreeAbove(m: Snapshot, threshold: real)
  {
    m.availPageFile as real > threshold * m.totalPageFile as real
  }

  /** All three limits of a profile hold, each by a strict comparison. */
  predicate WithinProfile(m: Snapshot, p: Profile): (within: bool)
    ensures within ==> m.memoryLoad != p.percentMemoryThreshold
    ensures within ==> m.availPageFile != p.minAvailPageFileBytes && m.availPageFile > 0
    ensures within && m.totalPageFile > 0 ==>
      m.availPageFile as real / m.totalPageFile as real > p.pageFileFreeThreshold
  {
    assert m.totalPageFile > 0 ==> (PageFileFreeAbove(m, p.pageFileFreeThreshold)
        <==> m.availPageFile as real / m.totalPageFile as real > p.pageFileFreeThreshold) by {
      if m.totalPageFile > 0 {
        RatioTestIsDivision(m, p.pageFileFreeThreshold);
      }
    }
    m.memoryLoad < p.percentMemoryThreshold
    && PageFileFreeAbove(m, p.pageFileFreeThreshold)
    && m.availPageFile > p.minAvailPageFileBytes
  }

  /** True means: skip the collection or unload, memory pressure is fine. */
  function PlentyOfMemory(config: Config, danceFlag: bool, mem: Option<Snapshot>): (plenty: bool)
    ensures plenty ==> config.maximizeMemoryUsage && mem.Some?
  {
    if !config.maximizeMemoryUsage then false
    else match mem
      case None => false
      case Some(m) => WithinProfile(m, ActiveProfile(config, danceFlag))
  }

  /** For a non-empty page file the multiplied-out test is the ratio test. */
  lemma RatioTestIsDivision(m: Snapshot, threshold: real)
    requires m.totalPageFile > 0
    ensures PageFileFreeAbove(m, threshold)
        <==> m.availPageFile as real / m.totalPageFile as real > threshold
  {
    var a, t := m.availPageFile as real, m.totalPageFile as real;
    assert a / t * t == a;
    if a / t > threshold {
      assert a / t * t > threshold * t;
    }
    if a > threshold * t {
      assert a / t * t > threshold * t;
    }
  }

  /**
   * For an empty page file the test holds exactly when some page file is
   * available: avail / 0 is +infinity above any finite threshold, and 0 / 0
   * is NaN, which compares false.
   */
  lemma EmptyPageFile(m: Snapshot, threshold: real)
    requires m.totalPageFile == 0
    ensures PageFileFreeAbove(m, threshold) <==> m.availPageFile > 0
  {
  }

  /**
   * The whole decision for a readable status: skip iff throttling is on and
   * the three strict comparisons hold against the profile the dance flag selects.
   */
  lemma PlentyOfMemoryIff(config: Config, danceFlag: bool, m: Snapshot)
    requires m.totalPageFile > 0
    ensures PlentyOfMemory(config, danceFlag, Some(m)) <==>
      var p := if danceFlag then config.dance else config.normal;
      && config.maximizeMemoryUsage
      && m.memoryLoad < p.percentMemoryThreshold
      && m.availPageFile as real / m.totalPageFile as real > p.pageFileFreeThreshold
      && m.availPageFile > p.minAvailPageFileBytes
  {
    RatioTestIsDivision(m, ActiveProfile(config, danceFlag).pageFileFreeThreshold);
  }

  /** A value exactly at a threshold counts as a breach: the cleanup runs. */
  lemma AtThresholdMeansCollect(config: Config, danceFlag: bool, m: Snapshot)
    requires var p := ActiveProfile(config, danceFlag);
      || m.memoryLoad == p.percentMemoryThreshold
      || m.availPageFile == p.minAvailPageFileBytes
      || (m.totalPageFile > 0
          && m.availPageFile as real / m.totalPageFile as real == p.pageFileFreeThreshold)
    ensures !PlentyOfMemory(config, danceFlag, Some(m))
  {
    if m.totalPageFile > 0 {
      RatioTestIsDivision(m, ActiveProfile(config, danceFlag).pageFileFreeThreshold);
    }
  }

  /**
   * With the default settings neither profile is the more tolerant one: the
   * dance profile allows a higher load but demands more free page file.
   */
  lemma DefaultProfilesIncomparable()
    ensures exists m :: PlentyOfMemory(Defaults, false, Some(m)) && !PlentyOfMemory(Defaults, true, Some(m))
    ensures exists m :: PlentyOfMemory(Defaults, true, Some(m)) && !PlentyOfMemory(Defaults, false, Some(m))
  {
    var half := Snapshot(50, 10 * GiB, 5 * GiB);
    assert PlentyOfMemory(Defaults, false, Some(half)) && !PlentyOfMemory(Defaults, true, Some(half));
    var busy := Snapshot(80, 10 * GiB, 8 * GiB);
    assert PlentyOfMemory(Defaults, true, Some(busy)) && !PlentyOfMemory(Defaults, false, Some(busy));
  }
}
