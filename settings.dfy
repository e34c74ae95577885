/**
 * The configuration entries the plugin binds in Awake. They are read-only
 * for the life of the plugin; only the dance flag chooses between the two
 * threshold profiles at run time.
 */
module Settings {
  /** One set of limits for the memory-pressure test. */
  datatype Profile = Profile(
    percentMemoryThreshold: int,  // physical memory load must stay below this percentage
    pageFileFreeThreshold: real,  // free page-file ratio must stay above this
    minAvailPageFileBytes: nat)   // available page-file bytes must stay above this

  datatype Config = Config(
    fullGCOnSceneUnload: bool,
    enablePseudoIncrementalGC: bool,
    disableUnload: bool,
    maximizeMemoryUsage: bool,
    normal: Profile,
    danceMaximizeMemoryUsage: bool,
    dance: Profile,
    enablePeriodicGC: bool,
    periodicGCInterval: int)

  const GiB: nat := 1024 * 1024 * 1024

  /** The default value of every entry bound in Awake. */
  const Defaults: Config := Config(
    fullGCOnSceneUnload := false,
    enablePseudoIncrementalGC := true,
    disableUnload := false,
    maximizeMemoryUsage := true,
    normal := Profile(75, 0.3, 2 * GiB),
    danceMaximizeMemoryUsage := true,
    dance := Profile(90, 0.7, 2 * GiB),
    enablePeriodicGC := false,
    periodicGCInterval := 120)

  /**
   * By default throttling is on, collections are spread over frames, unloads
   * run, and the dance profile tolerates a higher memory load but asks for
   * more free page file, with the same 2 GiB floor of available page file.
   */
  lemma DefaultsAsBound()
    ensures Defaults.maximizeMemoryUsage && Defaults.danceMaximizeMemoryUsage
    ensures Defaults.enablePseudoIncrementalGC && !Defaults.disableUnload
    ensures !Defaults.fullGCOnSceneUnload && !Defaults.enablePeriodicGC && Defaults.periodicGCInterval == 120
    ensures Defaults.normal.percentMemoryThreshold < Defaults.dance.percentMemoryThreshold
    ensures Defaults.normal.pageFileFreeThreshold < Defaults.dance.pageFileFreeThreshold
    ensures Defaults.normal.minAvailPageFileBytes == Defaults.dance.minAvailPageFileBytes == 2147483648
  {
  }
}
