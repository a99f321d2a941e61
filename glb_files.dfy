/**
 * What both preview servers share about the files they list: folder entries, the types
 * a `.glb` file name can announce, and the prefixes that announce them.
 */
module GlbFiles {
  import opened Text
  import opened Paths

  /** One entry of a folder listing, in the order the folder yields it. */
  datatype DirEntry = DirEntry(name: string, isFile: bool)

  /** A regular file whose suffix is ".glb" in any case. */
  predicate IsGlb(e: DirEntry) { e.isFile && Lower(Suffix(e.name)) == ".glb" }

  /** The type of a preview file; `Label` gives the string sent to the viewer. */
  datatype Kind =
    | Bulk | Void | RegionalMembrane | RegionalPosition | RegionalExposure | RegionalSecondaryDose
    | RegionalDefaultExposure | RegionalDefaultPosition | RegionalBurnIn | RegionalOther
    | Ports | Device | BoundingBox | Unknown

  function Label(k: Kind): string
  {
    match k
    case Bulk => "bulk"
    case Void => "void"
    case RegionalMembrane => RegionalWord + " membrane settings"
    case RegionalPosition => RegionalWord + " position settings"
    case RegionalExposure => RegionalWord + " exposure settings"
    case RegionalSecondaryDose => RegionalWord + " secondary dose"
    case RegionalDefaultExposure => RegionalWord + " default exposure settings"
    case RegionalDefaultPosition => RegionalWord + " default position settings"
    case RegionalBurnIn => RegionalWord + " burn-in settings"
    case RegionalOther => RegionalWord
    case Ports => "ports"
    case Device => "device"
    case BoundingBox => "bounding box"
    case Unknown => "unknown"
  }

  const RegionalWord := "regional"

  /** The regional types are exactly those whose label starts with "regional". */
  lemma RegionalLabels(k: Kind)
    ensures StartsWith(Label(k), RegionalWord) <==>
              (k.RegionalMembrane? || k.RegionalPosition? || k.RegionalExposure? || k.RegionalSecondaryDose? ||
               k.RegionalDefaultExposure? || k.RegionalDefaultPosition? || k.RegionalBurnIn? || k.RegionalOther?)
  {
    match k
    case RegionalMembrane => StartsWithConcat(RegionalWord, " membrane settings");
    case RegionalPosition => StartsWithConcat(RegionalWord, " position settings");
    case RegionalExposure => StartsWithConcat(RegionalWord, " exposure settings");
    case RegionalSecondaryDose => StartsWithConcat(RegionalWord, " secondary dose");
    case RegionalDefaultExposure => StartsWithConcat(RegionalWord, " default exposure settings");
    case RegionalDefaultPosition => StartsWithConcat(RegionalWord, " default position settings");
    case RegionalBurnIn => StartsWithConcat(RegionalWord, " burn-in settings");
    case RegionalOther => assert RegionalWord[..|RegionalWord|] == RegionalWord;
    case BoundingBox => assert Label(k)[0] != RegionalWord[0];
    case Bulk => assert |Label(k)| < |RegionalWord|;
    case Void => assert |Label(k)| < |RegionalWord|;
    case Ports => assert |Label(k)| < |RegionalWord|;
    case Device => assert |Label(k)| < |RegionalWord|;
    case Unknown => assert |Label(k)| < |RegionalWord|;
  }

  const MembranePrefix := "membrane_settings_"
  const PositionPrefix := "position_settings_"
  const ExposurePrefix := "exposure_settings_"
  const SecondaryDosePrefix := "secondary_dose_settings_"
  const DefaultExposurePrefix := "default_exposure_settings_"
  const DefaultPositionPrefix := "default_position_settings_"
  const BurnInPrefix := "burnin_"

}
