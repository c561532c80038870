/**
 * The pieces of the dashboard's callbacks that carry logic: the dropdown
 * options built from the region list, the data frame each chart callback
 * derives for the selected region, and the path of the region's logo.
 */
module Dashboard {
  import opened Wrappers
  import opened Table
  import opened Pipeline

  // ---------------------------------------------------------------------
  // `get_dropdown_data`

  /** One entry of the region dropdown, `dict(label=reg, value=reg)`. */
  datatype DropdownOption = DropdownOption(caption: string, value: string)  // the `label` and `value` keys

  /** The values the dropdown reports back, in the order it lists them. */
  function Values(selections: seq<DropdownOption>): (names: seq<string>)
    ensures |names| == |selections|
    ensures forall i {:trigger names[i]} | 0 <= i < |selections| :: names[i] == selections[i].value
  {
    seq(|selections|, i requires 0 <= i < |selections| => selections[i].value)
  }

  /**
   * One option per region, appended in the order of the region list, each
   * showing the region's name and reporting it back when selected.
   */
  method GetDropdownData(regions: seq<string>) returns (selections: seq<DropdownOption>)
    ensures |selections| == |regions|
    ensures Values(selections) == regions
    ensures forall i | 0 <= i < |selections| :: selections[i].caption == selections[i].value
  {
    selections := [];
    for k := 0 to |regions|
      invariant |selections| == k
      invariant forall i | 0 <= i < k :: selections[i] == DropdownOption(regions[i], regions[i])
    {
      selections := selections + [DropdownOption(regions[k], regions[k])];
    }
  }

  /**
   * Built from the dataset's region list, the dropdown offers every region
   * that has a row, each exactly once.
   */
  lemma DropdownOffersEachRegionOnce(rows: seq<Row>, selections: seq<DropdownOption>)
    requires Values(selections) == Regions(rows)
    ensures NoDuplicates(Values(selections))
    ensures forall k | 0 <= k < |rows| :: rows[k].denominazioneRegione in Values(selections)
  {
    var names := RegionColumn(rows);
    forall k | 0 <= k < |rows|
      ensures rows[k].denominazioneRegione in Values(selections)
    {
      assert names[k] == rows[k].denominazioneRegione;
    }
  }

  // ---------------------------------------------------------------------
  // The chart callbacks: `calculate_data(df.loc[df['denominazione_regione'] == regione].copy())`

  /**
   * The frame a chart callback plots: the selected region's rows, in the
   * order of the dataset, on a fresh copy, with the derived columns added.
   * The dataset itself is a parameter: its download is not part of this model.
   */
  method RegionFrameFor(df: seq<Row>, regione: string) returns (local: RegionFrame)
    ensures fresh(local)
    ensures local.rows == FilterRegion(df, regione)
    ensures local.columns == Calculate(FilterRegion(df, regione)).Columns()
  {
    var regDf := FilterRegion(df, regione);
    local := new RegionFrame(regDf);
    local.CalculateData();
    assert map[] + Calculate(regDf).Columns() == Calculate(regDf).Columns();
  }

  /** A region without rows gets a frame whose every column is empty. */
  lemma UnlistedRegionHasEmptyColumns(df: seq<Row>, regione: string)
    requires regione !in Regions(df)
    ensures FilterRegion(df, regione) == []
    ensures Calculate(FilterRegion(df, regione)).Aligned(0)
  {
    FilterRegionEmptyIffUnlisted(df, regione);
  }

  // ---------------------------------------------------------------------
  // `update_logo`

  const LogoDir: string := "assets/img/"
  const LogoExt: string := ".png"

  /** The image shown for a region: a PNG named after it in the assets directory. */
  function UpdateLogo(regione: string): (src: string)
    ensures |src| == |LogoDir| + |regione| + |LogoExt|
    ensures src[..|LogoDir|] == LogoDir && src[|src| - |LogoExt|..] == LogoExt
    ensures src[|LogoDir|..|src| - |LogoExt|] == regione
  {
    LogoDir + regione + LogoExt
  }

  /** The region whose logo a path names, if the path has the logo's shape. */
  function LogoRegion(src: string): (regione: Option<string>)
    ensures regione.Some? ==> |src| >= |LogoDir| + |LogoExt| && |regione.value| == |src| - |LogoDir| - |LogoExt|
  {
    if |src| >= |LogoDir| + |LogoExt| && src[..|LogoDir|] == LogoDir && src[|src| - |LogoExt|..] == LogoExt
    then Some(src[|LogoDir|..|src| - |LogoExt|])
    else None
  }

  /** The region can be read back from its logo path. */
  lemma LogoRegionOfUpdateLogo(regione: string)
    ensures LogoRegion(UpdateLogo(regione)) == Some(regione)
  {
    var src := UpdateLogo(regione);
    assert src[|LogoDir|..|src| - |LogoExt|] == regione;
  }

  /** A path that has the logo's shape is the logo of the region read from it. */
  lemma UpdateLogoOfLogoRegion(src: string)
    requires LogoRegion(src).Some?
    ensures UpdateLogo(LogoRegion(src).value) == src
  {
    var r := LogoRegion(src).value;
    assert src == src[..|LogoDir|] + r + src[|src| - |LogoExt|..];
  }

  /** Different regions get different logos. */
  lemma UpdateLogoInjective(a: string, b: string)
    requires UpdateLogo(a) == UpdateLogo(b)
    ensures a == b
  {
    LogoRegionOfUpdateLogo(a);
    LogoRegionOfUpdateLogo(b);
  }
}
