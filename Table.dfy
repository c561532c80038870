/**
 * The regional dataset as a sequence of rows, the row filter that selects one
 * region, and the list of distinct region names.
 */
module Table {

  /** One row of the regional CSV, restricted to the columns the dashboard reads. */
  datatype Row = Row(
    data: string,                  // the reporting date, as the CSV text
    denominazioneRegione: string,  // region name
    nuoviPositivi: int,            // new positive cases of the day
    deceduti: int,                 // deaths, cumulative
    totaleOspedalizzati: int,      // hospitalised, current total
    terapiaIntensiva: int,         // in intensive care, current total
    tamponi: int,                  // swabs, cumulative
    casiTestati: int               // people tested, cumulative
  )

  /** The integer columns of a row. */
  datatype Field = NuoviPositivi | Deceduti | TotaleOspedalizzati | TerapiaIntensiva | Tamponi | CasiTestati

  function Get(row: Row, f: Field): int
  {
    match f
    case NuoviPositivi => row.nuoviPositivi
    case Deceduti => row.deceduti
    case TotaleOspedalizzati => row.totaleOspedalizzati
    case TerapiaIntensiva => row.terapiaIntensiva
    case Tamponi => row.tamponi
    case CasiTestati => row.casiTestati
  }

  /** `data[f]`: one integer column, aligned with the rows. */
  function Counts(rows: seq<Row>, f: Field): (c: seq<int>)
    ensures |c| == |rows|
    ensures forall i {:trigger c[i]} | 0 <= i < |rows| :: c[i] == Get(rows[i], f)
  {
    seq(|rows|, i requires 0 <= i < |rows| => Get(rows[i], f))
  }

  /** `df['denominazione_regione']`, row by row. */
  function RegionColumn(rows: seq<Row>): (c: seq<string>)
    ensures |c| == |rows|
    ensures forall i {:trigger c[i]} | 0 <= i < |rows| :: c[i] == rows[i].denominazioneRegione
  {
    seq(|rows|, i requires 0 <= i < |rows| => rows[i].denominazioneRegione)
  }

  // ---------------------------------------------------------------------
  // Region filter: `df.loc[df['denominazione_regione'] == regione]`

  /** The rows of one region, in the order the dataset lists them. */
  function FilterRegion(rows: seq<Row>, regione: string): (r: seq<Row>)
    ensures |r| <= |rows|
    ensures forall k | 0 <= k < |r| :: r[k].denominazioneRegione == regione
    ensures forall row :: row in r <==> row in rows && row.denominazioneRegione == regione
  {
    if rows == [] then []
    else
      var last := rows[|rows| - 1];
      FilterRegion(rows[..|rows| - 1], regione) + if last.denominazioneRegione == regione then [last] else []
  }

  /** Filtering distributes over concatenation: the filter keeps the dataset's order. */
  lemma {:induction false} FilterRegionAppend(a: seq<Row>, b: seq<Row>, regione: string)
    ensures FilterRegion(a + b, regione) == FilterRegion(a, regione) + FilterRegion(b, regione)
  {
    if b == [] {
      assert a + b == a;
    } else {
      assert (a + b)[..|a + b| - 1] == a + b[..|b| - 1];
      FilterRegionAppend(a, b[..|b| - 1], regione);
    }
  }

  /** Rows of other regions are dropped; rows of the region are kept; nothing is reordered. */
  lemma FilterRegionSingle(row: Row, regione: string)
    ensures FilterRegion([row], regione) == if row.denominazioneRegione == regione then [row] else []
  {
    assert [row][..0] == [];
  }

  /** A dataset that holds one region only is returned whole. */
  lemma {:induction false} FilterRegionKeepsAll(rows: seq<Row>, regione: string)
    requires forall k | 0 <= k < |rows| :: rows[k].denominazioneRegione == regione
    ensures FilterRegion(rows, regione) == rows
  {
    if rows != [] {
      var init, last := rows[..|rows| - 1], rows[|rows| - 1];
      FilterRegionKeepsAll(init, regione);
      assert last.denominazioneRegione == regione;
      assert FilterRegion(rows, regione) == FilterRegion(init, regione) + [last];
      assert rows == init + [last];
    }
  }

  // ---------------------------------------------------------------------
  // Distinct region names: `df['denominazione_regione'].drop_duplicates().tolist()`

  predicate NoDuplicates<T(==)>(s: seq<T>)
  {
    forall i, j | 0 <= i < j < |s| :: s[i] != s[j]
  }

  /** Position of the first occurrence of `x` in `s`. */
  function FirstIndex<T(==)>(s: seq<T>, x: T): (k: nat)
    requires x in s
    ensures k < |s| && s[k] == x && x !in s[..k]
  {
    if s[0] == x then 0
    else
      var k := FirstIndex(s[1..], x);
      assert s[..k + 1] == [s[0]] + s[1..][..k];
      k + 1
  }

  lemma {:induction false} FirstIndexInPrefix<T>(s: seq<T>, n: nat, x: T)
    requires n <= |s| && x in s[..n]
    ensures x in s && FirstIndex(s, x) == FirstIndex(s[..n], x)
  {
    if s[0] != x {
      assert s[..n][1..] == s[1..][..n - 1];
      FirstIndexInPrefix(s[1..], n - 1, x);
    }
  }

  /**
   * pandas' `drop_duplicates()`: each value once, at the place of its first
   * occurrence.
   */
  function DropDuplicates<T(==)>(s: seq<T>): (r: seq<T>)
    ensures NoDuplicates(r)
    ensures forall k | 0 <= k < |r| :: r[k] in s
    ensures forall k | 0 <= k < |s| :: s[k] in r
  {
    if s == [] then []
    else
      var p := DropDuplicates(s[..|s| - 1]);
      if s[|s| - 1] in p then p
      else p + [s[|s| - 1]]
  }

  /** The values come out in the order of their first occurrences. */
  lemma {:induction false} DropDuplicatesKeepsFirstSeenOrder<T>(s: seq<T>)
    ensures forall i, j | 0 <= i < j < |DropDuplicates(s)| ::
              FirstIndex(s, DropDuplicates(s)[i]) < FirstIndex(s, DropDuplicates(s)[j])
  {
    if s != [] {
      var init, last := s[..|s| - 1], s[|s| - 1];
      var p := DropDuplicates(init);
      DropDuplicatesKeepsFirstSeenOrder(init);
      assert s == init + [last];
      forall k | 0 <= k < |p|
        ensures FirstIndex(s, p[k]) == FirstIndex(init, p[k])
      {
        FirstIndexInPrefix(s, |s| - 1, p[k]);
      }
      if last !in p {
        assert FirstIndex(s, last) == |s| - 1;
      }
    }
  }

  /** The list of region names the dropdown offers. */
  function Regions(rows: seq<Row>): (r: seq<string>)
    ensures NoDuplicates(r)
    ensures forall k | 0 <= k < |rows| :: rows[k].denominazioneRegione in r
    ensures forall k | 0 <= k < |r| :: r[k] in RegionColumn(rows)
    ensures forall i, j | 0 <= i < j < |r| ::
              FirstIndex(RegionColumn(rows), r[i]) < FirstIndex(RegionColumn(rows), r[j])
  {
    var names := RegionColumn(rows);
    DropDuplicatesKeepsFirstSeenOrder(names);
    assert forall k | 0 <= k < |rows| :: rows[k].denominazioneRegione == names[k];
    DropDuplicates(names)
  }

  /** A region has rows exactly when it is one of the listed regions. */
  lemma FilterRegionEmptyIffUnlisted(rows: seq<Row>, regione: string)
    ensures FilterRegion(rows, regione) == [] <==> regione !in Regions(rows)
  {
    var names, filtered := RegionColumn(rows), FilterRegion(rows, regione);
    if regione in Regions(rows) {
      var k :| 0 <= k < |names| && names[k] == regione;
      assert rows[k] in filtered;
    }
    if filtered != [] {
      var row := filtered[0];
      var k :| 0 <= k < |rows| && rows[k] == row;
      assert names[k] in Regions(rows);
    }
  }
}
