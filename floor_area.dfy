/**
 * Floor-area estimation: join dwelling projections with GVA projections on
 * (timestep, district), turn each joined row into a residential and a
 * non-residential floor area, and melt the wide rows into long form.
 */
module FloorArea {

  /** Average floor area of one dwelling, in square metres. */
  const AverageDwellingM2: real := 85.0

  /** Non-residential floor area per million pounds of GVA, in square metres. */
  const AverageNonresM2PerMgbpGva: real := 1.0

  /** The pair the two projections are joined on. */
  datatype JoinKey = JoinKey(timestep: int, lad: string)

  /** One row of a dwellings projection (`timestep`, `lad_uk_2016`, `dwellings`). */
  datatype DwellingsRow = DwellingsRow(timestep: int, lad: string, dwellings: real)
  {
    function Key(): JoinKey { JoinKey(timestep, lad) }
  }

  /** One row of a GVA projection (`timestep`, `lad_uk_2016`, `gva`). */
  datatype GvaRow = GvaRow(timestep: int, lad: string, gva: real)
  {
    function Key(): JoinKey { JoinKey(timestep, lad) }
  }

  /** One row of the inner join of the two projections. */
  datatype MergedRow = MergedRow(timestep: int, lad: string, dwellings: real, gva: real)

  /** The wide intermediate table: the two id columns and the two value columns. */
  datatype WideRow = WideRow(timestep: int, lad: string, residential: real, nonResidential: real)
  {
    function Value(c: Column): real {
      match c
      case Residential => residential
      case NonResidential => nonResidential
    }
  }

  /** The value columns of the wide table, in the order they are melted. */
  datatype Column = Residential | NonResidential
  {
    /** The column name, which becomes the `residential_or_non` value. */
    function Name(): (s: string)
      ensures s == "residential" || s == "non_residential"
      ensures Residential? <==> s == "residential"
    {
      match this
      case Residential => "residential"
      case NonResidential => "non_residential"
    }
  }

  /** One row of the long-form result (`timestep`, `lad_uk_2016`, `residential_or_non`, `floor_area`). */
  datatype FloorAreaRow = FloorAreaRow(timestep: int, lad: string, residentialOrNon: string, floorArea: real)

  // ---------------------------------------------------------------------
  // Inner join
  // ---------------------------------------------------------------------

  function Combine(d: DwellingsRow, g: GvaRow): MergedRow
  {
    MergedRow(d.timestep, d.lad, d.dwellings, g.gva)
  }

  /** The join keys of a GVA table, in row order. */
  function GvaKeys(gva: seq<GvaRow>): (ks: seq<JoinKey>)
    ensures |ks| == |gva|
    ensures forall j :: 0 <= j < |gva| ==> ks[j] == gva[j].Key()
  {
    seq(|gva|, j requires 0 <= j < |gva| => gva[j].Key())
  }

  /** The rows that one dwellings row contributes to the join: one per GVA row with its key, in GVA order. */
  function MatchesOf(d: DwellingsRow, gva: seq<GvaRow>): (r: seq<MergedRow>)
    ensures |r| <= |gva|
  {
    if gva == [] then []
    else (if gva[0].Key() == d.Key() then [Combine(d, gva[0])] else []) + MatchesOf(d, gva[1..])
  }

  /**
   * Inner join on (timestep, district): for each dwellings row in order, one
   * row per GVA row with the same key. Duplicate keys fan out.
   */
  function Merge(dwellings: seq<DwellingsRow>, gva: seq<GvaRow>): (r: seq<MergedRow>)
    ensures |r| <= |dwellings| * |gva|
  {
    if dwellings == [] then []
    else
      MulStep(|dwellings|, |gva|);
      MatchesOf(dwellings[0], gva) + Merge(dwellings[1..], gva)
  }

  lemma MulStep(n: nat, m: nat)
    requires n > 0
    ensures m + (n - 1) * m == n * m
  {
  }

  /** The join size as the sum, over dwellings rows, of the GVA rows sharing its key. */
  function MatchTotal(dwellings: seq<DwellingsRow>, gva: seq<GvaRow>): nat
  {
    if dwellings == [] then 0
    else multiset(GvaKeys(gva))[dwellings[0].Key()] + MatchTotal(dwellings[1..], gva)
  }

  /** The number of dwellings rows that have at least one GVA row with their key. */
  function MatchedCount(dwellings: seq<DwellingsRow>, gva: seq<GvaRow>): nat
  {
    if dwellings == [] then 0
    else (if dwellings[0].Key() in GvaKeys(gva) then 1 else 0) + MatchedCount(dwellings[1..], gva)
  }

  /** No key occurs twice: the natural-key discipline of a projection table. */
  predicate DistinctKeys(ks: seq<JoinKey>)
  {
    forall i, j :: 0 <= i < j < |ks| ==> ks[i] != ks[j]
  }

  // ---------------------------------------------------------------------
  // Floor-area formulas, projection and melt
  // ---------------------------------------------------------------------

  /** Residential floor area of a joined row: a flat size per dwelling. */
  function ResidentialArea(m: MergedRow): (r: real)
    ensures r == 85.0 * m.dwellings
    ensures m.dwellings >= 0.0 ==> r >= 0.0
  {
    m.dwellings * AverageDwellingM2
  }

  /** Non-residential floor area of a joined row: a linear coefficient on GVA. */
  function NonResidentialArea(m: MergedRow): (r: real)
    ensures r == m.gva
  {
    m.gva * AverageNonresM2PerMgbpGva
  }

  /** Adds the two floor-area columns and keeps the four output columns. */
  function Widen(merged: seq<MergedRow>): (w: seq<WideRow>)
    ensures |w| == |merged|
    ensures forall i :: 0 <= i < |merged| ==>
      w[i].timestep == merged[i].timestep && w[i].lad == merged[i].lad &&
      w[i].residential == 85.0 * merged[i].dwellings && w[i].nonResidential == merged[i].gva
  {
    seq(|merged|, i requires 0 <= i < |merged| =>
      WideRow(merged[i].timestep, merged[i].lad, ResidentialArea(merged[i]), NonResidentialArea(merged[i])))
  }

  /** The long-form row that one wide row gives for one value column. */
  function Cell(w: WideRow, c: Column): (r: FloorAreaRow)
    ensures r.timestep == w.timestep && r.lad == w.lad
    ensures c.Residential? ==> r.residentialOrNon == "residential" && r.floorArea == w.residential
    ensures c.NonResidential? ==> r.residentialOrNon == "non_residential" && r.floorArea == w.nonResidential
  {
    FloorAreaRow(w.timestep, w.lad, c.Name(), w.Value(c))
  }

  /** One value column of the wide table stacked into long form, in row order. */
  function MeltColumn(rows: seq<WideRow>, c: Column): (r: seq<FloorAreaRow>)
    ensures |r| == |rows|
    ensures forall i :: 0 <= i < |rows| ==> r[i] == Cell(rows[i], c)
  {
    if rows == [] then [] else [Cell(rows[0], c)] + MeltColumn(rows[1..], c)
  }

  /**
   * Melt with id columns (timestep, district): the whole `residential` column
   * followed by the whole `non_residential` column.
   */
  function Melt(rows: seq<WideRow>): (r: seq<FloorAreaRow>)
    ensures |r| == 2 * |rows|
    ensures forall k :: 0 <= k < |r| ==>
      r[k].residentialOrNon == (if k < |rows| then "residential" else "non_residential")
  {
    MeltColumn(rows, Residential) + MeltColumn(rows, NonResidential)
  }

  /** The inverse of Melt: pair row i of the first half with row i of the second half. */
  function Unmelt(long: seq<FloorAreaRow>): (w: seq<WideRow>)
    requires |long| % 2 == 0
    ensures |w| == |long| / 2
  {
    var n := |long| / 2;
    seq(n, i requires 0 <= i < n =>
      WideRow(long[i].timestep, long[i].lad, long[i].floorArea, long[i + n].floorArea))
  }

  /** The whole estimation: join, compute both floor areas, project and melt. */
  function EstimateFloorArea(dwellings: seq<DwellingsRow>, gva: seq<GvaRow>): (r: seq<FloorAreaRow>)
    ensures |r| == 2 * MatchTotal(dwellings, gva)
  {
    MergeCount(dwellings, gva);
    Melt(Widen(Merge(dwellings, gva)))
  }

  // ---------------------------------------------------------------------
  // Properties of the join
  // ---------------------------------------------------------------------

  lemma {:induction false} GvaKeysCons(gva: seq<GvaRow>)
    requires gva != []
    ensures GvaKeys(gva) == [gva[0].Key()] + GvaKeys(gva[1..])
  {
  }

  /** One dwellings row meets exactly as many GVA rows as carry its key. */
  lemma {:induction false} MatchesOfCount(d: DwellingsRow, gva: seq<GvaRow>)
    ensures |MatchesOf(d, gva)| == multiset(GvaKeys(gva))[d.Key()]
  {
    if gva != [] {
      GvaKeysCons(gva);
      MatchesOfCount(d, gva[1..]);
    }
  }

  /** The join has one row per (dwellings row, GVA row) pair sharing a key. */
  lemma {:induction false} MergeCount(dwellings: seq<DwellingsRow>, gva: seq<GvaRow>)
    ensures |Merge(dwellings, gva)| == MatchTotal(dwellings, gva)
  {
    if dwellings != [] {
      MatchesOfCount(dwellings[0], gva);
      MergeCount(dwellings[1..], gva);
    }
  }

  lemma {:induction false} DistinctCountAtMostOne(ks: seq<JoinKey>, k: JoinKey)
    requires DistinctKeys(ks)
    ensures multiset(ks)[k] == if k in ks then 1 else 0
  {
    if ks != [] {
      assert ks == [ks[0]] + ks[1..];
      assert DistinctKeys(ks[1..]) by {
        forall i, j | 0 <= i < j < |ks[1..]| ensures ks[1..][i] != ks[1..][j] {
          assert ks[1..][i] == ks[i + 1] && ks[1..][j] == ks[j + 1];
        }
      }
      assert ks[0] !in ks[1..] by {
        forall i | 0 <= i < |ks[1..]| ensures ks[1..][i] != ks[0] {
          assert ks[1..][i] == ks[i + 1];
        }
      }
      DistinctCountAtMostOne(ks[1..], k);
    }
  }

  /**
   * When the GVA keys are distinct, the join has one row per dwellings row
   * that finds a partner, and unmatched dwellings rows are dropped.
   */
  lemma {:induction false} MergeCountDistinct(dwellings: seq<DwellingsRow>, gva: seq<GvaRow>)
    requires DistinctKeys(GvaKeys(gva))
    ensures |Merge(dwellings, gva)| == MatchedCount(dwellings, gva) <= |dwellings|
  {
    if dwellings != [] {
      MatchesOfCount(dwellings[0], gva);
      DistinctCountAtMostOne(GvaKeys(gva), dwellings[0].Key());
      MergeCountDistinct(dwellings[1..], gva);
    }
  }

  /** The rows one dwellings row contributes are exactly its combinations with same-key GVA rows. */
  lemma {:induction false} MatchesOfMembership(d: DwellingsRow, gva: seq<GvaRow>, m: MergedRow)
    ensures m in MatchesOf(d, gva) <==> exists g :: g in gva && g.Key() == d.Key() && m == Combine(d, g)
  {
    if gva != [] {
      MatchesOfMembership(d, gva[1..], m);
      assert forall g :: g in gva <==> g == gva[0] || g in gva[1..];
    }
  }

  /**
   * The join holds exactly the combinations of a dwellings row and a GVA
   * row that share a key (both directions of the inner-join definition).
   */
  lemma {:induction false} MergeMembership(dwellings: seq<DwellingsRow>, gva: seq<GvaRow>, m: MergedRow)
    ensures m in Merge(dwellings, gva) <==>
      exists d, g :: d in dwellings && g in gva && d.Key() == g.Key() && m == Combine(d, g)
  {
    if dwellings != [] {
      MatchesOfMembership(dwellings[0], gva, m);
      MergeMembership(dwellings[1..], gva, m);
      assert forall d :: d in dwellings <==> d == dwellings[0] || d in dwellings[1..];
    }
  }

  // ---------------------------------------------------------------------
  // Properties of the melt
  // ---------------------------------------------------------------------

  /**
   * Melt layout: twice as many rows; row i is the residential cell and row
   * i + n the non-residential cell of wide row i.
   */
  lemma MeltLayout(rows: seq<WideRow>)
    ensures |Melt(rows)| == 2 * |rows|
    ensures forall i :: 0 <= i < |rows| ==>
      Melt(rows)[i] == FloorAreaRow(rows[i].timestep, rows[i].lad, "residential", rows[i].residential)
    ensures forall i :: 0 <= i < |rows| ==>
      Melt(rows)[i + |rows|] == FloorAreaRow(rows[i].timestep, rows[i].lad, "non_residential", rows[i].nonResidential)
  {
  }

  /** Melting loses and duplicates nothing: the wide table is recovered from the long one. */
  lemma MeltRoundTrip(rows: seq<WideRow>)
    ensures |Melt(rows)| % 2 == 0
    ensures Unmelt(Melt(rows)) == rows
  {
    MeltLayout(rows);
  }

  // ---------------------------------------------------------------------
  // Properties of the whole estimation
  // ---------------------------------------------------------------------

  /** The result has two rows per joined row, i.e. twice the per-key match total. */
  lemma EstimateRowCount(dwellings: seq<DwellingsRow>, gva: seq<GvaRow>)
    ensures |EstimateFloorArea(dwellings, gva)| == 2 * |Merge(dwellings, gva)|
    ensures |EstimateFloorArea(dwellings, gva)| == 2 * MatchTotal(dwellings, gva)
  {
    MeltLayout(Widen(Merge(dwellings, gva)));
    MergeCount(dwellings, gva);
  }

  /**
   * Row i and row i + n of the result carry the key of joined row i, the
   * dwellings times 85 and the GVA times 1 (that is, the GVA itself).
   */
  lemma EstimateLayout(dwellings: seq<DwellingsRow>, gva: seq<GvaRow>)
    ensures var out, m := EstimateFloorArea(dwellings, gva), Merge(dwellings, gva);
      |out| == 2 * |m| &&
      forall i :: 0 <= i < |m| ==>
        out[i] == FloorAreaRow(m[i].timestep, m[i].lad, "residential", m[i].dwellings * 85.0) &&
        out[i + |m|] == FloorAreaRow(m[i].timestep, m[i].lad, "non_residential", m[i].gva)
  {
    MeltLayout(Widen(Merge(dwellings, gva)));
  }

  /** The first half of the result is all `residential`, the second half all `non_residential`. */
  lemma EstimateLabels(dwellings: seq<DwellingsRow>, gva: seq<GvaRow>)
    ensures var out := EstimateFloorArea(dwellings, gva);
      |out| % 2 == 0 &&
      forall k :: 0 <= k < |out| ==>
        out[k].residentialOrNon == (if k < |out| / 2 then "residential" else "non_residential")
  {
    var m := Merge(dwellings, gva);
    var out := EstimateFloorArea(dwellings, gva);
    EstimateLayout(dwellings, gva);
    forall k | 0 <= k < |out|
      ensures out[k].residentialOrNon == (if k < |out| / 2 then "residential" else "non_residential")
    {
      if k >= |m| {
        var i := k - |m|;
        assert out[i + |m|] == FloorAreaRow(m[i].timestep, m[i].lad, "non_residential", m[i].gva);
      }
    }
  }

  /**
   * Every result row comes from a dwellings row and a GVA row that share its
   * (timestep, district); a residential row holds that dwellings count times
   * 85 and a non-residential row that GVA.
   */
  lemma EstimateProvenance(dwellings: seq<DwellingsRow>, gva: seq<GvaRow>, r: FloorAreaRow)
    requires r in EstimateFloorArea(dwellings, gva)
    ensures r.residentialOrNon == "residential" || r.residentialOrNon == "non_residential"
    ensures exists d, g :: (d in dwellings && g in gva &&
      d.Key() == JoinKey(r.timestep, r.lad) && g.Key() == JoinKey(r.timestep, r.lad) &&
      (r.residentialOrNon == "residential" ==> r.floorArea == d.dwellings * AverageDwellingM2) &&
      (r.residentialOrNon == "non_residential" ==> r.floorArea == g.gva))
  {
    var m := Merge(dwellings, gva);
    var out := EstimateFloorArea(dwellings, gva);
    EstimateLayout(dwellings, gva);
    var k :| 0 <= k < |out| && out[k] == r;
    var i := if k < |m| then k else k - |m|;
    assert m[i] in m;
    MergeMembership(dwellings, gva, m[i]);
    var d, g :| d in dwellings && g in gva && d.Key() == g.Key() && m[i] == Combine(d, g);
    if k < |m| {
      assert r == out[i];
    } else {
      assert r == out[i + |m|];
    }
  }

  /**
   * Every same-key pair of a dwellings row and a GVA row shows up in the
   * result, once as a residential row and once as a non-residential row.
   */
  lemma EstimateCompleteness(dwellings: seq<DwellingsRow>, gva: seq<GvaRow>, d: DwellingsRow, g: GvaRow)
    requires d in dwellings && g in gva && d.Key() == g.Key()
    ensures FloorAreaRow(d.timestep, d.lad, "residential", d.dwellings * AverageDwellingM2)
      in EstimateFloorArea(dwellings, gva)
    ensures FloorAreaRow(d.timestep, d.lad, "non_residential", g.gva)
      in EstimateFloorArea(dwellings, gva)
  {
    var m := Merge(dwellings, gva);
    var out := EstimateFloorArea(dwellings, gva);
    MergeMembership(dwellings, gva, Combine(d, g));
    var i :| 0 <= i < |m| && m[i] == Combine(d, g);
    EstimateLayout(dwellings, gva);
    assert out[i] == FloorAreaRow(d.timestep, d.lad, "residential", d.dwellings * AverageDwellingM2);
    assert out[i + |m|] == FloorAreaRow(d.timestep, d.lad, "non_residential", g.gva);
  }

  /** A key that is missing from either input never reaches the result. */
  lemma EstimateDropsUnmatched(dwellings: seq<DwellingsRow>, gva: seq<GvaRow>, k: JoinKey)
    requires (forall d :: d in dwellings ==> d.Key() != k) || (forall g :: g in gva ==> g.Key() != k)
    ensures forall r :: r in EstimateFloorArea(dwellings, gva) ==> JoinKey(r.timestep, r.lad) != k
  {
    forall r | r in EstimateFloorArea(dwellings, gva)
      ensures JoinKey(r.timestep, r.lad) != k
    {
      EstimateProvenance(dwellings, gva, r);
    }
  }

  /** Two timesteps of one district, each with a flat 85 m2 per dwelling. */
  lemma EstimateExample()
    ensures EstimateFloorArea(
      [DwellingsRow(2020, "A", 100.0), DwellingsRow(2025, "A", 120.0)],
      [GvaRow(2020, "A", 10.0), GvaRow(2025, "A", 12.0)])
      == [FloorAreaRow(2020, "A", "residential", 8500.0), FloorAreaRow(2025, "A", "residential", 10200.0),
          FloorAreaRow(2020, "A", "non_residential", 10.0), FloorAreaRow(2025, "A", "non_residential", 12.0)]
  {
  }
}
