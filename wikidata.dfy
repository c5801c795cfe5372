/** The Wikidata insights table (src/wikidata.js): an insights file lists one
    row per Wikidata code with the POI counts of OpenStreetMap and of the
    project; older files are brought up to date as they are loaded, the
    project's count is recomputed from the per-country split, and rows that
    look suspicious are highlighted. */
module Wikidata {
  import opened Common
  import opened Strings

  /** One spider's count in one country of `atp_splits`. */
  datatype SpiderCount = SpiderCount(spider: string, count: real)

  /** One country of `atp_splits` with its spiders' counts. */
  datatype CountrySplit = CountrySplit(country: string, spiders: seq<SpiderCount>)

  /** A row of an insights file. A field that is missing from the row is
      `Absent`; `atpSplits` is `None` when the row has no split object. */
  datatype InsightRow = InsightRow(
    code: string,
    osmCount: Json,
    atpCount: Json,
    atpSplits: Option<seq<CountrySplit>>,
    atpCountryCount: Json,
    atpSupplierCount: Json,
    atpBrand: Json,
    nsiBrand: Json,
    nsiDescription: Json,
    qTitle: Json,
    qDescription: Json)

  // ---------------------------------------------------------------------------
  // isInt and the 32-bit truncation it relies on.

  const TwoTo31: int := 0x8000_0000
  const TwoTo32: int := 0x1_0000_0000

  /** Rounding toward zero, as ToInt32 first does. */
  function Truncate(x: real): (t: int)
    ensures x >= 0.0 ==> t as real <= x < t as real + 1.0
    ensures x < 0.0 ==> t as real - 1.0 < x <= t as real
  {
    if x >= 0.0 then x.Floor else -((-x).Floor)
  }

  /** ECMAScript ToInt32, the conversion behind `x | 0`: truncate, reduce
      modulo 2^32, and read the result as a signed 32-bit integer. */
  function ToInt32(x: real): (i: int)
    ensures -TwoTo31 <= i < TwoTo31
    ensures (i - Truncate(x)) % TwoTo32 == 0
  {
    var m := Truncate(x) % TwoTo32;
    if m >= TwoTo31 then m - TwoTo32 else m
  }

  /** `isInt(value)` for a JSON value. `isNaN(undefined)` holds and
      `parseFloat(null)` is NaN, so neither passes. The model accepts only
      numbers, and only whole ones within the signed 32-bit range; in the
      browser a numeric string such as "12" would pass as well. */
  predicate IsInt(value: Json)
    ensures IsInt(value) ==>
      && value.Num? && value.n == value.n.Floor as real
      && -TwoTo31 as real <= value.n < TwoTo31 as real
  {
    match value
    case Num(x) => ToInt32(x) as real == x
    case _ => false
  }

  /** A number passes `isInt` exactly when it is a whole number that fits in a
      signed 32-bit integer: whole numbers from 2^31 up are rejected. */
  lemma IsIntMeaning(x: real)
    ensures IsInt(Num(x)) <==> x == x.Floor as real && -TwoTo31 <= x.Floor < TwoTo31
  {
    if x == x.Floor as real && -TwoTo31 <= x.Floor < TwoTo31 {
      assert Truncate(x) == x.Floor;
      assert (x.Floor % TwoTo32 >= TwoTo31) == (x.Floor < 0);
    }
  }

  // ---------------------------------------------------------------------------
  // The recount of `atp_count` from `atp_splits`.

  /** The largest spider count of a country, starting from 0. */
  function CountryMax(spiders: seq<SpiderCount>): (m: real)
    ensures m >= 0.0
    ensures forall k :: 0 <= k < |spiders| ==> spiders[k].count <= m
    ensures m == 0.0 || exists k :: 0 <= k < |spiders| && spiders[k].count == m
  {
    if spiders == [] then 0.0
    else
      var m := CountryMax(spiders[..|spiders| - 1]);
      var count := spiders[|spiders| - 1].count;
      assert forall k :: 0 <= k < |spiders| - 1 ==> spiders[..|spiders| - 1][k] == spiders[k];
      if count > m then count else m
  }

  /** The sum of the positive counts of a country. */
  function PositiveTotal(spiders: seq<SpiderCount>): (t: real)
    ensures t >= 0.0
  {
    if spiders == [] then 0.0
    else
      var count := spiders[|spiders| - 1].count;
      PositiveTotal(spiders[..|spiders| - 1]) + if count > 0.0 then count else 0.0
  }

  /** The sum of the positive counts of all countries. */
  function SplitsPositiveTotal(splits: seq<CountrySplit>): (t: real)
    ensures t >= 0.0
  {
    if splits == [] then 0.0
    else SplitsPositiveTotal(splits[..|splits| - 1]) + PositiveTotal(splits[|splits| - 1].spiders)
  }

  lemma {:induction false} CountryMaxBound(spiders: seq<SpiderCount>)
    ensures CountryMax(spiders) <= PositiveTotal(spiders)
  {
    if spiders != [] {
      CountryMaxBound(spiders[..|spiders| - 1]);
    }
  }

  /** The recomputed `atp_count`: the sum over countries of each country's
      largest spider count. */
  function SumOfCountryMaxima(splits: seq<CountrySplit>): (total: real)
    ensures 0.0 <= total <= SplitsPositiveTotal(splits)
  {
    if splits == [] then 0.0
    else
      CountryMaxBound(splits[|splits| - 1].spiders);
      SumOfCountryMaxima(splits[..|splits| - 1]) + CountryMax(splits[|splits| - 1].spiders)
  }

  /** Each country contributes its largest count: the sum is at least the
      count of any one spider in any one country. */
  lemma {:induction false} SumOfCountryMaximaCovers(splits: seq<CountrySplit>, c: nat, k: nat)
    requires c < |splits| && k < |splits[c].spiders|
    ensures splits[c].spiders[k].count <= SumOfCountryMaxima(splits)
  {
    if c < |splits| - 1 {
      assert splits[..|splits| - 1][c] == splits[c];
      SumOfCountryMaximaCovers(splits[..|splits| - 1], c, k);
    }
  }

  /** Why loading an insights file throws. */
  datatype LoadError =
    | EmptyInsights            // `data[0]` is undefined
    | MissingSplits(row: nat)  // `Object.keys` of a missing `atp_splits`

  /** A row after the recount: a row with a truthy `atp_count` gets the sum of
      the countries' maxima, and nothing else of any row changes. */
  function RecountRow(row: InsightRow, index: nat): (r: Result<InsightRow, LoadError>)
    ensures !Truthy(row.atpCount) ==> r == Ok(row)
    ensures Truthy(row.atpCount) && row.atpSplits.None? ==> r == Err(MissingSplits(index))
    ensures Truthy(row.atpCount) && row.atpSplits.Some? ==>
      && r.Ok?
      && r.value == row.(atpCount := r.value.atpCount)
      && r.value.atpCount == Num(SumOfCountryMaxima(row.atpSplits.value))
      && 0.0 <= r.value.atpCount.n <= SplitsPositiveTotal(row.atpSplits.value)
  {
    if !Truthy(row.atpCount) then Ok(row)
    else if row.atpSplits.None? then Err(MissingSplits(index))
    else Ok(row.(atpCount := Num(SumOfCountryMaxima(row.atpSplits.value))))
  }

  /** All rows recounted, stopping at the first row that throws. */
  function RecountAll(rows: seq<InsightRow>): (r: Result<seq<InsightRow>, LoadError>)
    ensures r.Ok? ==> |r.value| == |rows|
    ensures r.Err? ==> r.error.MissingSplits?
  {
    if rows == [] then Ok([])
    else
      match RecountAll(rows[..|rows| - 1])
      case Err(e) => Err(e)
      case Ok(prefix) =>
        match RecountRow(rows[|rows| - 1], |rows| - 1)
        case Err(e) => Err(e)
        case Ok(row) => Ok(prefix + [row])
  }

  /** A legacy row gets the two newer count fields as empty strings. */
  function BackFill(row: InsightRow): InsightRow
  {
    row.(atpCountryCount := Text(""), atpSupplierCount := Text(""))
  }

  /** A legacy row gets the Wikidata fields copied from the misnamed ones;
      `nsi_brand` stays as it is. */
  function Rename(row: InsightRow): InsightRow
  {
    row.(qTitle := row.nsiBrand, qDescription := row.nsiDescription)
  }

  /** The rows `loadInsights` hands to the table. Both legacy tests look at
      the first row only. Loading keeps the number of rows; it throws on an
      empty file, and otherwise only when the recount does. */
  function LoadedRows(data: seq<InsightRow>): (r: Result<seq<InsightRow>, LoadError>)
    ensures r.Ok? ==> |r.value| == |data|
    ensures data == [] ==> r == Err(EmptyInsights)
    ensures data != [] ==>
      (r.Err? <==> !data[0].atpCountryCount.Absent? && RecountAll(data).Err?)
  {
    if data == [] then Err(EmptyInsights)
    else
      var counted :=
        if data[0].atpCountryCount.Absent? then Ok(seq(|data|, i requires 0 <= i < |data| => BackFill(data[i])))
        else RecountAll(data);
      match counted
      case Err(e) => Err(e)
      case Ok(rows) =>
        if rows[0].nsiDescription.Absent? then Ok(rows)
        else Ok(seq(|rows|, i requires 0 <= i < |rows| => Rename(rows[i])))
  }

  lemma {:induction false} RecountAllRows(rows: seq<InsightRow>, i: nat)
    requires RecountAll(rows).Ok? && i < |rows|
    ensures RecountRow(rows[i], i).Ok? && RecountAll(rows).value[i] == RecountRow(rows[i], i).value
  {
    var init := rows[..|rows| - 1];
    if i < |rows| - 1 {
      assert init[i] == rows[i];
      RecountAllRows(init, i);
    }
  }

  /** The recount fails exactly when some row with a truthy `atp_count` has no
      `atp_splits`, and it names the first such row. */
  lemma {:induction false} RecountAllFails(rows: seq<InsightRow>)
    ensures RecountAll(rows).Err? <==>
      exists i :: 0 <= i < |rows| && Truthy(rows[i].atpCount) && rows[i].atpSplits.None?
    ensures RecountAll(rows).Err? ==>
      var i := RecountAll(rows).error.row;
      && i < |rows| && Truthy(rows[i].atpCount) && rows[i].atpSplits.None?
      && forall j :: 0 <= j < i ==> !(Truthy(rows[j].atpCount) && rows[j].atpSplits.None?)
  {
    if rows != [] {
      var init := rows[..|rows| - 1];
      RecountAllFails(init);
      assert forall j :: 0 <= j < |init| ==> init[j] == rows[j];
    }
  }

  /** What loading keeps and changes, row by row: the same number of rows with
      the same codes, counts of OpenStreetMap, brands and splits. A file without
      `atp_country_count` in its first row is back-filled and not recounted;
      otherwise each row is recounted. A file with `nsi_description` in its
      first row has every row's Wikidata fields copied from the NSI ones. */
  lemma LoadedRowsFacts(data: seq<InsightRow>, i: nat)
    requires LoadedRows(data).Ok? && i < |data|
    ensures var rows := LoadedRows(data).value;
      && |rows| == |data|
      && rows[i].code == data[i].code
      && rows[i].osmCount == data[i].osmCount
      && rows[i].atpBrand == data[i].atpBrand
      && rows[i].nsiBrand == data[i].nsiBrand
      && rows[i].atpSplits == data[i].atpSplits
      && rows[i].nsiDescription == data[i].nsiDescription
      && (data[0].atpCountryCount.Absent? ==>
            && rows[i].atpCountryCount == Text("") && rows[i].atpSupplierCount == Text("")
            && rows[i].atpCount == data[i].atpCount)
      && (!data[0].atpCountryCount.Absent? ==>
            && rows[i].atpCountryCount == data[i].atpCountryCount
            && RecountRow(data[i], i).Ok?
            && rows[i].atpCount == RecountRow(data[i], i).value.atpCount)
      && (data[0].nsiDescription.Absent? ==>
            rows[i].qTitle == data[i].qTitle && rows[i].qDescription == data[i].qDescription)
      && (!data[0].nsiDescription.Absent? ==>
            rows[i].qTitle == data[i].nsiBrand && rows[i].qDescription == data[i].nsiDescription)
  {
    var counted: seq<InsightRow>;
    if data[0].atpCountryCount.Absent? {
      counted := seq(|data|, j requires 0 <= j < |data| => BackFill(data[j]));
    } else {
      counted := RecountAll(data).value;
      RecountAllRows(data, i);
      RecountAllRows(data, 0);
    }
    assert counted[i] == data[i].(atpCount := counted[i].atpCount,
                                  atpCountryCount := counted[i].atpCountryCount,
                                  atpSupplierCount := counted[i].atpSupplierCount);
    assert counted[0].nsiDescription == data[0].nsiDescription;
    var rows := LoadedRows(data).value;
    assert rows[i] == if data[0].nsiDescription.Absent? then counted[i] else Rename(counted[i]);
  }

  // ---------------------------------------------------------------------------
  // The loops of loadInsights.

  /** The back-fill loop. */
  method BackFillRows(data: seq<InsightRow>) returns (rows: seq<InsightRow>)
    ensures rows == seq(|data|, i requires 0 <= i < |data| => BackFill(data[i]))
  {
    rows := data;
    for i := 0 to |rows|
      invariant |rows| == |data|
      invariant forall j :: 0 <= j < i ==> rows[j] == BackFill(data[j])
      invariant forall j :: i <= j < |rows| ==> rows[j] == data[j]
    {
      rows := rows[i := rows[i].(atpCountryCount := Text(""))];
      rows := rows[i := rows[i].(atpSupplierCount := Text(""))];
    }
  }

  /** The rename loop. */
  method RenameRows(data: seq<InsightRow>) returns (rows: seq<InsightRow>)
    ensures rows == seq(|data|, i requires 0 <= i < |data| => Rename(data[i]))
  {
    rows := data;
    for i := 0 to |rows|
      invariant |rows| == |data|
      invariant forall j :: 0 <= j < i ==> rows[j] == Rename(data[j])
      invariant forall j :: i <= j < |rows| ==> rows[j] == data[j]
    {
      rows := rows[i := rows[i].(qTitle := rows[i].nsiBrand)];
      rows := rows[i := rows[i].(qDescription := rows[i].nsiDescription)];
    }
  }

  /** The inner loop of the recount: `country_max` of one country. */
  method FindCountryMax(spiders: seq<SpiderCount>) returns (countryMax: real)
    ensures countryMax == CountryMax(spiders)
  {
    countryMax := 0.0;
    for k := 0 to |spiders|
      invariant countryMax == CountryMax(spiders[..k])
    {
      assert spiders[..k + 1][..k] == spiders[..k];
      if spiders[k].count > countryMax {
        countryMax := spiders[k].count;
      }
    }
    assert spiders[..|spiders|] == spiders;
  }

  /** The outer loop of the recount: `new_atp_count` of one row. */
  method SumCountryMaxima(splits: seq<CountrySplit>) returns (newAtpCount: real)
    ensures newAtpCount == SumOfCountryMaxima(splits)
  {
    newAtpCount := 0.0;
    for c := 0 to |splits|
      invariant newAtpCount == SumOfCountryMaxima(splits[..c])
    {
      assert splits[..c + 1][..c] == splits[..c];
      var countryMax := FindCountryMax(splits[c].spiders);
      newAtpCount := newAtpCount + countryMax;
    }
    assert splits[..|splits|] == splits;
  }

  lemma RecountAllSnoc(rows: seq<InsightRow>, i: nat)
    requires i < |rows| && RecountAll(rows[..i]).Ok?
    ensures RecountAll(rows[..i + 1]) ==
      match RecountRow(rows[i], i)
      case Err(e) => Err(e)
      case Ok(row) => Ok(RecountAll(rows[..i]).value + [row])
  {
    assert rows[..i + 1][..i] == rows[..i];
  }

  lemma {:induction false} RecountAllErr(rows: seq<InsightRow>, i: nat)
    requires i <= |rows| && RecountAll(rows[..i]).Err?
    ensures RecountAll(rows) == RecountAll(rows[..i])
  {
    if i < |rows| {
      assert rows[..|rows| - 1][..i] == rows[..i];
      RecountAllErr(rows[..|rows| - 1], i);
      assert rows[..|rows| - 1] == rows[..|rows| - 1][..|rows| - 1];
    } else {
      assert rows[..i] == rows;
    }
  }

  /** The recount loop over all rows. */
  method RecountRows(data: seq<InsightRow>) returns (result: Result<seq<InsightRow>, LoadError>)
    ensures result == RecountAll(data)
  {
    var rows := data;
    for i := 0 to |rows|
      invariant |rows| == |data|
      invariant RecountAll(data[..i]) == Ok(rows[..i])
      invariant rows[i..] == data[i..]
    {
      RecountAllSnoc(data, i);
      assert rows[i] == data[i] by { assert rows[i..][0] == data[i..][0]; }
      if Truthy(rows[i].atpCount) {
        if rows[i].atpSplits.None? {
          RecountAllErr(data, i + 1);
          return Err(MissingSplits(i));
        }
        var newAtpCount := SumCountryMaxima(rows[i].atpSplits.value);
        rows := rows[i := rows[i].(atpCount := Num(newAtpCount))];
      }
      assert rows[..i + 1] == rows[..i] + [rows[i]];
      assert rows[i + 1..] == data[i + 1..] by {
        assert forall j :: i + 1 <= j < |rows| ==> rows[j] == rows[i..][j - i];
      }
    }
    assert data[..|data|] == data && rows[..|rows|] == rows;
    result := Ok(rows);
  }

  /** `loadInsights` once the file has been fetched and parsed: the rows it
      adds to the table, or the reason it throws. */
  method LoadInsights(data: seq<InsightRow>) returns (result: Result<seq<InsightRow>, LoadError>)
    ensures result == LoadedRows(data)
  {
    if |data| == 0 {
      return Err(EmptyInsights);
    }
    var rows: seq<InsightRow>;
    if data[0].atpCountryCount.Absent? {
      rows := BackFillRows(data);
    } else {
      var recounted := RecountRows(data);
      if recounted.Err? {
        return Err(recounted.error);
      }
      rows := recounted.value;
    }
    if !rows[0].nsiDescription.Absent? {
      rows := RenameRows(rows);
    }
    return Ok(rows);
  }

  // ---------------------------------------------------------------------------
  // createdRow: the highlighting rules.

  /** JavaScript's `>` between two field values, for the values insights files
      hold: numbers, and null, which compares as 0. */
  predicate Greater(a: Json, b: Json)
  {
    var x := if a.Num? then Some(a.n) else if a.Null? then Some(0.0) else None;
    var y := if b.Num? then Some(b.n) else if b.Null? then Some(0.0) else None;
    x.Some? && y.Some? && x.value > y.value
  }

  /** Why a row is highlighted. The row turns pink for any flag; the ATP-count
      cell turns red for `OsmExceedsAtp` and the ATP-brand cell for
      `BrandMismatch`. */
  datatype Flag = NotQCode | OsmExceedsAtp | BrandMismatch | AtpWithoutNsi

  /** The brand test: both brands non-empty and the NSI brand not starting
      with the ATP brand. */
  predicate BrandsDisagree(atpBrand: Json, nsiBrand: Json)
  {
    && atpBrand.Text? && atpBrand.s != ""
    && nsiBrand.Text? && nsiBrand.s != ""
    && !StartsWith(nsiBrand.s, atpBrand.s)
  }

  function RowFlags(row: InsightRow): (flags: set<Flag>)
    ensures NotQCode in flags <==> !StartsWith(row.code, "Q")
    ensures OsmExceedsAtp in flags <==> IsInt(row.atpCount) && Greater(row.osmCount, row.atpCount)
    ensures BrandMismatch in flags <==> BrandsDisagree(row.atpBrand, row.nsiBrand)
    ensures AtpWithoutNsi in flags <==> Greater(row.atpCount, Num(0.0)) && !Truthy(row.nsiBrand)
  {
    (if !StartsWith(row.code, "Q") then {NotQCode} else {})
    + (if IsInt(row.atpCount) && Greater(row.osmCount, row.atpCount) then {OsmExceedsAtp} else {})
    + (if BrandsDisagree(row.atpBrand, row.nsiBrand) then {BrandMismatch} else {})
    + (if Greater(row.atpCount, Num(0.0)) && !Truthy(row.nsiBrand) then {AtpWithoutNsi} else {})
  }

  /** Back-filling and renaming never change how a row is highlighted, and the
      recount can change only the two count-based flags. */
  lemma LoadingKeepsFlags(row: InsightRow, index: nat)
    ensures RowFlags(BackFill(row)) == RowFlags(row)
    ensures RowFlags(Rename(row)) == RowFlags(row)
    ensures RecountRow(row, index).Ok? ==>
      RowFlags(RecountRow(row, index).value) * {NotQCode, BrandMismatch} == RowFlags(row) * {NotQCode, BrandMismatch}
  {
  }

  /** Because of the 32-bit truncation in `isInt`, a row whose project count
      is 2^31 or more is never flagged for having fewer POIs than
      OpenStreetMap, however large the OpenStreetMap count is. */
  lemma LargeCountNeverUnderOsm(row: InsightRow)
    requires row.atpCount.Num? && row.atpCount.n >= TwoTo31 as real
    ensures OsmExceedsAtp !in RowFlags(row)
  {
    IsIntMeaning(row.atpCount.n);
  }

  /** The Q-code column: a Wikidata link for display when the code starts with
      "Q", otherwise the raw code. The code comes back unchanged exactly when
      it is not displayed as a link, and a link ends with the code followed by
      the closing tag. */
  function RenderCode(code: string, renderType: RenderType): (cell: string)
    ensures cell == code <==> !(renderType == Display && StartsWith(code, "Q"))
    ensures renderType == Display && StartsWith(code, "Q") ==> EndsWith(cell, code + "</a>")
  {
    if renderType == Display && StartsWith(code, "Q")
    then
      var link := "<a href=\"https://www.wikidata.org/wiki/" + code + "\">" + code + "</a>";
      assert |link| > |code|;
      assert link[|link| - |code + "</a>"|..] == code + "</a>";
      link
    else code
  }
}
