/** The runs table (src/builds.js): one row per run of the history, with links
    to the run's statistics and to its download, whose size is shown in
    binary units. */
module Builds {
  import opened Common

  const Sizes: seq<string> := ["Bytes", "KB", "MB", "GB", "TB", "PB", "EB", "ZB", "YB"]

  /** 1024 to an integer power. */
  function Pow1024(i: int): (p: real)
    ensures p > 0.0
    decreases if i < 0 then -i else i
  {
    if i == 0 then 1.0
    else if i > 0 then 1024.0 * Pow1024(i - 1)
    else Pow1024(i + 1) / 1024.0
  }

  lemma Pow1024Step(i: int)
    ensures Pow1024(i + 1) == 1024.0 * Pow1024(i)
  {
  }

  lemma {:induction false} Pow1024Monotone(i: int, j: int)
    requires i <= j
    ensures Pow1024(i) <= Pow1024(j)
    decreases j - i
  {
    if i < j {
      Pow1024Monotone(i, j - 1);
      Pow1024Step(j - 1);
    }
  }

  /** `Math.floor(Math.log(bytes) / Math.log(1024))` for a positive number,
      computed exactly: the power of 1024 that brackets `bytes`. */
  function UnitIndex(b: real): (i: int)
    requires b > 0.0
    ensures Pow1024(i) <= b < Pow1024(i + 1)
    decreases if b < 1.0 then 1 else 0, if b < 1.0 then (1.0 / b).Floor else b.Floor
  {
    if b >= 1024.0 then
      var j := UnitIndex(b / 1024.0);
      Pow1024Step(j);
      Pow1024Step(j + 1);
      j + 1
    else if b < 1.0 then
      assert 1.0 / (b * 1024.0) == (1.0 / b) / 1024.0;
      var j := UnitIndex(b * 1024.0);
      Pow1024Step(j - 1);
      Pow1024Step(j);
      j - 1
    else
      0
  }

  /** The bracketing power is unique. */
  lemma UnitIndexUnique(b: real, k: int)
    requires b > 0.0 && Pow1024(k) <= b < Pow1024(k + 1)
    ensures UnitIndex(b) == k
  {
    var j := UnitIndex(b);
    if j < k {
      Pow1024Monotone(j + 1, k);
    } else if k < j {
      Pow1024Monotone(k + 1, j);
    }
  }

  /** The text `formatBytes` returns: "0 Bytes", a scaled number (to be
      rounded to `decimals` places) followed by a unit, which is JavaScript's
      `undefined` when the index falls outside the table, or "NaN undefined"
      for a negative number. */
  datatype SizeText = ZeroBytes | Scaled(quotient: real, decimals: nat, unit: Option<string>) | NotANumber

  function FormatBytes(bytes: real, decimals: int): (r: SizeText)
    ensures bytes == 0.0 <==> r == ZeroBytes
    ensures bytes < 0.0 <==> r == NotANumber
    ensures r.Scaled? ==> r.decimals == if decimals < 0 then 0 else decimals
    ensures bytes > 0.0 ==>
      && r.Scaled?
      && (r.unit.Some? <==> 0 <= UnitIndex(bytes) < |Sizes|)
      && (r.unit.Some? ==> r.unit.value == Sizes[UnitIndex(bytes)])
      && r.quotient == Scale(bytes, UnitIndex(bytes))
      && 1.0 <= r.quotient < 1024.0
  {
    if bytes == 0.0 then ZeroBytes
    else if bytes < 0.0 then NotANumber
    else
      var dm := if decimals < 0 then 0 else decimals;
      var i := UnitIndex(bytes);
      ScaleBounds(bytes);
      Scaled(Scale(bytes, i), dm, if 0 <= i < |Sizes| then Some(Sizes[i]) else None)
  }

  /** `bytes / Math.pow(1024, i)` */
  function Scale(bytes: real, i: int): (q: real)
    ensures q * Pow1024(i) == bytes
  {
    DivMul(bytes, Pow1024(i));
    bytes / Pow1024(i)
  }

  /** Scaled by its own unit, a positive size lies in 1 .. 1024. */
  lemma ScaleBounds(bytes: real)
    requires bytes > 0.0
    ensures 1.0 <= Scale(bytes, UnitIndex(bytes)) < 1024.0
  {
    var i := UnitIndex(bytes);
    Pow1024Step(i);
    QuotientBounds(bytes, Pow1024(i));
  }

  /** For a size from 1 byte up to (not including) 1024 YB, the label is the
      unit whose power of 1024 brackets the size, and the number shown lies in
      1 .. 1024. */
  lemma FormatBytesUnit(bytes: real, decimals: int, k: nat)
    requires k < |Sizes| && Pow1024(k) <= bytes < Pow1024(k + 1)
    ensures var r := FormatBytes(bytes, decimals);
      && r.Scaled? && r.unit == Some(Sizes[k])
      && 1.0 <= r.quotient < 1024.0
  {
    Pow1024Monotone(0, k);
    UnitIndexUnique(bytes, k);
    Pow1024Step(k);
    QuotientBounds(bytes, Pow1024(k));
    assert FormatBytes(bytes, decimals).quotient == bytes / Pow1024(k);
  }

  lemma DivMul(b: real, p: real)
    requires p != 0.0
    ensures b / p * p == b
  {
  }

  lemma QuotientBounds(b: real, p: real)
    requires 0.0 < p <= b < 1024.0 * p
    ensures 1.0 <= b / p < 1024.0
  {
    var q := b / p;
    DivMul(b, p);
    assert (q - 1.0) * p == b - p >= 0.0;
    assert (1024.0 - q) * p == 1024.0 * p - b > 0.0;
    PositiveFactor(q - 1.0, p);
    PositiveFactor(1024.0 - q, p);
  }

  lemma PositiveFactor(x: real, y: real)
    requires y > 0.0
    ensures x * y >= 0.0 ==> x >= 0.0
    ensures x * y > 0.0 ==> x > 0.0
  {
  }

  /** Sizes of 1024 YB and more, and positive sizes below one byte, get
      `undefined` as their unit. */
  lemma FormatBytesOutOfTable(bytes: real, decimals: int)
    requires 0.0 < bytes && (bytes < 1.0 || Pow1024(|Sizes|) <= bytes)
    ensures FormatBytes(bytes, decimals).unit.None?
  {
    var i := UnitIndex(bytes);
    if bytes < 1.0 && i >= 0 {
      Pow1024Monotone(0, i);
    }
    if Pow1024(|Sizes|) <= bytes && i < |Sizes| {
      Pow1024Monotone(i + 1, |Sizes|);
    }
  }

  // ---------------------------------------------------------------------------
  // Render callbacks.

  datatype Label = Summary | Download(size: SizeText)

  /** What a render callback returns: the raw field value, an empty cell, or
      a link (`href` is the field value it points at). */
  datatype Rendered = Raw(value: Json) | Empty | Link(href: Json, caption: Label)

  /** The "Run statistics" column. */
  function RenderStats(statsUrl: Json, renderType: RenderType): (cell: Rendered)
    requires statsUrl.Text? || statsUrl.Null?
    ensures renderType != Display ==> cell == Raw(statsUrl)
    ensures renderType == Display ==>
      if statsUrl.Text? && statsUrl.s != "" then cell == Link(statsUrl, Summary) else cell == Empty
  {
    if renderType == Display then
      if Truthy(statsUrl) then Link(statsUrl, Summary) else Empty
    else Raw(statsUrl)
  }

  /** The "Download features" column: a link to the run's output with its
      size, for a positive size. */
  function RenderDownload(sizeBytes: Json, outputUrl: Json, renderType: RenderType): (cell: Rendered)
    ensures renderType != Display ==> cell == Raw(sizeBytes)
    ensures renderType == Display && sizeBytes.Num? && sizeBytes.n > 0.0 ==>
      && cell.Link? && cell.href == outputUrl
      && cell.caption == Download(FormatBytes(sizeBytes.n, 2))
      && cell.caption.size.Scaled? && cell.caption.size.decimals == 2
    ensures renderType == Display && !(sizeBytes.Num? && sizeBytes.n > 0.0) ==> cell == Empty
  {
    if renderType == Display then
      if Truthy(sizeBytes) && sizeBytes.Num? && sizeBytes.n > 0.0
      then Link(outputUrl, Download(FormatBytes(sizeBytes.n, 2)))
      else Empty
    else Raw(sizeBytes)
  }
}
