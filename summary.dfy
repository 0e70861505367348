/**
 * `summarize_data` (app.py, lines 24-38): normalise the headers of the
 * table in place, then compute a fixed record of ten aggregates over nine
 * named columns.
 */
module Summary {
  import opened Wrappers
  import opened Headers
  import opened Stats
  import opened Frame

  const Coolant: string := "Engine Coolant Temperature [C]"
  const Rpm: string := "Engine RPM [RPM]"
  const Speed: string := "Vehicle Speed Sensor [km/h]"
  const Maf: string := "Air Flow Rate from Mass Flow Sensor [g/s]"
  const Throttle: string := "Absolute Throttle Position [%]"
  const Ambient: string := "Ambient Air Temperature [C]"
  const Intake: string := "Intake Air Temperature [C]"
  const PedalD: string := "Accelerator Pedal Position D [%]"
  const PedalE: string := "Accelerator Pedal Position E [%]"

  /** The columns the summary reads, in the order the record's entries look them up. */
  const Required: seq<string> := [Coolant, Rpm, Speed, Maf, Throttle, Ambient, Intake, PedalD, PedalE]

  /**
   * The number of required columns. The functions and lemmas below take
   * the list of names as a parameter `names` of this length, in the order
   * of `Required`; `SummarizeData` passes `Required` itself. Nothing below
   * depends on the spelling of the names.
   */
  const RequiredCount := 9

  /** The summary record; `int(...)` entries are integers, the others reals. */
  datatype SummaryRecord = SummaryRecord(
    engineTempAvg: real,
    rpmMax: int,
    rpmAvg: int,
    speedMax: int,
    mafAvg: real,
    throttleMax: real,
    ambientMin: real,
    intakeTempAvg: real,
    pedalDRange: (real, real),
    pedalERange: (real, real))

  /** Every required column can be looked up: its header occurs exactly once. */
  predicate AllResolve(headers: seq<string>, names: seq<string>) {
    forall k :: 0 <= k < |names| ==> Resolves(headers, names[k])
  }

  /** The columns headed by `names`, in that order; each has one reading per row. */
  ghost function RequiredColumns(names: seq<string>, headers: seq<string>, columns: seq<seq<real>>, rows: nat): (req: seq<seq<real>>)
    requires Rectangular(headers, columns, rows) && AllResolve(headers, names)
    ensures |req| == |names|
    ensures forall k :: 0 <= k < |names| ==> Column(headers, columns, names[k]) == Ok(req[k]) && |req[k]| == rows
  {
    LookupAllRows(headers, columns, rows, names);
    var req := LookupAll(headers, columns, names).value;
    assert forall k :: 0 <= k < |req| ==> req[k] in req;
    req
  }

  /**
   * The ten entries of lines 27-36, computed from the required columns
   * `req` (coolant, RPM, speed, MAF, throttle, ambient, intake, pedal D,
   * pedal E).
   */
  function Aggregate(req: seq<seq<real>>): SummaryRecord
    requires |req| == RequiredCount && forall k :: 0 <= k < |req| ==> |req[k]| > 0
  {
    SummaryRecord(
      Round2(Mean(req[0])),
      Trunc(Max(req[1])),
      Trunc(Mean(req[1])),
      Trunc(Max(req[2])),
      Round2(Mean(req[3])),
      Round2(Max(req[4])),
      Round2(Min(req[5])),
      Round2(Mean(req[6])),
      (Min(req[7]), Max(req[7])),
      (Min(req[8]), Max(req[8])))
  }

  /**
   * The aggregates of lines 26-37, evaluated in the order Python builds the
   * dict: the coolant and RPM lookups come first, then `int(max)` of the
   * RPM column, which raises on an empty table, then the remaining lookups.
   * No other step between two lookups can raise (`round` of a NaN mean is
   * NaN). Looking a column up again gives the same column, so after the
   * row check all nine are looked up in order.
   */
  function Summarize(names: seq<string>, headers: seq<string>, columns: seq<seq<real>>, rows: nat): (r: Result<SummaryRecord, Error>)
    requires |names| == RequiredCount && Rectangular(headers, columns, rows)
    ensures r.Ok? <==> AllResolve(headers, names) && rows > 0
    ensures r.Ok? ==> r.value == Aggregate(RequiredColumns(names, headers, columns, rows))
  {
    var first :- LookupAll(headers, columns, names[..2]);
    if rows == 0 then Err(NoRows) else
    var req :- LookupAll(headers, columns, names);
    LookupAllRows(headers, columns, rows, names);
    Ok(Aggregate(req))
  }

  /**
   * The record depends only on which readings each required column holds
   * and how often, not on the order of the rows.
   */
  lemma AggregateIgnoresRowOrder(req: seq<seq<real>>, shuffled: seq<seq<real>>)
    requires |req| == RequiredCount && forall k :: 0 <= k < |req| ==> |req[k]| > 0
    requires |shuffled| == |req| && forall k :: 0 <= k < |req| ==> multiset(req[k]) == multiset(shuffled[k])
    ensures forall k :: 0 <= k < |shuffled| ==> |shuffled[k]| > 0
    ensures Aggregate(req) == Aggregate(shuffled)
  {
    forall k | 0 <= k < |req|
      ensures |shuffled[k]| > 0
      ensures Mean(req[k]) == Mean(shuffled[k]) && Max(req[k]) == Max(shuffled[k]) && Min(req[k]) == Min(shuffled[k])
    {
      AggregatesIgnoreOrder(req[k], shuffled[k]);
    }
  }

  /**
   * Reordering the rows of the table (each column holds the same readings
   * as before) changes neither whether the summary succeeds, nor the error,
   * nor the record.
   */
  lemma SummarizeIgnoresRowOrder(names: seq<string>, headers: seq<string>, columns: seq<seq<real>>, shuffled: seq<seq<real>>, rows: nat)
    requires |names| == RequiredCount
    requires Rectangular(headers, columns, rows) && Rectangular(headers, shuffled, rows)
    requires forall i :: 0 <= i < |columns| ==> multiset(columns[i]) == multiset(shuffled[i])
    ensures Summarize(names, headers, columns, rows) == Summarize(names, headers, shuffled, rows)
  {
    if AllResolve(headers, names) && rows > 0 {
      var req := RequiredColumns(names, headers, columns, rows);
      var req' := RequiredColumns(names, headers, shuffled, rows);
      forall k | 0 <= k < |req| ensures multiset(req[k]) == multiset(req'[k]) {
        var i := IndexOf(headers, names[k]).value;
        assert req[k] == columns[i];
        assert req'[k] == shuffled[i];
      }
      AggregateIgnoresRowOrder(req, req');
    } else {
      LookupAllErrorIgnoresReadings(headers, columns, shuffled, names[..2]);
      LookupAllErrorIgnoresReadings(headers, columns, shuffled, names);
    }
  }

  /**
   * `e` is the first problem met in evaluation order: an empty table is
   * reported only once the coolant and RPM lookups have succeeded; a lookup
   * error names the first required column that does not resolve, says
   * whether its header is absent or repeated, and is reported for a column
   * after the RPM one only on a table with rows.
   */
  ghost predicate FirstProblem(names: seq<string>, headers: seq<string>, rows: nat, e: Error)
    requires |names| == RequiredCount
  {
    if e.NoRows? then
      rows == 0 && Resolves(headers, names[0]) && Resolves(headers, names[1])
    else
      exists k ::
        0 <= k < |names| && e.name == names[k] && !Resolves(headers, e.name)
        && (e.MissingColumn? <==> e.name !in headers)
        && (forall j :: 0 <= j < k ==> Resolves(headers, names[j]))
        && (k >= 2 ==> rows > 0)
  }

  /** A failing summary reports the first problem in evaluation order. */
  lemma SummarizeFailsAtFirstProblem(names: seq<string>, headers: seq<string>, columns: seq<seq<real>>, rows: nat)
    requires |names| == RequiredCount && Rectangular(headers, columns, rows)
    requires Summarize(names, headers, columns, rows).Err?
    ensures FirstProblem(names, headers, rows, Summarize(names, headers, columns, rows).error)
  {
    var first := LookupAll(headers, columns, names[..2]);
    if first.Err? {
      var k :| 0 <= k < 2 && !Resolves(headers, names[..2][k])
        && first == Err(Column(headers, columns, names[..2][k]).error)
        && forall j :: 0 <= j < k ==> Resolves(headers, names[..2][j]);
      assert names[..2][k] == names[k];
      assert forall j :: 0 <= j < k ==> names[..2][j] == names[j];
    } else if rows == 0 {
      assert names[..2][0] == names[0] && names[..2][1] == names[1];
    } else {
      var all := LookupAll(headers, columns, names);
      var k :| 0 <= k < |names| && !Resolves(headers, names[k])
        && all == Err(Column(headers, columns, names[k]).error)
        && forall j :: 0 <= j < k ==> Resolves(headers, names[j]);
    }
  }

  /** `pedal_d_range` and `pedal_e_range` are ordered and bracket every reading of their column. */
  lemma PedalRangesBracketReadings(names: seq<string>, headers: seq<string>, columns: seq<seq<real>>, rows: nat)
    requires |names| == RequiredCount && Rectangular(headers, columns, rows)
    requires AllResolve(headers, names) && rows > 0
    ensures var s, req := Summarize(names, headers, columns, rows).value, RequiredColumns(names, headers, columns, rows);
      s.pedalDRange.0 <= s.pedalDRange.1
      && forall x :: x in req[7] ==> s.pedalDRange.0 <= x <= s.pedalDRange.1
    ensures var s, req := Summarize(names, headers, columns, rows).value, RequiredColumns(names, headers, columns, rows);
      s.pedalERange.0 <= s.pedalERange.1
      && forall x :: x in req[8] ==> s.pedalERange.0 <= x <= s.pedalERange.1
  {
  }

  /** `rpm_max >= rpm_avg`: the mean never exceeds the maximum, and `int(...)` keeps that order. */
  lemma RpmMaxAtLeastAvg(names: seq<string>, headers: seq<string>, columns: seq<seq<real>>, rows: nat)
    requires |names| == RequiredCount && Rectangular(headers, columns, rows)
    requires AllResolve(headers, names) && rows > 0
    ensures Summarize(names, headers, columns, rows).value.rpmAvg <= Summarize(names, headers, columns, rows).value.rpmMax
  {
    var rpm := RequiredColumns(names, headers, columns, rows)[1];
    MeanBetweenMinAndMax(rpm);
    TruncMonotone(Mean(rpm), Max(rpm));
  }

  /**
   * Each rounded average lies between the rounded smallest and the rounded
   * largest reading of its column.
   */
  lemma AveragesWithinReadings(names: seq<string>, headers: seq<string>, columns: seq<seq<real>>, rows: nat)
    requires |names| == RequiredCount && Rectangular(headers, columns, rows)
    requires AllResolve(headers, names) && rows > 0
    ensures var s, req := Summarize(names, headers, columns, rows).value, RequiredColumns(names, headers, columns, rows);
      && Round2(Min(req[0])) <= s.engineTempAvg <= Round2(Max(req[0]))
      && Round2(Min(req[3])) <= s.mafAvg <= Round2(Max(req[3]))
      && Round2(Min(req[6])) <= s.intakeTempAvg <= Round2(Max(req[6]))
  {
    var req := RequiredColumns(names, headers, columns, rows);
    forall k | k in {0, 3, 6}
      ensures Round2(Min(req[k])) <= Round2(Mean(req[k])) <= Round2(Max(req[k]))
    {
      MeanBetweenMinAndMax(req[k]);
      Round2Monotone(Min(req[k]), Mean(req[k]));
      Round2Monotone(Mean(req[k]), Max(req[k]));
    }
  }

  // One lemma per name: checking a long literal character by character is
  // costly, and nine of them in one proof exceed what the solver is given.
  lemma CoolantNameNormal() ensures AllAscii(Coolant) && Trimmed(Coolant) { }
  lemma RpmNameNormal() ensures AllAscii(Rpm) && Trimmed(Rpm) { }
  lemma SpeedNameNormal() ensures AllAscii(Speed) && Trimmed(Speed) { }
  lemma MafNameNormal() ensures AllAscii(Maf) && Trimmed(Maf) { }
  lemma ThrottleNameNormal() ensures AllAscii(Throttle) && Trimmed(Throttle) { }
  lemma AmbientNameNormal() ensures AllAscii(Ambient) && Trimmed(Ambient) { }
  lemma IntakeNameNormal() ensures AllAscii(Intake) && Trimmed(Intake) { }
  lemma PedalDNameNormal() ensures AllAscii(PedalD) && Trimmed(PedalD) { }
  lemma PedalENameNormal() ensures AllAscii(PedalE) && Trimmed(PedalE) { }

  /** Every required name is ASCII only and trimmed, so normalisation leaves it as written. */
  lemma RequiredNameNormal(k: nat)
    requires k < |Required|
    ensures AllAscii(Required[k]) && Trimmed(Required[k])
  {
    if k == 0 {
      CoolantNameNormal();
    } else if k == 1 {
      RpmNameNormal();
    } else if k == 2 {
      SpeedNameNormal();
    } else if k == 3 {
      MafNameNormal();
    } else if k == 4 {
      ThrottleNameNormal();
    } else if k == 5 {
      AmbientNameNormal();
    } else if k == 6 {
      IntakeNameNormal();
    } else if k == 7 {
      PedalDNameNormal();
    } else {
      PedalENameNormal();
    }
  }

  /**
   * A raw header that is an ASCII, trimmed name (as every required name is,
   * by `RequiredNameNormal`)
   * padded with non-ASCII characters and whitespace resolves to that name
   * after normalisation, provided no other header normalises to the same
   * name.
   */
  lemma PaddedHeaderResolves(raw: seq<string>, k: nat, pre: string, post: string, name: string)
    requires AllAscii(name) && Trimmed(name)
    requires k < |raw| && raw[k] == pre + name + post
    requires Padding(pre) && Padding(post)
    requires forall j :: 0 <= j < |raw| && j != k ==> Normalize(raw[j]) != name
    ensures Resolves(NormalizeAll(raw), name)
  {
    NormalizeRecoversName(pre, name, post);
    var hs := NormalizeAll(raw);
    ResolvesIffUnique(hs, name);
    assert hs[k] == name;
    forall j | 0 <= j < |hs| && hs[j] == name ensures j == k {
      assert hs[j] == Normalize(raw[j]);
    }
  }

  /**
   * `summarize_data(df)`: the caller's table keeps the normalised headers,
   * whether or not the summary then succeeds.
   */
  method SummarizeData(df: Table) returns (r: Result<SummaryRecord, Error>)
    requires df.Valid()
    modifies df
    ensures df.Valid()
    ensures df.headers == NormalizeAll(old(df.headers))
    ensures df.columns == old(df.columns) && df.rows == old(df.rows)
    ensures forall i :: 0 <= i < |df.headers| ==> AllAscii(df.headers[i]) && Trimmed(df.headers[i])
    ensures r == Summarize(Required, df.headers, df.columns, df.rows)
  {
    df.NormalizeHeaders();
    r := Summarize(Required, df.headers, df.columns, df.rows);
  }
}
