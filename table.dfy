/**
 * The uploaded reading table (a pandas DataFrame after `pd.read_csv`) and
 * lookup of a column by header, `df[name]`.
 */
module Frame {
  import opened Wrappers
  import opened Headers

  /** Why a step over the table raised instead of returning. */
  datatype Error =
    | MissingColumn(name: string)    // `df[name]` raises KeyError: no header equals `name`
    | DuplicateColumn(name: string)  // more than one header equals `name`
    | NoRows                         // `int(NaN)` raises ValueError: the table has no rows

  /** Every column holds exactly one reading per row, and there is one column per header. */
  predicate Rectangular(headers: seq<string>, columns: seq<seq<real>>, rows: nat) {
    |headers| == |columns| && forall i :: 0 <= i < |columns| ==> |columns[i]| == rows
  }

  /** How many headers equal `name`. */
  function Count(headers: seq<string>, name: string): (n: nat)
    ensures n == 0 <==> name !in headers
    ensures n <= |headers|
  {
    if |headers| == 0 then 0
    else (if headers[0] == name then 1 else 0) + Count(headers[1..], name)
  }

  /** `name` is the header of exactly one column, so `df[name]` is that column. */
  predicate Resolves(headers: seq<string>, name: string) {
    Count(headers, name) == 1
  }

  /** Position of the first header equal to `name`. */
  function IndexOf(headers: seq<string>, name: string): (r: Option<nat>)
    ensures r.None? <==> name !in headers
    ensures r.Some? ==>
      r.value < |headers| && headers[r.value] == name && forall j :: 0 <= j < r.value ==> headers[j] != name
  {
    if |headers| == 0 then None
    else if headers[0] == name then Some(0)
    else match IndexOf(headers[1..], name)
      case None => None
      case Some(i) => Some(i + 1)
  }

  /** A name resolves exactly when one position holds it and no other does. */
  lemma {:induction false} ResolvesIffUnique(headers: seq<string>, name: string)
    ensures Resolves(headers, name) <==>
      exists i :: 0 <= i < |headers| && headers[i] == name
        && forall j :: 0 <= j < |headers| && headers[j] == name ==> j == i
  {
    if |headers| > 0 {
      var tail := headers[1..];
      ResolvesIffUnique(tail, name);
      if headers[0] == name {
        if Resolves(headers, name) {
          assert name !in tail;
          forall j | 0 < j < |headers| ensures headers[j] != name {
            assert headers[j] == tail[j - 1];
          }
        } else {
          assert name in tail;
          var j :| 0 <= j < |tail| && tail[j] == name;
          assert headers[j + 1] == name;
        }
      } else {
        if Resolves(headers, name) {
          var i :| 0 <= i < |tail| && tail[i] == name
            && forall j :: 0 <= j < |tail| && tail[j] == name ==> j == i;
          assert headers[i + 1] == name;
          forall j | 0 <= j < |headers| && headers[j] == name ensures j == i + 1 {
            assert j > 0 && tail[j - 1] == name;
          }
        } else if exists i ::
            0 <= i < |headers| && headers[i] == name
            && forall j :: 0 <= j < |headers| && headers[j] == name ==> j == i
        {
          var i :| 0 <= i < |headers| && headers[i] == name
            && forall j :: 0 <= j < |headers| && headers[j] == name ==> j == i;
          assert i > 0 && tail[i - 1] == name;
          forall j | 0 <= j < |tail| && tail[j] == name ensures j == i - 1 {
            assert headers[j + 1] == name;
          }
          assert false;
        }
      }
    }
  }

  /**
   * `df[name]`: the readings of the column headed `name`. Fails with
   * MissingColumn when no header matches and with DuplicateColumn when
   * several do.
   */
  function Column(headers: seq<string>, columns: seq<seq<real>>, name: string): (r: Result<seq<real>, Error>)
    requires |headers| == |columns|
    ensures r.Ok? <==> Resolves(headers, name)
    ensures r.Ok? ==> r.value in columns
    ensures r.Err? ==> r.error == (if name in headers then DuplicateColumn(name) else MissingColumn(name))
  {
    var n := Count(headers, name);
    if n == 0 then Err(MissingColumn(name))
    else if n > 1 then Err(DuplicateColumn(name))
    else Ok(columns[IndexOf(headers, name).value])
  }

  /** A successful lookup returns the column at the one position whose header is `name`. */
  lemma ColumnSelectsNamedColumn(headers: seq<string>, columns: seq<seq<real>>, name: string)
    requires |headers| == |columns| && Column(headers, columns, name).Ok?
    ensures exists i ::
      && 0 <= i < |headers| && headers[i] == name && Column(headers, columns, name).value == columns[i]
      && forall j :: 0 <= j < |headers| && headers[j] == name ==> j == i
  {
    ResolvesIffUnique(headers, name);
    var i := IndexOf(headers, name).value;
    assert Column(headers, columns, name).value == columns[i];
  }

  /**
   * Looks the columns named `names` up one after the other, as the entries
   * of the summary dict do, and stops at the first lookup that raises.
   */
  function LookupAll(headers: seq<string>, columns: seq<seq<real>>, names: seq<string>): (r: Result<seq<seq<real>>, Error>)
    requires |headers| == |columns|
    ensures r.Ok? <==> forall k :: 0 <= k < |names| ==> Resolves(headers, names[k])
    ensures r.Ok? ==>
      |r.value| == |names| && forall k :: 0 <= k < |names| ==> Column(headers, columns, names[k]) == Ok(r.value[k])
    ensures r.Err? ==>
      exists k :: 0 <= k < |names| && !Resolves(headers, names[k])
        && r == Err(Column(headers, columns, names[k]).error)
        && forall j :: 0 <= j < k ==> Resolves(headers, names[j])
  {
    if |names| == 0 then Ok([])
    else
      var c :- Column(headers, columns, names[0]);
      var rest :- LookupAll(headers, columns, names[1..]);
      Ok([c] + rest)
  }

  /** Every column a lookup returns has one reading per row. */
  lemma LookupAllRows(headers: seq<string>, columns: seq<seq<real>>, rows: nat, names: seq<string>)
    requires Rectangular(headers, columns, rows)
    requires LookupAll(headers, columns, names).Ok?
    ensures forall c :: c in LookupAll(headers, columns, names).value ==> |c| == rows
  {
    var cs := LookupAll(headers, columns, names).value;
    forall c | c in cs ensures |c| == rows {
      var k :| 0 <= k < |cs| && cs[k] == c;
      assert Column(headers, columns, names[k]).value in columns;
    }
  }

  /** Whether a lookup fails, and with which error, depends on the headers alone. */
  lemma {:induction false} LookupAllErrorIgnoresReadings(headers: seq<string>, columns: seq<seq<real>>, others: seq<seq<real>>, names: seq<string>)
    requires |headers| == |columns| == |others|
    ensures LookupAll(headers, columns, names).Err? <==> LookupAll(headers, others, names).Err?
    ensures LookupAll(headers, columns, names).Err? ==>
      LookupAll(headers, columns, names).error == LookupAll(headers, others, names).error
  {
    if |names| > 0 {
      LookupAllErrorIgnoresReadings(headers, columns, others, names[1..]);
    }
  }

  /** The table as `summarize_data` receives it: pandas keeps headers, columns and the row count in step. */
  class Table {
    var headers: seq<string>
    var columns: seq<seq<real>>
    var rows: nat

    ghost predicate Valid()
      reads this
    {
      Rectangular(headers, columns, rows)
    }

    constructor (headers: seq<string>, columns: seq<seq<real>>, rows: nat)
      requires Rectangular(headers, columns, rows)
      ensures Valid()
      ensures this.headers == headers && this.columns == columns && this.rows == rows
    {
      this.headers := headers;
      this.columns := columns;
      this.rows := rows;
    }

    /**
     * `df.columns = df.columns.str.encode('ascii', 'ignore').str.decode('ascii').str.strip()`:
     * every header is replaced by its normalised form, in place; the
     * readings and the number and order of columns stay as they were.
     */
    method NormalizeHeaders()
      requires Valid()
      modifies this
      ensures Valid()
      ensures headers == NormalizeAll(old(headers))
      ensures columns == old(columns) && rows == old(rows)
      ensures forall i :: 0 <= i < |headers| ==> AllAscii(headers[i]) && Trimmed(headers[i])
    {
      headers := NormalizeAll(headers);
    }
  }
}
