/** Vocabulary shared by every part of the fleet-database model: optional
    values, results, table cells, HTTP replies and the exceptions that escape
    the database's methods. */
module Common {

  datatype Option<+T> = None | Some(value: T)

  datatype Result<+T, +E> = Ok(value: T) | Err(error: E)

  /** A table cell. `None` is pandas' missing value (NaN); a present value is
      kept as the text it has in a save file, since the model treats
      positions, speeds, courses and identifiers as opaque values. */
  type Cell = Option<string>

  /** A reply of `requests.get` that did not raise (the final URL after
      redirections and the status code). A GET that raises is `None`. */
  datatype HttpResponse = HttpResponse(status: int, url: string)

  /** The exceptions that leave the database's methods uncaught. */
  datatype Failure =
    | RosterUnavailable              // reading or casting the roster sheet failed
    | MalformedSaveName(name: string) // a listed file name is not SAVE__<date>.csv
    | MissingSaveFile(name: string)   // reading or removing a file that is not there
    | MissingColumn(column: string)   // KeyError: the baseline table lacks a column
    | BaselineUnset                   // AttributeError: `_last_update_db` never assigned
    | FleetUnset                      // AttributeError: `_tracked_fleet_df` never assigned
    | LengthMismatch(column: string)  // a list assigned as a column has the wrong length
    | ChoiceOutOfRange(choice: int)   // IndexError on `list_files[choice]`
    | UnknownCountry(code: Cell)      // KeyError: a country code without a flag
    | MissingPosition(column: string) // ValueError: a marker without a time stamp or a coordinate

  /** What a state-changing step of the database returns: it finished, or an
      exception escaped. */
  datatype Outcome = Done | Raised(failure: Failure)

  /** A position in `list_files` as Python reads `list_files[choice]`: from
      the end for a negative choice, `None` for `IndexError`. */
  function PythonIndex(choice: int, n: nat): (r: Option<nat>)
    ensures r.Some? <==> -(n as int) <= choice < n
    ensures r.Some? ==> r.value < n && (r.value == choice || r.value == n + choice)
  {
    if 0 <= choice < n then Some(choice)
    else if -(n as int) <= choice < 0 then Some(n + choice)
    else None
  }

  predicate IsDigit(c: char) {
    '0' <= c <= '9'
  }

  predicate AllDigits(s: string) {
    forall i :: 0 <= i < |s| ==> IsDigit(s[i])
  }

  function DigitValue(c: char): nat
    requires IsDigit(c)
  {
    c as int - '0' as int
  }

  /** The value of a string of decimal digits. */
  function DigitsValue(s: string): nat
    requires AllDigits(s)
    decreases |s|
  {
    if |s| == 0 then 0 else 10 * DigitsValue(s[..|s| - 1]) + DigitValue(s[|s| - 1])
  }

  /** Decimal text of a non-negative integer, as `str` prints it: digits
      spelling `n`, without a leading zero. */
  function NatToString(n: nat): (s: string)
    ensures |s| >= 1 && AllDigits(s)
    ensures DigitsValue(s) == n
    ensures s[0] == '0' ==> |s| == 1
    decreases n
  {
    if n < 10 then [DigitChar(n)]
    else
      var p := NatToString(n / 10);
      var s := p + [DigitChar(n % 10)];
      assert s[..|s| - 1] == p;
      s
  }

  /** Decimal text of an integer, with a leading minus sign when negative. */
  function IntToString(i: int): (s: string)
    ensures |s| >= 1
    ensures (s[0] == '-') <==> i < 0
    ensures var d := if i < 0 then s[1..] else s;
      AllDigits(d) && DigitsValue(d) == (if i < 0 then -i else i)
  {
    if i < 0 then "-" + NatToString(-i) else NatToString(i)
  }

  function DigitChar(d: nat): (c: char)
    requires d < 10
    ensures '0' <= c <= '9'
  {
    ('0' as int + d) as char
  }
}
