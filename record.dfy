/**
 * The fixed-schema row built from a parsed report (benchmark_run.py, lines
 * 62-70): `bsz` and `kv_length` from the sweep, then `Cache_Size` through
 * `int()` and `Mean`, `Median`, `P25`, `P75` through `float()`, in that order.
 */
module Record {
  import opened Wrappers
  import opened Text

  /** One row of a results table, its fields in the table's column order. */
  datatype Row = Row(bsz: int, kvLength: int, cacheSize: int, mean: real, median: real, p25: real, p75: real)

  /**
   * The column headers of a results table, in order: the keys of the row
   * literal (lines 62-70), which `DataFrame` keeps as its column order, one
   * for each field of `Row` in the order the fields are declared.
   */
  const Columns: seq<string> := ["bsz", "kv_length", "Cache_Size", "Mean", "Median", "P25", "P75"]

  /** The report keys a row is built from, in the order the row literal evaluates them. */
  const RequiredKeys: seq<string> := ["Cache_Size", "Mean", "Median", "P25", "P75"]

  /**
   * The exception the row literal raises: `KeyError` for a missing key,
   * `ValueError` from `int()` or `float()` for text that is not a number.
   */
  datatype RecordError =
    | MissingKey(key: string)
    | NotAnInteger(key: string, text: string)
    | NotAFloat(key: string, text: string)

  /**
   * `float(text)`: the conversion is supplied by the caller, `None` standing
   * for the `ValueError` it raises.
   */
  type FloatParser = string -> Option<real>

  /** `parsed[key]` exists and converts: with `int()` for `Cache_Size`, with `float()` otherwise. */
  predicate FieldOk(parsed: map<string, string>, key: string, toFloat: FloatParser) {
    key in parsed &&
    if key == "Cache_Size" then ParseInt(parsed[key]).Some? else toFloat(parsed[key]).Some?
  }

  function FloatField(parsed: map<string, string>, key: string, toFloat: FloatParser): (r: Result<real, RecordError>)
    ensures r.Success? <==> key in parsed && toFloat(parsed[key]).Some?
    ensures r.Success? ==> r.value == toFloat(parsed[key]).value
    ensures r == Failure(MissingKey(key)) <==> key !in parsed
  {
    if key !in parsed then Failure(MissingKey(key))
    else match toFloat(parsed[key])
      case None => Failure(NotAFloat(key, parsed[key]))
      case Some(x) => Success(x)
  }

  function IntField(parsed: map<string, string>, key: string): (r: Result<int, RecordError>)
    ensures r.Success? <==> key in parsed && ParseInt(parsed[key]).Some?
    ensures r.Success? ==> r.value == ParseInt(parsed[key]).value
    ensures r == Failure(MissingKey(key)) <==> key !in parsed
  {
    if key !in parsed then Failure(MissingKey(key))
    else match ParseInt(parsed[key])
      case None => Failure(NotAnInteger(key, parsed[key]))
      case Some(n) => Success(n)
  }

  /** The row literal of lines 62-70 for one grid point. */
  function BuildRecord(bsz: int, kvLength: int, parsed: map<string, string>, toFloat: FloatParser): (r: Result<Row, RecordError>)
    ensures r.Success? ==> r.value.bsz == bsz && r.value.kvLength == kvLength
  {
    var cacheSize :- IntField(parsed, "Cache_Size");
    var mean :- FloatField(parsed, "Mean", toFloat);
    var median :- FloatField(parsed, "Median", toFloat);
    var p25 :- FloatField(parsed, "P25", toFloat);
    var p75 :- FloatField(parsed, "P75", toFloat);
    Success(Row(bsz, kvLength, cacheSize, mean, median, p25, p75))
  }

  /**
   * A row is built exactly when all five required keys are present and
   * convert; it carries the sweep's `bsz` and `kv_length` and the converted
   * values stored under the five keys.
   */
  lemma {:induction false} BuildRecordSucceeds(bsz: int, kvLength: int, parsed: map<string, string>, toFloat: FloatParser)
    ensures BuildRecord(bsz, kvLength, parsed, toFloat).Success? <==>
            forall k :: 0 <= k < |RequiredKeys| ==> FieldOk(parsed, RequiredKeys[k], toFloat)
    ensures BuildRecord(bsz, kvLength, parsed, toFloat).Success? ==>
            BuildRecord(bsz, kvLength, parsed, toFloat).value ==
              Row(bsz, kvLength,
                  ParseInt(parsed["Cache_Size"]).value,
                  toFloat(parsed["Mean"]).value,
                  toFloat(parsed["Median"]).value,
                  toFloat(parsed["P25"]).value,
                  toFloat(parsed["P75"]).value)
  {
    RequiredKeysListed();
    assert (forall k :: 0 <= k < |RequiredKeys| ==> FieldOk(parsed, RequiredKeys[k], toFloat)) <==>
           FieldOk(parsed, "Cache_Size", toFloat) && FieldOk(parsed, "Mean", toFloat) &&
           FieldOk(parsed, "Median", toFloat) && FieldOk(parsed, "P25", toFloat) && FieldOk(parsed, "P75", toFloat);
  }

  lemma {:induction false} RequiredKeysListed()
    ensures |RequiredKeys| == 5
    ensures RequiredKeys[0] == "Cache_Size" && RequiredKeys[1] == "Mean" && RequiredKeys[2] == "Median"
    ensures RequiredKeys[3] == "P25" && RequiredKeys[4] == "P75"
  {
  }

  /**
   * When no row is built, the error names the first required key, in the
   * literal's order, that is missing or does not convert; a missing key is
   * reported as such.
   */
  lemma {:induction false} BuildRecordFails(bsz: int, kvLength: int, parsed: map<string, string>, toFloat: FloatParser)
    requires BuildRecord(bsz, kvLength, parsed, toFloat).Failure?
    ensures var e := BuildRecord(bsz, kvLength, parsed, toFloat).error;
            exists k :: 0 <= k < |RequiredKeys| && e.key == RequiredKeys[k] &&
                        !FieldOk(parsed, e.key, toFloat) &&
                        (e.MissingKey? <==> e.key !in parsed) &&
                        forall j :: 0 <= j < k ==> FieldOk(parsed, RequiredKeys[j], toFloat)
  {
    var e := BuildRecord(bsz, kvLength, parsed, toFloat).error;
    RequiredKeysListed();
    if !FieldOk(parsed, "Cache_Size", toFloat) {
      assert e.key == RequiredKeys[0];
    } else if !FieldOk(parsed, "Mean", toFloat) {
      assert e.key == RequiredKeys[1];
    } else if !FieldOk(parsed, "Median", toFloat) {
      assert e.key == RequiredKeys[2];
    } else if !FieldOk(parsed, "P25", toFloat) {
      assert e.key == RequiredKeys[3];
    } else {
      assert e.key == RequiredKeys[4];
    }
  }

  /** Keys other than the five required ones have no influence on the row. */
  lemma {:induction false} ExtraKeysIgnored(bsz: int, kvLength: int, parsed: map<string, string>, other: map<string, string>, toFloat: FloatParser)
    requires forall k :: 0 <= k < |RequiredKeys| ==>
               (RequiredKeys[k] in parsed <==> RequiredKeys[k] in other) &&
               (RequiredKeys[k] in parsed ==> parsed[RequiredKeys[k]] == other[RequiredKeys[k]])
    ensures BuildRecord(bsz, kvLength, parsed, toFloat) == BuildRecord(bsz, kvLength, other, toFloat)
  {
    RequiredKeysListed();
  }
}
