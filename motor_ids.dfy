/** Parsing of the comma-separated motor-ID lists given on the command
    line (`parse_motor_ids` in both command-line front ends, and the same
    comprehension without error mapping in the leader-reading script). */
module MotorIds {
  import opened Errors
  import opened Text

  predicate IsDigit(c: char) {
    '0' <= c <= '9'
  }

  predicate AllDigits(d: string) {
    forall i :: 0 <= i < |d| ==> IsDigit(d[i])
  }

  /** Value of a string of ASCII decimal digits. */
  function DigitsValue(d: string): nat
    requires AllDigits(d)
  {
    if |d| == 0 then 0 else DigitsValue(d[..|d| - 1]) * 10 + (d[|d| - 1] as int - '0' as int)
  }

  /** Python's `int(field.strip())` for base-10 text: an optional sign
      followed by at least one ASCII digit; None where `int` raises
      ValueError. */
  function IntOf(field: string): Option<int> {
    var t := Strip(field);
    if |t| > 1 && (t[0] == '+' || t[0] == '-') && AllDigits(t[1..]) then
      var v: int := DigitsValue(t[1..]);
      Some(if t[0] == '-' then -v else v)
    else if |t| > 0 && AllDigits(t) then
      Some(DigitsValue(t))
    else
      None
  }

  /** `[int(id.strip()) for id in fields]`: one integer per field in
      field order, or the ValueError of the first field `int` rejects. */
  function ParseFields(fields: seq<string>): (r: Result<seq<int>>)
    ensures r.Ok? <==> forall i :: 0 <= i < |fields| ==> IntOf(fields[i]).Some?
    ensures r.Ok? ==> |r.value| == |fields|
    ensures r.Ok? ==> forall i :: 0 <= i < |fields| ==> IntOf(fields[i]) == Some(r.value[i])
    ensures r.Err? ==> FirstBad(fields) < |fields|
                       && r.error == ValueError(InvalidIntLiteral(Strip(fields[FirstBad(fields)])))
  {
    if |fields| == 0 then Ok([])
    else
      var head := IntOf(fields[0]);
      if head.None? then Err(ValueError(InvalidIntLiteral(Strip(fields[0]))))
      else
        var tail := ParseFields(fields[1..]);
        assert forall i :: 1 <= i < |fields| ==> fields[1..][i - 1] == fields[i];
        if tail.Ok? then Ok([head.value] + tail.value) else tail
  }

  /** Index of the first field `int` rejects (|fields| when there is none). */
  function FirstBad(fields: seq<string>): (k: nat)
    ensures k <= |fields|
    ensures forall j :: 0 <= j < k ==> IntOf(fields[j]).Some?
    ensures k < |fields| ==> IntOf(fields[k]).None?
  {
    if |fields| == 0 || IntOf(fields[0]).None? then 0
    else
      assert forall i :: 1 <= i < |fields| ==> fields[1..][i - 1] == fields[i];
      1 + FirstBad(fields[1..])
  }

  /** `parse_motor_ids`: one integer per comma-separated field, in input
      order; any field `int` rejects (an empty input or an empty field
      included) gives ValueError("Invalid motor IDs format: <input>"). */
  function ParseMotorIds(s: string): (r: Result<seq<int>>)
    ensures r.Ok? <==> forall i :: 0 <= i < |Split(s, ',')| ==> IntOf(Split(s, ',')[i]).Some?
    ensures r.Ok? ==> |r.value| == Count(s, ',') + 1
    ensures r.Ok? ==> forall i :: 0 <= i < |r.value| ==> IntOf(Split(s, ',')[i]) == Some(r.value[i])
    ensures r.Err? ==> r.error == ValueError(InvalidMotorIdsFormat(s))
  {
    var fields := Split(s, ',');
    var parsed := ParseFields(fields);
    if parsed.Ok? then parsed
    else
      var k := FirstBad(fields);
      assert 0 <= k < |Split(s, ',')| && IntOf(Split(s, ',')[k]).None?;
      Err(ValueError(InvalidMotorIdsFormat(s)))
  }

  /** The message the ValueError of `parse_motor_ids` carries. */
  function InvalidFormatMessage(p: ValueProblem): string
    requires p.InvalidMotorIdsFormat?
  {
    "Invalid motor IDs format: " + p.input
  }

  /** An empty argument is rejected: `"".split(",")` is `[""]`. */
  lemma EmptyInputRejected()
    ensures ParseMotorIds("") == Err(ValueError(InvalidMotorIdsFormat("")))
  {
    assert Split("", ',') == [""];
    assert IntOf("").None?;
  }

  // ---- decimal text of an integer, the inverse of parsing ----

  function DigitChar(d: nat): char
    requires d < 10
  {
    ('0' as int + d) as char
  }

  function NatToDecimal(n: nat): (s: string)
    ensures |s| > 0
  {
    if n < 10 then [DigitChar(n)] else NatToDecimal(n / 10) + [DigitChar(n % 10)]
  }

  /** Python's `str(n)` for an integer. */
  function IntToDecimal(n: int): string {
    if n < 0 then "-" + NatToDecimal(-n) else NatToDecimal(n)
  }

  lemma {:induction false} NatToDecimalValue(n: nat)
    ensures AllDigits(NatToDecimal(n)) && DigitsValue(NatToDecimal(n)) == n
  {
    var s := NatToDecimal(n);
    if n >= 10 {
      NatToDecimalValue(n / 10);
      assert s[..|s| - 1] == NatToDecimal(n / 10);
    }
  }

  /** `int` reads back what `str` wrote, whatever whitespace surrounds it. */
  lemma IntOfDecimal(n: int, a: string, b: string)
    requires AllSpace(a) && AllSpace(b)
    ensures IntOf(a + IntToDecimal(n) + b) == Some(n)
  {
    var t := IntToDecimal(n);
    DecimalForm(n);
    StripPadded(a, t, b);
    assert Strip(a + t + b) == t;
  }

  /** The shape of `str(n)`: no surrounding whitespace, an optional minus
      sign, then the digits of the magnitude. */
  lemma DecimalForm(n: int)
    ensures var t := IntToDecimal(n);
            Trimmed(t) && |t| > 0 && t[0] != '+'
            && (n < 0 ==> |t| > 1 && t[0] == '-' && AllDigits(t[1..]) && DigitsValue(t[1..]) == -n)
            && (n >= 0 ==> t[0] != '-' && AllDigits(t) && DigitsValue(t) == n)
  {
    var m: nat := if n < 0 then -n else n;
    var d := NatToDecimal(m);
    NatToDecimalValue(m);
    var t := IntToDecimal(n);
    assert IsDigit(d[0]) && IsDigit(d[|d| - 1]);
    if n < 0 {
      assert t[1..] == d && t[|t| - 1] == d[|d| - 1];
    } else {
      assert t == d;
    }
  }

  /** A motor-ID list written with `pad` around every number, joined by
      commas. */
  function FormatMotorIds(ids: seq<int>, pad: string): string
    requires |ids| > 0
  {
    Join(seq(|ids|, i requires 0 <= i < |ids| => pad + IntToDecimal(ids[i]) + pad), ',')
  }

  lemma NoCommaInDecimal(n: int)
    ensures ',' !in IntToDecimal(n)
  {
    NatToDecimalValue(if n < 0 then -n else n);
  }

  /** Round trip: every non-empty ID list, written out with any whitespace
      around its numbers, parses back to itself. */
  lemma ParseFormatted(ids: seq<int>, pad: string)
    requires |ids| > 0 && AllSpace(pad)
    ensures ParseMotorIds(FormatMotorIds(ids, pad)) == Ok(ids)
  {
    var fields := seq(|ids|, i requires 0 <= i < |ids| => pad + IntToDecimal(ids[i]) + pad);
    forall i | 0 <= i < |fields|
      ensures ',' !in fields[i] && IntOf(fields[i]) == Some(ids[i])
    {
      NoCommaInDecimal(ids[i]);
      assert forall j :: 0 <= j < |pad| ==> pad[j] != ',';
      IntOfDecimal(ids[i], pad, pad);
    }
    SplitJoin(fields, ',');
    var parsed := ParseFields(fields);
    assert parsed.Ok?;
    assert parsed.value == ids;
  }
}
