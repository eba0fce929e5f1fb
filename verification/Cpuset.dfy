/** The cpuset list parser of queue/cpu_linux.go: comma-separated numbers and ranges, expanded
    without duplicates. strconv.ParseInt is modelled for base ten and 64 bits. */
module Cpuset {

  datatype Result<+T> = Ok(value: T) | Bad

  const MAX_UINT64 := 0xFFFF_FFFF_FFFF_FFFF
  const CUTOFF := 0x8000_0000_0000_0000

  // ---------------------------------------------------------------------------------
  // Strings

  /** strings.Split with a separator of one character. */
  function Split(s: string, sep: char): (parts: seq<string>)
    ensures |parts| >= 1
  {
    if s == "" then [""]
    else
      var rest := Split(s[1..], sep);
      if s[0] == sep then [""] + rest else [[s[0]] + rest[0]] + rest[1..]
  }

  function Join(parts: seq<string>, sep: char): string {
    if parts == [] then ""
    else if |parts| == 1 then parts[0]
    else parts[0] + [sep] + Join(parts[1..], sep)
  }

  /** strings.SplitN(s, sep, 2) for a string that contains the separator. */
  function SplitOnce(s: string, sep: char): (string, string)
    requires sep in s
  {
    if s[0] == sep then ("", s[1..])
    else
      var (a, b) := SplitOnce(s[1..], sep);
      ([s[0]] + a, b)
  }

  lemma {:induction false} SplitSingle(s: string, sep: char)
    requires sep !in s
    ensures Split(s, sep) == [s]
  {
    if s == "" {
    } else {
      SplitSingle(s[1..], sep);
      assert s == [s[0]] + s[1..];
    }
  }

  lemma {:induction false} SplitFirst(a: string, b: string, sep: char)
    requires sep !in a
    ensures Split(a + [sep] + b, sep) == [a] + Split(b, sep)
    ensures sep in a + [sep] + b && SplitOnce(a + [sep] + b, sep) == (a, b)
  {
    var s := a + [sep] + b;
    assert s[|a|] == sep;
    if a == "" {
      assert s[1..] == b;
    } else {
      assert s[1..] == a[1..] + [sep] + b;
      SplitFirst(a[1..], b, sep);
      assert a == [a[0]] + a[1..];
    }
  }

  lemma {:induction false} SplitUndoesJoin(parts: seq<string>, sep: char)
    requires parts != [] && forall i :: 0 <= i < |parts| ==> sep !in parts[i]
    ensures Split(Join(parts, sep), sep) == parts
  {
    if |parts| == 1 {
      SplitSingle(parts[0], sep);
    } else {
      SplitFirst(parts[0], Join(parts[1..], sep), sep);
      SplitUndoesJoin(parts[1..], sep);
    }
  }

  // ---------------------------------------------------------------------------------
  // Numbers

  datatype Parsed = Number(v: int) | OutOfRange | Malformed

  predicate IsDigit(c: char) { '0' <= c <= '9' }

  function DigitValue(c: char): (d: nat)
    requires IsDigit(c)
    ensures d <= 9
  {
    c as int - '0' as int
  }

  /** The digits are read one by one; an overflow of 64 bits ends the reading before any later
      character is looked at. */
  function ReadDigits(s: string, n: nat): Parsed {
    if s == "" then Number(n)
    else if !IsDigit(s[0]) then Malformed
    else if n * 10 + DigitValue(s[0]) > MAX_UINT64 then OutOfRange
    else ReadDigits(s[1..], n * 10 + DigitValue(s[0]))
  }

  function ParseInt(s: string): Parsed {
    if s == "" then Malformed
    else
      var signed := s[0] == '+' || s[0] == '-';
      var digits := if signed then s[1..] else s;
      if digits == "" then Malformed
      else
        match ReadDigits(digits, 0)
        case Number(n) =>
          if s[0] == '-' then (if n > CUTOFF then OutOfRange else Number(-n))
          else if n >= CUTOFF then OutOfRange
          else Number(n)
        case other => other
  }

  /** Out of range and negative both count as zero. */
  function ParseUint(s: string): Result<nat> {
    match ParseInt(s)
    case Malformed => Bad
    case OutOfRange => Ok(0)
    case Number(v) => Ok(if v < 0 then 0 else v)
  }

  // ---------------------------------------------------------------------------------
  // Lists

  /** The values of one comma-separated field, as bounds. */
  function ParseField(field: string): Result<(nat, nat)> {
    if '-' in field then
      var (a, b) := SplitOnce(field, '-');
      match (ParseUint(a), ParseUint(b))
      case (Ok(lo), Ok(hi)) => if hi < lo then Bad else Ok((lo, hi))
      case _ => Bad
    else
      match ParseUint(field)
      case Ok(v) => Ok((v, v))
      case Bad => Bad
  }

  function Include(sets: seq<nat>, v: nat): seq<nat> {
    if v in sets then sets else sets + [v]
  }

  function IncludeRange(sets: seq<nat>, lo: nat, hi: int): seq<nat>
    decreases hi - lo
  {
    if hi < lo then sets else IncludeRange(Include(sets, lo), lo + 1, hi)
  }

  function IncludeFields(sets: seq<nat>, fields: seq<string>): Result<seq<nat>>
    decreases |fields|
  {
    if fields == [] then Ok(sets)
    else
      match ParseField(fields[0])
      case Bad => Bad
      case Ok((lo, hi)) => IncludeFields(IncludeRange(sets, lo, hi), fields[1..])
  }

  function Parse(val: string): Result<seq<nat>> {
    if val == "" then Ok([]) else IncludeFields([], Split(val, ','))
  }

  method ParseUints(val: string) returns (r: Result<seq<nat>>)
    ensures r == Parse(val)
  {
    if val == "" {
      return Ok([]);
    }
    var sets: seq<nat> := [];
    var seen: set<nat> := {};
    var fields := Split(val, ',');
    for k := 0 to |fields|
      invariant forall v :: v in seen <==> v in sets
      invariant Parse(val) == IncludeFields(sets, fields[k..])
    {
      assert fields[k..][0] == fields[k] && fields[k..][1..] == fields[k + 1..];
      var field := fields[k];
      if '-' in field {
        var (a, b) := SplitOnce(field, '-');
        var minimum := ParseUint(a);
        if minimum.Bad? {
          return Bad;
        }
        var maximum := ParseUint(b);
        if maximum.Bad? {
          return Bad;
        }
        if maximum.value < minimum.value {
          return Bad;
        }
        sets, seen := ExpandRange(sets, seen, minimum.value, maximum.value);
      } else {
        var v := ParseUint(field);
        if v.Bad? {
          return Bad;
        }
        assert IncludeRange(sets, v.value, v.value) == Include(sets, v.value);
        if v.value !in seen {
          seen := seen + {v.value};
          sets := sets + [v.value];
        }
      }
    }
    return Ok(sets);
  }

  /** The inner loop of the range branch. */
  method ExpandRange(sets: seq<nat>, seen: set<nat>, minimum: nat, maximum: nat)
      returns (sets': seq<nat>, seen': set<nat>)
    requires forall v :: v in seen <==> v in sets
    ensures sets' == IncludeRange(sets, minimum, maximum)
    ensures forall v :: v in seen' <==> v in sets'
  {
    sets', seen' := sets, seen;
    var i := minimum;
    while i <= maximum
      invariant forall v :: v in seen' <==> v in sets'
      invariant IncludeRange(sets', i, maximum) == IncludeRange(sets, minimum, maximum)
    {
      if i !in seen' {
        seen' := seen' + {i};
        sets' := sets' + [i];
      }
      i := i + 1;
    }
  }

  // ---------------------------------------------------------------------------------
  // The list without duplicates

  predicate Distinct(xs: seq<nat>) {
    forall i, j :: 0 <= i < j < |xs| ==> xs[i] != xs[j]
  }

  lemma {:induction false} RangeIncluded(sets: seq<nat>, lo: nat, hi: int)
    requires Distinct(sets)
    ensures Distinct(IncludeRange(sets, lo, hi))
    ensures forall v :: v in IncludeRange(sets, lo, hi) <==> v in sets || lo <= v <= hi
    decreases hi - lo
  {
    if lo > hi {
    } else {
      RangeIncluded(Include(sets, lo), lo + 1, hi);
    }
  }

  /** Whatever the input, an accepted list has no duplicates. */
  lemma {:induction false} NoDuplicates(sets: seq<nat>, fields: seq<string>)
    requires Distinct(sets)
    ensures IncludeFields(sets, fields).Ok? ==> Distinct(IncludeFields(sets, fields).value)
    decreases |fields|
  {
    if fields == [] {
    } else {
      match ParseField(fields[0])
      case Bad =>
      case Ok((lo, hi)) =>
        RangeIncluded(sets, lo, hi);
        NoDuplicates(IncludeRange(sets, lo, hi), fields[1..]);
    }
  }

  // ---------------------------------------------------------------------------------
  // Rendering

  function Decimal(n: nat): string {
    if n < 10 then [('0' as int + n) as char] else Decimal(n / 10) + [('0' as int + n % 10) as char]
  }

  lemma {:induction false} DecimalIsDigits(n: nat)
    ensures Decimal(n) != "" && forall i :: 0 <= i < |Decimal(n)| ==> IsDigit(Decimal(n)[i])
  {
    if n < 10 {
      assert Decimal(n)[0] == ('0' as int + n) as char;
    } else {
      DecimalIsDigits(n / 10);
    }
  }

  /** Reading a rendered number gives it back, or overflows, before going on to what follows. */
  lemma {:induction false} ReadDecimal(n: nat, rest: string)
    ensures ReadDigits(Decimal(n) + rest, 0) == if n > MAX_UINT64 then OutOfRange else ReadDigits(rest, n)
  {
    var d := [('0' as int + n % 10) as char];
    assert DigitValue(d[0]) == n % 10;
    assert (d + rest)[1..] == rest;
    if n < 10 {
      assert Decimal(n) == d;
    } else {
      assert Decimal(n) + rest == Decimal(n / 10) + (d + rest);
      ReadDecimal(n / 10, d + rest);
    }
  }

  /** A rendered number is read as itself exactly below 2^63, and as zero from there on. */
  lemma ParseDecimal(n: nat)
    ensures ParseUint(Decimal(n)) == Ok(if n < CUTOFF then n else 0)
  {
    DecimalIsDigits(n);
    ReadDecimal(n, "");
    assert Decimal(n) + "" == Decimal(n);
    assert IsDigit(Decimal(n)[0]);
  }

  datatype Range = One(v: nat) | Span(lo: nat, hi: nat)

  function Low(r: Range): nat { if r.One? then r.v else r.lo }

  function High(r: Range): nat { if r.One? then r.v else r.hi }

  function Render(r: Range): string {
    match r
    case One(v) => Decimal(v)
    case Span(lo, hi) => Decimal(lo) + "-" + Decimal(hi)
  }

  predicate Proper(r: Range) { Low(r) <= High(r) < CUTOFF }

  lemma NotInDecimal(n: nat, c: char)
    requires !IsDigit(c)
    ensures c !in Decimal(n)
  {
    DecimalIsDigits(n);
  }

  lemma ParseRendered(r: Range)
    requires Proper(r)
    ensures ParseField(Render(r)) == Ok((Low(r), High(r)))
    ensures ',' !in Render(r)
  {
    NotInDecimal(Low(r), '-');
    NotInDecimal(Low(r), ',');
    NotInDecimal(High(r), ',');
    ParseDecimal(Low(r));
    ParseDecimal(High(r));
    if r.Span? {
      SplitFirst(Decimal(r.lo), Decimal(r.hi), '-');
    }
  }

  function RenderAll(ranges: seq<Range>): seq<string> {
    if ranges == [] then [] else [Render(ranges[0])] + RenderAll(ranges[1..])
  }

  predicate Covers(ranges: seq<Range>, v: nat) {
    exists i :: 0 <= i < |ranges| && Low(ranges[i]) <= v <= High(ranges[i])
  }

  lemma {:induction false} RenderedFields(ranges: seq<Range>)
    requires forall i :: 0 <= i < |ranges| ==> Proper(ranges[i])
    ensures |RenderAll(ranges)| == |ranges|
    ensures forall i :: 0 <= i < |ranges| ==> RenderAll(ranges)[i] == Render(ranges[i]) && ',' !in Render(ranges[i])
  {
    if ranges == [] {
    } else {
      ParseRendered(ranges[0]);
      RenderedFields(ranges[1..]);
    }
  }

  lemma CoversFirst(ranges: seq<Range>, v: nat)
    requires ranges != []
    ensures Covers(ranges, v) <==> Low(ranges[0]) <= v <= High(ranges[0]) || Covers(ranges[1..], v)
  {
    if Covers(ranges[1..], v) {
      var i :| 0 <= i < |ranges[1..]| && Low(ranges[1..][i]) <= v <= High(ranges[1..][i]);
      assert ranges[i + 1] == ranges[1..][i];
    }
    if Covers(ranges, v) {
      var i :| 0 <= i < |ranges| && Low(ranges[i]) <= v <= High(ranges[i]);
      if i > 0 {
        assert ranges[1..][i - 1] == ranges[i];
      }
    }
  }

  lemma {:induction false} FieldsCovered(sets: seq<nat>, ranges: seq<Range>)
    requires Distinct(sets) && forall i :: 0 <= i < |ranges| ==> Proper(ranges[i])
    ensures var r := IncludeFields(sets, RenderAll(ranges));
            && r.Ok? && Distinct(r.value)
            && forall v :: v in r.value <==> v in sets || Covers(ranges, v)
    decreases |ranges|
  {
    if ranges == [] {
    } else {
      var next := IncludeRange(sets, Low(ranges[0]), High(ranges[0]));
      ParseRendered(ranges[0]);
      RangeIncluded(sets, Low(ranges[0]), High(ranges[0]));
      FieldsCovered(next, ranges[1..]);
      assert RenderAll(ranges)[1..] == RenderAll(ranges[1..]);
      forall v: nat { CoversFirst(ranges, v); }
    }
  }

  /** Round trip: any list of ranges with bounds below 2^63, rendered, is accepted and expanded to
      a list without duplicates that holds exactly the union of the ranges. */
  lemma ParseUndoesRender(ranges: seq<Range>)
    requires forall i :: 0 <= i < |ranges| ==> Proper(ranges[i])
    ensures var r := Parse(Join(RenderAll(ranges), ','));
            && r.Ok? && Distinct(r.value)
            && forall v :: v in r.value <==> Covers(ranges, v)
  {
    FieldsCovered([], ranges);
    if ranges != [] {
      RenderedFields(ranges);
      SplitUndoesJoin(RenderAll(ranges), ',');
      JoinNotEmpty(ranges);
    }
  }

  lemma JoinNotEmpty(ranges: seq<Range>)
    requires ranges != []
    ensures Join(RenderAll(ranges), ',') != ""
  {
    DecimalIsDigits(Low(ranges[0]));
    assert RenderAll(ranges)[0] == Render(ranges[0]) != "";
  }
}
