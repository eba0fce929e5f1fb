/** What the cpuset parser reads, what it rejects, and in which order it lists what it reads. */
module CpusetErrors {
  import opened Cpuset

  // ---------------------------------------------------------------------------------
  // Numbers

  predicate AllDigits(s: string) { forall i :: 0 <= i < |s| ==> '0' <= s[i] <= '9' }

  /** The number n followed by the digits of s, in base ten. */
  function Value(n: nat, s: string): nat
    requires AllDigits(s)
    decreases |s|
  {
    if s == "" then n else Value(n * 10 + (s[0] as int - '0' as int), s[1..])
  }

  lemma {:induction false} ValueGrows(n: nat, s: string)
    requires AllDigits(s)
    ensures Value(n, s) >= n
    decreases |s|
  {
    if s == "" {
    } else {
      ValueGrows(n * 10 + (s[0] as int - '0' as int), s[1..]);
    }
  }

  /** A digit string is read as its value, or is out of range when that needs more than 64 bits. */
  lemma {:induction false} DigitsRead(s: string, n: nat)
    requires AllDigits(s) && n <= MAX_UINT64
    ensures ReadDigits(s, n) == if Value(n, s) > 0xFFFF_FFFF_FFFF_FFFF then OutOfRange else Number(Value(n, s))
  {
    if s == "" {
    } else {
      var m := n * 10 + (s[0] as int - '0' as int);
      ValueGrows(m, s[1..]);
      if m <= MAX_UINT64 {
        DigitsRead(s[1..], m);
      }
    }
  }

  /** The first character that is no digit makes the string malformed, unless the digits before it
      are out of range already. */
  lemma {:induction false} NonDigitRead(digits: string, c: char, rest: string, n: nat)
    requires AllDigits(digits) && !('0' <= c <= '9') && n <= MAX_UINT64
    ensures ReadDigits(digits + [c] + rest, n)
         == if Value(n, digits) > 0xFFFF_FFFF_FFFF_FFFF then OutOfRange else Malformed
  {
    var s := digits + [c] + rest;
    if digits == "" {
      assert s[0] == c;
    } else {
      var m := n * 10 + (digits[0] as int - '0' as int);
      ValueGrows(m, digits[1..]);
      assert s[0] == digits[0] && s[1..] == digits[1..] + [c] + rest;
      if m <= MAX_UINT64 {
        NonDigitRead(digits[1..], c, rest, m);
      }
    }
  }

  /** An unsigned or plus-signed digit string is its value below 2^63 and zero from there on; a
      minus-signed one is zero. */
  lemma NumbersRead(s: string)
    requires AllDigits(s) && s != ""
    ensures ParseUint(s) == Ok(if Value(0, s) < 0x8000_0000_0000_0000 then Value(0, s) else 0)
    ensures ParseUint("+" + s) == ParseUint(s)
    ensures ParseUint("-" + s) == Ok(0)
  {
    DigitsRead(s, 0);
    assert ("+" + s)[1..] == s && ("-" + s)[1..] == s;
  }

  /** What is no number: nothing at all, a sign alone, and any string whose first character after the
      sign that is no digit comes before an overflow. */
  lemma MalformedRejected(sign: string, digits: string, c: char, rest: string)
    requires sign in {"", "+", "-"} && AllDigits(digits) && !('0' <= c <= '9')
    requires sign == "" && digits == "" ==> c != '+' && c != '-'
    ensures ParseUint("") == Bad && ParseUint("+") == Bad && ParseUint("-") == Bad
    ensures ParseUint(sign + digits + [c] + rest)
         == if Value(0, digits) > 0xFFFF_FFFF_FFFF_FFFF then Ok(0) else Bad
  {
    var s := digits + [c] + rest;
    NonDigitRead(digits, c, rest, 0);
    assert sign + digits + [c] + rest == sign + s;
    if sign == "" {
      assert sign + s == s && s[0] != '+' && s[0] != '-';
    } else {
      assert (sign + s)[1..] == s && (sign + s)[0] == sign[0];
    }
  }

  // ---------------------------------------------------------------------------------
  // Fields

  /** A range is read as its two bounds unless one of them is no number or they are reversed. */
  lemma RangesRead(a: string, b: string)
    requires '-' !in a
    ensures ParseField(a + "-" + b)
         == if ParseUint(a).Bad? || ParseUint(b).Bad? || ParseUint(b).value < ParseUint(a).value then Bad
            else Ok((ParseUint(a).value, ParseUint(b).value))
  {
    SplitFirst(a, b, '-');
    assert a + "-" + b == a + ['-'] + b;
  }

  /** A field without a dash is a range of one number. */
  lemma SinglesRead(field: string)
    requires '-' !in field
    ensures ParseField(field)
         == if ParseUint(field).Bad? then Bad else Ok((ParseUint(field).value, ParseUint(field).value))
  {
  }

  /** A list is rejected exactly when one of its fields is, wherever it stands. */
  lemma {:induction false} ListRejectedExactlyWhen(sets: seq<nat>, fields: seq<string>)
    ensures IncludeFields(sets, fields).Bad? <==> exists i :: 0 <= i < |fields| && ParseField(fields[i]).Bad?
    decreases |fields|
  {
    if fields == [] {
    } else {
      match ParseField(fields[0])
      case Bad =>
      case Ok((lo, hi)) =>
        ListRejectedExactlyWhen(IncludeRange(sets, lo, hi), fields[1..]);
        if i :| 0 <= i < |fields| && ParseField(fields[i]).Bad? {
          assert fields[1..][i - 1] == fields[i];
        }
        if i :| 0 <= i < |fields[1..]| && ParseField(fields[1..][i]).Bad? {
          assert fields[i + 1] == fields[1..][i];
        }
    }
  }

  /** Of the lists that can be rendered with bounds below 2^63, those with no reversed range are
      accepted. */
  lemma RenderedAcceptedExactlyWhen(ranges: seq<Range>)
    requires ranges != [] && forall i :: 0 <= i < |ranges| ==> Low(ranges[i]) < CUTOFF && High(ranges[i]) < CUTOFF
    ensures Parse(Join(RenderAll(ranges), ',')).Ok? <==>
              forall i :: 0 <= i < |ranges| ==> Low(ranges[i]) <= High(ranges[i])
  {
    RenderedParts(ranges);
    SplitUndoesJoin(RenderAll(ranges), ',');
    JoinNotEmpty(ranges);
    ListRejectedExactlyWhen([], RenderAll(ranges));
  }

  lemma {:induction false} RenderedParts(ranges: seq<Range>)
    requires forall i :: 0 <= i < |ranges| ==> Low(ranges[i]) < CUTOFF && High(ranges[i]) < CUTOFF
    ensures |RenderAll(ranges)| == |ranges|
    ensures forall i :: 0 <= i < |ranges| ==>
              && ',' !in RenderAll(ranges)[i]
              && (ParseField(RenderAll(ranges)[i]).Ok? <==> Low(ranges[i]) <= High(ranges[i]))
  {
    if ranges == [] {
    } else {
      RenderedPart(ranges[0]);
      RenderedParts(ranges[1..]);
    }
  }

  lemma RenderedPart(r: Range)
    requires Low(r) < CUTOFF && High(r) < CUTOFF
    ensures ',' !in Render(r)
    ensures ParseField(Render(r)).Ok? <==> Low(r) <= High(r)
  {
    NotInDecimal(Low(r), '-');
    NotInDecimal(Low(r), ',');
    NotInDecimal(High(r), ',');
    ParseDecimal(Low(r));
    ParseDecimal(High(r));
    if r.Span? {
      RangesRead(Decimal(r.lo), Decimal(r.hi));
    } else {
      SinglesRead(Decimal(r.v));
    }
  }

  // ---------------------------------------------------------------------------------
  // Order

  predicate Increasing(xs: seq<nat>) {
    forall i, j :: 0 <= i < j < |xs| ==> xs[i] < xs[j]
  }

  /** A range appends what is new in it, in increasing order, to what is already there. */
  lemma {:induction false} RangeAppends(sets: seq<nat>, lo: nat, hi: int) returns (added: seq<nat>)
    ensures IncludeRange(sets, lo, hi) == sets + added
    ensures Increasing(added) && forall v :: v in added <==> lo <= v <= hi && v !in sets
    decreases hi - lo
  {
    added := [];
    if lo > hi {
    } else {
      var rest := RangeAppends(Include(sets, lo), lo + 1, hi);
      if lo in sets {
        added := rest;
      } else {
        added := [lo] + rest;
        ConsIncreasing(lo, rest);
        assert sets + [lo] + rest == sets + added;
      }
    }
  }

  lemma ConsIncreasing(x: nat, rest: seq<nat>)
    requires Increasing(rest) && forall v :: v in rest ==> x < v
    ensures Increasing([x] + rest)
  {
    forall j | 0 <= j < |rest| ensures x < rest[j] {
      assert rest[j] in rest;
    }
  }

  /** Fields are read from left to right: what is there stays in front. */
  lemma {:induction false} FieldsAppend(sets: seq<nat>, fields: seq<string>)
    requires IncludeFields(sets, fields).Ok?
    ensures sets <= IncludeFields(sets, fields).value
    decreases |fields|
  {
    if fields == [] {
    } else {
      var bounds := ParseField(fields[0]).value;
      var added := RangeAppends(sets, bounds.0, bounds.1);
      FieldsAppend(sets + added, fields[1..]);
    }
  }
}
