/**
 * The text the sinks write with fprintf: the "%d" rendering of an integer,
 * comma-joined fields, and the parsing functions that invert both.
 */
module Printf {
  import opened Common

  predicate IsDigit(c: char)
  {
    '0' <= c <= '9'
  }

  function DigitChar(d: nat): (c: char)
    requires d < 10
    ensures IsDigit(c)
  {
    "0123456789"[d]
  }

  function DigitValue(c: char): (d: nat)
    requires IsDigit(c)
    ensures d < 10
  {
    (c as int) - ('0' as int)
  }

  lemma DigitRoundTrip(d: nat)
    requires d < 10
    ensures DigitValue(DigitChar(d)) == d
  {
  }

  predicate AllDigits(s: string)
  {
    forall i | 0 <= i < |s| :: IsDigit(s[i])
  }

  /** The decimal digits of n, most significant first, without leading zeros. */
  function NatToDigits(n: nat): (s: string)
    ensures |s| >= 1 && IsDigit(s[0])
    decreases n
  {
    if n < 10 then [DigitChar(n)] else NatToDigits(n / 10) + [DigitChar(n % 10)]
  }

  lemma {:induction false} NatToDigitsAllDigits(n: nat)
    ensures AllDigits(NatToDigits(n))
    decreases n
  {
    if n >= 10 {
      NatToDigitsAllDigits(n / 10);
      var s := NatToDigits(n);
      forall i | 0 <= i < |s| ensures IsDigit(s[i]) {
        if i < |s| - 1 {
          assert s[i] == NatToDigits(n / 10)[i];
        }
      }
    }
  }

  /** fprintf "%d": an optional minus sign followed by the decimal digits. */
  function Decimal(n: int): (s: string)
    ensures |s| >= 1
    ensures s[0] == '-' <==> n < 0
  {
    if n < 0 then "-" + NatToDigits(-n) else NatToDigits(n)
  }

  /** A minus sign first exactly for a negative value, and decimal digits everywhere else. */
  lemma DecimalChars(n: int)
    ensures Decimal(n)[0] == '-' <==> n < 0
    ensures forall i | 0 <= i < |Decimal(n)| :: IsDigit(Decimal(n)[i]) || (i == 0 && Decimal(n)[i] == '-')
  {
    var s := Decimal(n);
    if n < 0 {
      var digits := NatToDigits(-n);
      NatToDigitsAllDigits(-n);
      assert s == "-" + digits;
      forall i | 0 <= i < |s| ensures IsDigit(s[i]) || (i == 0 && s[i] == '-') {
        if i > 0 {
          assert s[i] == digits[i - 1];
        }
      }
    } else {
      NatToDigitsAllDigits(n);
      assert IsDigit(s[0]);
    }
  }

  /** The value of a non-empty digit string. */
  function ParseNat(s: string): nat
    requires |s| >= 1 && AllDigits(s)
  {
    if |s| == 1 then DigitValue(s[0]) else 10 * ParseNat(s[..|s| - 1]) + DigitValue(s[|s| - 1])
  }

  /** Reads back a "%d" field; None for anything that is not an optional '-' and digits. */
  function ParseDecimal(s: string): Option<int>
  {
    if |s| >= 2 && s[0] == '-' && AllDigits(s[1..]) then Some(0 - ParseNat(s[1..]))
    else if |s| >= 1 && AllDigits(s) then Some(ParseNat(s))
    else None
  }

  lemma {:induction false} NatRoundTrip(n: nat)
    ensures AllDigits(NatToDigits(n)) && ParseNat(NatToDigits(n)) == n
    decreases n
  {
    NatToDigitsAllDigits(n);
    if n >= 10 {
      var s := NatToDigits(n);
      assert s[..|s| - 1] == NatToDigits(n / 10);
      NatRoundTrip(n / 10);
      DigitRoundTrip(n % 10);
    } else {
      DigitRoundTrip(n);
    }
  }

  /** Reading back what "%d" printed gives the printed value. */
  lemma DecimalRoundTrip(n: int)
    ensures ParseDecimal(Decimal(n)) == Some(n)
  {
    var s := Decimal(n);
    if n < 0 {
      assert s[1..] == NatToDigits(-n);
      NatRoundTrip(-n);
    } else {
      NatRoundTrip(n);
    }
  }

  /** A field that can sit between separators: no comma and no line break. */
  predicate IsField(s: string)
  {
    ',' !in s && '\n' !in s
  }

  lemma DecimalIsField(n: int)
    ensures IsField(Decimal(n))
  {
    var s := Decimal(n);
    DecimalChars(n);
    forall i | 0 <= i < |s| ensures s[i] != ',' && s[i] != '\n' {
    }
  }

  /** The fields separated by commas, with no comma before the first or after the last. */
  function JoinCommas(fields: seq<string>): string
  {
    if fields == [] then "" else if |fields| == 1 then fields[0] else fields[0] + "," + JoinCommas(fields[1..])
  }

  /** The comma-separated fields of a text, first to last (one field when there is no comma). */
  function Split(s: string): seq<string>
    ensures |Split(s)| >= 1
  {
    if s == [] then [""]
    else if s[0] == ',' then [""] + Split(s[1..])
    else var rest := Split(s[1..]); [[s[0]] + rest[0]] + rest[1..]
  }

  lemma {:induction false} SplitFieldPrefix(a: string, rest: string)
    requires ',' !in a
    ensures Split(a + rest)[0] == a + Split(rest)[0]
    ensures Split(a + rest)[1..] == Split(rest)[1..]
  {
    if a != [] {
      assert (a + rest)[0] == a[0];
      assert (a + rest)[1..] == a[1..] + rest;
      SplitFieldPrefix(a[1..], rest);
      assert [a[0]] + a[1..] == a;
    } else {
      assert a + rest == rest;
    }
  }

  /** Splitting comma-joined comma-free fields gives the fields back. */
  lemma {:induction false} SplitJoin(fields: seq<string>)
    requires |fields| >= 1
    requires forall f | f in fields :: ',' !in f
    ensures Split(JoinCommas(fields)) == fields
  {
    if |fields| == 1 {
      SplitFieldPrefix(fields[0], "");
      assert fields[0] + "" == fields[0];
    } else {
      var tail := JoinCommas(fields[1..]);
      SplitJoin(fields[1..]);
      calc {
        Split(JoinCommas(fields));
        { assert JoinCommas(fields) == fields[0] + ("," + tail); }
        Split(fields[0] + ("," + tail));
        { SplitFieldPrefix(fields[0], "," + tail); }
        [fields[0] + Split("," + tail)[0]] + Split("," + tail)[1..];
        { assert ("," + tail)[1..] == tail; }
        [fields[0] + ""] + Split(tail);
        { assert fields[0] + "" == fields[0]; }
        fields;
      }
    }
  }

  function CountChar(s: string, c: char): nat
  {
    if s == [] then 0 else (if s[0] == c then 1 else 0) + CountChar(s[1..], c)
  }

  lemma {:induction false} CountCharAppend(s: string, t: string, c: char)
    ensures CountChar(s + t, c) == CountChar(s, c) + CountChar(t, c)
  {
    if s == [] {
      assert s + t == t;
    } else {
      assert (s + t)[1..] == s[1..] + t;
      CountCharAppend(s[1..], t, c);
    }
  }

  lemma {:induction false} CountCharAbsent(s: string, c: char)
    requires c !in s
    ensures CountChar(s, c) == 0
  {
    if s != [] {
      CountCharAbsent(s[1..], c);
    }
  }

  /** n comma-free fields joined carry exactly n - 1 commas. */
  lemma {:induction false} JoinCommasCount(fields: seq<string>)
    requires |fields| >= 1
    requires forall f | f in fields :: ',' !in f
    ensures CountChar(JoinCommas(fields), ',') == |fields| - 1
  {
    CountCharAbsent(fields[0], ',');
    if |fields| > 1 {
      var tail := JoinCommas(fields[1..]);
      JoinCommasCount(fields[1..]);
      assert JoinCommas(fields) == fields[0] + ("," + tail);
      CountCharAppend(fields[0], "," + tail, ',');
      assert ("," + tail)[1..] == tail;
      assert CountChar("," + tail, ',') == 1 + CountChar(tail, ',');
    }
  }

  /** Joined fields free of line breaks contain no line break. */
  lemma {:induction false} JoinCommasNoNewline(fields: seq<string>)
    requires forall f | f in fields :: '\n' !in f
    ensures '\n' !in JoinCommas(fields)
  {
    if |fields| > 1 {
      JoinCommasNoNewline(fields[1..]);
    }
  }

  /** Appending one more field: joined with a comma unless it is the first. */
  lemma {:induction false} JoinCommasSnoc(fields: seq<string>, f: string)
    ensures JoinCommas(fields + [f]) == if fields == [] then f else JoinCommas(fields) + "," + f
  {
    if |fields| == 1 {
      assert fields + [f] == [fields[0], f];
    } else if |fields| > 1 {
      assert (fields + [f])[1..] == fields[1..] + [f];
      JoinCommasSnoc(fields[1..], f);
    }
  }

  /** A FILE* opened for writing: the text fprintf has put into it so far. */
  class TextFile {
    var text: string

    constructor ()
      ensures text == ""
    {
      text := "";
    }

    /** fprintf of already formatted text: appended at the end. */
    method Write(s: string)
      modifies this
      ensures text == old(text) + s
    {
      text := text + s;
    }
  }

  /** fopen(name, "w"): an empty file, or nothing when the open fails. */
  method Open(succeeds: bool) returns (file: Option<TextFile>)
    ensures file.Some? <==> succeeds
    ensures file.Some? ==> fresh(file.value) && file.value.text == ""
  {
    if succeeds {
      var f := new TextFile();
      return Some(f);
    }
    return None;
  }
}
