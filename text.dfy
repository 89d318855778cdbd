/**
 * Decimal rendering of integers and comma-joined lists, the text format in
 * which the catalog receives bounding boxes and flattened coordinates
 * (JavaScript's `Array.prototype.join(',')` over integer-valued numbers),
 * together with the decoder of that format and its round-trip proofs.
 */
module Text {
  import opened Results

  predicate IsDigit(c: char) {
    '0' <= c <= '9'
  }

  predicate AllDigits(s: string) {
    forall i :: 0 <= i < |s| ==> IsDigit(s[i])
  }

  function DigitChar(d: nat): (c: char)
    requires d < 10
    ensures IsDigit(c)
  {
    "0123456789"[d]
  }

  function DigitValue(c: char): (d: nat)
    requires IsDigit(c)
    ensures d < 10
  {
    (c - '0') as nat
  }

  /** Decimal digits of `n`, most significant first, no leading zeros. */
  function NatToStr(n: nat): string
  {
    if n < 10 then [DigitChar(n)] else NatToStr(n / 10) + [DigitChar(n % 10)]
  }

  /** How JavaScript renders an integer-valued number: a minus sign for negatives. */
  function IntToStr(i: int): string
  {
    if i < 0 then "-" + NatToStr(-i) else NatToStr(i)
  }

  /** The value of a string of decimal digits (the empty string is 0). */
  function DigitsValue(s: string): nat
    requires AllDigits(s)
  {
    if |s| == 0 then 0 else DigitsValue(s[..|s| - 1]) * 10 + DigitValue(s[|s| - 1])
  }

  /** Reads back one rendered integer; anything else is rejected. */
  function ParseInt(s: string): Option<int>
  {
    if |s| > 1 && s[0] == '-' && AllDigits(s[1..]) then Some(-(DigitsValue(s[1..]) as int))
    else if |s| > 0 && AllDigits(s) then Some(DigitsValue(s))
    else None
  }

  lemma {:induction false} NatToStrDigits(n: nat)
    ensures |NatToStr(n)| > 0 && AllDigits(NatToStr(n))
    ensures DigitsValue(NatToStr(n)) == n
  {
    if n >= 10 {
      NatToStrDigits(n / 10);
      var s := NatToStr(n / 10) + [DigitChar(n % 10)];
      assert s[..|s| - 1] == NatToStr(n / 10);
      assert DigitValue(DigitChar(n % 10)) == n % 10;
    } else {
      assert DigitValue(DigitChar(n)) == n;
    }
  }

  lemma ParseDigits(s: string)
    requires |s| > 0 && AllDigits(s)
    ensures ParseInt(s) == Some(DigitsValue(s))
  {
    assert IsDigit(s[0]);
  }

  lemma ParseMinusDigits(s: string)
    requires |s| > 0 && AllDigits(s)
    ensures ParseInt("-" + s) == Some(-(DigitsValue(s) as int))
  {
    assert ("-" + s)[1..] == s;
  }

  /** Rendering an integer and reading it back gives the integer. */
  lemma {:induction false} IntToStrRoundTrip(i: int)
    ensures ParseInt(IntToStr(i)) == Some(i)
  {
    if i < 0 {
      NatToStrDigits(-i);
      ParseMinusDigits(NatToStr(-i));
    } else {
      NatToStrDigits(i);
      ParseDigits(NatToStr(i));
    }
  }

  /** A rendered integer is never empty and holds no comma. */
  lemma {:induction false} IntToStrNoComma(i: int)
    ensures |IntToStr(i)| > 0 && ',' !in IntToStr(i)
  {
    NatToStrDigits(if i < 0 then -i else i);
  }

  /** Comma-joins the parts, like `Array.prototype.join(',')`. */
  function Join(parts: seq<string>): string
  {
    if |parts| == 0 then ""
    else if |parts| == 1 then parts[0]
    else parts[0] + "," + Join(parts[1..])
  }

  /** Splits at every comma, like `String.prototype.split(',')`. */
  function Split(s: string): (r: seq<string>)
    ensures |r| > 0
  {
    if |s| == 0 then [""]
    else
      var rest := Split(s[1..]);
      if s[0] == ',' then [""] + rest else [[s[0]] + rest[0]] + rest[1..]
  }

  lemma {:induction false} SplitNoComma(a: string)
    requires ',' !in a
    ensures Split(a) == [a]
  {
    if |a| > 0 {
      SplitNoComma(a[1..]);
      assert [a[0]] + a[1..] == a;
    }
  }

  lemma {:induction false} SplitAtFirstComma(a: string, b: string)
    requires ',' !in a
    ensures Split(a + "," + b) == [a] + Split(b)
  {
    var s := a + "," + b;
    if |a| == 0 {
      assert s[1..] == b;
    } else {
      assert s[1..] == a[1..] + "," + b;
      SplitAtFirstComma(a[1..], b);
      assert [a[0]] + a[1..] == a;
    }
  }

  /** Splitting a join of comma-free parts gives the parts back. */
  lemma {:induction false} SplitJoin(parts: seq<string>)
    requires |parts| > 0
    requires forall i :: 0 <= i < |parts| ==> ',' !in parts[i]
    ensures Split(Join(parts)) == parts
  {
    if |parts| == 1 {
      SplitNoComma(parts[0]);
    } else {
      SplitJoin(parts[1..]);
      SplitAtFirstComma(parts[0], Join(parts[1..]));
      assert [parts[0]] + parts[1..] == parts;
    }
  }

  function IntsToStrs(xs: seq<int>): (r: seq<string>)
    ensures |r| == |xs|
  {
    if |xs| == 0 then [] else [IntToStr(xs[0])] + IntsToStrs(xs[1..])
  }

  /** The comma-joined decimal rendering of a list of integers. */
  function JoinInts(xs: seq<int>): string
  {
    Join(IntsToStrs(xs))
  }

  /** Joining two non-empty lists of parts puts one comma between their joins. */
  lemma {:induction false} JoinAppend(a: seq<string>, b: seq<string>)
    requires |a| > 0 && |b| > 0
    ensures Join(a + b) == Join(a) + "," + Join(b)
  {
    if |a| > 1 {
      assert (a + b)[1..] == a[1..] + b;
      JoinAppend(a[1..], b);
    } else {
      assert (a + b)[1..] == b;
    }
  }

  /** Reads every part as an integer, failing if any part is not one. */
  function ParseAll(parts: seq<string>): Option<seq<int>>
  {
    if |parts| == 0 then Some([])
    else match (ParseInt(parts[0]), ParseAll(parts[1..]))
      case (Some(x), Some(xs)) => Some([x] + xs)
      case _ => None
  }

  /** Decodes a comma-joined list of integers; the empty string is the empty list. */
  function DecodeInts(s: string): Option<seq<int>>
  {
    if s == "" then Some([]) else ParseAll(Split(s))
  }

  lemma {:induction false} ParseAllInts(xs: seq<int>)
    ensures ParseAll(IntsToStrs(xs)) == Some(xs)
  {
    if |xs| > 0 {
      IntToStrRoundTrip(xs[0]);
      ParseAllInts(xs[1..]);
      assert IntsToStrs(xs)[1..] == IntsToStrs(xs[1..]);
      assert [xs[0]] + xs[1..] == xs;
    }
  }

  lemma {:induction false} IntsToStrsAt(xs: seq<int>, i: int)
    requires 0 <= i < |xs|
    ensures IntsToStrs(xs)[i] == IntToStr(xs[i])
  {
    if i > 0 {
      IntsToStrsAt(xs[1..], i - 1);
    }
  }

  /** Rendering a concatenation renders each half in turn. */
  lemma {:induction false} IntsToStrsAppend(xs: seq<int>, ys: seq<int>)
    ensures IntsToStrs(xs + ys) == IntsToStrs(xs) + IntsToStrs(ys)
  {
    if |xs| > 0 {
      assert (xs + ys)[1..] == xs[1..] + ys;
      IntsToStrsAppend(xs[1..], ys);
    } else {
      assert xs + ys == ys;
    }
  }

  /** Decoding the comma-joined rendering of a list of integers gives the list. */
  lemma {:induction false} JoinIntsRoundTrip(xs: seq<int>)
    ensures DecodeInts(JoinInts(xs)) == Some(xs)
  {
    var parts := IntsToStrs(xs);
    if |xs| > 0 {
      forall i | 0 <= i < |parts| ensures ',' !in parts[i] {
        IntsToStrsAt(xs, i);
        IntToStrNoComma(xs[i]);
      }
      IntsToStrsAt(xs, 0);
      IntToStrNoComma(xs[0]);
      JoinNonEmpty(parts);
      SplitJoin(parts);
      ParseAllInts(xs);
    }
  }

  lemma {:induction false} JoinNonEmpty(parts: seq<string>)
    requires |parts| > 0 && |parts[0]| > 0
    ensures Join(parts) != ""
  {
    if |parts| > 1 {
      assert Join(parts)[0] == parts[0][0];
    }
  }
}
