/**
 * String handling of the quantum-volume fitter: the circuit names
 * `qv_depth_<depth>_trial_<trial>`, Python's `str.split`, `int()` and `'%d'`
 * on decimal numbers, and the zero-padded binary format `'{0:0<w>b}'` of the
 * outcome strings.
 */
module QVStrings {
  import opened Wrappers

  /** Python's `s.split(sep)` for a one-character separator. */
  function Split(s: string, sep: char): (r: seq<string>)
    ensures |r| >= 1
    decreases |s|
  {
    if s == [] then [""]
    else if s[0] == sep then [""] + Split(s[1..], sep)
    else
      var rest := Split(s[1..], sep);
      [[s[0]] + rest[0]] + rest[1..]
  }

  /** No piece of a split holds the separator. */
  lemma {:induction false} SplitPiecesLackSeparator(s: string, sep: char)
    ensures forall i :: 0 <= i < |Split(s, sep)| ==> sep !in Split(s, sep)[i]
    decreases |s|
  {
    if s != [] {
      SplitPiecesLackSeparator(s[1..], sep);
      var rest := Split(s[1..], sep);
      var r := Split(s, sep);
      if s[0] != sep {
        assert r[0] == [s[0]] + rest[0];
        assert forall i :: 1 <= i < |r| ==> r[i] == rest[i];
      } else {
        assert forall i :: 1 <= i < |r| ==> r[i] == rest[i - 1];
      }
    }
  }

  /** Joining the pieces of a split with the separator gives back the string. */
  lemma {:induction false} SplitJoin(s: string, sep: char)
    ensures Join(Split(s, sep), sep) == s
    decreases |s|
  {
    if s != [] {
      SplitJoin(s[1..], sep);
      var rest := Split(s[1..], sep);
      var r := Split(s, sep);
      JoinHead(rest, sep);
      JoinHead(r, sep);
      if s[0] != sep {
        assert r[1..] == rest[1..];
        assert Join(r, sep) == [s[0]] + Join(rest, sep);
      } else {
        assert r[1..] == rest;
      }
      assert [s[0]] + s[1..] == s;
    }
  }

  /** Python's `sep.join(pieces)`. */
  function Join(pieces: seq<string>, sep: char): string
    decreases |pieces|
  {
    if pieces == [] then ""
    else if |pieces| == 1 then pieces[0]
    else pieces[0] + [sep] + Join(pieces[1..], sep)
  }

  /** One unfolding of `Join`, for the inductive step of `SplitJoin`. */
  lemma JoinHead(pieces: seq<string>, sep: char)
    requires |pieces| >= 1
    ensures Join(pieces, sep) == pieces[0] + (if |pieces| == 1 then "" else [sep] + Join(pieces[1..], sep))
  {
  }

  /** A string without the separator splits into itself alone. */
  lemma {:induction false} SplitNoSeparator(s: string, sep: char)
    requires sep !in s
    ensures Split(s, sep) == [s]
    decreases |s|
  {
    if s != [] {
      SplitNoSeparator(s[1..], sep);
      assert [s[0]] + s[1..] == s;
    }
  }

  /** Splitting at the first separator: the piece before it, then the pieces of the rest. */
  lemma {:induction false} SplitAtSeparator(a: string, sep: char, b: string)
    requires sep !in a
    ensures Split(a + [sep] + b, sep) == [a] + Split(b, sep)
    decreases |a|
  {
    if a == [] {
      assert a + [sep] + b == [sep] + b;
      assert ([sep] + b)[1..] == b;
    } else {
      var s := a + [sep] + b;
      assert s[0] == a[0] && s[1..] == a[1..] + [sep] + b;
      SplitAtSeparator(a[1..], sep, b);
      assert [a[0]] + a[1..] == a;
    }
  }

  predicate IsDigit(c: char) {
    '0' <= c <= '9'
  }

  function DigitChar(d: nat): (c: char)
    requires d < 10
    ensures IsDigit(c)
  {
    "0123456789"[d]
  }

  function DigitValue(c: char): (d: nat)
    requires IsDigit(c)
    ensures d < 10
  {
    (c as int - '0' as int) as nat
  }

  predicate AllDigits(s: string) {
    forall i :: 0 <= i < |s| ==> IsDigit(s[i])
  }

  /** Python's `'%d' % n` for a non-negative n: decimal digits without leading zeros. */
  function Decimal(n: nat): string
    decreases n
  {
    if n < 10 then [DigitChar(n)] else Decimal(n / 10) + [DigitChar(n % 10)]
  }

  /** `'%d' % n` is a non-empty run of decimal digits with no leading zero. */
  lemma {:induction false} DecimalDigits(n: nat)
    ensures |Decimal(n)| >= 1 && AllDigits(Decimal(n))
    ensures |Decimal(n)| > 1 ==> Decimal(n)[0] != '0'
    decreases n
  {
    if n >= 10 {
      DecimalDigits(n / 10);
      assert Decimal(n)[0] == Decimal(n / 10)[0];
    }
  }

  /** The value of a string of decimal digits, most significant first. */
  function DigitsValue(s: string): nat
    requires AllDigits(s)
    decreases |s|
  {
    if s == [] then 0 else 10 * DigitsValue(s[..|s| - 1]) + DigitValue(s[|s| - 1])
  }

  /**
   * Python's `int(s)` on a string: an optional sign and at least one decimal
   * digit; None where Python raises ValueError.
   */
  function ParseInt(s: string): (r: Option<int>)
  {
    if |s| > 0 && (s[0] == '-' || s[0] == '+') then
      var body := s[1..];
      if |body| > 0 && AllDigits(body) then
        var magnitude: int := DigitsValue(body);
        Some(if s[0] == '-' then -magnitude else magnitude)
      else None
    else if |s| > 0 && AllDigits(s) then Some(DigitsValue(s))
    else None
  }

  /** Reading back a number written with `'%d'` gives the number. */
  lemma {:induction false} DecimalRoundTrip(n: nat)
    ensures AllDigits(Decimal(n))
    ensures DigitsValue(Decimal(n)) == n
    ensures ParseInt(Decimal(n)) == Some(n)
    decreases n
  {
    var s := Decimal(n);
    DecimalDigits(n);
    if n < 10 {
      assert s[..0] == [];
      assert DigitValue(DigitChar(n)) == n by {
        assert "0123456789"[n] as int == '0' as int + n;
      }
    } else {
      DecimalRoundTrip(n / 10);
      assert s[..|s| - 1] == Decimal(n / 10);
      assert DigitValue(DigitChar(n % 10)) == n % 10 by {
        assert "0123456789"[n % 10] as int == '0' as int + n % 10;
      }
    }
  }

  /** The name the fitter gives the circuit of one qubit subset size and one trial. */
  function CircuitName(depth: nat, trial: nat): string {
    "qv_depth_" + Decimal(depth) + "_trial_" + Decimal(trial)
  }

  /** The subset size read back from a circuit name: `int(name.split('_')[2])`. */
  function DepthOfName(name: string): (r: Option<int>)
  {
    var parts := Split(name, '_');
    if |parts| > 2 then ParseInt(parts[2]) else None
  }

  /** The trial index read back from a circuit name: `int(name.split('_')[-1])`. */
  function TrialOfName(name: string): (r: Option<int>)
  {
    var parts := Split(name, '_');
    ParseInt(parts[|parts| - 1])
  }

  /** A circuit name splits into its five fields. */
  lemma CircuitNameFields(depth: nat, trial: nat)
    ensures Split(CircuitName(depth, trial), '_') == ["qv", "depth", Decimal(depth), "trial", Decimal(trial)]
  {
    var d, t := Decimal(depth), Decimal(trial);
    DecimalDigits(depth);
    DecimalDigits(trial);
    assert '_' !in d && '_' !in t by {
      assert forall i :: 0 <= i < |d| ==> IsDigit(d[i]);
      assert forall i :: 0 <= i < |t| ==> IsDigit(t[i]);
    }
    assert CircuitName(depth, trial) == "qv" + ['_'] + ("depth" + ['_'] + (d + ['_'] + ("trial" + ['_'] + t)));
    SplitNoSeparator(t, '_');
    SplitAtSeparator("trial", '_', t);
    SplitAtSeparator(d, '_', "trial" + ['_'] + t);
    SplitAtSeparator("depth", '_', d + ['_'] + ("trial" + ['_'] + t));
    SplitAtSeparator("qv", '_', "depth" + ['_'] + (d + ['_'] + ("trial" + ['_'] + t)));
  }

  /** Name round trip: the subset size and trial index parse back from the name built of them. */
  lemma CircuitNameRoundTrip(depth: nat, trial: nat)
    ensures DepthOfName(CircuitName(depth, trial)) == Some(depth)
    ensures TrialOfName(CircuitName(depth, trial)) == Some(trial)
  {
    CircuitNameFields(depth, trial);
    DecimalRoundTrip(depth);
    DecimalRoundTrip(trial);
  }

  /** Distinct (depth, trial) pairs give distinct circuit names. */
  lemma CircuitNameInjective(d1: nat, t1: nat, d2: nat, t2: nat)
    requires CircuitName(d1, t1) == CircuitName(d2, t2)
    ensures d1 == d2 && t1 == t2
  {
    CircuitNameRoundTrip(d1, t1);
    CircuitNameRoundTrip(d2, t2);
  }

  /** 2 to the power n. */
  function Pow2(n: nat): (r: nat)
    ensures r >= 1
  {
    if n == 0 then 1 else 2 * Pow2(n - 1)
  }

  predicate IsBit(c: char) {
    c == '0' || c == '1'
  }

  predicate AllBits(s: string) {
    forall i :: 0 <= i < |s| ==> IsBit(s[i])
  }

  function BitChar(d: nat): (c: char)
    requires d < 2
    ensures IsBit(c)
  {
    if d == 0 then '0' else '1'
  }

  /** Python's `format(b, 'b')`: binary digits without leading zeros, "0" for zero. */
  function BinaryDigits(b: nat): (r: string)
    ensures |r| >= 1 && AllBits(r)
    decreases b
  {
    if b < 2 then [BitChar(b)] else BinaryDigits(b / 2) + [BitChar(b % 2)]
  }

  function Zeros(k: nat): (r: string)
    ensures |r| == k && forall i :: 0 <= i < k ==> r[i] == '0'
  {
    seq(k, _ => '0')
  }

  /**
   * Python's `('{0:0%db}' % width).format(b)`: the binary digits of b,
   * padded on the left with '0' to at least `width` characters.
   */
  function FormatBinary(b: nat, width: nat): string {
    var digits := BinaryDigits(b);
    if |digits| < width then Zeros(width - |digits|) + digits else digits
  }

  /** The value of a string of binary digits, most significant first. */
  function BitsValue(s: string): nat
    requires AllBits(s)
    decreases |s|
  {
    if s == [] then 0 else 2 * BitsValue(s[..|s| - 1]) + (if s[|s| - 1] == '1' then 1 else 0)
  }

  lemma {:induction false} ZerosValue(k: nat)
    ensures BitsValue(Zeros(k)) == 0
  {
    if k > 0 {
      assert Zeros(k)[..k - 1] == Zeros(k - 1);
      ZerosValue(k - 1);
    }
  }

  /** Leading zeros do not change the value of a binary string. */
  lemma {:induction false} LeadingZerosValue(k: nat, s: string)
    requires AllBits(s)
    ensures AllBits(Zeros(k) + s) && BitsValue(Zeros(k) + s) == BitsValue(s)
    decreases |s|
  {
    var t := Zeros(k) + s;
    assert AllBits(t) by {
      forall i | 0 <= i < |t| ensures IsBit(t[i]) {
        if i >= k { assert t[i] == s[i - k]; }
      }
    }
    if s == [] {
      assert t == Zeros(k);
      ZerosValue(k);
    } else {
      assert t[..|t| - 1] == Zeros(k) + s[..|s| - 1];
      assert t[|t| - 1] == s[|s| - 1];
      LeadingZerosValue(k, s[..|s| - 1]);
    }
  }

  lemma {:induction false} BinaryDigitsValue(b: nat)
    ensures BitsValue(BinaryDigits(b)) == b
    decreases b
  {
    var s := BinaryDigits(b);
    if b < 2 {
      assert s[..0] == [];
    } else {
      BinaryDigitsValue(b / 2);
      assert s[..|s| - 1] == BinaryDigits(b / 2);
    }
  }

  /** The formatted outcome string reads back as the outcome index. */
  lemma FormatBinaryValue(b: nat, width: nat)
    ensures AllBits(FormatBinary(b, width)) && BitsValue(FormatBinary(b, width)) == b
  {
    var digits := BinaryDigits(b);
    BinaryDigitsValue(b);
    if |digits| < width {
      LeadingZerosValue(width - |digits|, digits);
    }
  }

  /** Distinct outcome indices are formatted as distinct strings. */
  lemma FormatBinaryInjective(a: nat, b: nat, width: nat)
    requires FormatBinary(a, width) == FormatBinary(b, width)
    ensures a == b
  {
    FormatBinaryValue(a, width);
    FormatBinaryValue(b, width);
  }

  lemma {:induction false} BinaryDigitsLength(b: nat, width: nat)
    requires width >= 1 && b < Pow2(width)
    ensures |BinaryDigits(b)| <= width
    decreases b
  {
    if b >= 2 {
      assert width >= 2;
      assert b / 2 < Pow2(width - 1);
      BinaryDigitsLength(b / 2, width - 1);
    }
  }

  /**
   * Every outcome index below 2^width is formatted with exactly `width`
   * characters; for width 0 the only index, 0, is formatted as "0".
   */
  lemma FormatBinaryWidth(b: nat, width: nat)
    requires b < Pow2(width)
    ensures |FormatBinary(b, width)| == if width == 0 then 1 else width
  {
    if width >= 1 {
      BinaryDigitsLength(b, width);
    }
  }
}
