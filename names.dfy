/**
 * The names under which synthesised lines are saved: `str(count)`,
 * `str.zfill(2)`, and the two schemes `file_NN.mp3` and `N.<format>`.
 */
module Names {
  import opened Sorting

  predicate IsDigit(c: char)
  {
    '0' <= c <= '9'
  }

  function Digit(d: nat): (c: char)
    requires d < 10
    ensures IsDigit(c)
    ensures DigitValue(c) == d
  {
    (d + '0' as int) as char
  }

  /** `str(n)` for a non-negative integer: its decimal digits, without leading zeros. */
  function NatToString(n: nat): (r: string)
    ensures |r| >= 1
    ensures forall i :: 0 <= i < |r| ==> IsDigit(r[i])
    ensures |r| > 1 ==> r[0] != '0'
    ensures n < 10 <==> |r| == 1
    decreases n
  {
    if n < 10 then [Digit(n)] else NatToString(n / 10) + [Digit(n % 10)]
  }

  /** `int(s)` for a string of decimal digits. */
  function DigitsValue(s: string): nat
    requires forall i :: 0 <= i < |s| ==> IsDigit(s[i])
  {
    if s == [] then 0
    else DigitsValue(s[..|s| - 1]) * 10 + DigitValue(s[|s| - 1])
  }

  function DigitValue(c: char): (d: nat)
    requires IsDigit(c)
    ensures d < 10
  {
    c as int - '0' as int
  }

  /** `int(str(n)) == n`. */
  lemma {:induction false} NatToStringValue(n: nat)
    ensures DigitsValue(NatToString(n)) == n
    decreases n
  {
    var r := NatToString(n);
    if n >= 10 {
      NatToStringValue(n / 10);
      assert r[..|r| - 1] == NatToString(n / 10);
    } else {
      assert r[..0] == [];
    }
  }

  /** Different numbers have different decimal forms. */
  lemma NatToStringInjective(m: nat, n: nat)
    requires NatToString(m) == NatToString(n)
    ensures m == n
  {
    NatToStringValue(m);
    NatToStringValue(n);
  }

  /** `s.zfill(width)` for a string without a sign: zeros in front up to `width` characters. */
  function ZFill(s: string, width: nat): (r: string)
    ensures |r| == if |s| < width then width else |s|
    ensures r[|r| - |s|..] == s
    ensures forall i :: 0 <= i < |r| - |s| ==> r[i] == '0'
  {
    if |s| < width then seq(width - |s|, _ => '0') + s else s
  }

  /** The two naming schemes of the synthesis loops. */
  datatype Naming =
    | Padded               // f"file_{str(count).zfill(2)}.mp3"
    | Unpadded(ext: string) // f"{count}.{ext}"

  function FileName(naming: Naming, k: nat): (r: string)
    ensures naming.Padded? ==> |r| >= 11 && r[..5] == "file_" && r[|r| - 4..] == ".mp3"
    ensures naming.Unpadded? ==> |r| >= |naming.ext| + 2 && IsDigit(r[0]) && r[|r| - |naming.ext| - 1..] == "." + naming.ext
  {
    match naming
    case Padded => "file_" + ZFill(NatToString(k), 2) + ".mp3"
    case Unpadded(ext) => NatToString(k) + "." + ext
  }

  /** Padding a decimal form to two places loses nothing. */
  lemma PaddedInjective(m: nat, n: nat)
    requires ZFill(NatToString(m), 2) == ZFill(NatToString(n), 2)
    ensures m == n
  {
    var a, b := NatToString(m), NatToString(n);
    var za := ZFill(a, 2);
    if |a| >= 2 || |b| >= 2 {
      assert za[0] != '0' || |za| > 2;
    }
    assert za[|za| - |a|..] == a;
    assert a == b;
    NatToStringInjective(m, n);
  }

  /** Different positions are saved under different names, in both schemes. */
  lemma FileNameInjective(naming: Naming, m: nat, n: nat)
    requires FileName(naming, m) == FileName(naming, n)
    ensures m == n
  {
    var a, b := NatToString(m), NatToString(n);
    match naming
    case Padded =>
      var za, zb := ZFill(a, 2), ZFill(b, 2);
      var f := FileName(naming, m);
      assert f == "file_" + za + ".mp3";
      assert |za| == |zb|;
      assert za == f[5..|f| - 4];
      PaddedInjective(m, n);
    case Unpadded(ext) =>
      var f := FileName(naming, m);
      assert f == a + "." + ext == b + "." + ext;
      assert a == f[..|a|] == b;
      NatToStringInjective(m, n);
  }

  /** The two digits of a number below 100, the first of them `0` below 10. */
  function TwoDigits(k: nat): string
    requires k < 100
  {
    [Digit(k / 10), Digit(k % 10)]
  }

  lemma PaddedDigits(k: nat)
    requires k < 100
    ensures ZFill(NatToString(k), 2) == TwoDigits(k)
  {
    if k >= 10 {
      assert NatToString(k / 10) == [Digit(k / 10)];
    }
  }

  /**
   * With at most 99 lines in a chunk, every padded name has two digits and
   * is eleven characters long.
   */
  lemma PaddedLength(k: nat)
    requires 1 <= k <= 99
    ensures |FileName(Padded, k)| == 11
  {
    PaddedDigits(k);
  }

  lemma TwoDigitsOrder(j: nat, k: nat, ext: string)
    requires j < k < 100
    ensures Less(TwoDigits(j) + ext, TwoDigits(k) + ext)
  {
    var a, b := TwoDigits(j) + ext, TwoDigits(k) + ext;
    if j / 10 == k / 10 {
      assert a[0] == b[0];
      assert a[1..][0] == Digit(j % 10) && b[1..][0] == Digit(k % 10);
    } else {
      assert a[0] == Digit(j / 10) && b[0] == Digit(k / 10);
    }
  }

  /** The padded name of a position below 100, spelt out. */
  lemma PaddedForm(k: nat)
    requires k < 100
    ensures FileName(Padded, k) == "file_" + (TwoDigits(k) + ".mp3")
  {
    var z := ZFill(NatToString(k), 2);
    assert FileName(Padded, k) == "file_" + z + ".mp3";
    PaddedDigits(k);
    Regroup("file_", z, ".mp3");
  }

  lemma Regroup(a: string, b: string, c: string)
    ensures a + b + c == a + (b + c)
  {
  }

  /** Two-digit padding makes name order agree with position order. */
  lemma PaddedOrder(j: nat, k: nat)
    requires j < k < 100
    ensures Less(FileName(Padded, j), FileName(Padded, k))
  {
    PaddedForm(j);
    PaddedForm(k);
    TwoDigitsOrder(j, k, ".mp3");
    LessCommonPrefix("file_", TwoDigits(j) + ".mp3", TwoDigits(k) + ".mp3");
  }

  /** The first and the third position of a chunk. */
  lemma PaddedNames(one: nat, three: nat)
    requires one == 1 && three == 3
    ensures FileName(Padded, one) == "file_01.mp3" && FileName(Padded, three) == "file_03.mp3"
  {
    PaddedDigits(one);
    PaddedDigits(three);
  }

  /** Without padding, the name for position 10 sorts before the one for position 2. */
  lemma UnpaddedOrder(ten: nat, two: nat)
    requires ten == 10 && two == 2
    ensures Less(FileName(Unpadded("mp3"), ten), FileName(Unpadded("mp3"), two))
  {
    assert NatToString(ten) == [Digit(1), Digit(0)];
    assert NatToString(two) == [Digit(2)];
  }
}
