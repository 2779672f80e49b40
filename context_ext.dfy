/**
 * The Context extension helpers: temporary file names in the external cache dir and the
 * all-granted permission test.
 */
module ContextExt {
  import opened Platform

  /** The bound of Random.nextInt(9999): a draw lies in [0, 9999). */
  const RANDOM_BOUND: int := 9999

  type Draw = r: int | 0 <= r < RANDOM_BOUND

  // ---------------------------------------------------------------------------
  // Decimal rendering, as a Kotlin string template renders Long and Int values

  predicate IsDigit(c: char) {
    '0' <= c <= '9'
  }

  predicate IsDigits(s: string) {
    forall i :: 0 <= i < |s| ==> IsDigit(s[i])
  }

  /** A non-empty run of decimal digits. */
  predicate IsNumeral(s: string) {
    |s| > 0 && IsDigits(s)
  }

  /** A numeral, optionally preceded by a minus sign. */
  predicate IsSignedNumeral(s: string) {
    IsNumeral(s) || (|s| > 1 && s[0] == '-' && IsNumeral(s[1..]))
  }

  function DigitChar(d: nat): (c: char)
    requires d < 10
    ensures IsDigit(c) && DigitValue(c) == d
  {
    (('0' as int) + d) as char
  }

  function DigitValue(c: char): nat
    requires IsDigit(c)
  {
    (c as int) - ('0' as int)
  }

  /** The decimal text of a non-negative number, without leading zeros. */
  function NatToString(n: nat): (s: string)
    ensures IsNumeral(s)
    ensures s[0] == '0' <==> n == 0
    ensures |s| == 1 <==> n < 10
    decreases n
  {
    if n < 10 then [DigitChar(n)] else NatToString(n / 10) + [DigitChar(n % 10)]
  }

  /** The decimal text of a Long: a minus sign for negative values, then the digits. */
  function LongToString(m: int): (s: string)
    ensures IsSignedNumeral(s)
  {
    if m < 0 then "-" + NatToString(-m) else NatToString(m)
  }

  /** The number a run of digits denotes (the reading direction matches NatToString). */
  function DigitsValue(s: string): nat
    requires IsDigits(s)
    decreases |s|
  {
    if s == [] then 0 else DigitsValue(s[..|s| - 1]) * 10 + DigitValue(s[|s| - 1])
  }

  function SignedValue(s: string): int
    requires IsSignedNumeral(s)
  {
    if IsNumeral(s) then DigitsValue(s) else 0 - (DigitsValue(s[1..]) as int)
  }

  lemma {:induction false} NatToStringRoundTrip(n: nat)
    ensures DigitsValue(NatToString(n)) == n
    decreases n
  {
    if n >= 10 {
      var s := NatToString(n);
      NatToStringRoundTrip(n / 10);
      assert s[..|s| - 1] == NatToString(n / 10);
    }
  }

  lemma LongToStringRoundTrip(m: int)
    ensures SignedValue(LongToString(m)) == m
  {
    if m < 0 {
      var s := LongToString(m);
      assert !IsNumeral(s) by { assert s[0] == '-'; }
      assert s[1..] == NatToString(-m);
      NatToStringRoundTrip(-m);
    } else {
      NatToStringRoundTrip(m);
    }
  }

  // ---------------------------------------------------------------------------
  // Temporary file names: prefix_millis_draw.extension

  /** The position of the first `c` in `s`, if any. */
  function IndexOf(s: string, c: char): (r: Option<nat>)
    ensures r.Some? ==> r.value < |s| && s[r.value] == c && forall i :: 0 <= i < r.value ==> s[i] != c
    ensures r.None? ==> forall i :: 0 <= i < |s| ==> s[i] != c
    decreases |s|
  {
    if s == [] then None
    else if s[0] == c then Some(0)
    else match IndexOf(s[1..], c)
      case None => None
      case Some(i) => Some(i + 1)
  }

  /** The name generateTempFile builds from its prefix, the clock, the random draw and the extension. */
  function TempFileName(prefix: string, millis: int, draw: nat, extension: string): string {
    prefix + "_" + LongToString(millis) + "_" + NatToString(draw) + "." + extension
  }

  /** The three parts a temporary file name carries after its prefix. */
  datatype TempName = TempName(millis: int, draw: nat, extension: string)

  /** Splits `s` at the first `c`: the text before it and the text after it. */
  function SplitFirst(s: string, c: char): Option<(string, string)> {
    match IndexOf(s, c)
    case None => None
    case Some(i) => Some((s[..i], s[i + 1..]))
  }

  lemma SplitFirstAt(a: string, c: char, b: string)
    requires forall i :: 0 <= i < |a| ==> a[i] != c
    ensures SplitFirst(a + [c] + b, c) == Some((a, b))
  {
    var s := a + [c] + b;
    assert s[|a|] == c && forall i :: 0 <= i < |a| ==> s[i] == a[i];
    assert IndexOf(s, c) == Some(|a|);
    assert s[..|a|] == a && s[|a| + 1..] == b;
  }

  /** Reads a name back as prefix_millis_draw.extension; None when it is not of that form. */
  function ParseTempFileName(prefix: string, name: string): Option<TempName> {
    if !(|name| > |prefix| && name[..|prefix| + 1] == prefix + "_") then None
    else
      match SplitFirst(name[|prefix| + 1..], '_')
      case None => None
      case Some((millisText, tail)) =>
        match SplitFirst(tail, '.')
        case None => None
        case Some((drawText, extension)) =>
          if IsSignedNumeral(millisText) && IsNumeral(drawText) then
            Some(TempName(SignedValue(millisText), DigitsValue(drawText), extension))
          else None
  }

  lemma ParseTempFileNameParts(prefix: string, m: string, d: string, extension: string)
    requires IsSignedNumeral(m) && IsNumeral(d)
    ensures ParseTempFileName(prefix, prefix + "_" + m + "_" + d + "." + extension)
            == Some(TempName(SignedValue(m), DigitsValue(d), extension))
  {
    var name := prefix + "_" + m + "_" + d + "." + extension;
    assert name == (prefix + "_") + (m + "_" + (d + "." + extension));
    assert name[..|prefix| + 1] == prefix + "_";
    assert name[|prefix| + 1..] == m + "_" + (d + "." + extension);
    assert forall i :: 0 <= i < |m| ==> m[i] != '_' by {
      forall i | 0 <= i < |m| ensures m[i] != '_' {
        if !IsNumeral(m) && i > 0 { assert m[i] == m[1..][i - 1]; }
      }
    }
    SplitFirstAt(m, '_', d + "." + extension);
    SplitFirstAt(d, '.', extension);
  }

  lemma TempFileNameRoundTrip(prefix: string, millis: int, draw: nat, extension: string)
    ensures ParseTempFileName(prefix, TempFileName(prefix, millis, draw, extension))
            == Some(TempName(millis, draw, extension))
  {
    ParseTempFileNameParts(prefix, LongToString(millis), NatToString(draw), extension);
    LongToStringRoundTrip(millis);
    NatToStringRoundTrip(draw);
  }

  /** Different clock readings, draws or extensions never give the same name under one prefix. */
  lemma TempFileNameInjective(prefix: string, m1: int, d1: nat, e1: string, m2: int, d2: nat, e2: string)
    requires TempFileName(prefix, m1, d1, e1) == TempFileName(prefix, m2, d2, e2)
    ensures m1 == m2 && d1 == d2 && e1 == e2
  {
    TempFileNameRoundTrip(prefix, m1, d1, e1);
    TempFileNameRoundTrip(prefix, m2, d2, e2);
  }

  /** The external cache dir, when it exists and is emulated storage. */
  predicate CacheUsable(ctx: Context) {
    ctx.externalCacheDir.Some? && ctx.externalCacheDir.value.emulated
  }

  /** generateTempFile2: a file named `fileName` in the external cache dir, or null. */
  function GenerateTempFile2(ctx: Context, fileName: string): (f: Option<File>)
    ensures f.Some? <==> CacheUsable(ctx)
    ensures f.Some? ==> f.value.parent == ctx.externalCacheDir.value.absolutePath && f.value.name == fileName
  {
    var extCacheDir := ctx.externalCacheDir;
    if extCacheDir.Some? && extCacheDir.value.emulated then
      Some(File(extCacheDir.value.absolutePath, fileName))
    else
      None
  }

  /**
   * generateTempFile: a file in the external cache dir whose name carries the prefix, the
   * clock reading, the random draw and the extension (by default "jpg").
   */
  function GenerateTempFile(ctx: Context, now: int, draw: Draw, prefix: string, extension: string := "jpg"): (f: Option<File>)
    ensures f.Some? <==> CacheUsable(ctx)
    ensures f.Some? ==> f.value.parent == ctx.externalCacheDir.value.absolutePath
    ensures f.Some? ==> ParseTempFileName(prefix, f.value.name) == Some(TempName(now, draw, extension))
  {
    TempFileNameRoundTrip(prefix, now, draw, extension);
    GenerateTempFile2(ctx, TempFileName(prefix, now, draw, extension))
  }

  /** checkAppPermission: every listed permission is granted (so an empty list passes). */
  function CheckAppPermission(ctx: Context, permissions: seq<Permission>): (r: bool)
    ensures r <==> forall i :: 0 <= i < |permissions| ==> permissions[i] in ctx.granted
    decreases |permissions|
  {
    if permissions == [] then true
    else permissions[0] in ctx.granted && CheckAppPermission(ctx, permissions[1..])
  }
}
