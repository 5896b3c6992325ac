/** The run name of one hyperparameter setting: its parts joined with "_",
    used as the last path component of the log, run and checkpoint paths. */
module Naming {
  import opened Basics

  const Sep: char := '_'

  /** `"_".join(parts)`. */
  function Join(parts: seq<string>): (s: string)
    ensures |parts| == 1 ==> s == parts[0]
  {
    if |parts| == 0 then ""
    else if |parts| == 1 then parts[0]
    else parts[0] + [Sep] + Join(parts[1..])
  }

  /** Position of the first separator of `s`, if any. */
  function FirstSep(s: string): (i: nat)
    requires Sep in s
    ensures i < |s| && s[i] == Sep && Sep !in s[..i]
  {
    if s[0] == Sep then 0
    else
      assert Sep in s[1..] by {
        var j :| 0 <= j < |s| && s[j] == Sep;
        assert s[1..][j - 1] == Sep;
      }
      var i := FirstSep(s[1..]);
      assert s[..i + 1] == [s[0]] + s[1..][..i];
      i + 1
  }

  /** `s.split("_")`: the pieces between separators, empty ones included. */
  function Split(s: string): (parts: seq<string>)
    ensures |parts| >= 1
    ensures forall j :: 0 <= j < |parts| ==> Sep !in parts[j]
    decreases |s|
  {
    if Sep !in s then [s]
    else
      var i := FirstSep(s);
      [s[..i]] + Split(s[i + 1..])
  }

  /** Splitting a joined list of separator-free parts gives the parts back. */
  lemma {:induction false} SplitJoin(parts: seq<string>)
    requires |parts| >= 1
    requires forall j :: 0 <= j < |parts| ==> Sep !in parts[j]
    ensures Split(Join(parts)) == parts
  {
    if |parts| > 1 {
      var p, rest := parts[0], parts[1..];
      var s := Join(parts);
      assert s == p + [Sep] + Join(rest);
      FirstSepAfter(p, Join(rest));
      assert Split(s) == [p] + Split(Join(rest));
      SplitJoin(rest);
      assert parts == [p] + rest;
    }
  }

  /** In a separator-free part followed by a separator, that separator is the
      first one. */
  lemma FirstSepAfter(p: string, t: string)
    requires Sep !in p
    ensures var s := p + [Sep] + t;
      Sep in s && FirstSep(s) == |p| && s[..|p|] == p && s[|p| + 1..] == t
  {
    var s := p + [Sep] + t;
    assert s[|p|] == Sep;
    assert s[..|p|] == p;
    assert s[|p| + 1..] == t;
  }

  /** Joining two non-empty lists is joining each and putting one separator between. */
  lemma {:induction false} JoinAppend(a: seq<string>, b: seq<string>)
    requires |a| >= 1 && |b| >= 1
    ensures Join(a + b) == Join(a) + [Sep] + Join(b)
  {
    if |a| == 1 {
      assert (a + b)[1..] == b;
    } else {
      assert (a + b)[1..] == a[1..] + b;
      JoinAppend(a[1..], b);
    }
  }

  function DigitChar(d: nat): (c: char)
    requires d < 10
    ensures '0' <= c <= '9' && DigitOf(c) == d
  {
    ('0' as int + d) as char
  }

  /** The digit a character `'0' .. '9'` stands for. */
  function DigitOf(c: char): (d: nat)
    requires '0' <= c <= '9'
    ensures d < 10
  {
    c as int - '0' as int
  }

  /** The number a string of digits denotes, most significant digit first. */
  function DigitsValue(s: string): nat
    requires forall j :: 0 <= j < |s| ==> '0' <= s[j] <= '9'
  {
    if |s| == 0 then 0 else 10 * DigitsValue(s[..|s| - 1]) + DigitOf(s[|s| - 1])
  }

  /** The integer a numeral with an optional leading minus sign denotes. */
  function DecimalValue(s: string): int
    requires forall j :: 0 <= j < |s| ==> '0' <= s[j] <= '9' || (j == 0 && s[j] == '-')
  {
    if |s| > 0 && s[0] == '-' then -(DigitsValue(s[1..]) as int) else DigitsValue(s)
  }

  function Digits(n: nat): (s: string)
    ensures |s| >= 1 && forall j :: 0 <= j < |s| ==> '0' <= s[j] <= '9'
  {
    if n < 10 then [DigitChar(n)] else Digits(n / 10) + [DigitChar(n % 10)]
  }

  /** `"%d" % n` and `str(n)` of an integer: an optional minus sign, then digits. */
  function Decimal(n: int): (s: string)
    ensures |s| >= 1 && Sep !in s
    ensures forall j :: 0 <= j < |s| ==> '0' <= s[j] <= '9' || (j == 0 && s[j] == '-')
  {
    if n < 0 then "-" + Digits(-n) else Digits(n)
  }

  /** The digits of `n` denote `n`. */
  lemma {:induction false} DigitsRoundTrip(n: nat)
    ensures DigitsValue(Digits(n)) == n
  {
    if n >= 10 {
      var s := Digits(n);
      assert s[..|s| - 1] == Digits(n / 10);
      DigitsRoundTrip(n / 10);
    }
  }

  /** The numeral printed for `n` reads back as `n`, so distinct integers
      print differently. */
  lemma DecimalRoundTrip(n: int)
    ensures DecimalValue(Decimal(n)) == n
  {
    if n < 0 {
      var s := Decimal(n);
      assert s[1..] == Digits(-n);
      DigitsRoundTrip(-n);
    } else {
      DigitsRoundTrip(n);
    }
  }

  lemma DecimalInjective(a: int, b: int)
    requires Decimal(a) == Decimal(b)
    ensures a == b
  {
    DecimalRoundTrip(a);
    DecimalRoundTrip(b);
  }

  /** The configuration that goes into a run name. Integer settings are
      formatted here; floating-point ones arrive as their `str()` text. */
  datatype RunConfig = RunConfig(
    info: string, augType: string, edIntervalText: string, negNum: int, batchSize: int,
    lrText: string, l2RegText: string, embeddingSize: int,
    itemRatio: real, bundleRatio: real, aggRatio: real,
    itemRatioText: string, bundleRatioText: string, aggRatioText: string,
    numLayers: int, cLambdaText: string, cTempText: string)

  /** The parts before the fixed tail: the optional info tag, the
      augmentation type, and for "ED" its interval. */
  function Head(c: RunConfig): (h: seq<string>)
    ensures |h| == B2I(c.info != "") + 1 + B2I(c.augType == "ED")
    ensures h[B2I(c.info != "")] == c.augType
  {
    (if c.info != "" then [c.info] else []) + [c.augType] + (if c.augType == "ED" then [c.edIntervalText] else [])
  }

  /** The fixed tail, the negative-sample part first. */
  function Tail(c: RunConfig): (t: seq<string>)
    ensures |t| == 11
    ensures PlainTexts(c) ==> forall j :: 1 <= j < |t| ==> Sep !in t[j]
  {
    ["Neg_" + Decimal(c.negNum), Decimal(c.batchSize), c.lrText, c.l2RegText, Decimal(c.embeddingSize)]
      + [c.itemRatioText, c.bundleRatioText, c.aggRatioText, Decimal(c.numLayers)]
      + [c.cLambdaText, c.cTempText]
  }

  /** The `settings` list; "OP" asserts that the three ratios are zero. */
  function Settings(c: RunConfig): (r: Result<seq<string>>)
    ensures r.Err? <==> c.augType == "OP" && !(c.itemRatio == 0.0 && c.bundleRatio == 0.0 && c.aggRatio == 0.0)
    ensures r.Err? ==> r.error == AssertionFailed
  {
    if c.augType == "OP" && !(c.itemRatio == 0.0 && c.bundleRatio == 0.0 && c.aggRatio == 0.0) then Err(AssertionFailed)
    else Ok(Head(c) + Tail(c))
  }

  /** `setting = "_".join(settings)`. */
  function SettingName(c: RunConfig): (r: Result<string>)
    ensures r.Err? <==> c.augType == "OP" && !(c.itemRatio == 0.0 && c.bundleRatio == 0.0 && c.aggRatio == 0.0)
    ensures r.Err? ==> r.error == AssertionFailed
  {
    match Settings(c)
    case Err(e) => Err(e)
    case Ok(parts) => Ok(Join(parts))
  }

  /** The free-text parts of a configuration hold no separator. */
  predicate PlainTexts(c: RunConfig)
  {
    && Sep !in c.info && Sep !in c.augType && Sep !in c.edIntervalText
    && Sep !in c.lrText && Sep !in c.l2RegText
    && Sep !in c.itemRatioText && Sep !in c.bundleRatioText && Sep !in c.aggRatioText
    && Sep !in c.cLambdaText && Sep !in c.cTempText
  }

  /** The fields a run name splits into: the settings, with "Neg_<n>" in two. */
  function Fields(c: RunConfig): seq<string>
  {
    Head(c) + ["Neg", Decimal(c.negNum), Decimal(c.batchSize), c.lrText, c.l2RegText, Decimal(c.embeddingSize)]
      + [c.itemRatioText, c.bundleRatioText, c.aggRatioText, Decimal(c.numLayers)]
      + [c.cLambdaText, c.cTempText]
  }

  /** "Neg_<n>" inside a joined list reads the same as "Neg" and "<n>" as two parts. */
  lemma JoinNeg(h: seq<string>, n: string, rest: seq<string>)
    requires |h| >= 1 && |rest| >= 1
    ensures Join(h + (["Neg_" + n] + rest)) == Join(h + (["Neg", n] + rest))
  {
    var a, b := ["Neg_" + n] + rest, ["Neg", n] + rest;
    JoinAppend(h, a);
    JoinAppend(h, b);
    JoinAppend(["Neg_" + n], rest);
    JoinAppend(["Neg", n], rest);
    assert ["Neg", n][1..] == [n];
    assert Join(["Neg", n]) == "Neg" + [Sep] + n;
    assert "Neg" + [Sep] == "Neg_" by {
      assert |"Neg" + [Sep]| == 4;
      forall j | 0 <= j < 4 ensures ("Neg" + [Sep])[j] == "Neg_"[j] { }
    }
    assert Join(a) == Join(b);
  }

  lemma FieldsPlain(c: RunConfig)
    requires PlainTexts(c)
    ensures forall j :: 0 <= j < |Fields(c)| ==> Sep !in Fields(c)[j]
  {
    assert Sep !in "Neg";
  }

  /** A run name of separator-free texts splits back into its settings, the
      negative-sample part in two; so the augmentation type sits at field 0,
      or at field 1 behind an info tag. */
  lemma NameSplitsIntoFields(c: RunConfig)
    requires PlainTexts(c) && SettingName(c).Ok?
    ensures Split(SettingName(c).value) == Fields(c)
    ensures |Fields(c)| == 13 + B2I(c.info != "") + B2I(c.augType == "ED")
    ensures Split(SettingName(c).value)[B2I(c.info != "")] == c.augType
  {
    NameIsJoinedFields(c);
    FieldsPlain(c);
    SplitJoin(Fields(c));
    FieldsShape(c);
  }

  /** The run name joins the fields, "Neg_<n>" read as two of them. */
  lemma NameIsJoinedFields(c: RunConfig)
    requires SettingName(c).Ok?
    ensures SettingName(c).value == Join(Fields(c))
  {
    var h := Head(c);
    var rest := [Decimal(c.batchSize), c.lrText, c.l2RegText, Decimal(c.embeddingSize)]
      + [c.itemRatioText, c.bundleRatioText, c.aggRatioText, Decimal(c.numLayers)]
      + [c.cLambdaText, c.cTempText];
    var n := Decimal(c.negNum);
    assert Head(c) + Tail(c) == h + (["Neg_" + n] + rest);
    assert Fields(c) == h + (["Neg", n] + rest);
    JoinNeg(h, n, rest);
  }

  /** How many fields there are, and where the augmentation type sits. */
  lemma FieldsShape(c: RunConfig)
    ensures |Fields(c)| == 13 + B2I(c.info != "") + B2I(c.augType == "ED")
    ensures Fields(c)[B2I(c.info != "")] == c.augType
  {
    assert |Head(c)| == 1 + B2I(c.info != "") + B2I(c.augType == "ED");
    assert Head(c)[B2I(c.info != "")] == c.augType;
  }
}
