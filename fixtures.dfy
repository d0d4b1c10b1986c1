/** Topic names of the generated fixtures: `<base>/verify/<n>` for the verify
    mode and `<base>/pollute/level<n>[/level<n>[/level<n>]]` for the pollute
    mode, where each `<n>` is a non-negative 63-bit random draw written in
    decimal. */
module Fixtures {
  import opened Broker

  predicate IsDigit(c: char) {
    '0' <= c <= '9'
  }

  predicate AllDigits(s: string) {
    forall i :: 0 <= i < |s| ==> IsDigit(s[i])
  }

  function DigitChar(d: nat): (c: char)
    requires d < 10
    ensures IsDigit(c) && c as int - '0' as int == d
  {
    ('0' as int + d) as char
  }

  /** `n` written in decimal, as the `%d` verb writes it. */
  function Decimal(n: nat): (s: string)
    ensures 1 <= |s| && AllDigits(s)
    decreases n
  {
    if n < 10 then [DigitChar(n)] else Decimal(n / 10) + [DigitChar(n % 10)]
  }

  /** The value of a string of decimal digits. */
  function DigitsValue(s: string): nat
    requires AllDigits(s)
  {
    if s == [] then 0 else DigitsValue(s[..|s| - 1]) * 10 + (s[|s| - 1] as int - '0' as int)
  }

  /** The decimal text of a draw gives the draw back. */
  lemma {:induction false} DecimalRoundTrip(n: nat)
    ensures DigitsValue(Decimal(n)) == n
  {
    if n >= 10 {
      var s := Decimal(n);
      assert s[..|s| - 1] == Decimal(n / 10);
      DecimalRoundTrip(n / 10);
    }
  }

  /** `strings.Join`: the parts with `sep` between consecutive ones. */
  function Join(parts: seq<string>, sep: char): string {
    if |parts| == 0 then ""
    else if |parts| == 1 then parts[0]
    else parts[0] + [sep] + Join(parts[1..], sep)
  }

  /** `strings.Split` on a one-character separator: the maximal pieces of `s`
      between occurrences of `sep`; the empty string gives one empty piece. */
  function Split(s: string, sep: char): (parts: seq<string>)
    ensures 1 <= |parts|
    decreases |s|
  {
    if s == [] then [""]
    else
      var rest := Split(s[1..], sep);
      if s[0] == sep then [""] + rest else [[s[0]] + rest[0]] + rest[1..]
  }

  lemma {:induction false} SplitNoSeparator(p: string, sep: char)
    requires sep !in p
    ensures Split(p, sep) == [p]
    decreases |p|
  {
    if p != [] {
      SplitNoSeparator(p[1..], sep);
      assert [p[0]] + p[1..] == p;
    }
  }

  lemma {:induction false} SplitAtFirstSeparator(p: string, r: string, sep: char)
    requires sep !in p
    ensures Split(p + [sep] + r, sep) == [p] + Split(r, sep)
    decreases |p|
  {
    var s := p + [sep] + r;
    if p == [] {
      assert s[1..] == r;
    } else {
      assert s[1..] == p[1..] + [sep] + r;
      SplitAtFirstSeparator(p[1..], r, sep);
      assert [p[0]] + p[1..] == p;
    }
  }

  /** Splitting the joined parts gives the parts back, provided there is at
      least one and none contains the separator. */
  lemma {:induction false} SplitJoin(parts: seq<string>, sep: char)
    requires 1 <= |parts|
    requires forall i :: 0 <= i < |parts| ==> sep !in parts[i]
    ensures Split(Join(parts, sep), sep) == parts
    decreases |parts|
  {
    if |parts| == 1 {
      SplitNoSeparator(parts[0], sep);
    } else {
      SplitAtFirstSeparator(parts[0], Join(parts[1..], sep), sep);
      SplitJoin(parts[1..], sep);
    }
  }

  /** A pollute segment: `level` followed by decimal digits. */
  predicate IsLevelName(s: string) {
    5 < |s| && s[..5] == "level" && AllDigits(s[5..])
  }

  function LevelName(n: nat): (s: string)
    ensures IsLevelName(s) && '/' !in s
  {
    var s := "level" + Decimal(n);
    assert s[5..] == Decimal(n);
    assert forall i :: 0 <= i < |s| ==> s[i] != '/' by {
      forall i | 0 <= i < |s| ensures s[i] != '/' {
        if 5 <= i { assert s[i] == Decimal(n)[i - 5]; }
      }
    }
    s
  }

  /** The segment names for the draws of one pollute topic. */
  function LevelNames(draws: seq<nat>): (names: seq<string>)
    ensures |names| == |draws|
    ensures forall j :: 0 <= j < |draws| ==> names[j] == LevelName(draws[j])
  {
    seq(|draws|, j requires 0 <= j < |draws| => LevelName(draws[j]))
  }

  /** The pollute prefix, `<base>/pollute`. */
  function PolluteBase(base: Topic): Topic {
    base + "/pollute"
  }

  /** The pollute topic for one list of segment draws. */
  function PolluteTopic(base: Topic, draws: seq<nat>): Topic {
    PolluteBase(base) + "/" + Join(LevelNames(draws), '/')
  }

  /** The shape every pollute topic has: `<base>/pollute/` followed by one to
      three `/`-separated segments, each of them `level<digits>`. */
  predicate PolluteShaped(base: Topic, t: Topic) {
    var p := base + "/pollute/";
    && |p| < |t| && t[..|p|] == p
    && var segments := Split(t[|p|..], '/');
    && 1 <= |segments| <= 3
    && forall s :: s in segments ==> IsLevelName(s)
  }

  /** A topic generated from one to three draws has the pollute shape, and its
      segments are exactly the level names of the draws. */
  lemma {:induction false} PolluteTopicShape(base: Topic, draws: seq<nat>)
    requires 1 <= |draws| <= 3
    ensures PolluteShaped(base, PolluteTopic(base, draws))
    ensures var p := base + "/pollute/";
            Split(PolluteTopic(base, draws)[|p|..], '/') == LevelNames(draws)
  {
    var p := base + "/pollute/";
    var t := PolluteTopic(base, draws);
    var names := LevelNames(draws);
    assert t == p + Join(names, '/');
    assert t[..|p|] == p && t[|p|..] == Join(names, '/');
    SplitJoin(names, '/');
    assert Join(names, '/') != "" by {
      if |names| == 1 { assert IsLevelName(names[0]); }
    }
  }

  /** The verify prefix, `<base>/verify`. */
  function VerifyBase(base: Topic): Topic {
    base + "/verify"
  }

  /** The verify fixture topic for one draw: `<prefix>/<n>`. */
  function FixtureTopic(prefix: Topic, n: nat): Topic {
    prefix + "/" + Decimal(n)
  }

  /** Distinct draws give distinct fixture topics. */
  lemma {:induction false} FixtureTopicInjective(prefix: Topic, a: nat, b: nat)
    requires FixtureTopic(prefix, a) == FixtureTopic(prefix, b)
    ensures a == b
  {
    var k := |prefix| + 1;
    assert FixtureTopic(prefix, a)[k..] == Decimal(a);
    assert FixtureTopic(prefix, b)[k..] == Decimal(b);
    DecimalRoundTrip(a);
    DecimalRoundTrip(b);
  }
}
