/**
 * The fantasy scorer, `calculate_fantasy_score` (src/utils.py): a fixed
 * weighted sum of fifteen stat readings per stat dict, summed over a list of
 * dicts (a single dict counts as a one-element list). A missing key reads as 0;
 * a value `float()` rejects aborts the whole computation.
 */
module Scoring {
  import opened Wrappers
  import opened Text
  import opened Stats

  // ---------------------------------------------------------------------------
  // float() on a stat value
  // ---------------------------------------------------------------------------

  predicate IsDigit(c: char) {
    '0' <= c <= '9'
  }

  predicate AllDigits(s: string) {
    forall i :: 0 <= i < |s| ==> IsDigit(s[i])
  }

  function DigitValue(c: char): nat
    requires IsDigit(c)
  {
    c as int - '0' as int
  }

  /** The number a run of decimal digits denotes. */
  function DigitsValue(s: string): nat
    requires AllDigits(s)
  {
    if s == [] then 0 else DigitsValue(s[..|s| - 1]) * 10 + DigitValue(s[|s| - 1])
  }

  function Pow10(n: nat): (r: nat)
    ensures r >= 1
  {
    if n == 0 then 1 else 10 * Pow10(n - 1)
  }

  /** An unsigned decimal `w`, `w.`, `.f` or `w.f` with at least one digit; None for anything else. */
  function Unsigned(s: string): Option<real> {
    var d := IndexOf(s, '.');
    var whole := s[..d];
    var frac := if d < |s| then s[d + 1..] else "";
    if AllDigits(whole) && AllDigits(frac) && |whole| + |frac| > 0 then
      Some(DigitsValue(whole) as real + DigitsValue(frac) as real / Pow10(|frac|) as real)
    else
      None
  }

  /** `float(text)`: surrounding whitespace, an optional sign, then an unsigned decimal. */
  function ParseFloat(text: string): Option<real> {
    var t := Strip(text);
    if t != [] && t[0] == '-' then
      match Unsigned(t[1..])
      case Some(x) => Some(-x)
      case None => None
    else if t != [] && t[0] == '+' then Unsigned(t[1..])
    else Unsigned(t)
  }

  function DigitChar(d: nat): (c: char)
    requires d < 10
    ensures IsDigit(c) && DigitValue(c) == d
  {
    ('0' as int + d) as char
  }

  /** `str(n)` for a natural number: its decimal digits, without leading zeros. */
  function NatText(n: nat): string
  {
    if n < 10 then [DigitChar(n)] else NatText(n / 10) + [DigitChar(n % 10)]
  }

  /** `str(i)` for an integer. */
  function IntText(i: int): string {
    if i < 0 then "-" + NatText(-i) else NatText(i)
  }

  lemma {:induction false} NatTextDigits(n: nat)
    ensures |NatText(n)| > 0 && AllDigits(NatText(n))
    ensures DigitsValue(NatText(n)) == n
  {
    if n >= 10 {
      NatTextDigits(n / 10);
      var s := NatText(n);
      assert s[..|s| - 1] == NatText(n / 10);
    }
  }

  /** A run of digits holds no point. */
  lemma {:induction false} DigitsHaveNoPoint(s: string)
    requires AllDigits(s)
    ensures IndexOf(s, '.') == |s|
  {
    if s != [] {
      assert IsDigit(s[0]);
      DigitsHaveNoPoint(s[1..]);
    }
  }

  /** A digit string without surrounding text is read as the number it denotes. */
  lemma UnsignedDigits(s: string)
    requires |s| > 0 && AllDigits(s)
    ensures Unsigned(s).Some? && Unsigned(s).value == DigitsValue(s) as real
  {
    DigitsHaveNoPoint(s);
    assert s[..|s|] == s;
    assert AllDigits("") && DigitsValue("") == 0 && Pow10(0) == 1;
  }

  /** Digits have no surrounding whitespace. */
  lemma DigitsTrimmed(s: string)
    requires AllDigits(s)
    ensures Trimmed(s)
  {
    if s != [] {
      assert IsDigit(s[0]) && IsDigit(s[|s| - 1]);
    }
  }

  /** An unsigned text that `strip` leaves alone and that starts without a sign is read as it stands. */
  lemma ParseUnsigned(s: string)
    requires Trimmed(s) && s != [] && s[0] != '-' && s[0] != '+'
    ensures ParseFloat(s) == Unsigned(s)
  {
    StripOfTrimmed(s);
  }

  /** A minus sign in front of an unsigned text negates it. */
  lemma ParseNegative(s: string)
    requires Trimmed("-" + s)
    ensures Unsigned(s).Some? ==> ParseFloat("-" + s).Some? && ParseFloat("-" + s).value == -Unsigned(s).value
    ensures Unsigned(s).None? ==> ParseFloat("-" + s).None?
  {
    StripOfTrimmed("-" + s);
    assert ("-" + s)[0] == '-';
    assert ("-" + s)[1..] == s;
  }

  /** `float` reads a run of digits as the number it denotes. */
  lemma ParseDigits(digits: string)
    requires |digits| > 0 && AllDigits(digits)
    ensures ParseFloat(digits).Some? && ParseFloat(digits).value == DigitsValue(digits) as real
  {
    UnsignedDigits(digits);
    DigitsTrimmed(digits);
    assert IsDigit(digits[0]);
    ParseUnsigned(digits);
  }

  /** `float` reads a minus sign and a run of digits as the negated number. */
  lemma ParseNegativeDigits(digits: string)
    requires |digits| > 0 && AllDigits(digits)
    ensures ParseFloat("-" + digits).Some? && ParseFloat("-" + digits).value == -(DigitsValue(digits) as real)
  {
    UnsignedDigits(digits);
    NegativeDigitsTrimmed(digits);
    ParseNegative(digits);
  }

  lemma NegativeDigitsTrimmed(digits: string)
    requires |digits| > 0 && AllDigits(digits)
    ensures Trimmed("-" + digits)
  {
    var s := "-" + digits;
    assert s[0] == '-';
    assert s[|s| - 1] == digits[|digits| - 1];
    assert IsDigit(digits[|digits| - 1]);
  }

  /** `float(str(i)) == i`: the text of an integer stat parses back to that integer. */
  lemma ParseIntText(i: int)
    ensures ParseFloat(IntText(i)).Some? && ParseFloat(IntText(i)).value == i as real
  {
    var n: nat := if i < 0 then -i else i;
    NatTextDigits(n);
    if i < 0 {
      assert IntText(i) == "-" + NatText(n);
      ParseNegativeDigits(NatText(n));
    } else {
      assert IntText(i) == NatText(n);
      ParseDigits(NatText(n));
    }
  }

  /** `float("w.f")` for digit strings `w` and `f` is `w + f / 10^|f|`. */
  lemma ParseDecimal(w: string, f: string)
    requires |w| > 0 && AllDigits(w) && AllDigits(f)
    ensures ParseFloat(w + "." + f).Some?
    ensures ParseFloat(w + "." + f).value == DigitsValue(w) as real + DigitsValue(f) as real / Pow10(|f|) as real
  {
    DecimalTrimmed(w, f);
    DecimalUnsigned(w, f);
    ParseUnsigned(w + "." + f);
  }

  lemma DecimalTrimmed(w: string, f: string)
    requires |w| > 0 && AllDigits(w) && AllDigits(f)
    ensures Trimmed(w + "." + f) && IsDigit((w + "." + f)[0])
  {
    var s := w + "." + f;
    assert s[0] == w[0] && IsDigit(w[0]);
    if f != [] {
      assert s[|s| - 1] == f[|f| - 1];
      assert IsDigit(f[|f| - 1]);
    } else {
      assert s[|s| - 1] == '.';
    }
  }

  lemma DecimalUnsigned(w: string, f: string)
    requires AllDigits(w) && AllDigits(f) && |w| + |f| > 0
    ensures Unsigned(w + "." + f).Some?
    ensures Unsigned(w + "." + f).value == DigitsValue(w) as real + DigitsValue(f) as real / Pow10(|f|) as real
  {
    var s := w + "." + f;
    FirstPoint(w, f);
    assert s[..|w|] == w;
    assert s[|w| + 1..] == f;
  }

  /** The point after a run of digits is the first one. */
  lemma FirstPoint(w: string, f: string)
    requires AllDigits(w)
    ensures IndexOf(w + "." + f, '.') == |w|
  {
    DigitsHaveNoPoint(w);
    IndexOfSpec(w, '.');
    IndexOfAfter(w, "." + f, '.');
    assert w + "." + f == w + ("." + f);
  }

  // ---------------------------------------------------------------------------
  // The weighted sum
  // ---------------------------------------------------------------------------

  /** Why scoring a dict fails: `float()` raising on the value of `key`. */
  datatype ScoreError = NotANumber(key: string) | NotScalar(key: string)

  /** What `float(v)` gives for a stat value. */
  datatype Reading = Number(x: real) | Unparsable | NotNumeric

  function ValueReading(v: StatValue): Reading {
    match v
    case Nested => NotNumeric
    case Scalar(t) =>
      match ParseFloat(t)
      case Some(x) => Number(x)
      case None => Unparsable
  }

  /** Every item of a stat dict with its value passed through `float()`. */
  function Readings(m: StatMap): (r: seq<(string, Reading)>)
    ensures |r| == |m|
  {
    if m == [] then [] else Readings(m[..|m| - 1]) + [(m[|m| - 1].0, ValueReading(m[|m| - 1].1))]
  }

  /** Reading the dict first and looking up afterwards is looking up and then reading. */
  lemma {:induction false} ReadingsLookup(m: StatMap, key: string)
    ensures Lookup(Readings(m), key) ==
      match Lookup(m, key)
      case None => None
      case Some(v) => Some(ValueReading(v))
  {
    if m != [] {
      var prev := m[..|m| - 1];
      ReadingsLookup(prev, key);
      assert Readings(m)[..|m| - 1] == Readings(prev);
    }
  }

  /** `float(stats.get(key, 0))`, over the read dict. */
  function StatNumber(rm: seq<(string, Reading)>, key: string): Result<real, ScoreError> {
    var found: Option<Reading> := Lookup(rm, key);
    match found
    case None => Ok(0.0)
    case Some(reading) =>
      match reading
      case Number(x) => Ok(x)
      case Unparsable => Err(NotANumber(key))
      case NotNumeric => Err(NotScalar(key))
  }

  /** One addition of the loop body: `scoring[name] * float(stats.get(key, 0))`, with the weight read from the table. */
  datatype Term = Term(name: string, weight: int, key: string)

  /**
   * The fifteen additions of the loop body in source order. The two pitching
   * weights read the batting keys `baseOnBalls` and `strikeOuts`.
   */
  const Terms: seq<Term> := [
    Term("runs", 1, "runs"), Term("totalBases", 1, "totalBases"), Term("rbi", 1, "rbi"),
    Term("baseOnBalls", 1, "baseOnBalls"), Term("strikeOuts", -1, "strikeOuts"),
    Term("stolenBases", 1, "stolenBases"), Term("inningsPitched", 3, "inningsPitched"),
    Term("hits", -1, "hits"), Term("earnedRuns", -2, "earnedRuns"), Term("holds", 2, "holds"),
    Term("pitchingBaseOnBalls", -1, "baseOnBalls"), Term("pitchingStrikeOuts", 1, "strikeOuts"),
    Term("wins", 2, "wins"), Term("losses", -2, "losses"), Term("saves", 2, "saves")]

  /** The table of weights the given additions use, by weight name. */
  function WeightTable(terms: seq<Term>): map<string, int>
    requires forall i, j :: 0 <= i < j < |terms| ==> terms[i].name != terms[j].name
  {
    map i | 0 <= i < |terms| :: terms[i].name := terms[i].weight
  }

  /** With distinct names, each addition finds its own weight in the table, and the table holds nothing else. */
  lemma WeightTableEntries(terms: seq<Term>)
    requires forall i, j :: 0 <= i < j < |terms| ==> terms[i].name != terms[j].name
    ensures forall i :: 0 <= i < |terms| ==> terms[i].name in WeightTable(terms) && WeightTable(terms)[terms[i].name] == terms[i].weight
    ensures forall name :: name in WeightTable(terms) ==> exists i :: 0 <= i < |terms| && terms[i].name == name
  {
    var t := WeightTable(terms);
    forall i | 0 <= i < |terms|
      ensures terms[i].name in t && t[terms[i].name] == terms[i].weight
    {
      var j :| 0 <= j < |terms| && terms[j].name == terms[i].name && t[terms[i].name] == terms[j].weight;
      assert i == j || i < j || j < i;
    }
  }

  /** The fifteen weight names are distinct. */
  lemma TermNamesDistinct()
    ensures forall i, j :: 0 <= i < j < |Terms| ==> Terms[i].name != Terms[j].name
  {
  }

  /** The `scoring` table: weight name to weight. */
  const ScoringTable: map<string, int> := WeightTable(Terms)

  /** Each addition takes its weight from the table, and every entry of the table is used. */
  lemma TermsFollowTable()
    ensures forall i :: 0 <= i < |Terms| ==> Terms[i].name in ScoringTable && ScoringTable[Terms[i].name] == Terms[i].weight
    ensures forall name :: name in ScoringTable ==> exists i :: 0 <= i < |Terms| && Terms[i].name == name
  {
    TermNamesDistinct();
    WeightTableEntries(Terms);
  }

  /** The additions of `terms` from the `k`-th on, first to last; the first reading that fails aborts. */
  function ScoreFrom(rm: seq<(string, Reading)>, terms: seq<Term>, k: nat): Result<real, ScoreError>
    decreases |terms| - k
  {
    if k >= |terms| then Ok(0.0)
    else
      var x :- StatNumber(rm, terms[k].key);
      var rest :- ScoreFrom(rm, terms, k + 1);
      Ok(terms[k].weight as real * x + rest)
  }

  /** The contribution of one read stat dict: all fifteen additions. */
  function ReadScore(rm: seq<(string, Reading)>): Result<real, ScoreError> {
    ScoreFrom(rm, Terms, 0)
  }

  /** The contribution of one stat dict. */
  function DictScore(m: StatMap): Result<real, ScoreError> {
    ReadScore(Readings(m))
  }

  /** `calculate_fantasy_score`'s argument: a single dict or a list of them. */
  datatype ScoreInput = OneDict(stats: StatMap) | DictList(list: seq<StatMap>)

  /** `stats_list`: a single dict becomes a one-element list. */
  function StatsList(input: ScoreInput): seq<StatMap> {
    match input
    case OneDict(m) => [m]
    case DictList(ms) => ms
  }

  /** The running total over a list of dicts; the first dict that fails aborts. */
  function TotalScore(ms: seq<StatMap>): Result<real, ScoreError> {
    if ms == [] then Ok(0.0)
    else
      var prev :- TotalScore(ms[..|ms| - 1]);
      var x :- DictScore(ms[|ms| - 1]);
      Ok(prev + x)
  }

  method CalculateFantasyScore(input: ScoreInput) returns (r: Result<real, ScoreError>)
    ensures r == TotalScore(StatsList(input))
  {
    var statsList := StatsList(input);
    var total := 0.0;
    var i := 0;
    while i < |statsList|
      invariant 0 <= i <= |statsList|
      invariant TotalScore(statsList[..i]).Ok? && TotalScore(statsList[..i]).value == total
    {
      assert statsList[..i + 1][..i] == statsList[..i];
      var s := DictScore(statsList[i]);
      if s.Err? {
        TotalScoreAbort(statsList, i);
        return Err(s.error);
      }
      total := total + s.value;
      i := i + 1;
    }
    assert statsList[..i] == statsList;
    r := Ok(total);
  }

  // ---------------------------------------------------------------------------
  // Properties
  // ---------------------------------------------------------------------------

  /** A dict that fails after a clean prefix makes the whole list fail with its error. */
  lemma {:induction false} TotalScoreAbort(ms: seq<StatMap>, i: nat)
    requires i < |ms| && TotalScore(ms[..i]).Ok? && DictScore(ms[i]).Err?
    ensures TotalScore(ms) == Err(DictScore(ms[i]).error)
  {
    var prev := ms[..|ms| - 1];
    if i == |ms| - 1 {
      assert prev == ms[..i];
    } else {
      assert prev[..i] == ms[..i];
      assert prev[i] == ms[i];
      TotalScoreAbort(prev, i);
    }
  }

  /** Additivity: the score of a concatenation is the sum of the scores, the first error winning. */
  lemma {:induction false} TotalScoreAppend(a: seq<StatMap>, b: seq<StatMap>)
    ensures TotalScore(a).Err? ==> TotalScore(a + b) == TotalScore(a)
    ensures TotalScore(a).Ok? && TotalScore(b).Err? ==> TotalScore(a + b) == TotalScore(b)
    ensures TotalScore(a).Ok? && TotalScore(b).Ok? ==>
      TotalScore(a + b).Ok? && TotalScore(a + b).value == TotalScore(a).value + TotalScore(b).value
  {
    if b == [] {
      assert a + b == a;
    } else {
      var last := |b| - 1;
      assert (a + b)[..|a + b| - 1] == a + b[..last];
      assert (a + b)[|a + b| - 1] == b[last];
      TotalScoreAppend(a, b[..last]);
    }
  }

  lemma EmptyListScoresZero()
    ensures TotalScore(StatsList(DictList([]))) == Ok(0.0)
  {
  }

  /** A single dict scores the same as the list holding only it. */
  lemma OneDictIsList(m: StatMap)
    ensures TotalScore(StatsList(OneDict(m))) == DictScore(m)
    ensures TotalScore(StatsList(OneDict(m))) == TotalScore(StatsList(DictList([m])))
  {
    assert [m][..0] == [];
  }

  /** The stat keys the table reads. */
  const ScoredKeys: set<string> := set i | 0 <= i < |Terms| :: Terms[i].key

  /** Thirteen distinct keys: `baseOnBalls` and `strikeOuts` are each read twice. */
  lemma ScoredKeysAre()
    ensures ScoredKeys == {
      "runs", "totalBases", "rbi", "baseOnBalls", "strikeOuts", "stolenBases",
      "inningsPitched", "hits", "earnedRuns", "holds", "wins", "losses", "saves"}
  {
    assert Terms[0].key == "runs" && Terms[1].key == "totalBases" && Terms[2].key == "rbi";
    assert Terms[3].key == "baseOnBalls" && Terms[4].key == "strikeOuts" && Terms[5].key == "stolenBases";
    assert Terms[6].key == "inningsPitched" && Terms[7].key == "hits" && Terms[8].key == "earnedRuns";
    assert Terms[9].key == "holds" && Terms[12].key == "wins" && Terms[13].key == "losses" && Terms[14].key == "saves";
  }

  /** The reading of `key`, 0 for a failing one (used only where every reading succeeds). */
  function N(rm: seq<(string, Reading)>, key: string): real {
    match StatNumber(rm, key)
    case Ok(x) => x
    case Err(_) => 0.0
  }

  /** Every reading of `terms` from the `k`-th on succeeds. */
  predicate ReadableFrom(rm: seq<(string, Reading)>, terms: seq<Term>, k: nat) {
    forall i :: k <= i < |terms| ==> StatNumber(rm, terms[i].key).Ok?
  }

  /** Every key the table reads is missing or holds a number. */
  predicate Readable(rm: seq<(string, Reading)>) {
    ReadableFrom(rm, Terms, 0)
  }

  /** The weighted sum of the readings of `terms` from the `k`-th on, all of them taken to succeed. */
  function SumFrom(rm: seq<(string, Reading)>, terms: seq<Term>, k: nat): real
    decreases |terms| - k
  {
    if k >= |terms| then 0.0 else terms[k].weight as real * N(rm, terms[k].key) + SumFrom(rm, terms, k + 1)
  }

  /** The additions succeed exactly when every reading does, and then give the weighted sum. */
  lemma {:induction false} ScoreFromOk(rm: seq<(string, Reading)>, terms: seq<Term>, k: nat)
    ensures ScoreFrom(rm, terms, k).Ok? <==> ReadableFrom(rm, terms, k)
    ensures ScoreFrom(rm, terms, k).Ok? ==> ScoreFrom(rm, terms, k).value == SumFrom(rm, terms, k)
    decreases |terms| - k
  {
    if k < |terms| {
      ScoreFromOk(rm, terms, k + 1);
    }
  }

  /** Two dicts that read alike on every key the terms use score alike. */
  lemma {:induction false} ScoreFromAgree(rm1: seq<(string, Reading)>, rm2: seq<(string, Reading)>, terms: seq<Term>, k: nat)
    requires forall i :: k <= i < |terms| ==> StatNumber(rm1, terms[i].key) == StatNumber(rm2, terms[i].key)
    ensures ScoreFrom(rm1, terms, k) == ScoreFrom(rm2, terms, k)
    decreases |terms| - k
  {
    if k < |terms| {
      var key := terms[k].key;
      assert StatNumber(rm1, key) == StatNumber(rm2, key);
      ScoreFromAgree(rm1, rm2, terms, k + 1);
      assert ScoreFrom(rm1, terms, k + 1) == ScoreFrom(rm2, terms, k + 1);
      if StatNumber(rm1, key).Err? {
        assert ScoreFrom(rm1, terms, k) == Err(StatNumber(rm1, key).error);
        assert ScoreFrom(rm2, terms, k) == Err(StatNumber(rm1, key).error);
      } else if ScoreFrom(rm1, terms, k + 1).Err? {
        assert ScoreFrom(rm1, terms, k) == Err(ScoreFrom(rm1, terms, k + 1).error);
        assert ScoreFrom(rm2, terms, k) == Err(ScoreFrom(rm1, terms, k + 1).error);
      } else {
        var x, rest := StatNumber(rm1, key).value, ScoreFrom(rm1, terms, k + 1).value;
        assert ScoreFrom(rm1, terms, k).Ok? && ScoreFrom(rm1, terms, k).value == terms[k].weight as real * x + rest;
        assert ScoreFrom(rm2, terms, k).Ok? && ScoreFrom(rm2, terms, k).value == terms[k].weight as real * x + rest;
      }
    }
  }

  /** The first three additions of the table, in closed form. */
  lemma OpeningTerms(rm: seq<(string, Reading)>)
    ensures SumFrom(rm, Terms, 0) == N(rm, "runs") + N(rm, "totalBases") + N(rm, "rbi") + SumFrom(rm, Terms, 3)
  {
    assert SumFrom(rm, Terms, 0) == N(rm, "runs") + SumFrom(rm, Terms, 1);
    assert SumFrom(rm, Terms, 1) == N(rm, "totalBases") + SumFrom(rm, Terms, 2);
    assert SumFrom(rm, Terms, 2) == N(rm, "rbi") + SumFrom(rm, Terms, 3);
  }

  /** The rest of the batting half of the table, in closed form. */
  lemma BattingTerms(rm: seq<(string, Reading)>)
    ensures SumFrom(rm, Terms, 3) ==
      N(rm, "baseOnBalls") - N(rm, "strikeOuts") + N(rm, "stolenBases") + 3.0 * N(rm, "inningsPitched") + SumFrom(rm, Terms, 7)
  {
    assert SumFrom(rm, Terms, 3) == N(rm, "baseOnBalls") + SumFrom(rm, Terms, 4);
    assert SumFrom(rm, Terms, 4) == -N(rm, "strikeOuts") + SumFrom(rm, Terms, 5);
    assert SumFrom(rm, Terms, 5) == N(rm, "stolenBases") + SumFrom(rm, Terms, 6);
    assert SumFrom(rm, Terms, 6) == 3.0 * N(rm, "inningsPitched") + SumFrom(rm, Terms, 7);
  }

  /** The pitching half of the table, in closed form. */
  lemma PitchingTerms(rm: seq<(string, Reading)>)
    ensures SumFrom(rm, Terms, 7) ==
      - N(rm, "hits") - 2.0 * N(rm, "earnedRuns") + 2.0 * N(rm, "holds") - N(rm, "baseOnBalls") + N(rm, "strikeOuts")
      + 2.0 * N(rm, "wins") - 2.0 * N(rm, "losses") + 2.0 * N(rm, "saves")
  {
    assert SumFrom(rm, Terms, 7) == -N(rm, "hits") + SumFrom(rm, Terms, 8);
    assert SumFrom(rm, Terms, 8) == -2.0 * N(rm, "earnedRuns") + SumFrom(rm, Terms, 9);
    assert SumFrom(rm, Terms, 9) == 2.0 * N(rm, "holds") + SumFrom(rm, Terms, 10);
    assert SumFrom(rm, Terms, 10) == -N(rm, "baseOnBalls") + SumFrom(rm, Terms, 11);
    assert SumFrom(rm, Terms, 11) == N(rm, "strikeOuts") + SumFrom(rm, Terms, 12);
    assert SumFrom(rm, Terms, 12) == 2.0 * N(rm, "wins") + SumFrom(rm, Terms, 13);
    assert SumFrom(rm, Terms, 13) == -2.0 * N(rm, "losses") + SumFrom(rm, Terms, 14);
    assert SumFrom(rm, Terms, 14) == 2.0 * N(rm, "saves") + SumFrom(rm, Terms, 15);
  }

  /**
   * The per-dict score in closed form. `baseOnBalls` is added with weight +1
   * and again with the pitching weight -1; `strikeOuts` with -1 and again with
   * +1; so both cancel.
   */
  lemma ReadScoreClosedForm(rm: seq<(string, Reading)>)
    requires Readable(rm)
    ensures ReadScore(rm).Ok?
    ensures ReadScore(rm).value == (
      N(rm, "runs") + N(rm, "totalBases") + N(rm, "rbi") + N(rm, "stolenBases")
      + 3.0 * N(rm, "inningsPitched") - N(rm, "hits") - 2.0 * N(rm, "earnedRuns") + 2.0 * N(rm, "holds")
      + 2.0 * N(rm, "wins") - 2.0 * N(rm, "losses") + 2.0 * N(rm, "saves"))
  {
    ScoreFromOk(rm, Terms, 0);
    OpeningTerms(rm);
    BattingTerms(rm);
    PitchingTerms(rm);
  }

  /** Scoring a dict succeeds exactly when every key the table reads is missing or parses as a number. */
  lemma DictScoreOk(m: StatMap)
    ensures DictScore(m).Ok? <==> Readable(Readings(m))
  {
    ScoreFromOk(Readings(m), Terms, 0);
  }

  /** Keys the table does not read change nothing. */
  lemma DictScoreIgnoresOtherKeys(m: StatMap, extra: StatMap)
    requires forall i :: 0 <= i < |extra| ==> extra[i].0 !in ScoredKeys
    ensures DictScore(m + extra) == DictScore(m)
  {
    forall i | 0 <= i < |Terms|
      ensures StatNumber(Readings(m + extra), Terms[i].key) == StatNumber(Readings(m), Terms[i].key)
    {
      var k := Terms[i].key;
      assert k in ScoredKeys;
      ReadingsLookup(m + extra, k);
      ReadingsLookup(m, k);
      LookupOther(m, extra, k);
    }
    ScoreFromAgree(Readings(m + extra), Readings(m), Terms, 0);
  }

  /** A dict whose every value is a number can be scored. */
  lemma AllNumbersReadable(rm: seq<(string, Reading)>)
    requires forall i :: 0 <= i < |rm| ==> rm[i].1.Number?
    ensures Readable(rm)
  {
    forall i | 0 <= i < |Terms|
      ensures StatNumber(rm, Terms[i].key).Ok?
    {
      LookupSpec(rm, Terms[i].key);
    }
  }

  /** The dict of the example below, as `float()` reads it. */
  lemma ExampleReadings()
    ensures Readings([("runs", Scalar("2")), ("rbi", Scalar("1")), ("strikeOuts", Scalar("3"))])
      == [("runs", Number(2.0)), ("rbi", Number(1.0)), ("strikeOuts", Number(3.0))]
  {
    DigitReading('2');
    DigitReading('1');
    DigitReading('3');
    ReadingsOfThree(("runs", Scalar("2")), ("rbi", Scalar("1")), ("strikeOuts", Scalar("3")));
  }

  lemma ReadingsOfThree(a: (string, StatValue), b: (string, StatValue), c: (string, StatValue))
    ensures Readings([a, b, c]) == [(a.0, ValueReading(a.1)), (b.0, ValueReading(b.1)), (c.0, ValueReading(c.1))]
  {
    assert [a][..0] == [];
    assert Readings([a]) == [(a.0, ValueReading(a.1))];
    assert [a, b][..1] == [a];
    assert Readings([a, b]) == Readings([a]) + [(b.0, ValueReading(b.1))];
    assert [a, b, c][..2] == [a, b];
    assert Readings([a, b, c]) == Readings([a, b]) + [(c.0, ValueReading(c.1))];
  }

  lemma DigitReading(c: char)
    requires IsDigit(c)
    ensures ValueReading(Scalar([c])) == Number(DigitValue(c) as real)
  {
    ParseDigits([c]);
    assert [c][..0] == [];
  }

  /** `N` of a key is the number of its last item. */
  lemma NOfItem(rm: seq<(string, Reading)>, i: nat, x: real)
    requires i < |rm| && rm[i].1 == Number(x)
    requires forall j :: i < j < |rm| ==> rm[j].0 != rm[i].0
    ensures N(rm, rm[i].0) == x
  {
    LookupSpec(rm, rm[i].0);
  }

  /** `N` of a missing key is 0. */
  lemma NOfMissing(rm: seq<(string, Reading)>, key: string)
    requires forall j :: 0 <= j < |rm| ==> rm[j].0 != key
    ensures N(rm, key) == 0.0
  {
    LookupSpec(rm, key);
  }

  /** The readings of the example: runs 2, rbi 1, and every other key the scorer reads missing. */
  lemma ExampleNumbers(rm: seq<(string, Reading)>)
    requires rm == [("runs", Number(2.0)), ("rbi", Number(1.0)), ("strikeOuts", Number(3.0))]
    ensures N(rm, "runs") == 2.0 && N(rm, "rbi") == 1.0
    ensures N(rm, "totalBases") == 0.0 && N(rm, "stolenBases") == 0.0 && N(rm, "inningsPitched") == 0.0
    ensures N(rm, "hits") == 0.0 && N(rm, "earnedRuns") == 0.0 && N(rm, "holds") == 0.0
    ensures N(rm, "wins") == 0.0 && N(rm, "losses") == 0.0 && N(rm, "saves") == 0.0
  {
    NOfItem(rm, 0, 2.0);
    NOfItem(rm, 1, 1.0);
    var missing := ["totalBases", "stolenBases", "inningsPitched", "hits", "earnedRuns", "holds", "wins", "losses", "saves"];
    forall k | 0 <= k < |missing|
      ensures N(rm, missing[k]) == 0.0
    {
      NOfMissing(rm, missing[k]);
    }
    assert missing[0] == "totalBases" && missing[1] == "stolenBases" && missing[2] == "inningsPitched";
    assert missing[3] == "hits" && missing[4] == "earnedRuns" && missing[5] == "holds";
    assert missing[6] == "wins" && missing[7] == "losses" && missing[8] == "saves";
  }

  /**
   * `{"runs": "2", "rbi": "1", "strikeOuts": "3"}` scores 3: the two
   * `strikeOuts` additions cancel, so only runs and rbi count.
   */
  lemma StrikeOutsCancelExample()
    ensures DictScore([("runs", Scalar("2")), ("rbi", Scalar("1")), ("strikeOuts", Scalar("3"))]).Ok?
    ensures DictScore([("runs", Scalar("2")), ("rbi", Scalar("1")), ("strikeOuts", Scalar("3"))]).value == 3.0
  {
    var m := [("runs", Scalar("2")), ("rbi", Scalar("1")), ("strikeOuts", Scalar("3"))];
    var rm := [("runs", Number(2.0)), ("rbi", Number(1.0)), ("strikeOuts", Number(3.0))];
    ExampleReadings();
    assert DictScore(m) == ReadScore(rm);
    ExampleScore(rm);
  }

  lemma ExampleScore(rm: seq<(string, Reading)>)
    requires rm == [("runs", Number(2.0)), ("rbi", Number(1.0)), ("strikeOuts", Number(3.0))]
    ensures ReadScore(rm).Ok? && ReadScore(rm).value == 3.0
  {
    AllNumbersReadable(rm);
    ReadScoreClosedForm(rm);
    ExampleNumbers(rm);
  }
}
