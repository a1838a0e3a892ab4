/**
 * The value normaliser of the DB2 helper class: the enum-token translation,
 * the metric-value validator, the float conversion and `buildString`.
 */
module Normaliser {

  import opened Wrappers
  import opened Text
  import opened Constants

  // ---------------------------------------------------------------------
  // transformStringMetric

  /**
   * Textual states become numeric strings before validation: the first
   * matching test wins, matching ignores case, anything else (null included)
   * comes back unchanged.
   */
  function TransformStringMetric(val: Option<string>): Option<string> {
    if EqualsIgnoreCase(ON, val) || EqualsIgnoreCase(TRUE, val) then Some(ONE)
    else if EqualsIgnoreCase(OFF, val) || EqualsIgnoreCase(NONE, val) then Some(ZERO)
    else if EqualsIgnoreCase(YES, val) then Some(ONE)
    else if EqualsIgnoreCase(NO, val) then Some(ZERO)
    else if EqualsIgnoreCase(NULL, val) then Some(NEG_ONE)
    // HADR states
    else if EqualsIgnoreCase(DISCONNECTED, val) then Some(ZERO)
    else if EqualsIgnoreCase(LOCAL_CATCHUP, val) then Some(ONE)
    else if EqualsIgnoreCase(REMOTE_CATCHUP_PENDING, val) then Some(THREE)
    else if EqualsIgnoreCase(REMOTE_CATCHUP, val) then Some(FOUR)
    else if EqualsIgnoreCase(PEER, val) then Some(FIVE)
    else if EqualsIgnoreCase(CONNECTED, val) then Some(ONE)
    else if EqualsIgnoreCase(CONGESTED, val) then Some(TWO)
    else val
  }

  /** Reference table: the lowercased token and the numeric string it stands for. */
  const TokenCodes: map<string, string> := map[
    "on" := "1", "true" := "1", "yes" := "1", "local_catchup" := "1", "connected" := "1",
    "off" := "0", "none" := "0", "no" := "0", "disconnected" := "0",
    "null" := "-1",
    "congested" := "2", "remote_catchup_pending" := "3", "remote_catchup" := "4", "peer" := "5"
  ]

  /** The chain of tests is a table lookup on the lowercased input. */
  lemma TransformIsTableLookup(val: Option<string>)
    ensures TransformStringMetric(val) ==
      if val.Some? && Lower(val.value) in TokenCodes then Some(TokenCodes[Lower(val.value)]) else val
  {
    LowerTokens1();
    LowerTokens2();
    LowerTokens3();
  }

  /** The lowercase spellings of the tokens. */
  lemma LowerTokens1()
    ensures Lower(ON) == "on" && Lower(TRUE) == "true" && Lower(OFF) == "off" && Lower(NONE) == "none" && Lower(YES) == "yes"
  {
    LowerEq(ON, "on");
    LowerEq(TRUE, "true");
    LowerEq(OFF, "off");
    LowerEq(NONE, "none");
    LowerEq(YES, "yes");
  }

  lemma LowerTokens2()
    ensures Lower(NO) == "no" && Lower(NULL) == "null" && Lower(DISCONNECTED) == "disconnected" && Lower(LOCAL_CATCHUP) == "local_catchup"
  {
    LowerEq(NO, "no");
    LowerEq(NULL, "null");
    LowerEq(DISCONNECTED, "disconnected");
    LowerEq(LOCAL_CATCHUP, "local_catchup");
  }

  lemma LowerTokens3()
    ensures Lower(REMOTE_CATCHUP_PENDING) == "remote_catchup_pending" && Lower(REMOTE_CATCHUP) == "remote_catchup" && Lower(PEER) == "peer" && Lower(CONNECTED) == "connected" && Lower(CONGESTED) == "congested"
  {
    LowerEq(REMOTE_CATCHUP_PENDING, "remote_catchup_pending");
    LowerEq(REMOTE_CATCHUP, "remote_catchup");
    LowerEq(PEER, "peer");
    LowerEq(CONNECTED, "connected");
    LowerEq(CONGESTED, "congested");
  }

  /** Null, DISCONNECTED_PEER and every string that is no token pass through unchanged. */
  lemma TransformPassesThrough(s: string)
    ensures Lower(s) !in TokenCodes ==> TransformStringMetric(Some(s)) == Some(s)
    ensures TransformStringMetric(Some(DISCONNECTED_PEER)) == Some(DISCONNECTED_PEER)
    ensures TransformStringMetric(None) == None
  {
    TransformIsTableLookup(Some(s));
    TransformIsTableLookup(None);
    TransformIsTableLookup(Some(DISCONNECTED_PEER));
    LowerEq(DISCONNECTED_PEER, "disconnected_peer");
  }

  /** Every token starts with a lowercase letter. */
  lemma TokensAreWords()
    ensures forall k :: k in TokenCodes ==> |k| > 0 && 'a' <= k[0] <= 'z'
  {
  }

  lemma StartsDifferently(s: string, k: string)
    requires |k| > 0 && 'a' <= k[0] <= 'z'
    requires |s| > 0 ==> !('a' <= s[0] <= 'z')
    ensures s != k
  {
  }

  /** A string of digits, signs and points is no token. */
  lemma NumericTextIsNoToken(s: string)
    requires forall i :: 0 <= i < |s| ==> IsDigit(s[i]) || s[i] == '-' || s[i] == '.'
    ensures Lower(s) !in TokenCodes
  {
    assert IsLowerCase(s);
    LowerOfLowerCase(s);
    TokensAreWords();
    forall k | k in TokenCodes
      ensures s != k
    {
      StartsDifferently(s, k);
    }
  }

  /** A string of digits, signs and points passes through unchanged. */
  lemma NumericTextPasses(s: string)
    requires forall i :: 0 <= i < |s| ==> IsDigit(s[i]) || s[i] == '-' || s[i] == '.'
    ensures TransformStringMetric(Some(s)) == Some(s)
  {
    NumericTextIsNoToken(s);
    TransformPassesThrough(s);
  }

  /** The numeric encodings are not tokens themselves. */
  lemma CodesAreNotTokens(v: string)
    requires v in TokenCodes.Values
    ensures Lower(v) == v && v !in TokenCodes
  {
    LowerEq(v, v);
  }

  /** Transforming twice is transforming once. */
  lemma TransformIdempotent(val: Option<string>)
    ensures TransformStringMetric(TransformStringMetric(val)) == TransformStringMetric(val)
  {
    TransformIsTableLookup(val);
    var t := TransformStringMetric(val);
    TransformIsTableLookup(t);
    if t != val {
      CodesAreNotTokens(t.value);
    }
  }

  // ---------------------------------------------------------------------
  // validMetricValue: a recogniser for (-)?(\.)?\d+(\.\d+)?

  /** `\d` in a Java regular expression: an ASCII digit. */
  predicate IsDigit(c: char) {
    '0' <= c <= '9'
  }

  predicate AllDigits(s: string) {
    forall i :: 0 <= i < |s| ==> IsDigit(s[i])
  }

  /** The end of the longest run of digits that starts at `i`. */
  function DigitRun(s: string, i: nat): (j: nat)
    requires i <= |s|
    ensures i <= j <= |s|
    ensures forall k :: i <= k < j ==> IsDigit(s[k])
    ensures j < |s| ==> !IsDigit(s[j])
    decreases |s| - i
  {
    if i < |s| && IsDigit(s[i]) then DigitRun(s, i + 1) else i
  }

  /**
   * The hand-written recogniser: skip an optional '-', then an optional '.',
   * then take the digits; the rest must be empty or '.' followed by digits only.
   */
  predicate MatchesMetricPattern(s: string) {
    var a := if 0 < |s| && s[0] == '-' then 1 else 0;
    var b := if a < |s| && s[a] == '.' then a + 1 else a;
    var n := DigitRun(s, b);
    b < n && (n == |s| || (s[n] == '.' && n + 1 < |s| && DigitRun(s, n + 1) == |s|))
  }

  /**
   * Reference reading of the pattern: `s` splits at `a`, `b`, `n` into the
   * optional sign, the optional leading point, a non-empty digit run and an
   * optional fraction of a point and a non-empty digit run.
   */
  ghost predicate PatternSplit(s: string, a: nat, b: nat, n: nat) {
    && a <= 1 && a <= b <= a + 1 && b < n <= |s|
    && (a == 1 ==> s[0] == '-')
    && (b == a + 1 ==> s[a] == '.')
    && AllDigits(s[b..n])
    && (n == |s| || (s[n] == '.' && n + 1 < |s| && AllDigits(s[n + 1..])))
  }

  /** `Pattern.matcher(s).matches()` for the metric pattern: the whole string matches. */
  ghost predicate MatchesRegex(s: string) {
    exists a: nat, b: nat, n: nat :: PatternSplit(s, a, b, n)
  }

  /** A digit run followed by a non-digit or the end is the longest one. */
  lemma {:induction false} DigitRunStops(s: string, i: nat, n: nat)
    requires i <= n <= |s|
    requires forall k :: i <= k < n ==> IsDigit(s[k])
    requires n == |s| || !IsDigit(s[n])
    ensures DigitRun(s, i) == n
    decreases n - i
  {
    if i < n {
      DigitRunStops(s, i + 1, n);
    }
  }

  /** What the recogniser accepts, the regular expression matches. */
  lemma RecogniserSound(s: string)
    requires MatchesMetricPattern(s)
    ensures MatchesRegex(s)
  {
    var a := if 0 < |s| && s[0] == '-' then 1 else 0;
    var b := if a < |s| && s[a] == '.' then a + 1 else a;
    var n := DigitRun(s, b);
    assert AllDigits(s[b..n]);
    if n < |s| {
      assert AllDigits(s[n + 1..]);
    }
    assert PatternSplit(s, a, b, n);
  }

  /** A split of a match starts where the recogniser's sign and point end. */
  lemma SplitStart(s: string, a: nat, b: nat, n: nat)
    requires PatternSplit(s, a, b, n)
    ensures a == (if 0 < |s| && s[0] == '-' then 1 else 0)
    ensures b == (if a < |s| && s[a] == '.' then a + 1 else a)
  {
    assert IsDigit(s[b..n][0]);
  }

  /** What the regular expression matches, the recogniser accepts. */
  lemma RecogniserComplete(s: string, a: nat, b: nat, n: nat)
    requires PatternSplit(s, a, b, n)
    ensures MatchesMetricPattern(s)
  {
    SplitStart(s, a, b, n);
    forall k | b <= k < n ensures IsDigit(s[k]) {
      assert s[b..n][k - b] == s[k];
    }
    DigitRunStops(s, b, n);
    if n < |s| {
      forall k | n + 1 <= k < |s| ensures IsDigit(s[k]) {
        assert s[n + 1..][k - n - 1] == s[k];
      }
      DigitRunStops(s, n + 1, |s|);
    }
  }

  /** The recogniser accepts exactly the strings the regular expression matches. */
  lemma RecogniserIsPattern(s: string)
    ensures MatchesMetricPattern(s) <==> MatchesRegex(s)
  {
    if MatchesMetricPattern(s) {
      RecogniserSound(s);
    }
    if MatchesRegex(s) {
      var a: nat, b: nat, n: nat :| PatternSplit(s, a, b, n);
      RecogniserComplete(s, a, b, n);
    }
  }

  /** `validMetricValue`: null and "" are rejected, any other string must match the pattern whole. */
  function ValidMetricValue(val: Option<string>): (r: bool)
    ensures r <==> val.Some? && val.value != EMPTY_STRING && MatchesRegex(val.value)
  {
    RecogniserIsPattern(if val.Some? then val.value else "");
    if val.None? || val.value == EMPTY_STRING then false
    else MatchesMetricPattern(val.value)
  }

  /** An accepted string consists of digits, '-' and '.' only; in particular it has no space. */
  lemma ValidCharacters(s: string)
    requires ValidMetricValue(Some(s))
    ensures forall i :: 0 <= i < |s| ==> IsDigit(s[i]) || s[i] == '-' || s[i] == '.'
    ensures ' ' !in s
  {
    var a: nat, b: nat, n: nat :| PatternSplit(s, a, b, n);
    forall i | 0 <= i < |s| ensures IsDigit(s[i]) || s[i] == '-' || s[i] == '.' {
      if b <= i < n {
        assert s[b..n][i - b] == s[i];
      } else if n + 1 <= i {
        assert s[n + 1..][i - n - 1] == s[i];
      }
    }
  }

  /** Examples the pattern accepts, ".5.5" among them (which `Float.parseFloat` rejects). */
  lemma PatternAccepts()
    ensures ValidMetricValue(Some("-1")) && ValidMetricValue(Some("3.14"))
    ensures ValidMetricValue(Some(".5")) && ValidMetricValue(Some("-.5"))
    ensures ValidMetricValue(Some(".5.5"))
  {
    assert MatchesMetricPattern("-1");
    assert MatchesMetricPattern("3.14");
    assert MatchesMetricPattern(".5");
    assert MatchesMetricPattern("-.5");
    assert MatchesMetricPattern(".5.5");
  }

  /** Examples the pattern rejects. */
  lemma PatternRejects()
    ensures !ValidMetricValue(Some("1.")) && !ValidMetricValue(Some("+1"))
    ensures !ValidMetricValue(Some("1e5")) && !ValidMetricValue(Some(" 1"))
    ensures !ValidMetricValue(Some("abc")) && !ValidMetricValue(Some("")) && !ValidMetricValue(None)
  {
    assert !MatchesMetricPattern("1.");
    assert !MatchesMetricPattern("+1");
    assert !MatchesMetricPattern("1e5");
    assert !MatchesMetricPattern(" 1");
    assert !MatchesMetricPattern("abc");
  }

  /** Every numeric encoding passes the validator. */
  lemma CodesAreValid(v: string)
    requires v in TokenCodes.Values
    ensures ValidMetricValue(Some(v))
  {
  }

  /** Whatever the transformation changes, it changes into a valid metric value. */
  lemma TransformedTokensAreValid(val: Option<string>)
    requires TransformStringMetric(val) != val
    ensures ValidMetricValue(TransformStringMetric(val))
  {
    TransformIsTableLookup(val);
    CodesAreValid(TransformStringMetric(val).value);
  }

  // ---------------------------------------------------------------------
  // translateStringToNumber

  /**
   * The float `Float.parseFloat` yields for `text`, or 0.0 when it throws
   * (".5.5", say). Float parsing itself is not modelled: a number is known
   * only by the text it was parsed from.
   */
  datatype Num = Parsed(text: string)

  /** `translateStringToNumber`: spaces are stripped before parsing. */
  function TranslateStringToNumber(val: string): (r: Num)
    ensures r.text == RemoveSpaces(val)
    ensures ' ' !in r.text
    ensures ' ' !in val ==> r.text == val
  {
    if ' ' in val then Parsed(RemoveSpaces(val)) else Parsed(val)
  }

  /** A valid metric value is parsed as it stands. */
  lemma TranslateValid(s: string)
    requires ValidMetricValue(Some(s))
    ensures TranslateStringToNumber(s) == Parsed(s)
  {
    ValidCharacters(s);
  }

  // ---------------------------------------------------------------------
  // buildString

  /** The part an argument contributes: nothing for null or "". */
  function Part(s: Option<string>): string {
    if s.None? || s.value == EMPTY_STRING then "" else s.value
  }

  /** Reference: the concatenation of the arguments, null and empty ones skipped. */
  function Concat(strings: seq<Option<string>>): string {
    if strings == [] then "" else Part(strings[0]) + Concat(strings[1..])
  }

  lemma {:induction false} ConcatAppend(strings: seq<Option<string>>, s: Option<string>)
    ensures Concat(strings + [s]) == Concat(strings) + Part(s)
  {
    if strings != [] {
      assert (strings + [s])[1..] == strings[1..] + [s];
      ConcatAppend(strings[1..], s);
    }
  }

  /** With no null argument, skipping the empty ones changes nothing: it is plain concatenation. */
  lemma ConcatOfThree(a: string, b: string, c: string)
    ensures Concat([Some(a), Some(b), Some(c)]) == a + b + c
  {
    assert [Some(a), Some(b), Some(c)][1..] == [Some(b), Some(c)];
    assert [Some(b), Some(c)][1..] == [Some(c)];
    assert [Some(c)][1..] == [];
    assert Part(Some(a)) == a && Part(Some(b)) == b && Part(Some(c)) == c;
    assert Concat([Some(c)]) == c;
    assert Concat([Some(b), Some(c)]) == b + c;
  }

  lemma ConcatOfFour(a: string, b: string, c: string, d: string)
    ensures Concat([Some(a), Some(b), Some(c), Some(d)]) == a + b + c + d
  {
    assert [Some(a), Some(b), Some(c), Some(d)][1..] == [Some(b), Some(c), Some(d)];
    ConcatOfThree(b, c, d);
    assert Part(Some(a)) == a;
  }

  /** `buildString`: appends every argument that is neither null nor empty. */
  method BuildString(strings: seq<Option<string>>) returns (r: string)
    ensures r == Concat(strings)
  {
    r := "";
    for i := 0 to |strings|
      invariant r == Concat(strings[..i])
    {
      var s := strings[i];
      if !(s.None? || s.value == EMPTY_STRING) {
        r := r + s.value;
      }
      assert strings[..i + 1] == strings[..i] + [s];
      ConcatAppend(strings[..i], s);
    }
    assert strings[..|strings|] == strings;
  }
}
