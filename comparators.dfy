/**
 * The pairwise comparators: amounts, dates and counterparty names. Each
 * answers "no match" rather than failing when a field is missing.
 */
module Comparators {
  import opened Wrappers
  import opened Text
  import opened Calendar

  /** The default window of `date_within_range`, in days. */
  const DEFAULT_WINDOW_DAYS: int := 30

  function Abs(x: int): int {
    if x < 0 then -x else x
  }

  /**
   * `amount_matches` on amounts in cents: the absolute values differ by
   * less than one cent (the source's `< 0.01`).
   */
  function AmountMatches(amount1: Option<int>, amount2: Option<int>): (r: bool)
    ensures r <==> amount1.Some? && amount2.Some? && (amount1.value == amount2.value || amount1.value == -amount2.value)
  {
    amount1.Some? && amount2.Some? && Abs(Abs(amount1.value) - Abs(amount2.value)) < 1
  }

  /**
   * `date_within_range`: both dates present and parseable, and at most
   * `days` days apart.
   */
  function DateWithinRange(date1: Option<string>, date2: Option<string>, days: int): (r: bool)
    ensures r ==> date1.Some? && date2.Some? && ParseDate(date1.value).Some? && ParseDate(date2.value).Some?
    ensures r ==> days >= 0
    ensures date1.Some? && date1 == date2 && ParseDate(date1.value).Some? && days >= 0 ==> r
  {
    if date1.None? || date2.None? then false
    else
      match (ParseDate(date1.value), ParseDate(date2.value))
      case (Some(d1), Some(d2)) => Abs(Ordinal(d1) - Ordinal(d2)) <= days
      case _ => false
  }

  /** The order of the two dates does not matter. */
  lemma DateWithinRangeSymmetric(date1: Option<string>, date2: Option<string>, days: int)
    ensures DateWithinRange(date1, date2, days) == DateWithinRange(date2, date1, days)
  {
  }

  /** Two parseable dates are within the window exactly when their day numbers are `days` or fewer apart. */
  lemma DateWithinRangeIsDayDistance(date1: string, date2: string, days: int)
    requires ParseDate(date1).Some? && ParseDate(date2).Some?
    ensures DateWithinRange(Some(date1), Some(date2), days) <==>
      -days <= Ordinal(ParseDate(date1).value) - Ordinal(ParseDate(date2).value) <= days
  {
  }

  /** A date and the next calendar day are one day apart. */
  lemma NextDayWithinOneDay(d: Date)
    requires ValidDate(d) && d != Date(9999, 12, 31)
    ensures DateWithinRange(Some(FormatDate(d)), Some(FormatDate(NextDay(d))), 1)
    ensures !DateWithinRange(Some(FormatDate(d)), Some(FormatDate(NextDay(d))), 0)
  {
    OrdinalCountsDays(d);
    ParseFormatDate(d);
    ParseFormatDate(NextDay(d));
  }

  /** `" ".join(name.lower().split())`: lower case, whitespace runs collapsed to one space. */
  function NormalizeName(name: string): string {
    JoinWithSpace(Words(Lower(name)))
  }

  /** Python's `set(words)`. */
  function WordSet(words: seq<string>): set<string> {
    set w | w in words
  }

  /**
   * The prefix step of `company_name_match`: the shorter normalised name (`n2`
   * when the lengths are equal) starts the longer one and is followed there
   * by a space or by nothing.
   */
  predicate StartsWithWholeWords(n1: string, n2: string) {
    var shorter := if |n1| < |n2| then n1 else n2;
    var longer := if |n1| < |n2| then n2 else n1;
    |shorter| <= |longer| && longer[..|shorter|] == shorter &&
    (|longer| == |shorter| || longer[|shorter|] == ' ')
  }

  /**
   * The word-set step of `company_name_match`: same last word, and the word set of
   * the list with fewer words (`words1` when the counts are equal) is a
   * subset of the other's.
   */
  predicate SharesLastWordAndWordSet(words1: seq<string>, words2: seq<string>) {
    |words1| > 0 && |words2| > 0 && words1[|words1| - 1] == words2[|words2| - 1] &&
    var shorterWords := if |words1| <= |words2| then WordSet(words1) else WordSet(words2);
    var longerWords := if |words1| <= |words2| then WordSet(words2) else WordSet(words1);
    shorterWords <= longerWords
  }

  /** `company_name_match`. */
  function CompanyNameMatch(name1: Option<string>, name2: Option<string>): (r: bool)
    ensures name1.None? || name2.None? ==> !r
    ensures name1.Some? && name2.Some? && NormalizeName(name1.value) == NormalizeName(name2.value) ==> r
  {
    if name1.None? || name2.None? then false
    else
      var n1, n2 := NormalizeName(name1.value), NormalizeName(name2.value);
      if n1 == n2 then true
      else if StartsWithWholeWords(n1, n2) then true
      else SharesLastWordAndWordSet(Words(n1), Words(n2))
  }

  /** `shorter` is a whole leading run of words of `longer`. */
  predicate IsWordPrefix(shorter: string, longer: string) {
    |shorter| < |longer| && longer[..|shorter|] == shorter && longer[|shorter|] == ' '
  }

  /** The shorter/longer choice of the prefix rule does not favour either argument. */
  lemma StartsWithWholeWordsEitherWay(n1: string, n2: string)
    ensures StartsWithWholeWords(n1, n2) <==> n1 == n2 || IsWordPrefix(n1, n2) || IsWordPrefix(n2, n1)
  {
  }

  /**
   * The word rule stated on membership: same last word, and every word of
   * the list with fewer words (the first one on a tie) occurs in the other.
   */
  predicate SharesWordsAndSuffix(words1: seq<string>, words2: seq<string>) {
    |words1| > 0 && |words2| > 0 && words1[|words1| - 1] == words2[|words2| - 1] &&
    if |words1| <= |words2| then forall w :: w in words1 ==> w in words2
    else forall w :: w in words2 ==> w in words1
  }

  lemma WordSetRule(words1: seq<string>, words2: seq<string>)
    ensures SharesLastWordAndWordSet(words1, words2) <==> SharesWordsAndSuffix(words1, words2)
  {
    assert forall w :: w in WordSet(words1) <==> w in words1;
    assert forall w :: w in WordSet(words2) <==> w in words2;
  }

  /** Splitting the normalised name gives the words of the lower-cased name. */
  lemma WordsOfNormalizedName(name: string)
    ensures Words(NormalizeName(name)) == Words(Lower(name))
  {
    WordsShape(Lower(name));
    WordsOfJoin(Words(Lower(name)));
  }

  /**
   * What `company_name_match` decides, stated on the two names' own words:
   * equal normal forms, a whole-word prefix in either direction, or the word rule.
   */
  lemma NameMatchCharacterization(name1: string, name2: string)
    ensures CompanyNameMatch(Some(name1), Some(name2)) <==>
      var n1, n2 := NormalizeName(name1), NormalizeName(name2);
      n1 == n2 || IsWordPrefix(n1, n2) || IsWordPrefix(n2, n1) ||
      SharesWordsAndSuffix(Words(Lower(name1)), Words(Lower(name2)))
  {
    var n1, n2 := NormalizeName(name1), NormalizeName(name2);
    StartsWithWholeWordsEitherWay(n1, n2);
    WordsOfNormalizedName(name1);
    WordsOfNormalizedName(name2);
    WordSetRule(Words(n1), Words(n2));
  }

  /** A name whose words start another name's words matches it, in either order. */
  lemma WordPrefixMatches(name1: string, name2: string)
    requires IsWordPrefix(NormalizeName(name1), NormalizeName(name2))
    ensures CompanyNameMatch(Some(name1), Some(name2))
    ensures CompanyNameMatch(Some(name2), Some(name1))
  {
    NameMatchCharacterization(name1, name2);
    NameMatchCharacterization(name2, name1);
  }

  lemma WordsOfThree(a: string, b: string, c: string)
    requires a != [] && b != [] && c != [] && NoSpace(a) && NoSpace(b) && NoSpace(c)
    ensures JoinWithSpace([a, b, c]) == a + " " + b + " " + c
    ensures Words(a + " " + b + " " + c) == [a, b, c]
  {
    var ws := [a, b, c];
    assert ws[1..] == [b, c] && ws[1..][1..] == [c];
    assert JoinWithSpace([c]) == c;
    assert JoinWithSpace([b, c]) == b + " " + c;
    assert JoinWithSpace(ws) == a + " " + (b + " " + c);
    assert (a + " ") + (b + " " + c) == ((a + " ") + (b + " ")) + c;
    assert (a + " ") + (b + " ") == a + " " + b + " ";
    WordsOfJoin(ws);
  }

  /** A non-empty run of the letters a to z: its own lower case and free of whitespace. */
  predicate IsLowerWord(w: string) {
    w != [] && forall i :: 0 <= i < |w| ==> 'a' <= w[i] <= 'z'
  }

  lemma NormalFormOfThree(a: string, b: string, c: string)
    requires IsLowerWord(a) && IsLowerWord(b) && IsLowerWord(c)
    ensures NormalizeName(a + " " + b + " " + c) == a + " " + b + " " + c
    ensures Words(Lower(a + " " + b + " " + c)) == [a, b, c]
  {
    var s := a + " " + b + " " + c;
    forall i | 0 <= i < |s| ensures Lower(s)[i] == s[i] {
      if i < |a| {
        assert s[i] == a[i];
      } else if |a| < i < |a| + 1 + |b| {
        assert s[i] == b[i - |a| - 1];
      } else if |a| + 1 + |b| < i {
        assert s[i] == c[i - |a| - |b| - 2];
      }
    }
    assert Lower(s) == s;
    WordsOfThree(a, b, c);
  }

  /** Two different names of equal length: neither is a whole-word prefix of the other. */
  lemma NoWordPrefixBetween(a: string, b: string, c: string)
    requires |a| == |b| && a != b
    ensures var x, y := a + " " + b + " " + c, b + " " + b + " " + c;
      !(x == y || IsWordPrefix(x, y) || IsWordPrefix(y, x))
  {
    var x, y := a + " " + b + " " + c, b + " " + b + " " + c;
    assert x[..|a|] == a && y[..|b|] == b;
  }

  lemma ExtraWordBlocksWordRule(a: string, b: string, c: string)
    requires a != b && a != c
    ensures !SharesWordsAndSuffix([a, b, c], [b, b, c])
  {
    assert a in [a, b, c] && a !in [b, b, c];
  }

  /** The right-hand side of the characterization is false for "A B C" against "B B C". */
  lemma NoRuleAppliesOneWay(a: string, b: string, c: string)
    requires IsLowerWord(a) && IsLowerWord(b) && IsLowerWord(c)
    requires |a| == |b| && a != b && a != c
    ensures var x, y := a + " " + b + " " + c, b + " " + b + " " + c;
      var n1, n2 := NormalizeName(x), NormalizeName(y);
      !(n1 == n2 || IsWordPrefix(n1, n2) || IsWordPrefix(n2, n1) ||
        SharesWordsAndSuffix(Words(Lower(x)), Words(Lower(y))))
  {
    NormalFormOfThree(a, b, c);
    NormalFormOfThree(b, b, c);
    NoWordPrefixBetween(a, b, c);
    ExtraWordBlocksWordRule(a, b, c);
  }

  lemma NameMatchFailsOneWay(a: string, b: string, c: string)
    requires IsLowerWord(a) && IsLowerWord(b) && IsLowerWord(c)
    requires |a| == |b| && a != b && a != c
    ensures !CompanyNameMatch(Some(a + " " + b + " " + c), Some(b + " " + b + " " + c))
  {
    NoRuleAppliesOneWay(a, b, c);
    NameMatchCharacterization(a + " " + b + " " + c, b + " " + b + " " + c);
  }

  lemma NameMatchHoldsOtherWay(a: string, b: string, c: string)
    requires IsLowerWord(a) && IsLowerWord(b) && IsLowerWord(c)
    ensures CompanyNameMatch(Some(b + " " + b + " " + c), Some(a + " " + b + " " + c))
  {
    var x, y := a + " " + b + " " + c, b + " " + b + " " + c;
    NormalFormOfThree(a, b, c);
    NormalFormOfThree(b, b, c);
    assert SharesWordsAndSuffix([b, b, c], [a, b, c]);
    NameMatchCharacterization(y, x);
  }

  /**
   * The tie rule on word counts makes the match depend on the order of the
   * arguments: with three words each, "A B C" against "B B C" fails (A is
   * not among the second name's words), while "B B C" against "A B C"
   * succeeds. For example "a b oy" and "b b oy".
   */
  lemma NameMatchIsNotSymmetric(a: string, b: string, c: string)
    requires IsLowerWord(a) && IsLowerWord(b) && IsLowerWord(c)
    requires |a| == |b| && a != b && a != c
    ensures !CompanyNameMatch(Some(a + " " + b + " " + c), Some(b + " " + b + " " + c))
    ensures CompanyNameMatch(Some(b + " " + b + " " + c), Some(a + " " + b + " " + c))
  {
    NameMatchFailsOneWay(a, b, c);
    NameMatchHoldsOtherWay(a, b, c);
  }
}
