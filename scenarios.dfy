module Scenarios {
  import opened Wrappers
  import opened Text
  import opened Calendar
  import opened Records
  import opened Normalizers
  import opened Comparators
  import opened Selector

  /** A reference made of zeros only is absent once normalised. */
  lemma ZerosReferenceExample()
    ensures NormalizeReference(Some("000")).None?
  {
    assert RemoveSpaces("000") == "000";
  }

  /** Leading whitespace and zeros in front of a whitespace-free code not led by '0' are dropped; the code is kept. */
  lemma PaddedReference(pad: string, zeros: string, code: string)
    requires AllSpace(pad) && AllZeros(zeros)
    requires code != [] && NoSpace(code) && code[0] != '0'
    ensures NormalizeReference(Some(pad + zeros + code)) == Some(code)
  {
    var t := zeros + code;
    assert pad + zeros + code == pad + t;
    assert NoSpace(t) by {
      forall i | 0 <= i < |t| ensures !IsSpace(t[i]) {
        if i < |zeros| { assert t[i] == zeros[i]; } else { assert t[i] == code[i - |zeros|]; }
      }
    }
    RemoveSpacesAppend(pad, t);
    RemoveSpacesOfAllSpace(pad);
    RemoveSpacesOfNoSpace(t);
    assert RemoveSpaces(pad + zeros + code) == t;
    StripZeros(zeros, code);
  }

  lemma {:induction false} StripZeros(zeros: string, code: string)
    requires AllZeros(zeros) && (code == [] || code[0] != '0')
    ensures StripLeadingZeros(zeros + code) == code
    decreases |zeros|
  {
    if zeros == [] {
      assert zeros + code == code;
    } else {
      assert (zeros + code)[1..] == zeros[1..] + code;
      StripZeros(zeros[1..], code);
    }
  }

  /** Whitespace and leading zeros are dropped, the rest is kept. */
  lemma PaddedReferenceExample()
    ensures NormalizeReference(Some("  007-ABC")) == Some("7-ABC")
  {
    assert NoSpace("7-ABC");
    assert "  007-ABC" == "  " + "00" + "7-ABC";
    PaddedReference("  ", "00", "7-ABC");
  }

  /** "0042" and "42" are the same reference. */
  lemma LeadingZerosReferenceExample()
    ensures NormalizeReference(Some("0042")) == NormalizeReference(Some("42"))
  {
    NormalizeReferenceIgnoresLeadingZero("042");
    NormalizeReferenceIgnoresLeadingZero("42");
    assert "0" + "042" == "0042";
    assert "0" + "42" == "042";
  }

  lemma AmountExamples()
    ensures AmountMatches(Some(10000), Some(-10000))
    ensures !AmountMatches(Some(10000), Some(10002))
  {
  }

  /** Two canonical date texts are within the window exactly when their day numbers are. */
  lemma FormattedWithinRange(s1: string, s2: string, d1: Date, d2: Date, days: int)
    requires ValidDate(d1) && ValidDate(d2)
    requires s1 == FormatDate(d1) && s2 == FormatDate(d2)
    ensures DateWithinRange(Some(s1), Some(s2), days) <==> days >= 0 && -days <= Ordinal(d2) - Ordinal(d1) <= days
  {
    ParseFormatDate(d1);
    ParseFormatDate(d2);
    DateWithinRangeIsDayDistance(s1, s2, days);
  }

  /** 30 days apart is inside the default window: the bound is inclusive. */
  lemma DateInsideWindowExample()
    ensures DateWithinRange(Some("2024-01-01"), Some("2024-01-31"), DEFAULT_WINDOW_DAYS)
  {
    var d1, d2 := Date(2024, 1, 1), Date(2024, 1, 31);
    assert FormatDate(d1) == "2024-01-01";
    assert FormatDate(d2) == "2024-01-31";
    assert Ordinal(d2) - Ordinal(d1) == 30;
    FormattedWithinRange("2024-01-01", "2024-01-31", d1, d2, DEFAULT_WINDOW_DAYS);
  }

  /** 31 days apart is outside the default window. */
  lemma DateOutsideWindowExample()
    ensures !DateWithinRange(Some("2024-01-01"), Some("2024-02-01"), DEFAULT_WINDOW_DAYS)
  {
    var d1, d3 := Date(2024, 1, 1), Date(2024, 2, 1);
    assert FormatDate(d1) == "2024-01-01";
    assert FormatDate(d3) == "2024-02-01";
    assert Ordinal(d3) - Ordinal(d1) == 31;
    FormattedWithinRange("2024-01-01", "2024-02-01", d1, d3, DEFAULT_WINDOW_DAYS);
  }

  /** The split of one lower-case word, and its normal form. */
  lemma OneWord(a: string)
    requires IsLowerWord(a)
    ensures NoSpace(a) && Words(a) == [a] && JoinWithSpace([a]) == a
  {
    assert NoSpace(a) by {
      forall i | 0 <= i < |a| ensures !IsSpace(a[i]) {
        assert 'a' <= a[i] <= 'z';
      }
    }
    WordsCons(a, []);
    assert a + [] == a;
  }

  /** The split of two lower-case words joined by a space, and its normal form. */
  lemma TwoWords(a: string, b: string)
    requires IsLowerWord(a) && IsLowerWord(b)
    ensures Words(a + " " + b) == [a, b] && JoinWithSpace([a, b]) == a + " " + b
  {
    OneWord(a);
    OneWord(b);
    assert NoSpace(a) && NoSpace(b);
    assert a + " " + b == a + (" " + b);
    WordsCons(a, " " + b);
    WordsAfterSpace(b);
    assert [a, b][1..] == [b];
  }

  /** Lower case and whitespace do not matter when the texts are otherwise equal. */
  lemma NameCaseExample()
    ensures CompanyNameMatch(Some("Acme Oy"), Some("acme oy"))
  {
    assert Lower("Acme Oy") == Lower("acme oy");
  }

  /** For words of the letters a to z: a one-word name matches a three-word name it begins. */
  lemma LeadingWordMatches(name1: string, name2: string, a: string, b: string, c: string)
    requires IsLowerWord(a) && IsLowerWord(b) && IsLowerWord(c)
    requires Lower(name1) == a && Lower(name2) == a + " " + b + " " + c
    ensures CompanyNameMatch(Some(name1), Some(name2))
  {
    OneWord(a);
    OneWord(b);
    OneWord(c);
    var n2 := a + " " + b + " " + c;
    WordsOfThree(a, b, c);
    assert NormalizeName(name1) == a;
    assert NormalizeName(name2) == n2;
    assert n2[..|a|] == a && n2[|a|] == ' ';
    WordPrefixMatches(name1, name2);
  }

  /** For words of the letters a to z: a one-word name does not match a two-word name whose first word merely starts with it. */
  lemma GluedWordDoesNotMatch(name1: string, name2: string, a: string, b: string, c: string)
    requires IsLowerWord(a) && IsLowerWord(b) && IsLowerWord(c) && a != c
    requires Lower(name1) == a && Lower(name2) == a + b + " " + c
    ensures !CompanyNameMatch(Some(name1), Some(name2))
  {
    var ab := a + b;
    assert IsLowerWord(ab) by {
      forall i | 0 <= i < |ab| ensures 'a' <= ab[i] <= 'z' {
        if i >= |a| { assert ab[i] == b[i - |a|]; }
      }
    }
    OneWord(a);
    TwoWords(ab, c);
    NameMatchCharacterization(name1, name2);
    var n2 := ab + " " + c;
    assert n2[|a|] == b[0] != ' ';
    assert n2 != a by { assert |n2| > |a|; }
  }

  /** For words of the letters a to z: a three-word name matches the two-word name without its middle word. */
  lemma ExtraMiddleWordMatches(name1: string, name2: string, a: string, b: string, c: string)
    requires IsLowerWord(a) && IsLowerWord(b) && IsLowerWord(c)
    requires Lower(name1) == a + " " + b + " " + c && Lower(name2) == a + " " + c
    ensures CompanyNameMatch(Some(name1), Some(name2))
  {
    OneWord(a);
    OneWord(b);
    OneWord(c);
    WordsOfThree(a, b, c);
    TwoWords(a, c);
    assert Words(Lower(name1)) == [a, b, c];
    assert Words(Lower(name2)) == [a, c];
    assert SharesWordsAndSuffix([a, b, c], [a, c]);
    NameMatchCharacterization(name1, name2);
  }

  /** A name that is a whole leading word of the other matches it. */
  lemma NamePrefixExample()
    ensures CompanyNameMatch(Some("Acme"), Some("Acme Logistics Oy"))
  {
    assert Lower("Acme") == "acme";
    assert Lower("Acme Logistics Oy") == "acme" + " " + "logistics" + " " + "oy";
    LeadingWordMatches("Acme", "Acme Logistics Oy", "acme", "logistics", "oy");
  }

  /** A leading run of characters that stops inside a word does not count. */
  lemma NameNoWordBoundaryExample()
    ensures !CompanyNameMatch(Some("Acme"), Some("AcmeLogistics Oy"))
  {
    assert Lower("Acme") == "acme";
    assert Lower("AcmeLogistics Oy") == "acme" + "logistics" + " " + "oy";
    GluedWordDoesNotMatch("Acme", "AcmeLogistics Oy", "acme", "logistics", "oy");
  }

  /** Same last word, and the words of the shorter name all occur in the longer. */
  lemma NameWordSetExample()
    ensures CompanyNameMatch(Some("Acme Trading Oy"), Some("Acme Oy"))
  {
    assert Lower("Acme Trading Oy") == "acme" + " " + "trading" + " " + "oy";
    assert Lower("Acme Oy") == "acme" + " " + "oy";
    ExtraMiddleWordMatches("Acme Trading Oy", "Acme Oy", "acme", "trading", "oy");
  }

  /**
   * A reference match is returned even when its amount, date and
   * counterparty all disagree and a later candidate agrees on all three.
   */
  lemma ReferenceShortCircuitExample<C>(byReference: C, byScore: C, result: Option<C>)
    requires Selects([byReference, byScore], [true, false],
                     [Signals(false, false, false, true), Signals(true, true, true, true)], result)
    ensures result == Some(byReference)
  {
    assert IsFirstHit([true, false], 0);
  }

  /** Amount and date agree, but a known counterparty that differs vetoes the candidate. */
  lemma CounterpartyVetoExample<C>(candidate: C, result: Option<C>)
    requires Selects([candidate], [false], [Signals(true, true, false, true)], result)
    ensures result.None?
  {
    assert !Eligible(Signals(true, true, false, true));
  }

  /** One agreeing signal is not enough; two are, when no counterparty conflicts. */
  lemma ThresholdExample<C>(candidate: C, one: Option<C>, two: Option<C>)
    requires Selects([candidate], [false], [Signals(true, false, false, false)], one)
    requires Selects([candidate], [false], [Signals(true, true, false, false)], two)
    ensures one.None? && two == Some(candidate)
  {
    assert Score(Signals(true, false, false, false)) == 1;
    var signals := [Signals(true, true, false, false)];
    assert Eligible(signals[0]);
    var k :| IsBest(signals, k) && two == Some([candidate][k]);
  }

  /** For words of the letters a to z: two-word names with different first letters and different last words do not match. */
  lemma DifferentTwoWordNamesDoNotMatch(name1: string, name2: string, a: string, b: string, c: string, d: string)
    requires IsLowerWord(a) && IsLowerWord(b) && IsLowerWord(c) && IsLowerWord(d)
    requires a[0] != c[0] && b != d
    requires Lower(name1) == a + " " + b && Lower(name2) == c + " " + d
    ensures !CompanyNameMatch(Some(name1), Some(name2))
  {
    TwoWords(a, b);
    TwoWords(c, d);
    var n1, n2 := a + " " + b, c + " " + d;
    assert NormalizeName(name1) == n1 && NormalizeName(name2) == n2;
    assert n1[0] == a[0] && n2[0] == c[0];
    assert !IsWordPrefix(n1, n2) && !IsWordPrefix(n2, n1);
    assert !SharesWordsAndSuffix([a, b], [c, d]);
    NameMatchCharacterization(name1, name2);
  }

  /**
   * On records, a transaction from "Acme Oy" and an attachment whose
   * counterparty resolves to "Other Corp" have both names known and not
   * matching: the pair is vetoed, whatever its amounts and dates.
   */
  lemma CounterpartyVetoOnRecords(transaction: Transaction, attachment: Attachment)
    requires transaction.contact == Some("Acme Oy")
    requires GetCounterpartyFromAttachment(attachment) == Some("Other Corp")
    ensures Vetoed(PairSignals(transaction, attachment))
  {
    assert Lower("Acme Oy") == "acme" + " " + "oy";
    assert Lower("Other Corp") == "other" + " " + "corp";
    DifferentTwoWordNamesDoNotMatch("Acme Oy", "Other Corp", "acme", "oy", "other", "corp");
  }

  /**
   * `find_attachment` on such a pair: without a reference match nothing is
   * found, even when the amounts and dates agree.
   */
  method CounterpartyVetoLookup(transaction: Transaction, attachment: Attachment) returns (found: Option<Attachment>)
    requires transaction.contact == Some("Acme Oy")
    requires GetCounterpartyFromAttachment(attachment) == Some("Other Corp")
    requires !ReferencesMatch(transaction, attachment)
    ensures found.None?
  {
    CounterpartyVetoOnRecords(transaction, attachment);
    found := FindAttachment(transaction, [attachment]);
    ghost var signals := AttachmentSignals(transaction, [attachment]);
    assert AttachmentHits(transaction, [attachment]) == [false];
    assert signals == [PairSignals(transaction, attachment)];
    assert !Eligible(signals[0]);
  }
}
