/**
 * The match scorer and selector behind `find_attachment` and
 * `find_transaction`: an exact-reference fast path, then one scoring pass
 * that keeps the first candidate with the strictly highest score.
 */
module Selector {
  import opened Wrappers
  import opened Records
  import opened Normalizers
  import opened Comparators

  /** The outcome of the three comparators for one transaction and one attachment. */
  datatype Signals = Signals(amount: bool, date: bool, name: bool, namesKnown: bool)

  /** One point per comparator that holds. */
  function Score(s: Signals): nat {
    (if s.amount then 1 else 0) + (if s.date then 1 else 0) + (if s.name then 1 else 0)
  }

  /** Both counterparty names are known (`is not None`) and they do not match. */
  predicate Vetoed(s: Signals) {
    s.namesKnown && !s.name
  }

  /** A candidate the scoring pass may select. */
  predicate Eligible(s: Signals) {
    !Vetoed(s) && Score(s) >= 2
  }

  /** The signals of one candidate, from the values both lookups extract. */
  function CandidateSignals(txAmount: Option<int>, attAmount: Option<int>, txDate: Option<string>, attDate: Option<string>,
                            txContact: Option<string>, attCounterparty: Option<string>): Signals
  {
    Signals(
      AmountMatches(txAmount, attAmount),
      DateWithinRange(txDate, attDate, DEFAULT_WINDOW_DAYS),
      CompanyNameMatch(txContact, attCounterparty),
      txContact.Some? && attCounterparty.Some?)
  }

  /**
   * The comparators as both lookups apply them: the transaction's amount,
   * date and contact against the attachment's total, representative date
   * and counterparty.
   */
  function PairSignals(transaction: Transaction, attachment: Attachment): Signals {
    CandidateSignals(transaction.amount, attachment.data.totalAmount, transaction.date, GetAttachmentDate(attachment),
                     transaction.contact, GetCounterpartyFromAttachment(attachment))
  }

  /**
   * The scoring block shared by both lookups: one point, and one match, per
   * comparator that holds; the counterparty veto applies when both names
   * are known (`is not None`) and they do not match.
   */
  method ScoreCandidate(txAmount: Option<int>, attAmount: Option<int>, txDate: Option<string>, attDate: Option<string>,
                        txContact: Option<string>, attCounterparty: Option<string>)
    returns (score: int, matches: int, hasCounterpartyInfo: bool, counterpartyMatch: bool)
    ensures var s := CandidateSignals(txAmount, attAmount, txDate, attDate, txContact, attCounterparty);
      score == Score(s) && matches == Score(s) && (hasCounterpartyInfo && !counterpartyMatch <==> Vetoed(s))
  {
    score := 0;
    matches := 0;

    var amountMatch := AmountMatches(txAmount, attAmount);
    if amountMatch {
      score := score + 1;
      matches := matches + 1;
    }
    var dateMatch := DateWithinRange(txDate, attDate, DEFAULT_WINDOW_DAYS);
    if dateMatch {
      score := score + 1;
      matches := matches + 1;
    }
    counterpartyMatch := CompanyNameMatch(txContact, attCounterparty);
    if counterpartyMatch {
      score := score + 1;
      matches := matches + 1;
    }
    hasCounterpartyInfo := txContact.Some? && attCounterparty.Some?;
  }

  /** Both normalised references are present and equal. */
  predicate ReferencesMatch(transaction: Transaction, attachment: Attachment) {
    var t := NormalizeReference(transaction.reference);
    var a := NormalizeReference(attachment.data.reference);
    t.Some? && a.Some? && t == a
  }

  /** Index `i` holds the first reference match of the list. */
  ghost predicate IsFirstHit(hits: seq<bool>, i: int) {
    0 <= i < |hits| && hits[i] && forall j :: 0 <= j < i ==> !hits[j]
  }

  /**
   * Among the first `n` candidates, `k` is eligible, no candidate that is
   * not vetoed scores more, and every earlier one that is not vetoed scores
   * less.
   */
  ghost predicate IsBestAmong(signals: seq<Signals>, n: int, k: int)
    requires 0 <= n <= |signals|
  {
    0 <= k < n && Eligible(signals[k]) &&
    (forall j :: 0 <= j < n && !Vetoed(signals[j]) ==> Score(signals[j]) <= Score(signals[k])) &&
    (forall j :: 0 <= j < k && !Vetoed(signals[j]) ==> Score(signals[j]) < Score(signals[k]))
  }

  ghost predicate IsBest(signals: seq<Signals>, k: int) {
    IsBestAmong(signals, |signals|, k)
  }

  /**
   * The scoring pass's answer: nothing exactly when no candidate is
   * eligible, otherwise the best candidate.
   */
  ghost predicate ChoosesBest<C>(candidates: seq<C>, signals: seq<Signals>, result: Option<C>)
    requires |signals| == |candidates|
  {
    (result.None? <==> forall i :: 0 <= i < |signals| ==> !Eligible(signals[i])) &&
    (result.Some? ==> exists k :: IsBest(signals, k) && result == Some(candidates[k]))
  }

  /**
   * What a lookup returns, given for each candidate whether its reference
   * matches and its signals: nothing for an empty list; the first reference
   * match if there is one; otherwise the scoring pass's answer.
   */
  ghost predicate Selects<C>(candidates: seq<C>, hits: seq<bool>, signals: seq<Signals>, result: Option<C>)
    requires |hits| == |candidates| && |signals| == |candidates|
  {
    (candidates == [] ==> result.None?) &&
    (forall i :: IsFirstHit(hits, i) ==> result == Some(candidates[i])) &&
    ((forall i :: 0 <= i < |hits| ==> !hits[i]) ==> ChoosesBest(candidates, signals, result))
  }

  function AttachmentHits(transaction: Transaction, attachments: seq<Attachment>): (hits: seq<bool>)
    ensures |hits| == |attachments|
  {
    seq(|attachments|, i requires 0 <= i < |attachments| => ReferencesMatch(transaction, attachments[i]))
  }

  function AttachmentSignals(transaction: Transaction, attachments: seq<Attachment>): (signals: seq<Signals>)
    ensures |signals| == |attachments|
  {
    seq(|attachments|, i requires 0 <= i < |attachments| => PairSignals(transaction, attachments[i]))
  }

  function TransactionHits(attachment: Attachment, transactions: seq<Transaction>): (hits: seq<bool>)
    ensures |hits| == |transactions|
  {
    seq(|transactions|, i requires 0 <= i < |transactions| => ReferencesMatch(transactions[i], attachment))
  }

  function TransactionSignals(attachment: Attachment, transactions: seq<Transaction>): (signals: seq<Signals>)
    ensures |signals| == |transactions|
  {
    seq(|transactions|, i requires 0 <= i < |transactions| => PairSignals(transactions[i], attachment))
  }

  /**
   * One step of the scoring pass: candidate `i` replaces the current best
   * exactly when it is not vetoed, scores at least 2 and beats the best
   * score so far (0 when there is none).
   */
  lemma ScanStep(signals: seq<Signals>, i: int, best: int)
    requires 0 <= i < |signals|
    requires best == -1 ==> forall j :: 0 <= j < i ==> !Eligible(signals[j])
    requires best != -1 ==> IsBestAmong(signals, i, best)
    ensures var takes := !Vetoed(signals[i]) && Score(signals[i]) >= 2 &&
                         Score(signals[i]) > (if best == -1 then 0 else Score(signals[best]));
      (takes ==> IsBestAmong(signals, i + 1, i)) &&
      (!takes && best == -1 ==> forall j :: 0 <= j < i + 1 ==> !Eligible(signals[j])) &&
      (!takes && best != -1 ==> IsBestAmong(signals, i + 1, best))
  {
  }

  /** A record without a normalised reference matches no candidate by reference. */
  lemma NoReferenceNoHits(transaction: Transaction, attachments: seq<Attachment>)
    requires NormalizeReference(transaction.reference).None?
    ensures forall j :: 0 <= j < |attachments| ==> !AttachmentHits(transaction, attachments)[j]
  {
  }

  lemma NoReferenceNoTransactionHits(attachment: Attachment, transactions: seq<Transaction>)
    requires NormalizeReference(attachment.data.reference).None?
    ensures forall j :: 0 <= j < |transactions| ==> !TransactionHits(attachment, transactions)[j]
  {
  }

  /** The first reference match is what a lookup selects. */
  lemma SelectsFirstHit<C>(candidates: seq<C>, hits: seq<bool>, signals: seq<Signals>, i: int)
    requires |hits| == |candidates| && |signals| == |candidates|
    requires IsFirstHit(hits, i)
    ensures Selects(candidates, hits, signals, Some(candidates[i]))
  {
    forall k | IsFirstHit(hits, k) ensures k == i {
    }
  }

  /**
   * The reference pass of `find_attachment`, given the transaction's
   * normalised reference: the index of the first attachment whose
   * normalised reference is present and equal to it, or `|attachments|`
   * when there is none.
   */
  method AttachmentByReference(transaction: Transaction, txReference: Option<string>, attachments: seq<Attachment>)
    returns (index: int)
    requires txReference == NormalizeReference(transaction.reference)
    ensures 0 <= index <= |attachments|
    ensures index < |attachments| ==> IsFirstHit(AttachmentHits(transaction, attachments), index)
    ensures index == |attachments| ==> forall j :: 0 <= j < |attachments| ==> !AttachmentHits(transaction, attachments)[j]
  {
    ghost var hits := AttachmentHits(transaction, attachments);
    for i := 0 to |attachments|
      invariant forall j :: 0 <= j < i ==> !hits[j]
    {
      var attReference := NormalizeReference(attachments[i].data.reference);
      if attReference.Some? && txReference == attReference {
        return i;
      }
    }
    return |attachments|;
  }

  /**
   * The scoring pass of `find_attachment`: keep the first attachment with
   * the strictly highest score among those not vetoed and with at least two
   * matches; nothing unless the best score reaches 2.
   */
  method BestAttachment(transaction: Transaction, attachments: seq<Attachment>) returns (result: Option<Attachment>)
    ensures ChoosesBest(attachments, AttachmentSignals(transaction, attachments), result)
  {
    ghost var signals := AttachmentSignals(transaction, attachments);
    var txAmount := transaction.amount;
    var txDate := transaction.date;
    var txContact := transaction.contact;

    var bestMatch: Option<Attachment> := None;
    var bestScore := 0;
    ghost var best := -1;
    for i := 0 to |attachments|
      invariant best == -1 ==> bestMatch.None? && bestScore == 0 && forall j :: 0 <= j < i ==> !Eligible(signals[j])
      invariant best != -1 ==> IsBestAmong(signals, i, best) && bestMatch == Some(attachments[best]) && bestScore == Score(signals[best])
    {
      var attachment := attachments[i];
      var attAmount := attachment.data.totalAmount;
      var attDate := GetAttachmentDate(attachment);
      var attCounterparty := GetCounterpartyFromAttachment(attachment);

      var score, matches, hasCounterpartyInfo, counterpartyMatch :=
        ScoreCandidate(txAmount, attAmount, txDate, attDate, txContact, attCounterparty);
      assert signals[i] == CandidateSignals(txAmount, attAmount, txDate, attDate, txContact, attCounterparty);
      ScanStep(signals, i, best);

      if hasCounterpartyInfo && !counterpartyMatch {
        continue;
      }
      if matches >= 2 && score > bestScore {
        bestScore := score;
        bestMatch := Some(attachment);
        best := i;
      }
    }
    if best != -1 {
      assert IsBest(signals, best);
    }
    result := if bestScore >= 2 then bestMatch else None;
  }

  /** `find_attachment`: the best matching attachment for a transaction. */
  method FindAttachment(transaction: Transaction, attachments: seq<Attachment>) returns (result: Option<Attachment>)
    ensures Selects(attachments, AttachmentHits(transaction, attachments), AttachmentSignals(transaction, attachments), result)
  {
    ghost var hits := AttachmentHits(transaction, attachments);
    ghost var signals := AttachmentSignals(transaction, attachments);
    if |attachments| == 0 {
      return None;
    }
    var txReference := NormalizeReference(transaction.reference);
    if txReference.Some? {
      var index := AttachmentByReference(transaction, txReference, attachments);
      if index < |attachments| {
        SelectsFirstHit(attachments, hits, signals, index);
        return Some(attachments[index]);
      }
    } else {
      NoReferenceNoHits(transaction, attachments);
    }
    result := BestAttachment(transaction, attachments);
  }

  /**
   * The reference pass of `find_transaction`, given the attachment's
   * normalised reference: the index of the first transaction whose
   * normalised reference is present and equal to it, or `|transactions|`
   * when there is none.
   */
  method TransactionByReference(attachment: Attachment, attReference: Option<string>, transactions: seq<Transaction>)
    returns (index: int)
    requires attReference == NormalizeReference(attachment.data.reference)
    ensures 0 <= index <= |transactions|
    ensures index < |transactions| ==> IsFirstHit(TransactionHits(attachment, transactions), index)
    ensures index == |transactions| ==> forall j :: 0 <= j < |transactions| ==> !TransactionHits(attachment, transactions)[j]
  {
    ghost var hits := TransactionHits(attachment, transactions);
    for i := 0 to |transactions|
      invariant forall j :: 0 <= j < i ==> !hits[j]
    {
      var txReference := NormalizeReference(transactions[i].reference);
      if txReference.Some? && txReference == attReference {
        return i;
      }
    }
    return |transactions|;
  }

  /**
   * The scoring pass of `find_transaction`, the same rule with the roles of
   * the record kinds exchanged.
   */
  method BestTransaction(attachment: Attachment, transactions: seq<Transaction>) returns (result: Option<Transaction>)
    ensures ChoosesBest(transactions, TransactionSignals(attachment, transactions), result)
  {
    ghost var signals := TransactionSignals(attachment, transactions);
    var attAmount := attachment.data.totalAmount;
    var attDate := GetAttachmentDate(attachment);
    var attCounterparty := GetCounterpartyFromAttachment(attachment);

    var bestMatch: Option<Transaction> := None;
    var bestScore := 0;
    ghost var best := -1;
    for i := 0 to |transactions|
      invariant best == -1 ==> bestMatch.None? && bestScore == 0 && forall j :: 0 <= j < i ==> !Eligible(signals[j])
      invariant best != -1 ==> IsBestAmong(signals, i, best) && bestMatch == Some(transactions[best]) && bestScore == Score(signals[best])
    {
      var transaction := transactions[i];
      var txAmount := transaction.amount;
      var txDate := transaction.date;
      var txContact := transaction.contact;

      var score, matches, hasCounterpartyInfo, counterpartyMatch :=
        ScoreCandidate(txAmount, attAmount, txDate, attDate, txContact, attCounterparty);
      assert signals[i] == CandidateSignals(txAmount, attAmount, txDate, attDate, txContact, attCounterparty);
      ScanStep(signals, i, best);

      if hasCounterpartyInfo && !counterpartyMatch {
        continue;
      }
      if matches >= 2 && score > bestScore {
        bestScore := score;
        bestMatch := Some(transaction);
        best := i;
      }
    }
    if best != -1 {
      assert IsBest(signals, best);
    }
    result := if bestScore >= 2 then bestMatch else None;
  }

  /** `find_transaction`: the best matching transaction for an attachment. */
  method FindTransaction(attachment: Attachment, transactions: seq<Transaction>) returns (result: Option<Transaction>)
    ensures Selects(transactions, TransactionHits(attachment, transactions), TransactionSignals(attachment, transactions), result)
  {
    ghost var hits := TransactionHits(attachment, transactions);
    ghost var signals := TransactionSignals(attachment, transactions);
    if |transactions| == 0 {
      return None;
    }
    var attReference := NormalizeReference(attachment.data.reference);
    if attReference.Some? {
      var index := TransactionByReference(attachment, attReference, transactions);
      if index < |transactions| {
        SelectsFirstHit(transactions, hits, signals, index);
        return Some(transactions[index]);
      }
    } else {
      NoReferenceNoTransactionHits(attachment, transactions);
    }
    result := BestTransaction(attachment, transactions);
  }

  /** At most one candidate is the best: a later one would have to score more, an earlier one less. */
  lemma BestIsUnique(signals: seq<Signals>, k1: int, k2: int)
    requires IsBest(signals, k1) && IsBest(signals, k2)
    ensures k1 == k2
  {
  }

  /** The specification leaves a lookup no choice: at most one result satisfies it. */
  lemma SelectsIsDeterministic<C>(candidates: seq<C>, hits: seq<bool>, signals: seq<Signals>, r1: Option<C>, r2: Option<C>)
    requires |hits| == |candidates| && |signals| == |candidates|
    requires Selects(candidates, hits, signals, r1) && Selects(candidates, hits, signals, r2)
    ensures r1 == r2
  {
    if exists i :: 0 <= i < |hits| && hits[i] {
      var i :| 0 <= i < |hits| && hits[i];
      FirstHitExists(hits, i);
    } else if r1.Some? && r2.Some? {
      var k1 :| IsBest(signals, k1) && r1 == Some(candidates[k1]);
      var k2 :| IsBest(signals, k2) && r2 == Some(candidates[k2]);
      BestIsUnique(signals, k1, k2);
    }
  }

  /** A list with a reference match has a first one. */
  lemma {:induction false} FirstHitExists(hits: seq<bool>, i: int)
    requires 0 <= i < |hits| && hits[i]
    ensures exists f :: IsFirstHit(hits, f)
    decreases i
  {
    if forall j :: 0 <= j < i ==> !hits[j] {
      assert IsFirstHit(hits, i);
    } else {
      var j :| 0 <= j < i && hits[j];
      FirstHitExists(hits, j);
    }
  }

  /**
   * On a single pair the two lookups agree: the attachment is found for the
   * transaction exactly when the transaction is found for the attachment,
   * and that happens exactly when their references match or the pair is
   * eligible by score.
   */
  method MatchBothWays(transaction: Transaction, attachment: Attachment)
    returns (foundAttachment: Option<Attachment>, foundTransaction: Option<Transaction>)
    ensures foundAttachment == Some(attachment) <==> foundTransaction == Some(transaction)
    ensures foundAttachment.Some? <==> ReferencesMatch(transaction, attachment) || Eligible(PairSignals(transaction, attachment))
    ensures foundAttachment.None? || foundAttachment == Some(attachment)
    ensures foundTransaction.None? || foundTransaction == Some(transaction)
  {
    foundAttachment := FindAttachment(transaction, [attachment]);
    foundTransaction := FindTransaction(attachment, [transaction]);
    ghost var hits := AttachmentHits(transaction, [attachment]);
    assert hits == TransactionHits(attachment, [transaction]) == [ReferencesMatch(transaction, attachment)];
    assert AttachmentSignals(transaction, [attachment]) == TransactionSignals(attachment, [transaction]) == [PairSignals(transaction, attachment)];
    ghost var signals := [PairSignals(transaction, attachment)];
    if hits[0] {
      assert IsFirstHit(hits, 0);
    } else {
      assert forall i :: 0 <= i < 1 ==> !hits[i];
      assert (forall i :: 0 <= i < |signals| ==> !Eligible(signals[i])) <==> !Eligible(signals[0]);
      if foundAttachment.Some? {
        ghost var k :| IsBest(signals, k) && foundAttachment == Some([attachment][k]);
        assert k == 0;
      }
      if foundTransaction.Some? {
        ghost var k :| IsBest(signals, k) && foundTransaction == Some([transaction][k]);
        assert k == 0;
      }
    }
  }
}
