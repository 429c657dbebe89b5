/**
 * Field normalisers and the counterparty extractor: the pure helpers that
 * turn a raw record field into the value the comparators use.
 */
module Normalizers {
  import opened Wrappers
  import opened Text
  import opened Records

  /**
   * `normalize_reference`: delete all whitespace (also inside the code),
   * then leading '0' characters; an empty result is absent. Joining the
   * words of `split()` keeps exactly the characters that are not
   * whitespace (`Text.ConcatWords`), so the filter is written directly;
   * `NormalizeReferenceBySplit` states the split-and-join form.
   */
  function NormalizeReference(reference: Option<string>): (r: Option<string>)
    ensures reference.None? ==> r.None?
    ensures r.Some? ==> r.value != [] && NoSpace(r.value) && r.value[0] != '0'
  {
    match reference
    case None => None
    case Some(s) =>
      var normalized := StripLeadingZeros(RemoveSpaces(s));
      assert NoSpace(normalized) by {
        var t := RemoveSpaces(s);
        StripLeadingZerosSplit(t);
        forall i | 0 <= i < |normalized| ensures !IsSpace(normalized[i]) {
          assert normalized[i] == t[|t| - |normalized| + i];
        }
      }
      if normalized != [] then Some(normalized) else None
  }

  /** A present reference normalises to nothing exactly when it is only whitespace and '0'. */
  lemma NormalizeReferenceAbsent(s: string)
    ensures NormalizeReference(Some(s)).None? <==> SpacesAndZeros(s)
  {
    OnlyZerosLeft(s);
  }

  predicate AllZeros(s: string) {
    forall i :: 0 <= i < |s| ==> s[i] == '0'
  }

  predicate SpacesAndZeros(s: string) {
    forall i :: 0 <= i < |s| ==> IsSpace(s[i]) || s[i] == '0'
  }

  /** Nothing survives normalisation exactly when `s` is only whitespace and '0'. */
  lemma OnlyZerosLeft(s: string)
    ensures StripLeadingZeros(RemoveSpaces(s)) == [] <==> SpacesAndZeros(s)
  {
    var t := RemoveSpaces(s);
    AllZerosAfterRemoval(s);
    var r := StripLeadingZeros(t);
    StripLeadingZerosSplit(t);
    assert r == [] <==> AllZeros(t) by {
      if r != [] {
        assert r[0] == t[|t| - |r|];
      }
    }
  }

  lemma {:induction false} AllZerosAfterRemoval(s: string)
    ensures AllZeros(RemoveSpaces(s)) <==> SpacesAndZeros(s)
    decreases |s|
  {
    if s != [] {
      var x, rest := s[0], s[1..];
      assert s == [x] + rest;
      AllZerosAfterRemoval(rest);
      assert SpacesAndZeros(s) <==> (IsSpace(x) || x == '0') && SpacesAndZeros(rest) by {
        if (IsSpace(x) || x == '0') && SpacesAndZeros(rest) {
          forall i | 0 <= i < |s| ensures IsSpace(s[i]) || s[i] == '0' {
            if i > 0 { assert s[i] == rest[i - 1]; }
          }
        }
        if SpacesAndZeros(s) {
          forall i | 0 <= i < |rest| ensures IsSpace(rest[i]) || rest[i] == '0' {
            assert rest[i] == s[i + 1];
          }
        }
      }
      var t, u := RemoveSpaces(s), RemoveSpaces(rest);
      if !IsSpace(x) {
        assert t == [x] + u;
        assert t[0] == x;
        assert AllZeros(t) <==> x == '0' && AllZeros(u) by {
          if x == '0' && AllZeros(u) {
            forall i | 0 <= i < |t| ensures t[i] == '0' {
              if i > 0 { assert t[i] == u[i - 1]; }
            }
          }
          if AllZeros(t) {
            forall i | 0 <= i < |u| ensures u[i] == '0' {
              assert u[i] == t[i + 1];
            }
          }
        }
      }
    }
  }

  /**
   * The normalisation as the source writes it: join the words of
   * `split()` with no separator, then strip the leading zeros.
   */
  lemma NormalizeReferenceBySplit(s: string)
    ensures NormalizeReference(Some(s)) ==
      (var k := StripLeadingZeros(Concat(Words(s))); if k == [] then None else Some(k))
  {
    ConcatWords(s);
  }

  /** Normalising twice gives what normalising once gives. */
  lemma NormalizeReferenceIdempotent(reference: Option<string>)
    ensures NormalizeReference(NormalizeReference(reference)) == NormalizeReference(reference)
  {
    var r := NormalizeReference(reference);
    if r.Some? {
      RemoveSpacesOfNoSpace(r.value);
    }
  }

  /** Whitespace anywhere in a reference does not change its normal form. */
  lemma NormalizeReferenceIgnoresSpace(a: string, c: char, b: string)
    requires IsSpace(c)
    ensures NormalizeReference(Some(a + [c] + b)) == NormalizeReference(Some(a + b))
  {
    var ac := a + [c];
    assert a + [c] + b == ac + b;
    RemoveSpacesAppend(ac, b);
    RemoveSpacesAppend(a, [c]);
    RemoveSpacesAppend(a, b);
    assert RemoveSpaces([c]) == [];
    assert RemoveSpaces(ac) == RemoveSpaces(a);
    assert RemoveSpaces(ac + b) == RemoveSpaces(a + b);
  }

  /** A leading zero does not change the normal form of a reference. */
  lemma NormalizeReferenceIgnoresLeadingZero(s: string)
    ensures NormalizeReference(Some("0" + s)) == NormalizeReference(Some(s))
  {
    RemoveSpacesAppend("0", s);
    assert RemoveSpaces("0") == "0";
  }

  /**
   * `get_attachment_date`: the receiving date of a receipt; for every other
   * type the due date if it is truthy, else the invoicing date.
   */
  function GetAttachmentDate(attachment: Attachment): (r: Option<string>)
    ensures attachment.kind == Receipt ==> r == attachment.data.receivingDate
    ensures attachment.kind != Receipt && Truthy(attachment.data.dueDate) ==> r == attachment.data.dueDate
    ensures attachment.kind != Receipt && !Truthy(attachment.data.dueDate) ==> r == attachment.data.invoicingDate
  {
    if attachment.kind == Receipt then attachment.data.receivingDate
    else Or(attachment.data.dueDate, attachment.data.invoicingDate)
  }

  /** A field that may name the counterparty: truthy and not the company itself. */
  predicate IsCounterparty(name: Option<string>) {
    Truthy(name) && name.value != COMPANY_NAME
  }

  /** `get_counterparty_from_attachment`, branch by branch. */
  function GetCounterpartyFromAttachment(attachment: Attachment): (r: Option<string>)
    ensures r.None? || (r.value != "" && r.value != COMPANY_NAME)
    ensures r.Some? ==> r in {attachment.data.supplier, attachment.data.issuer, attachment.data.recipient}
  {
    var data := attachment.data;
    if attachment.kind == Receipt && IsCounterparty(data.supplier) then data.supplier
    else if IsCounterparty(data.issuer) then data.issuer
    else if IsCounterparty(data.recipient) then data.recipient
    else if IsCounterparty(data.supplier) then data.supplier
    else None
  }

  /**
   * The precedence of the counterparty fields as a rule table: the supplier
   * first for a receipt, then issuer, recipient and supplier.
   */
  function CounterpartyFields(attachment: Attachment): seq<Option<string>> {
    var data := attachment.data;
    (if attachment.kind == Receipt then [data.supplier] else []) + [data.issuer, data.recipient, data.supplier]
  }

  /** The first field of the table that qualifies as a counterparty, if any. */
  function FirstCounterparty(fields: seq<Option<string>>): (r: Option<string>)
    ensures r.None? <==> forall i :: 0 <= i < |fields| ==> !IsCounterparty(fields[i])
    ensures r.Some? ==> IsCounterparty(r) &&
                        exists i :: 0 <= i < |fields| && fields[i] == r && (forall j :: 0 <= j < i ==> !IsCounterparty(fields[j]))
  {
    if fields == [] then None
    else if IsCounterparty(fields[0]) then fields[0]
    else
      var r := FirstCounterparty(fields[1..]);
      assert forall i :: 1 <= i < |fields| ==> fields[i] == fields[1..][i - 1];
      r
  }

  /** The extractor returns the first qualifying field of the rule table. */
  lemma CounterpartyFollowsPrecedence(attachment: Attachment)
    ensures GetCounterpartyFromAttachment(attachment) == FirstCounterparty(CounterpartyFields(attachment))
  {
    var data := attachment.data;
    var tail := [data.issuer, data.recipient, data.supplier];
    assert FirstCounterparty([]) == None;
    assert FirstCounterparty([data.supplier]) == (if IsCounterparty(data.supplier) then data.supplier else None) by {
      assert [data.supplier][1..] == [];
    }
    assert FirstCounterparty([data.recipient, data.supplier]) ==
      (if IsCounterparty(data.recipient) then data.recipient else FirstCounterparty([data.supplier])) by {
      assert [data.recipient, data.supplier][1..] == [data.supplier];
    }
    assert FirstCounterparty(tail) ==
      (if IsCounterparty(data.issuer) then data.issuer else FirstCounterparty([data.recipient, data.supplier])) by {
      assert tail[1..] == [data.recipient, data.supplier];
    }
    if attachment.kind == Receipt {
      assert CounterpartyFields(attachment) == [data.supplier] + tail;
      assert ([data.supplier] + tail)[1..] == tail;
    } else {
      assert CounterpartyFields(attachment) == tail;
    }
  }
}
