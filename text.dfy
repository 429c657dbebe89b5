/**
 * The few Python string operations the matching engine relies on:
 * `str.split()` with no separator, `"".join`, `" ".join`, `str.lstrip("0")`
 * and `str.lower()`.
 */
module Text {

  /** Python's `str.isspace()` for one character: the separators of `str.split()`. */
  predicate IsSpace(c: char) {
    ('\U{0009}' <= c <= '\U{000D}') || ('\U{001C}' <= c <= '\U{0020}') ||
    c == '\U{0085}' || c == '\U{00A0}' || c == '\U{1680}' ||
    ('\U{2000}' <= c <= '\U{200A}') || c == '\U{2028}' || c == '\U{2029}' ||
    c == '\U{202F}' || c == '\U{205F}' || c == '\U{3000}'
  }

  predicate NoSpace(s: string) {
    forall i :: 0 <= i < |s| ==> !IsSpace(s[i])
  }

  predicate AllSpace(s: string) {
    forall i :: 0 <= i < |s| ==> IsSpace(s[i])
  }

  /** The characters of `s` that are not whitespace, in their order. */
  function RemoveSpaces(s: string): (r: string)
    ensures NoSpace(r)
    ensures |r| <= |s|
  {
    if s == [] then []
    else if IsSpace(s[0]) then RemoveSpaces(s[1..])
    else [s[0]] + RemoveSpaces(s[1..])
  }

  /** `s` without its leading run of whitespace. */
  function SkipSpaces(s: string): (r: string)
    ensures |r| <= |s|
    ensures r == [] || !IsSpace(r[0])
  {
    if s != [] && IsSpace(s[0]) then SkipSpaces(s[1..]) else s
  }

  /** What `SkipSpaces` drops is a run of whitespace in front of what it keeps. */
  lemma {:induction false} SkipSpacesSplit(s: string)
    ensures var r := SkipSpaces(s);
      r == s[|s| - |r|..] && AllSpace(s[..|s| - |r|])
    decreases |s|
  {
    if s != [] && IsSpace(s[0]) {
      SkipSpacesSplit(s[1..]);
      var r := SkipSpaces(s);
      assert s[..|s| - |r|] == [s[0]] + s[1..][..|s| - 1 - |r|];
    }
  }

  /** The longest prefix of `s` that holds no whitespace. */
  function LeadingWord(s: string): (w: string)
    ensures |w| <= |s|
    ensures s != [] && !IsSpace(s[0]) ==> w != []
  {
    if s == [] || IsSpace(s[0]) then [] else [s[0]] + LeadingWord(s[1..])
  }

  /** `LeadingWord` is a prefix free of whitespace that ends at whitespace or at the end. */
  lemma {:induction false} LeadingWordPrefix(s: string)
    ensures var w := LeadingWord(s);
      w == s[..|w|] && NoSpace(w) && (|w| == |s| || IsSpace(s[|w|]))
    decreases |s|
  {
    if s != [] && !IsSpace(s[0]) {
      LeadingWordPrefix(s[1..]);
      var w := LeadingWord(s);
      assert w == [s[0]] + LeadingWord(s[1..]);
      assert s[..|w|] == [s[0]] + s[1..][..|w| - 1];
    }
  }

  /** Python's `s.split()`: the maximal runs of non-whitespace characters of `s`. */
  function Words(s: string): (ws: seq<string>)
    decreases |s|
  {
    var t := SkipSpaces(s);
    if t == [] then []
    else
      var w := LeadingWord(t);
      var ws := Words(t[|w|..]);
      [w] + ws
  }

  /** Python's `"".join(ws)`. */
  function Concat(ws: seq<string>): string {
    if ws == [] then [] else ws[0] + Concat(ws[1..])
  }

  /** Python's `" ".join(ws)`. */
  function JoinWithSpace(ws: seq<string>): string {
    if ws == [] then []
    else if |ws| == 1 then ws[0]
    else ws[0] + " " + JoinWithSpace(ws[1..])
  }

  /** Python's `s.lstrip("0")`. */
  function StripLeadingZeros(s: string): (r: string)
    ensures r == [] || r[0] != '0'
    ensures |r| <= |s|
  {
    if s != [] && s[0] == '0' then StripLeadingZeros(s[1..]) else s
  }

  /** What `lstrip("0")` removes is a run of '0' characters in front of what it keeps. */
  lemma {:induction false} StripLeadingZerosSplit(s: string)
    ensures var r := StripLeadingZeros(s);
      r == s[|s| - |r|..] && forall i :: 0 <= i < |s| - |r| ==> s[i] == '0'
    decreases |s|
  {
    if s != [] && s[0] == '0' {
      StripLeadingZerosSplit(s[1..]);
    }
  }

  /**
   * Python's `str.lower()` on one character, for the letters whose lower
   * case is a single character in ASCII and Latin-1.
   */
  function LowerChar(c: char): char {
    if 'A' <= c <= 'Z' || ('\U{00C0}' <= c <= '\U{00DE}' && c != '\U{00D7}')
    then (c as int + 32) as char
    else c
  }

  function Lower(s: string): (r: string)
    ensures |r| == |s|
  {
    seq(|s|, i requires 0 <= i < |s| => LowerChar(s[i]))
  }

  lemma {:induction false} RemoveSpacesAppend(a: string, b: string)
    ensures RemoveSpaces(a + b) == RemoveSpaces(a) + RemoveSpaces(b)
    decreases |a|
  {
    if a == [] {
      assert a + b == b;
    } else {
      assert (a + b)[0] == a[0];
      assert (a + b)[1..] == a[1..] + b;
      RemoveSpacesAppend(a[1..], b);
    }
  }

  lemma {:induction false} RemoveSpacesOfAllSpace(s: string)
    requires AllSpace(s)
    ensures RemoveSpaces(s) == []
    decreases |s|
  {
    if s != [] {
      RemoveSpacesOfAllSpace(s[1..]);
    }
  }

  /** Removing whitespace leaves a string without whitespace as it is. */
  lemma {:induction false} RemoveSpacesOfNoSpace(s: string)
    requires NoSpace(s)
    ensures RemoveSpaces(s) == s
    decreases |s|
  {
    if s != [] {
      RemoveSpacesOfNoSpace(s[1..]);
    }
  }

  lemma {:induction false} ConcatCons(w: string, ws: seq<string>)
    ensures Concat([w] + ws) == w + Concat(ws)
  {
    assert ([w] + ws)[1..] == ws;
  }

  /** `"".join(s.split())` deletes every whitespace character of `s` and keeps the rest. */
  lemma {:induction false} ConcatWords(s: string)
    ensures Concat(Words(s)) == RemoveSpaces(s)
    decreases |s|
  {
    var t := SkipSpaces(s);
    SkipSpacesSplit(s);
    var k := |s| - |t|;
    assert s == s[..k] + t;
    RemoveSpacesAppend(s[..k], t);
    RemoveSpacesOfAllSpace(s[..k]);
    if t != [] {
      var w := LeadingWord(t);
      LeadingWordPrefix(t);
      var rest := t[|w|..];
      assert t == w + rest;
      RemoveSpacesAppend(w, rest);
      RemoveSpacesOfNoSpace(w);
      ConcatWords(rest);
      ConcatCons(w, Words(rest));
    }
  }

  lemma {:induction false} LeadingWordOfAppend(w: string, t: string)
    requires NoSpace(w)
    requires t == [] || IsSpace(t[0])
    ensures LeadingWord(w + t) == w
    decreases |w|
  {
    if w != [] {
      assert (w + t)[1..] == w[1..] + t;
      LeadingWordOfAppend(w[1..], t);
    } else {
      assert w + t == t;
    }
  }

  lemma WordsAfterSpace(rest: string)
    ensures Words(" " + rest) == Words(rest)
  {
    assert (" " + rest)[1..] == rest;
    assert SkipSpaces(" " + rest) == SkipSpaces(rest);
  }

  /** Every element of `s.split()` is non-empty and free of whitespace. */
  lemma {:induction false} WordsShape(s: string)
    ensures forall i :: 0 <= i < |Words(s)| ==> Words(s)[i] != [] && NoSpace(Words(s)[i])
    decreases |s|
  {
    var t := SkipSpaces(s);
    if t != [] {
      var w := LeadingWord(t);
      LeadingWordPrefix(t);
      var rest := t[|w|..];
      WordsShape(rest);
      var ws := Words(rest);
      assert Words(s) == [w] + ws;
      forall i | 0 <= i < |Words(s)| ensures Words(s)[i] != [] && NoSpace(Words(s)[i]) {
        if i > 0 { assert Words(s)[i] == ws[i - 1]; }
      }
    }
  }

  /** A word followed by whitespace or nothing is the first element of the split. */
  lemma WordsCons(w: string, t: string)
    requires w != [] && NoSpace(w)
    requires t == [] || IsSpace(t[0])
    ensures Words(w + t) == [w] + Words(t)
  {
    var s := w + t;
    assert s[0] == w[0];
    assert SkipSpaces(s) == s;
    LeadingWordOfAppend(w, t);
    assert s[|w|..] == t;
  }

  /**
   * Splitting a space-joined list of words gives the words back:
   * `" ".join(ws).split() == ws` when no word is empty or holds whitespace.
   */
  lemma {:induction false} WordsOfJoin(ws: seq<string>)
    requires forall i :: 0 <= i < |ws| ==> ws[i] != [] && NoSpace(ws[i])
    ensures Words(JoinWithSpace(ws)) == ws
  {
    if |ws| == 1 {
      var w := ws[0];
      assert w != [] && NoSpace(w);
      WordsCons(w, []);
      assert w + [] == w;
      assert JoinWithSpace(ws) == w;
      assert Words([]) == [];
    } else if |ws| > 1 {
      var w, tail := ws[0], ws[1..];
      assert ws == [w] + tail;
      assert w != [] && NoSpace(w);
      forall i | 0 <= i < |tail| ensures tail[i] != [] && NoSpace(tail[i]) {
        assert tail[i] == ws[i + 1];
      }
      var rest := JoinWithSpace(tail);
      assert JoinWithSpace(ws) == w + (" " + rest);
      WordsCons(w, " " + rest);
      WordsAfterSpace(rest);
      WordsOfJoin(tail);
    }
  }
}
