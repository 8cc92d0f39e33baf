/** Trimming and lower-casing of reported text. */
module Texts {

  function Lower(c: char): char { if 'A' <= c <= 'Z' then ((c as int) + 32) as char else c }

  function ToLower(s: string): string { seq(|s|, i requires 0 <= i < |s| => Lower(s[i])) }

  /** Tab, line feed, vertical tab, form feed, carriage return, space, next line and the non-breaking space. */
  predicate Space(c: char) { 9 <= c as int <= 13 || c as int == 0x20 || c as int == 0x85 || c as int == 0xA0 }

  function TrimSpace(s: string): string
    decreases |s|
  {
    if s == "" then ""
    else if Space(s[0]) then TrimSpace(s[1..])
    else if Space(s[|s| - 1]) then TrimSpace(s[..|s| - 1])
    else s
  }

  // ---- What they ignore ---------------------------------------------------------------------------------------

  /** The same letter, in either case, or the same character. */
  predicate SameLetter(a: char, b: char) {
    a == b || ('A' <= a <= 'Z' && b as int == a as int + 32) || ('A' <= b <= 'Z' && a as int == b as int + 32)
  }

  predicate SameWord(a: string, b: string) { |a| == |b| && forall i | 0 <= i < |a| :: SameLetter(a[i], b[i]) }

  predicate Blank(s: string) { forall i | 0 <= i < |s| :: s[i] in {' ', '\t', '\n', '\r'} }

  lemma {:induction false} TrimBlank(s: string)
    requires Blank(s)
    ensures TrimSpace(s) == ""
    decreases |s|
  {
    if s != "" { TrimBlank(s[1..]); }
  }

  lemma {:induction false} TrimRight(s: string, pad: string)
    requires Blank(pad)
    ensures TrimSpace(s + pad) == TrimSpace(s)
    decreases |s| + |pad|
  {
    if pad == "" {
      assert s + pad == s;
    } else if s == "" {
      assert s + pad == pad;
      TrimBlank(pad);
    } else if Space(s[0]) {
      assert (s + pad)[1..] == s[1..] + pad;
      TrimRight(s[1..], pad);
    } else {
      assert (s + pad)[..|s + pad| - 1] == s + pad[..|pad| - 1];
      TrimRight(s, pad[..|pad| - 1]);
    }
  }

  /** Blanks around a text are trimmed away. */
  lemma {:induction false} TrimPads(before: string, s: string, after: string)
    requires Blank(before) && Blank(after)
    ensures TrimSpace(before + s + after) == TrimSpace(s)
    decreases |before|
  {
    if before == "" {
      assert before + s + after == s + after;
      TrimRight(s, after);
    } else {
      assert (before + s + after)[1..] == before[1..] + s + after;
      TrimPads(before[1..], s, after);
    }
  }

  lemma {:induction false} TrimKeepsWord(a: string, b: string)
    requires SameWord(a, b)
    ensures SameWord(TrimSpace(a), TrimSpace(b))
    decreases |a|
  {
    if a != "" {
      assert SameLetter(a[0], b[0]) && SameLetter(a[|a| - 1], b[|b| - 1]);
      if Space(a[0]) {
        TrimKeepsWord(a[1..], b[1..]);
      } else if Space(a[|a| - 1]) {
        TrimKeepsWord(a[..|a| - 1], b[..|b| - 1]);
      }
    }
  }

  /** Neither the case of its letters nor blanks around it change what a report is read as. */
  lemma ReadAlike(before: string, a: string, after: string, b: string)
    requires Blank(before) && Blank(after) && SameWord(a, b)
    ensures ToLower(TrimSpace(before + a + after)) == ToLower(TrimSpace(b))
  {
    TrimPads(before, a, after);
    TrimKeepsWord(a, b);
    var x, y := TrimSpace(a), TrimSpace(b);
    forall i | 0 <= i < |x| ensures Lower(x[i]) == Lower(y[i]) { assert SameLetter(x[i], y[i]); }
  }

  lemma LowerSame(s: string, word: string)
    ensures ToLower(s) == word ==> SameWord(s, word)
  {
    if ToLower(s) == word {
      forall i | 0 <= i < |s| ensures SameLetter(s[i], word[i]) { assert Lower(s[i]) == word[i]; }
    }
  }

  /** And a text that is another word is not read as this one. */
  lemma ReadOther(raw: string, word: string)
    requires !SameWord(TrimSpace(raw), word)
    ensures ToLower(TrimSpace(raw)) != word
  {
    LowerSame(TrimSpace(raw), word);
  }

  /** A text of lower-case letters is read as it is. */
  lemma LowerWord(s: string)
    requires forall i | 0 <= i < |s| :: 'a' <= s[i] <= 'z'
    ensures ToLower(TrimSpace(s)) == s
  {
  }
}
