/** String trimming as JavaScript does it. */
module Strings {

  predicate IsSpace(c: char) {
    c in "\t\n\r " || c in ['\U{0B}', '\U{0C}', '\U{A0}', '\U{1680}', '\U{2028}', '\U{2029}', '\U{202F}',
                            '\U{205F}', '\U{3000}', '\U{FEFF}'] || '\U{2000}' <= c <= '\U{200A}'
  }

  /** White space and line ends of ECMAScript, by code point. */
  lemma SpacesAreKnown(c: char)
    ensures IsSpace(c) <==>
            || 9 <= c as int <= 13 || c as int in [0x20, 0xA0, 0x1680, 0x2028, 0x2029, 0x202F, 0x205F, 0x3000, 0xFEFF]
            || 0x2000 <= c as int <= 0x200A
  {
  }

  function TrimStart(s: string): string {
    if s != "" && IsSpace(s[0]) then TrimStart(s[1..]) else s
  }

  function TrimEnd(s: string): string {
    if s != "" && IsSpace(s[|s| - 1]) then TrimEnd(s[..|s| - 1]) else s
  }

  function Trim(s: string): string {
    TrimEnd(TrimStart(s))
  }

  /** Neither end is white space. */
  predicate IsTrimmed(s: string) {
    s == "" || (!IsSpace(s[0]) && !IsSpace(s[|s| - 1]))
  }

  lemma {:induction false} TrimStartSplits(s: string) returns (n: nat)
    ensures n <= |s| && TrimStart(s) == s[n..] && (forall i :: 0 <= i < n ==> IsSpace(s[i]))
    ensures TrimStart(s) == "" || !IsSpace(TrimStart(s)[0])
  {
    n := 0;
    if s != "" && IsSpace(s[0]) {
      var m := TrimStartSplits(s[1..]);
      n := m + 1;
      assert forall i :: 1 <= i < n ==> s[i] == s[1..][i - 1];
    }
  }

  lemma {:induction false} TrimEndSplits(s: string) returns (n: nat)
    ensures n <= |s| && TrimEnd(s) == s[..n] && (forall i :: n <= i < |s| ==> IsSpace(s[i]))
    ensures TrimEnd(s) == "" || !IsSpace(TrimEnd(s)[n - 1])
  {
    n := |s|;
    if s != "" && IsSpace(s[|s| - 1]) {
      n := TrimEndSplits(s[..|s| - 1]);
    }
  }

  /** Trimming removes white space at both ends, and only that. */
  lemma TrimSplits(s: string) returns (lo: nat, hi: nat)
    ensures lo <= hi <= |s| && Trim(s) == s[lo..hi] && IsTrimmed(Trim(s))
    ensures forall i :: 0 <= i < lo || hi <= i < |s| ==> IsSpace(s[i])
  {
    lo := TrimStartSplits(s);
    var n := TrimEndSplits(TrimStart(s));
    hi := lo + n;
    forall i | hi <= i < |s| ensures IsSpace(s[i]) {
      assert s[i] == TrimStart(s)[i - lo];
    }
  }

  lemma {:induction false} TrimStartOfPadded(before: string, core: string)
    requires (forall c :: c in before ==> IsSpace(c)) && core != "" && !IsSpace(core[0])
    ensures TrimStart(before + core) == core
  {
    if before != "" {
      assert (before + core)[1..] == before[1..] + core;
      TrimStartOfPadded(before[1..], core);
    } else {
      assert before + core == core;
    }
  }

  lemma {:induction false} TrimEndOfPadded(core: string, after: string)
    requires (forall c :: c in after ==> IsSpace(c)) && core != "" && !IsSpace(core[|core| - 1])
    ensures TrimEnd(core + after) == core
    decreases |after|
  {
    if after != "" {
      var n := |after| - 1;
      assert (core + after)[..|core| + n] == core + after[..n];
      TrimEndOfPadded(core, after[..n]);
    } else {
      assert core + after == core;
    }
  }

  lemma TrimOfPadded(before: string, core: string, after: string)
    requires (forall c :: c in before + after ==> IsSpace(c)) && core != "" && IsTrimmed(core)
    ensures Trim(before + core + after) == core
  {
    assert before + core + after == before + (core + after);
    forall c | c in before ensures IsSpace(c) { assert c in before + after; }
    forall c | c in after ensures IsSpace(c) { assert c in before + after; }
    TrimStartOfPadded(before, core + after);
    TrimEndOfPadded(core, after);
  }

  /** ASCII lower case. */
  function LowerAscii(s: string): string {
    seq(|s|, i requires 0 <= i < |s| => if 'A' <= s[i] <= 'Z' then (s[i] as int + 32) as char else s[i])
  }

  const LETTERS: string := "abcdefghijklmnopqrstuvwxyz"
  const CAPITALS: string := "ABCDEFGHIJKLMNOPQRSTUVWXYZ"

  /** It works letter by letter, on the capitals and nothing else. */
  lemma LowerAsciiLetters(a: string, b: string)
    ensures LowerAscii(a + b) == LowerAscii(a) + LowerAscii(b)
    ensures forall k :: 0 <= k < 26 ==> LowerAscii([CAPITALS[k]]) == [LETTERS[k]]
    ensures forall c: char :: c !in CAPITALS ==> LowerAscii([c]) == [c]
  {
    forall c: char | 'A' <= c <= 'Z' ensures c in CAPITALS {
      assert CAPITALS[c as int - 'A' as int] == c;
    }
  }

  /** Lower case in JavaScript, as far as it gives ASCII letters: the Kelvin sign
      becomes a k as well. */
  function LowerLetters(s: string): string {
    LowerAscii(seq(|s|, i requires 0 <= i < |s| => if s[i] == '\U{212A}' then 'k' else s[i]))
  }

  /** The unique indexes on provider ids pass over these, trimmed of blanks and
      in SQLite's lower case, which is that of ASCII. */
  const UNKNOWN_IDS: set<string> := {"", "unknown", "null"}

  function TrimBlanksStart(s: string): string {
    if s != "" && s[0] == ' ' then TrimBlanksStart(s[1..]) else s
  }

  function TrimBlanksEnd(s: string): string {
    if s != "" && s[|s| - 1] == ' ' then TrimBlanksEnd(s[..|s| - 1]) else s
  }

  predicate Significant(providerId: string) {
    LowerAscii(TrimBlanksEnd(TrimBlanksStart(providerId))) !in UNKNOWN_IDS
  }

  predicate Blanks(s: string) {
    forall i :: 0 <= i < |s| ==> s[i] == ' '
  }

  lemma {:induction false} TrimBlanksOfPadded(before: string, core: string, after: string)
    requires Blanks(before) && Blanks(after) && (core == "" || (core[0] != ' ' && core[|core| - 1] != ' '))
    ensures TrimBlanksEnd(TrimBlanksStart(before + core + after)) == core
    decreases |before| + |after|
  {
    var s := before + core + after;
    if before != "" {
      assert s[0] == before[0] && s[1..] == before[1..] + core + after;
      TrimBlanksOfPadded(before[1..], core, after);
    } else if core == "" && after != "" {
      assert s == after && s[1..] == "" + core + after[1..];
      TrimBlanksOfPadded("", core, after[1..]);
    } else {
      assert s == core + after;
      TrimBlanksEndOfPadded(core, after);
    }
  }

  lemma {:induction false} TrimBlanksEndOfPadded(core: string, after: string)
    requires Blanks(after) && (core == "" ==> after == "") && (core != "" ==> core[|core| - 1] != ' ')
    ensures TrimBlanksEnd(core + after) == core
    decreases |after|
  {
    if after != "" {
      var n := |after| - 1;
      assert (core + after)[..|core| + n] == core + after[..n];
      TrimBlanksEndOfPadded(core, after[..n]);
    } else {
      assert core + after == core;
    }
  }

  /** Blanks around an id and the case of its letters do not matter to the indexes. */
  lemma SignificantExactly(before: string, core: string, after: string)
    requires Blanks(before) && Blanks(after) && (core == "" || (core[0] != ' ' && core[|core| - 1] != ' '))
    ensures Significant(before + core + after) <==>
            LowerAscii(core) != "" && LowerAscii(core) != "unknown" && LowerAscii(core) != "null"
  {
    TrimBlanksOfPadded(before, core, after);
  }
}
