/** Cutting a text into words (src/agent/ToolSearchIndex.ts:19,41). */
module ToolWords {
  import opened Prelude
  import opened Strings

  predicate IsWordChar(c: char) {
    'a' <= c <= 'z' || 'A' <= c <= 'Z' || '0' <= c <= '9' || c == '_'
  }

  function RunLength(s: string): (n: nat)
    ensures n <= |s|
    ensures forall i :: 0 <= i < n ==> IsWordChar(s[i])
    ensures n < |s| ==> !IsWordChar(s[n])
  {
    if s == "" || !IsWordChar(s[0]) then 0 else 1 + RunLength(s[1..])
  }

  /** What `split(/\W+/)` leaves, without the empty strings at the ends. */
  function Words(s: string): seq<string>
    decreases |s|
  {
    if s == "" then []
    else if !IsWordChar(s[0]) then Words(s[1..])
    else [s[..RunLength(s)]] + Words(s[RunLength(s)..])
  }

  predicate Contains(s: string, part: string) {
    exists i :: 0 <= i <= |s| && part <= s[i..]
  }

  // ------------------------------------------------------------ what they find

  const DIGITS: string := "0123456789"

  lemma WordCharacters(c: char)
    ensures IsWordChar(c) <==> c in LETTERS || c in CAPITALS || c in DIGITS || c == '_'
  {
    SmallLetters(c);
    BigLetters(c);
    Digits(c);
  }

  lemma SmallLetters(c: char)
    ensures c in LETTERS <==> 'a' <= c <= 'z'
  {
    if 'a' <= c <= 'z' {
      assert LETTERS[c as int - 'a' as int] == c;
    }
  }

  lemma BigLetters(c: char)
    ensures c in CAPITALS <==> 'A' <= c <= 'Z'
  {
    if 'A' <= c <= 'Z' {
      assert CAPITALS[c as int - 'A' as int] == c;
    }
  }

  lemma Digits(c: char)
    ensures c in DIGITS <==> '0' <= c <= '9'
  {
    if '0' <= c <= '9' {
      assert DIGITS[c as int - '0' as int] == c;
    }
  }

  /** `s[i..j]` consists of word characters and has none at either side. */
  predicate WordAt(s: string, i: nat, j: nat) {
    && i < j <= |s| && (forall k :: i <= k < j ==> IsWordChar(s[k]))
    && (i > 0 ==> !IsWordChar(s[i - 1])) && (j < |s| ==> !IsWordChar(s[j]))
  }

  ghost predicate IsWordOf(s: string, w: string) {
    exists i: nat, j: nat :: WordAt(s, i, j) && w == s[i..j]
  }

  ghost predicate Inside(part: string, s: string) {
    exists before, after :: s == before + part + after
  }

  lemma ContainsMeans(s: string, part: string)
    ensures Contains(s, part) <==> Inside(part, s)
  {
    forall i | 0 <= i <= |s| && part <= s[i..] ensures Inside(part, s) {
      assert s == s[..i] + part + s[i..][|part|..];
    }
    forall before, after | s == before + part + after ensures Contains(s, part) {
      assert s[|before|..] == part + after;
    }
  }

  lemma WordInRest(s: string, n: nat, i: nat, j: nat)
    requires n <= |s| && i < j && (i == 0 ==> n > 0 && !IsWordChar(s[n - 1]))
    ensures WordAt(s[n..], i, j) <==> WordAt(s, n + i, n + j)
    ensures j <= |s| - n ==> s[n..][i..j] == s[n + i..n + j]
  {
    var rest := s[n..];
    assert forall k :: 0 <= k < |rest| ==> rest[k] == s[n + k];
    if WordAt(s, n + i, n + j) {
      forall k | i <= k < j ensures IsWordChar(rest[k]) {
        assert IsWordChar(s[n + k]);
      }
    }
  }

  /** Cutting a text finds its words, all of them and nothing else. */
  lemma {:induction false} WordsExactly(s: string)
    ensures forall w :: w in Words(s) <==> IsWordOf(s, w)
    decreases |s|
  {
    if s == "" {
    } else if !IsWordChar(s[0]) {
      WordsExactly(s[1..]);
      forall w ensures IsWordOf(s, w) <==> IsWordOf(s[1..], w) {
        WordsAfterGap(s, w);
      }
    } else {
      var n := RunLength(s);
      WordsExactly(s[n..]);
      forall w ensures IsWordOf(s, w) <==> w == s[..n] || IsWordOf(s[n..], w) {
        WordsAfterRun(s, n, w);
      }
    }
  }

  lemma WordsAfterGap(s: string, w: string)
    requires s != "" && !IsWordChar(s[0])
    ensures IsWordOf(s, w) <==> IsWordOf(s[1..], w)
  {
    forall i: nat, j: nat | WordAt(s, i, j) && w == s[i..j] ensures IsWordOf(s[1..], w) {
      assert i > 0 by { assert IsWordChar(s[i]); }
      WordInRest(s, 1, i - 1, j - 1);
    }
    forall i: nat, j: nat | WordAt(s[1..], i, j) && w == s[1..][i..j] ensures IsWordOf(s, w) {
      WordInRest(s, 1, i, j);
    }
  }

  lemma WordsAfterRun(s: string, n: nat, w: string)
    requires 0 < n == RunLength(s)
    ensures IsWordOf(s, w) <==> w == s[..n] || IsWordOf(s[n..], w)
  {
    assert WordAt(s, 0, n) && s[0..n] == s[..n];
    forall i: nat, j: nat | WordAt(s, i, j) && w == s[i..j] ensures w == s[..n] || IsWordOf(s[n..], w) {
      assert IsWordChar(s[i]);
      if i == 0 {
        assert j == n;
      } else {
        assert i > n;
        WordInRest(s, n, i - n, j - n);
      }
    }
    forall i: nat, j: nat | WordAt(s[n..], i, j) && w == s[n..][i..j] ensures IsWordOf(s, w) {
      assert i > 0 by { assert IsWordChar(s[n..][i]); }
      WordInRest(s, n, i, j);
    }
  }
}
