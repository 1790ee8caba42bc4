/**
 * `dashboard/utils.py`: `readable_string`, which drops newlines and collapses
 * every run of whitespace into a single space.
 */
module Utils {
  import opened Text

  /** A word as `str.split()` returns it: not empty, no whitespace. */
  predicate IsWord(w: string) {
    |w| > 0 && forall i :: 0 <= i < |w| ==> !IsPyWhitespace(w[i])
  }

  /** How many characters the word at the start of `s` has. */
  function WordLength(s: string): (n: nat)
    requires s != [] && !IsPyWhitespace(s[0])
    ensures 1 <= n <= |s| && IsWord(s[..n])
    ensures n == |s| || IsPyWhitespace(s[n])
  {
    if |s| == 1 || IsPyWhitespace(s[1]) then 1
    else
      var n := 1 + WordLength(s[1..]);
      assert s[..n] == [s[0]] + s[1..][..n - 1];
      n
  }

  /** `s.split()`: the maximal runs of non-whitespace characters, in order. */
  function Words(s: string): (ws: seq<string>)
    ensures forall k :: 0 <= k < |ws| ==> IsWord(ws[k])
    decreases |s|
  {
    if s == [] then []
    else if IsPyWhitespace(s[0]) then Words(s[1..])
    else
      var n := WordLength(s);
      [s[..n]] + Words(s[n..])
  }

  /** `readable_string`: `" ".join(s.replace("\n", "").split())`. */
  function ReadableString(s: string): string {
    JoinWith(" ", Words(ReplaceChar(s, '\n', "")))
  }

  /**
   * The only whitespace is single spaces, each between two non-whitespace
   * characters: no newline, no leading or trailing space, no two spaces in a row.
   */
  predicate SingleSpaced(t: string) {
    forall i :: 0 <= i < |t| && IsPyWhitespace(t[i]) ==>
      t[i] == ' ' && 0 < i < |t| - 1 && !IsPyWhitespace(t[i - 1]) && !IsPyWhitespace(t[i + 1])
  }

  lemma {:induction false} JoinSingleSpaced(ws: seq<string>)
    requires forall k :: 0 <= k < |ws| ==> IsWord(ws[k])
    ensures SingleSpaced(JoinWith(" ", ws))
    ensures ws != [] ==> ws[0] <= JoinWith(" ", ws)
    decreases |ws|
  {
    if |ws| > 1 {
      var w, t := ws[0], JoinWith(" ", ws[1..]);
      JoinSingleSpaced(ws[1..]);
      var j := w + " " + t;
      assert j == JoinWith(" ", ws);
      assert !IsPyWhitespace(t[0]) by {
        assert t[0] == ws[1][0];
      }
      forall i | 0 <= i < |j| && IsPyWhitespace(j[i])
        ensures j[i] == ' ' && 0 < i < |j| - 1 && !IsPyWhitespace(j[i - 1]) && !IsPyWhitespace(j[i + 1])
      {
        if i > |w| {
          assert j[i] == t[i - |w| - 1];
          if i > |w| + 1 {
            assert j[i - 1] == t[i - |w| - 2];
          }
          assert j[i + 1] == t[i - |w|];
        } else if i == |w| {
          assert j[i - 1] == w[|w| - 1];
          assert j[i + 1] == t[0];
        }
      }
    }
  }

  lemma WordLengthOf(w: string, t: string)
    requires IsWord(w) && (t == [] || IsPyWhitespace(t[0]))
    ensures WordLength(w + t) == |w|
  {
    var s := w + t;
    forall m | |w| < m <= |s|
      ensures !IsWord(s[..m])
    {
      assert s[..m][|w|] == t[0];
    }
    assert forall k :: 0 <= k < |w| ==> s[k] == w[k];
  }

  /** Splitting words joined by single spaces gives the words back. */
  lemma {:induction false} WordsOfJoin(ws: seq<string>)
    requires forall k :: 0 <= k < |ws| ==> IsWord(ws[k])
    ensures Words(JoinWith(" ", ws)) == ws
    decreases |ws|
  {
    if |ws| == 1 {
      var w := ws[0];
      WordLengthOf(w, []);
      assert w + [] == w && w[|w|..] == [];
    } else if |ws| > 1 {
      var w, t := ws[0], JoinWith(" ", ws[1..]);
      WordsOfJoin(ws[1..]);
      WordLengthOf(w, " " + t);
      var j := w + (" " + t);
      assert JoinWith(" ", ws) == j;
      assert j[..|w|] == w && j[|w|..] == " " + t;
      assert (" " + t)[1..] == t;
      assert Words(" " + t) == Words(t);
    }
  }

  /** The result is single-spaced, and holds exactly the words of the input once its newlines are gone. */
  lemma ReadableStringSpec(s: string)
    ensures SingleSpaced(ReadableString(s))
    ensures '\n' !in ReadableString(s)
    ensures Words(ReadableString(s)) == Words(ReplaceChar(s, '\n', ""))
  {
    var ws := Words(ReplaceChar(s, '\n', ""));
    JoinSingleSpaced(ws);
    WordsOfJoin(ws);
  }

  /** Making a readable string readable again changes nothing. */
  lemma ReadableStringIdempotent(s: string)
    ensures ReadableString(ReadableString(s)) == ReadableString(s)
  {
    var r := ReadableString(s);
    ReadableStringSpec(s);
    ReplaceCharAbsent(r, '\n', "");
    WordsOfJoin(Words(ReplaceChar(s, '\n', "")));
  }

  /** A newline is deleted, not read as a space: the text on both sides of it runs together. */
  lemma NewlineJoinsText(a: string, b: string)
    ensures ReadableString(a + "\n" + b) == ReadableString(a + b)
  {
    ReplaceCharAppend(a + "\n", b, '\n', "");
    ReplaceCharAppend(a, "\n", '\n', "");
    ReplaceCharAppend(a, b, '\n', "");
    assert ReplaceChar("\n", '\n', "") == "" + ReplaceChar([], '\n', "");
    assert ReplaceChar(a, '\n', "") + "" == ReplaceChar(a, '\n', "");
  }

  /** `s.split()` finds no word exactly when `s` is all whitespace. */
  lemma {:induction false} NoWordsIffBlank(s: string)
    ensures Words(s) == [] <==> forall i :: 0 <= i < |s| ==> IsPyWhitespace(s[i])
    decreases |s|
  {
    if s != [] {
      NoWordsIffBlank(s[1..]);
      if IsPyWhitespace(s[0]) {
        assert forall i :: 1 <= i < |s| ==> s[i] == s[1..][i - 1];
      }
    }
  }

  /** Input made of whitespace only becomes the empty string. */
  lemma BlankBecomesEmpty(s: string)
    requires forall i :: 0 <= i < |s| ==> IsPyWhitespace(s[i])
    ensures ReadableString(s) == ""
  {
    var t := ReplaceChar(s, '\n', "");
    ReplaceCharMembers(s, '\n', "");
    forall i | 0 <= i < |t|
      ensures IsPyWhitespace(t[i])
    {
      assert t[i] in t;
    }
    NoWordsIffBlank(t);
  }
}
