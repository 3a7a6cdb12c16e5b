/** Word counting over text (`word_count`), with Python's argument-less
    `str.split()` as the tokeniser. */
module Books {

  /** The characters `str.isspace()` accepts, which are the separators of
      `str.split()`: general category Zs, or bidirectional class WS, B or S. */
  predicate IsSpace(c: char) {
    var k := c as int;
    || (0x09 <= k <= 0x0D)
    || (0x1C <= k <= 0x20)
    || k == 0x85 || k == 0xA0 || k == 0x1680
    || (0x2000 <= k <= 0x200A)
    || k == 0x2028 || k == 0x2029 || k == 0x202F || k == 0x205F || k == 0x3000
  }

  /** Every character of `s` is whitespace (this includes the empty string). */
  predicate AllSpace(s: string) {
    forall i :: 0 <= i < |s| ==> IsSpace(s[i])
  }

  /** A token `str.split()` can produce: non-empty, with no whitespace in it. */
  predicate IsWord(w: string) {
    |w| > 0 && forall i :: 0 <= i < |w| ==> !IsSpace(w[i])
  }

  /** The length of the longest whitespace-free prefix of `s`. */
  function WordEnd(s: string): (n: nat)
    ensures n <= |s|
    ensures forall i :: 0 <= i < n ==> !IsSpace(s[i])
    ensures n < |s| ==> IsSpace(s[n])
  {
    if |s| == 0 || IsSpace(s[0]) then 0 else 1 + WordEnd(s[1..])
  }

  /** `s.split()`: the maximal whitespace-free runs of `s`, left to right. */
  function Split(s: string): (ws: seq<string>)
    ensures forall i :: 0 <= i < |ws| ==> IsWord(ws[i])
    decreases |s|
  {
    if |s| == 0 then []
    else if IsSpace(s[0]) then Split(s[1..])
    else
      var n := WordEnd(s);
      [s[..n]] + Split(s[n..])
  }

  /** The tokens written back to back. */
  function Concat(ws: seq<string>): string {
    if |ws| == 0 then "" else ws[0] + Concat(ws[1..])
  }

  /** `s` with every whitespace character deleted. */
  function StripSpace(s: string): string {
    if |s| == 0 then ""
    else (if IsSpace(s[0]) then "" else [s[0]]) + StripSpace(s[1..])
  }

  /** The tokens joined by single spaces, as `" ".join(ws)`. */
  function Join(ws: seq<string>): string {
    if |ws| == 0 then ""
    else if |ws| == 1 then ws[0]
    else ws[0] + " " + Join(ws[1..])
  }

  /** The number of tokens equal to `word`, counted by walking the tokens as
      the `for` loop of `word_count` does. */
  function CountMatches(ws: seq<string>, word: string): (n: nat)
    ensures n == multiset(ws)[word]
  {
    if |ws| == 0 then 0
    else
      var k := |ws| - 1;
      assert ws == ws[..k] + [ws[k]];
      CountMatches(ws[..k], word) + (if ws[k] == word then 1 else 0)
  }

  /** `word_count(text, word)`: with a non-empty `word`, the number of tokens
      of `text` exactly equal to it; with the default empty `word`, the
      number of tokens. */
  function WordCount(text: string, word: string := ""): (count: nat)
    ensures word == "" ==> count == |Split(text)|
    ensures word != "" ==> count == multiset(Split(text))[word]
  {
    if word != "" then CountMatches(Split(text), word) else |Split(text)|
  }

  // ---------------------------------------------------------------------
  // Properties of the tokeniser

  /** A word followed by nothing or by whitespace ends exactly where it ends. */
  lemma {:induction false} WordEndOfWord(w: string, t: string)
    requires IsWord(w)
    requires |t| == 0 || IsSpace(t[0])
    ensures WordEnd(w + t) == |w|
    decreases |w|
  {
    if |w| > 1 {
      assert (w + t)[1..] == w[1..] + t;
      WordEndOfWord(w[1..], t);
    } else {
      assert (w + t)[1..] == t;
    }
  }

  /** Splitting a word followed by nothing or by whitespace yields that word first. */
  lemma SplitWordThen(w: string, t: string)
    requires IsWord(w)
    requires |t| == 0 || IsSpace(t[0])
    ensures Split(w + t) == [w] + Split(t)
  {
    WordEndOfWord(w, t);
    var s := w + t;
    assert s[..|w|] == w;
    assert s[|w|..] == t;
  }

  /** Leading whitespace does not change the tokens. */
  lemma {:induction false} SplitSkipsSpace(sp: string, s: string)
    requires AllSpace(sp)
    ensures Split(sp + s) == Split(s)
    decreases |sp|
  {
    if |sp| > 0 {
      assert IsSpace((sp + s)[0]);
      assert (sp + s)[1..] == sp[1..] + s;
      SplitSkipsSpace(sp[1..], s);
    } else {
      assert sp + s == s;
    }
  }

  /** Joining words with single spaces and splitting again gives the words back. */
  lemma {:induction false} SplitJoin(ws: seq<string>)
    requires forall i :: 0 <= i < |ws| ==> IsWord(ws[i])
    ensures Split(Join(ws)) == ws
  {
    if |ws| == 1 {
      SplitWordThen(ws[0], "");
      assert ws[0] + "" == ws[0];
    } else if |ws| > 1 {
      var rest := Join(ws[1..]);
      assert ws[0] + " " + rest == ws[0] + (" " + rest);
      SplitWordThen(ws[0], " " + rest);
      SplitSkipsSpace(" ", rest);
      SplitJoin(ws[1..]);
      assert ws == [ws[0]] + ws[1..];
    }
  }

  /** Whitespace deletion distributes over concatenation. */
  lemma {:induction false} StripSpaceAppend(a: string, b: string)
    ensures StripSpace(a + b) == StripSpace(a) + StripSpace(b)
    decreases |a|
  {
    if |a| > 0 {
      assert (a + b)[1..] == a[1..] + b;
      StripSpaceAppend(a[1..], b);
    } else {
      assert a + b == b;
    }
  }

  /** A whitespace-free string is unchanged by whitespace deletion. */
  lemma {:induction false} StripSpaceOfWordPrefix(s: string, n: nat)
    requires n <= |s|
    requires forall i :: 0 <= i < n ==> !IsSpace(s[i])
    ensures StripSpace(s[..n]) == s[..n]
    decreases n
  {
    if n > 0 {
      assert s[..n][1..] == s[1..][..n - 1];
      StripSpaceOfWordPrefix(s[1..], n - 1);
    }
  }

  /** The tokens written back to back are `text` with its whitespace deleted. */
  lemma {:induction false} ConcatSplit(s: string)
    ensures Concat(Split(s)) == StripSpace(s)
    decreases |s|
  {
    if |s| > 0 {
      if IsSpace(s[0]) {
        ConcatSplit(s[1..]);
      } else {
        var n := WordEnd(s);
        ConcatSplit(s[n..]);
        assert s == s[..n] + s[n..];
        StripSpaceAppend(s[..n], s[n..]);
        StripSpaceOfWordPrefix(s, n);
        assert Split(s) == [s[..n]] + Split(s[n..]);
        assert ([s[..n]] + Split(s[n..]))[1..] == Split(s[n..]);
      }
    }
  }

  /** `text` has no tokens exactly when it is empty or all whitespace. */
  lemma {:induction false} SplitEmptyIffBlank(s: string)
    ensures Split(s) == [] <==> AllSpace(s)
    decreases |s|
  {
    if |s| > 0 {
      if IsSpace(s[0]) {
        SplitEmptyIffBlank(s[1..]);
        if AllSpace(s[1..]) {
          forall i | 0 <= i < |s| ensures IsSpace(s[i]) {
            if i > 0 {
              assert s[i] == s[1..][i - 1];
            }
          }
        } else {
          var j :| 0 <= j < |s[1..]| && !IsSpace(s[1..][j]);
          assert !IsSpace(s[j + 1]);
        }
      } else {
        assert !IsSpace(s[0]);
      }
    }
  }

  // ---------------------------------------------------------------------
  // Properties of word_count

  /** Counting one word never exceeds counting all words. */
  lemma CountAtMostTotal(text: string, word: string)
    ensures WordCount(text, word) <= WordCount(text)
  {
  }

  /** Empty or all-whitespace text counts zero for every word. */
  lemma BlankTextCountsZero(text: string, word: string)
    requires AllSpace(text)
    ensures WordCount(text, word) == 0
  {
    SplitEmptyIffBlank(text);
  }

  /** A non-empty word is counted at least once exactly when some token equals it. */
  lemma CountPositiveIffToken(text: string, word: string)
    requires word != ""
    ensures WordCount(text, word) > 0 <==> word in Split(text)
  {
  }

  /** A word containing whitespace is never counted: no token contains any. */
  lemma SpacedWordCountsZero(text: string, word: string, j: nat)
    requires j < |word| && IsSpace(word[j])
    ensures WordCount(text, word) == 0
  {
  }

  /** Text built by joining words counts exactly those words. */
  lemma CountOfJoin(ws: seq<string>, word: string)
    requires forall i :: 0 <= i < |ws| ==> IsWord(ws[i])
    ensures WordCount(Join(ws)) == |ws|
    ensures word != "" ==> WordCount(Join(ws), word) == multiset(ws)[word]
  {
    SplitJoin(ws);
  }

  /** Matching is exact: "cats" does not count as "cat". */
  lemma ExactMatchOnly()
    ensures WordCount("cats and a cat", "cat") == 1
    ensures WordCount("cats and a cat") == 4
  {
    var ws := ["cats", "and", "a", "cat"];
    assert Join(ws) == "cats and a cat";
    CountOfJoin(ws, "cat");
    assert multiset(ws)["cat"] == 1;
  }
}
