/** The text-width estimator's string logic: splitting the button text into
    line tokens the way `java.util.StringTokenizer` does with the delimiter
    set "\n", choosing the dominant line, and `divideText` itself. */
module DominantLine {
  import opened JavaLang

  const LineFeed: char := '\n'

  predicate NoLineFeed(s: string) {
    forall i :: 0 <= i < |s| ==> s[i] != LineFeed
  }

  /** Length of the longest prefix of `s` that holds no line feed. */
  function RunLength(s: string): (n: nat)
    ensures n <= |s|
    ensures forall i :: 0 <= i < n ==> s[i] != LineFeed
    ensures n == |s| || s[n] == LineFeed
  {
    if s == [] || s[0] == LineFeed then 0 else 1 + RunLength(s[1..])
  }

  /** The tokens `StringTokenizer(s, "\n", false)` yields, in order: the
      maximal runs of non-line-feed characters.  Runs of line feeds collapse,
      no token is empty, and nothing is trimmed. */
  function Tokens(s: string): (ts: seq<string>)
    ensures forall k :: 0 <= k < |ts| ==> ts[k] != [] && NoLineFeed(ts[k])
    decreases |s|
  {
    if s == [] then []
    else if s[0] == LineFeed then Tokens(s[1..])
    else
      var n := RunLength(s);
      [s[..n]] + Tokens(s[n..])
  }

  /** Reference definitions: the text with its line feeds deleted, and the
      characters of a token list laid end to end. */
  function RemoveLineFeeds(s: string): string {
    if s == [] then []
    else if s[0] == LineFeed then RemoveLineFeeds(s[1..])
    else [s[0]] + RemoveLineFeeds(s[1..])
  }

  function Concat(ts: seq<string>): string {
    if ts == [] then [] else ts[0] + Concat(ts[1..])
  }

  /** Lines joined with one line feed between neighbours. */
  function JoinLines(ts: seq<string>): string {
    if |ts| == 0 then []
    else if |ts| == 1 then ts[0]
    else ts[0] + [LineFeed] + JoinLines(ts[1..])
  }

  lemma {:induction false} RemoveLineFeedsOfPlain(s: string)
    requires NoLineFeed(s)
    ensures RemoveLineFeeds(s) == s
  {
    if s != [] {
      assert NoLineFeed(s[1..]) by {
        forall i | 0 <= i < |s[1..]| ensures s[1..][i] != LineFeed {
          assert s[1..][i] == s[i + 1];
        }
      }
      RemoveLineFeedsOfPlain(s[1..]);
    }
  }

  lemma {:induction false} RemoveLineFeedsAppend(a: string, b: string)
    ensures RemoveLineFeeds(a + b) == RemoveLineFeeds(a) + RemoveLineFeeds(b)
  {
    if a != [] {
      assert (a + b)[1..] == a[1..] + b;
      RemoveLineFeedsAppend(a[1..], b);
    } else {
      assert a + b == b;
    }
  }

  /** The tokens hold exactly the text's non-line-feed characters, in text
      order. */
  lemma {:induction false} TokensKeepCharacters(s: string)
    ensures Concat(Tokens(s)) == RemoveLineFeeds(s)
    decreases |s|
  {
    if s == [] {
    } else if s[0] == LineFeed {
      TokensKeepCharacters(s[1..]);
    } else {
      var n := RunLength(s);
      assert s == s[..n] + s[n..];
      TokensKeepCharacters(s[n..]);
      RemoveLineFeedsAppend(s[..n], s[n..]);
      RemoveLineFeedsOfPlain(s[..n]);
      var ts := [s[..n]] + Tokens(s[n..]);
      assert ts[1..] == Tokens(s[n..]);
    }
  }

  /** A text yields no token exactly when it is made of line feeds only. */
  lemma {:induction false} TokensEmptyIff(s: string)
    ensures Tokens(s) == [] <==> forall i :: 0 <= i < |s| ==> s[i] == LineFeed
    decreases |s|
  {
    if s != [] && s[0] == LineFeed {
      TokensEmptyIff(s[1..]);
      if forall i :: 0 <= i < |s[1..]| ==> s[1..][i] == LineFeed {
        forall i | 0 <= i < |s| ensures s[i] == LineFeed {
          if i > 0 { assert s[i] == s[1..][i - 1]; }
        }
      } else {
        var i :| 0 <= i < |s[1..]| && s[1..][i] != LineFeed;
        assert s[i + 1] != LineFeed;
      }
    }
  }

  lemma {:induction false} RunLengthOfLine(t: string, rest: string)
    requires NoLineFeed(t)
    requires rest == [] || rest[0] == LineFeed
    ensures RunLength(t + rest) == |t|
    decreases |t|
  {
    if t != [] {
      assert (t + rest)[0] == t[0];
      assert (t + rest)[1..] == t[1..] + rest;
      assert NoLineFeed(t[1..]) by {
        forall i | 0 <= i < |t[1..]| ensures t[1..][i] != LineFeed {
          assert t[1..][i] == t[i + 1];
        }
      }
      RunLengthOfLine(t[1..], rest);
    } else {
      assert t + rest == rest;
    }
  }

  /** Round trip: tokenizing lines joined by line feeds gives the lines
      back, provided each is non-empty and holds no line feed. */
  lemma {:induction false} TokensOfJoinLines(ts: seq<string>)
    requires forall k :: 0 <= k < |ts| ==> ts[k] != [] && NoLineFeed(ts[k])
    ensures Tokens(JoinLines(ts)) == ts
  {
    if |ts| == 1 {
      var s := ts[0];
      RunLengthOfLine(s, []);
      assert s + [] == s;
      assert s[|s|..] == [];
      assert s[..|s|] == s;
    } else if |ts| > 1 {
      var rest := [LineFeed] + JoinLines(ts[1..]);
      var s := ts[0] + rest;
      assert JoinLines(ts) == s;
      RunLengthOfLine(ts[0], rest);
      assert s[..|ts[0]|] == ts[0];
      assert s[|ts[0]|..] == rest;
      assert rest[0] == LineFeed && rest[1..] == JoinLines(ts[1..]);
      TokensOfJoinLines(ts[1..]);
      assert Tokens(s) == [ts[0]] + Tokens(rest);
      assert [ts[0]] + ts[1..] == ts;
    }
  }

  lemma {:induction false} RunLengthOfPrefix(a: string, c: string)
    requires RunLength(a) < |a|
    ensures RunLength(a + c) == RunLength(a)
    decreases |a|
  {
    assert (a + c)[0] == a[0];
    if a[0] != LineFeed {
      assert (a + c)[1..] == a[1..] + c;
      RunLengthOfPrefix(a[1..], c);
    }
  }

  /** A line feed is a token boundary wherever it stands: the tokens of
      `a`, a line feed and `b` are the tokens of `a` followed by those of
      `b`.  So leading, trailing and repeated line feeds produce no empty
      token and never join the characters on either side. */
  lemma {:induction false} TokensSplit(a: string, b: string)
    ensures Tokens(a + [LineFeed] + b) == Tokens(a) + Tokens(b)
    decreases |a|
  {
    var s := a + [LineFeed] + b;
    if a == [] {
      assert s[1..] == b;
    } else if a[0] == LineFeed {
      assert s[0] == LineFeed && s[1..] == a[1..] + [LineFeed] + b;
      TokensSplit(a[1..], b);
    } else {
      var n := RunLength(a);
      assert s[0] == a[0];
      assert n >= 1;
      if n < |a| {
        assert s == a + ([LineFeed] + b);
        RunLengthOfPrefix(a, [LineFeed] + b);
        assert s[..n] == a[..n];
        assert s[n..] == a[n..] + [LineFeed] + b;
        TokensSplit(a[n..], b);
        assert Tokens(s) == [a[..n]] + Tokens(s[n..]);
      } else {
        var rest := [LineFeed] + b;
        assert s == a + rest;
        RunLengthOfLine(a, rest);
        assert s[..n] == a && s[n..] == rest;
        assert rest[1..] == b;
        assert a[..n] == a && a[n..] == [];
        assert Tokens(a) == [a];
      }
    }
  }

  /** The dominant-line rule of `divideText`: the index of the last token
      strictly longer than the token just before it, or 0 when there is
      none. */
  function DominantIndex(ts: seq<string>): (k: nat)
    requires |ts| > 0
    ensures k < |ts|
    ensures k == 0 || |ts[k]| > |ts[k - 1]|
    ensures forall j :: k < j < |ts| ==> |ts[j]| <= |ts[j - 1]|
  {
    if |ts| == 1 then 0
    else if |ts[|ts| - 1]| > |ts[|ts| - 2]| then |ts| - 1
    else DominantIndex(ts[..|ts| - 1])
  }

  /** The two conditions of DominantIndex's contract determine it. */
  lemma DominantIndexUnique(ts: seq<string>, k: nat)
    requires k < |ts|
    requires k == 0 || |ts[k]| > |ts[k - 1]|
    requires forall j :: k < j < |ts| ==> |ts[j]| <= |ts[j - 1]|
    ensures DominantIndex(ts) == k
  {
  }

  /** Examples of the rule; the last shows that the rule does not always
      pick the longest token. */
  lemma DominantExamples()
    ensures ["a", "abc", "ab"][DominantIndex(["a", "abc", "ab"])] == "abc"
    ensures ["abc", "xy"][DominantIndex(["abc", "xy"])] == "abc"
    ensures ["abc", "a", "ab"][DominantIndex(["abc", "a", "ab"])] == "ab"
  {
    DominantIndexUnique(["a", "abc", "ab"], 1);
    DominantIndexUnique(["abc", "xy"], 0);
    DominantIndexUnique(["abc", "a", "ab"], 2);
  }

  /** What `divideText` returns for the text and the all-caps flag, with
      `upper` standing for `String.toUpperCase`.  A non-empty text made only
      of line feeds yields no token, and `list.get(0)` then throws. */
  function DividedText(text: string, allCaps: bool, upper: string -> string): Result<string> {
    if text == [] then Ok([])
    else
      var ts := Tokens(text);
      if |ts| == 0 then Threw(IndexOutOfBounds)
      else
        var line := ts[DominantIndex(ts)];
        Ok(if allCaps then upper(line) else line)
  }

  lemma DividedTextOfEmpty(allCaps: bool, upper: string -> string)
    ensures DividedText([], allCaps, upper) == Ok([])
  {
  }

  /** `divideText` throws exactly for a non-empty text of line feeds only. */
  lemma DividedTextThrowsIff(text: string, allCaps: bool, upper: string -> string)
    ensures DividedText(text, allCaps, upper).Threw? <==>
            text != [] && forall i :: 0 <= i < |text| ==> text[i] == LineFeed
  {
    TokensEmptyIff(text);
  }

  /** A single-line text gives that line, upper-cased under all-caps. */
  lemma DividedTextOfOneLine(text: string, allCaps: bool, upper: string -> string)
    requires |Tokens(text)| == 1
    ensures DividedText(text, allCaps, upper) ==
            Ok(if allCaps then upper(Tokens(text)[0]) else Tokens(text)[0])
  {
  }

  /** Otherwise the result is one of the tokens (modulo upper-casing). */
  lemma DividedTextIsAToken(text: string, allCaps: bool, upper: string -> string)
    requires text != []
    requires DividedText(text, allCaps, upper).Ok?
    ensures exists k :: (0 <= k < |Tokens(text)| &&
              DividedText(text, allCaps, upper).value ==
                (if allCaps then upper(Tokens(text)[k]) else Tokens(text)[k]))
  {
    var ts := Tokens(text);
    var k := DominantIndex(ts);
    assert DividedText(text, allCaps, upper).value == (if allCaps then upper(ts[k]) else ts[k]);
  }

  /** The `while (tokenizer.hasMoreTokens())` loop that fills `list`. */
  method SplitTokens(text: string) returns (list: seq<string>)
    ensures list == Tokens(text)
  {
    list := [];
    var pos := 0;
    while pos < |text|
      invariant 0 <= pos <= |text|
      invariant list + Tokens(text[pos..]) == Tokens(text)
      decreases |text| - pos
    {
      if text[pos] == LineFeed {
        assert text[pos..][1..] == text[pos + 1..];
        pos := pos + 1;
      } else {
        var end := pos;
        while end < |text| && text[end] != LineFeed
          invariant pos <= end <= |text|
          invariant forall i :: pos <= i < end ==> text[i] != LineFeed
          decreases |text| - end
        {
          end := end + 1;
        }
        ghost var s := text[pos..];
        ghost var n := RunLength(s);
        assert s[end - pos..] == text[end..];
        assert n == end - pos;
        assert s[..n] == text[pos..end];
        list := list + [text[pos..end]];
        pos := end;
      }
    }
    assert text[|text|..] == [];
  }

  /** The `for` loop that updates `longPart`. */
  method SelectDominant(list: seq<string>) returns (longPart: string)
    requires |list| > 0
    ensures longPart == list[DominantIndex(list)]
  {
    longPart := list[0];
    for i := 0 to |list| - 1
      invariant longPart == list[..i + 1][DominantIndex(list[..i + 1])]
    {
      assert list[..i + 2][..i + 1] == list[..i + 1];
      if |list[i + 1]| > |list[i]| {
        longPart := list[i + 1];
      }
    }
    assert list[..|list|] == list;
  }

  /** `divideText`, with the view's text and `isAllCaps()` as inputs. */
  method DivideText(text: string, allCaps: bool, upper: string -> string) returns (r: Result<string>)
    ensures r == DividedText(text, allCaps, upper)
  {
    if text == [] {
      return Ok([]);
    }
    var list := SplitTokens(text);
    if |list| == 1 {
      return Ok(if allCaps then upper(list[0]) else list[0]);
    }
    if |list| == 0 {
      return Threw(IndexOutOfBounds);
    }
    var longPart := SelectDominant(list);
    r := Ok(if allCaps then upper(longPart) else longPart);
  }
}
