/** CustomXAxisTick.jsx: the greedy word wrap that breaks a chart label into
    lines of at most `maxLen` characters, except where one word alone is
    longer. */
module XAxisTick {

  /** `txt.split(" ")`: the pieces between single spaces, empty ones included. */
  function Split(s: string): (ws: seq<string>)
    ensures |ws| >= 1
    ensures forall k :: 0 <= k < |ws| ==> ' ' !in ws[k]
    decreases |s|
  {
    if s == [] then [""]
    else if s[0] == ' ' then [""] + Split(s[1..])
    else
      var rest := Split(s[1..]);
      assert forall k :: 1 <= k < |rest| ==> ' ' !in rest[k];
      [[s[0]] + rest[0]] + rest[1..]
  }

  /** `ws.join(" ")` */
  function Unwords(ws: seq<string>): string {
    if ws == [] then ""
    else if |ws| == 1 then ws[0]
    else ws[0] + " " + Unwords(ws[1..])
  }

  /** The words of the text: the pieces that are not empty. */
  function NonEmptyWords(ws: seq<string>): (r: seq<string>)
    ensures forall k :: 0 <= k < |r| ==> r[k] != ""
  {
    if ws == [] then []
    else
      var rest := NonEmptyWords(ws[1..]);
      if ws[0] == "" then rest else [ws[0]] + rest
  }

  /** The words are exactly the non-empty pieces. */
  lemma {:induction false} NonEmptyWordsMembers(ws: seq<string>)
    ensures forall w :: w in NonEmptyWords(ws) <==> w in ws && w != ""
  {
    if ws != [] {
      NonEmptyWordsMembers(ws[1..]);
      assert forall w :: w in ws <==> w == ws[0] || w in ws[1..];
    }
  }

  /** A piece as one entry, or nothing when it is empty. */
  function Opt(w: string): seq<string> {
    if w == "" then [] else [w]
  }

  /** Leading spaces removed. */
  function TrimStart(s: string): string {
    if s != [] && s[0] == ' ' then TrimStart(s[1..]) else s
  }

  /** Trailing spaces removed. */
  function TrimEnd(s: string): string {
    if s != [] && s[|s| - 1] == ' ' then TrimEnd(s[..|s| - 1]) else s
  }

  /** `s.trim()` for text whose only whitespace is the space. */
  function TrimSpaces(s: string): string {
    TrimEnd(TrimStart(s))
  }

  /** No space at either end. */
  predicate Trimmed(s: string) {
    s == [] || (s[0] != ' ' && s[|s| - 1] != ' ')
  }

  /** The text up to the first space. */
  function FirstWord(s: string): (w: string)
    ensures |w| <= |s|
  {
    if s == [] || s[0] == ' ' then [] else [s[0]] + FirstWord(s[1..])
  }

  /** Every closed line is non-empty and trimmed, the current line is
      trimmed, and a line longer than `maxLen` is a single word. */
  predicate WellFormed(lines: seq<string>, curr: string, maxLen: int) {
    && (forall k :: 0 <= k < |lines| ==> lines[k] != "" && Trimmed(lines[k]))
    && (forall k :: 0 <= k < |lines| && |lines[k]| > maxLen ==> ' ' !in lines[k])
    && Trimmed(curr) && (|curr| > maxLen ==> ' ' !in curr)
  }

  /** Line `a` could not have taken the first word of `b` without going over
      `maxLen`. */
  predicate Overflows(a: string, b: string, maxLen: int) {
    |a| + 1 + |FirstWord(b)| > maxLen
  }

  /** Greedy closing: no closed line could have taken the first word of the
      line after it (or of the current line) without going over `maxLen`. */
  predicate Greedy(lines: seq<string>, curr: string, maxLen: int) {
    && (forall k :: 1 <= k < |lines| ==> Overflows(lines[k - 1], lines[k], maxLen))
    && (lines != [] ==>
          if curr == "" then |lines[|lines| - 1]| > maxLen
          else Overflows(lines[|lines| - 1], curr, maxLen))
  }

  /** `wrapText(txt, maxLen)`: each piece is appended to the current line when
      the trimmed result stays within `maxLen`; otherwise the current line, if
      any, is closed and the piece starts the next one. */
  method WrapText(txt: string, maxLen: int) returns (lines: seq<string>)
    ensures forall k :: 0 <= k < |lines| ==> lines[k] != "" && Trimmed(lines[k])
    ensures forall k :: 0 <= k < |lines| && |lines[k]| > maxLen ==> ' ' !in lines[k]
    ensures Unwords(lines) == Unwords(NonEmptyWords(Split(txt)))
    ensures lines == [] <==> NonEmptyWords(Split(txt)) == []
    ensures forall k :: 1 <= k < |lines| ==> Overflows(lines[k - 1], lines[k], maxLen)
  {
    var words := Split(txt);
    lines := [];
    var curr := "";
    for i := 0 to |words|
      invariant WellFormed(lines, curr, maxLen) && Greedy(lines, curr, maxLen)
      invariant Unwords(lines + Opt(curr)) == Unwords(NonEmptyWords(words[..i]))
    {
      TextStep(lines, curr, words, i);
      lines, curr := PlaceWord(lines, curr, words[i], maxLen);
    }
    CloseLast(lines, curr, words, maxLen);
    if curr != "" {
      lines := lines + [curr];
    }
  }

  /** The `forEach` callback for one piece: the piece joins the current line
      when the trimmed join fits in `maxLen`; otherwise the current line, if
      not empty, is closed and the piece starts the next one. */
  method PlaceWord(lines: seq<string>, curr: string, word: string, maxLen: int)
    returns (lines': seq<string>, curr': string)
    requires WellFormed(lines, curr, maxLen) && Greedy(lines, curr, maxLen) && ' ' !in word
    ensures WellFormed(lines', curr', maxLen) && Greedy(lines', curr', maxLen)
    ensures Unwords(lines' + Opt(curr')) == Unwords(lines + Opt(curr) + Opt(word))
    ensures |Joined(curr, word)| > maxLen ==> lines' == lines + Opt(curr) && curr' == word
    ensures |Joined(curr, word)| <= maxLen ==> lines' == lines && curr' == Joined(curr, word)
  {
    lines', curr' := lines, curr;
    var joined := TrimSpaces(curr + " " + word);
    JoinTrimmed(curr, word);
    if |joined| > maxLen {
      CloseLineStep(lines, curr, word, joined, maxLen);
      if curr != "" {
        lines' := lines + [curr];
      }
      curr' := word;
    } else {
      ExtendLineStep(lines, curr, word, joined, maxLen);
      JoinedKeepsText(lines, curr, word);
      curr' := joined;
    }
  }

  /** Taking the next piece adds it to the text on both sides. */
  lemma TextStep(lines: seq<string>, curr: string, words: seq<string>, i: nat)
    requires i < |words|
    requires forall k :: 0 <= k < |lines| ==> lines[k] != ""
    requires Unwords(lines + Opt(curr)) == Unwords(NonEmptyWords(words[..i]))
    ensures Unwords(lines + Opt(curr) + Opt(words[i])) == Unwords(NonEmptyWords(words[..i + 1]))
  {
    NonEmptyEntries(lines, curr);
    SameTextSnoc(lines + Opt(curr), words, i);
  }

  /** Entries with the text of the first `i` pieces keep it when piece `i`
      is taken on both sides. */
  lemma SameTextSnoc(xs: seq<string>, words: seq<string>, i: nat)
    requires i < |words|
    requires forall k :: 0 <= k < |xs| ==> xs[k] != ""
    requires Unwords(xs) == Unwords(NonEmptyWords(words[..i]))
    ensures Unwords(xs + Opt(words[i])) == Unwords(NonEmptyWords(words[..i + 1]))
  {
    NonEmptyWordsPrefix(words, i);
    UnwordsSnocOpt(xs, NonEmptyWords(words[..i]), words[i]);
  }

  /** The words of the first `i + 1` pieces: those of the first `i`, then
      piece `i` when it is not empty. */
  lemma NonEmptyWordsPrefix(words: seq<string>, i: nat)
    requires i < |words|
    ensures NonEmptyWords(words[..i + 1]) == NonEmptyWords(words[..i]) + Opt(words[i])
  {
    assert words[..i + 1] == words[..i] + [words[i]];
    NonEmptyWordsSnoc(words[..i], words[i]);
  }

  /** Non-empty lines followed by the current line, if any, are non-empty. */
  lemma NonEmptyEntries(lines: seq<string>, curr: string)
    requires forall k :: 0 <= k < |lines| ==> lines[k] != ""
    ensures forall k :: 0 <= k < |lines + Opt(curr)| ==> (lines + Opt(curr))[k] != ""
  {
    var xs := lines + Opt(curr);
    forall k | 0 <= k < |xs|
      ensures xs[k] != ""
    {
      if k < |lines| {
        assert xs[k] == lines[k];
      }
    }
  }

  /** The piece does not fit: the current line is closed and the piece starts
      the next one. */
  lemma CloseLineStep(lines: seq<string>, curr: string, word: string, joined: string, maxLen: int)
    requires WellFormed(lines, curr, maxLen) && Greedy(lines, curr, maxLen) && ' ' !in word
    requires joined == Joined(curr, word) && |joined| > maxLen
    ensures var closed := if curr != "" then lines + [curr] else lines;
      && WellFormed(closed, word, maxLen) && Greedy(closed, word, maxLen)
      && closed + Opt(word) == lines + Opt(curr) + Opt(word)
  {
    if word != "" {
      NoSpaceFirstWord(word);
      assert word[0] != ' ' && word[|word| - 1] != ' ';
    }
    if curr != "" {
      CloseCurrent(lines, curr, maxLen);
    }
  }

  /** Closing a non-empty current line keeps the lines well-formed and each
      one overflowing into the next. */
  lemma CloseCurrent(lines: seq<string>, curr: string, maxLen: int)
    requires WellFormed(lines, curr, maxLen) && Greedy(lines, curr, maxLen) && curr != ""
    ensures WellFormed(lines + [curr], "", maxLen)
    ensures forall k :: 1 <= k < |lines + [curr]| ==> Overflows((lines + [curr])[k - 1], (lines + [curr])[k], maxLen)
  {
    var closed := lines + [curr];
    forall k | 0 <= k < |closed|
      ensures closed[k] != "" && Trimmed(closed[k]) && (|closed[k]| > maxLen ==> ' ' !in closed[k])
    {
      if k < |lines| {
        assert closed[k] == lines[k];
      }
    }
    forall k | 1 <= k < |closed|
      ensures Overflows(closed[k - 1], closed[k], maxLen)
    {
      if k < |lines| {
        assert closed[k - 1] == lines[k - 1] && closed[k] == lines[k];
      }
    }
  }

  /** The piece fits: it joins the current line. */
  lemma ExtendLineStep(lines: seq<string>, curr: string, word: string, joined: string, maxLen: int)
    requires WellFormed(lines, curr, maxLen) && Greedy(lines, curr, maxLen) && ' ' !in word
    requires joined == Joined(curr, word) && |joined| <= maxLen
    ensures WellFormed(lines, joined, maxLen) && Greedy(lines, joined, maxLen)
  {
    JoinedShape(curr, word);
    assert lines != [] && joined != "" ==> Overflows(lines[|lines| - 1], joined, maxLen);
    NewCurrentLine(lines, curr, joined, maxLen);
  }

  /** Joining a piece to a trimmed line gives a trimmed line that starts with
      the same word. */
  lemma JoinedShape(curr: string, word: string)
    requires Trimmed(curr) && ' ' !in word
    ensures Trimmed(Joined(curr, word))
    ensures curr != "" ==> FirstWord(Joined(curr, word)) == FirstWord(curr)
  {
    if curr == "" {
      if word != "" {
        assert word[0] in word && word[|word| - 1] in word;
      }
    } else if word != "" {
      var rest := " " + word;
      var joined := curr + rest;
      assert Joined(curr, word) == joined;
      FirstWordAppend(curr, rest);
      assert word[|word| - 1] in word;
      assert joined[0] == curr[0] && joined[|joined| - 1] == word[|word| - 1];
    }
  }

  /** The closed lines stay well-formed and greedy under a new current line
      that is trimmed and fits after the last closed line. */
  lemma NewCurrentLine(lines: seq<string>, curr: string, c: string, maxLen: int)
    requires WellFormed(lines, curr, maxLen) && Greedy(lines, curr, maxLen)
    requires Trimmed(c) && |c| <= maxLen
    requires lines != [] && c != "" ==> Overflows(lines[|lines| - 1], c, maxLen)
    requires c == "" ==> curr == ""
    ensures WellFormed(lines, c, maxLen) && Greedy(lines, c, maxLen)
  {
  }

  /** Joining keeps the text of the lines and the pieces. */
  lemma JoinedKeepsText(lines: seq<string>, curr: string, word: string)
    ensures Unwords(lines + Opt(Joined(curr, word))) == Unwords(lines + Opt(curr) + Opt(word))
  {
    if curr != "" && word != "" {
      UnwordsMergeLast(lines, curr, word);
      assert lines + [curr, word] == lines + Opt(curr) + Opt(word);
    } else if curr == "" {
      assert lines + Opt(curr) + Opt(word) == lines + Opt(word);
    } else {
      assert lines + Opt(curr) + Opt(word) == lines + Opt(curr);
    }
  }

  /** Closing the last line after every piece gives well-formed, greedy lines
      with the text of all the words. */
  lemma CloseLast(lines: seq<string>, curr: string, words: seq<string>, maxLen: int)
    requires WellFormed(lines, curr, maxLen) && Greedy(lines, curr, maxLen)
    requires Unwords(lines + Opt(curr)) == Unwords(NonEmptyWords(words[..|words|]))
    ensures var closed := if curr != "" then lines + [curr] else lines;
      && WellFormed(closed, "", maxLen)
      && (forall k :: 1 <= k < |closed| ==> Overflows(closed[k - 1], closed[k], maxLen))
      && Unwords(closed) == Unwords(NonEmptyWords(words))
      && (closed == [] <==> NonEmptyWords(words) == [])
  {
    if curr != "" {
      CloseCurrent(lines, curr, maxLen);
    }
    var closed := if curr != "" then lines + [curr] else lines;
    assert closed == lines + Opt(curr);
    AllWordsText(closed, words);
  }

  /** Non-empty entries with the text of all the pieces: they are the words'
      text, and there are none exactly when there are no words. */
  lemma AllWordsText(xs: seq<string>, words: seq<string>)
    requires forall k :: 0 <= k < |xs| ==> xs[k] != ""
    requires Unwords(xs) == Unwords(NonEmptyWords(words[..|words|]))
    ensures Unwords(xs) == Unwords(NonEmptyWords(words))
    ensures xs == [] <==> NonEmptyWords(words) == []
  {
    assert words[..|words|] == words;
    UnwordsEmpty(xs);
    UnwordsEmpty(NonEmptyWords(words));
  }

  /** The current line and the next piece joined: the piece alone, the line
      alone, or both with one space between. */
  function Joined(curr: string, word: string): string {
    if curr == "" then word else if word == "" then curr else curr + " " + word
  }

  /** `(curr + " " + word).trim()` is the two joined. */
  lemma JoinTrimmed(curr: string, word: string)
    requires Trimmed(curr) && ' ' !in word
    ensures TrimSpaces(curr + " " + word) == Joined(curr, word)
  {
    var s := curr + " " + word;
    if curr == "" {
      assert s[1..] == word;
      assert TrimStart(s) == TrimStart(word);
      if word != "" {
        assert word[0] != ' ' && word[|word| - 1] != ' ';
      }
    } else {
      assert TrimStart(s) == s;
      if word == "" {
        assert s[..|s| - 1] == curr;
        assert TrimEnd(s) == TrimEnd(curr);
        assert curr[|curr| - 1] != ' ';
      } else {
        assert s[|s| - 1] == word[|word| - 1];
      }
    }
  }

  lemma {:induction false} NoSpaceFirstWord(w: string)
    requires ' ' !in w
    ensures FirstWord(w) == w
  {
    if w != [] {
      assert ' ' !in w[1..];
      NoSpaceFirstWord(w[1..]);
      assert w == [w[0]] + w[1..];
    }
  }

  /** What follows a space does not change the first word. */
  lemma {:induction false} FirstWordAppend(c: string, rest: string)
    requires rest != [] && rest[0] == ' '
    ensures FirstWord(c + rest) == FirstWord(c)
  {
    if c != [] && c[0] != ' ' {
      assert (c + rest)[1..] == c[1..] + rest;
      FirstWordAppend(c[1..], rest);
    }
  }

  lemma {:induction false} NonEmptyWordsSnoc(ws: seq<string>, w: string)
    ensures NonEmptyWords(ws + [w]) == NonEmptyWords(ws) + Opt(w)
  {
    if ws != [] {
      assert (ws + [w])[1..] == ws[1..] + [w];
      NonEmptyWordsSnoc(ws[1..], w);
    }
  }

  /** Appending one entry to a joined list. */
  lemma {:induction false} UnwordsSnoc(xs: seq<string>, y: string)
    ensures Unwords(xs + [y]) == if xs == [] then y else Unwords(xs) + " " + y
  {
    if |xs| > 1 {
      assert (xs + [y])[1..] == xs[1..] + [y];
      UnwordsSnoc(xs[1..], y);
    }
  }

  /** Joined entries that are all non-empty give the empty text only when
      there are none. */
  lemma UnwordsEmpty(xs: seq<string>)
    requires forall k :: 0 <= k < |xs| ==> xs[k] != ""
    ensures Unwords(xs) == "" <==> xs == []
  {
    if xs != [] {
      assert |Unwords(xs)| >= |xs[0]|;
    }
  }

  /** Two lists of non-empty entries that join to the same text still do after
      the same piece is added to both. */
  lemma UnwordsSnocOpt(xs: seq<string>, ys: seq<string>, w: string)
    requires forall k :: 0 <= k < |xs| ==> xs[k] != ""
    requires forall k :: 0 <= k < |ys| ==> ys[k] != ""
    requires Unwords(xs) == Unwords(ys)
    ensures Unwords(xs + Opt(w)) == Unwords(ys + Opt(w))
  {
    if w != "" {
      UnwordsEmpty(xs);
      UnwordsEmpty(ys);
      UnwordsSnoc(xs, w);
      UnwordsSnoc(ys, w);
    } else {
      assert xs + Opt(w) == xs && ys + Opt(w) == ys;
    }
  }

  /** Merging the last two entries with a space does not change the text. */
  lemma UnwordsMergeLast(xs: seq<string>, c: string, w: string)
    ensures Unwords(xs + [c + " " + w]) == Unwords(xs + [c, w])
  {
    assert xs + [c, w] == (xs + [c]) + [w];
    UnwordsSnoc(xs + [c], w);
    UnwordsSnoc(xs, c);
    UnwordsSnoc(xs, c + " " + w);
  }

  /** Splitting on spaces and joining with spaces gives the text back. */
  lemma {:induction false} SplitRoundTrip(s: string)
    ensures Unwords(Split(s)) == s
    decreases |s|
  {
    if s != [] {
      SplitRoundTrip(s[1..]);
      var rest := Split(s[1..]);
      if s[0] == ' ' {
        assert s == [' '] + s[1..];
      } else {
        var ws := [[s[0]] + rest[0]] + rest[1..];
        if |rest| == 1 {
          assert s == [s[0]] + rest[0];
        } else {
          assert ws[1..] == rest[1..];
          assert Unwords(rest) == rest[0] + " " + Unwords(rest[1..]);
          assert s == [s[0]] + s[1..];
        }
      }
    }
  }

  /** The line length `wrapText` uses when no other is given. */
  const DEFAULT_MAX_LEN := 10

  /** The tick renderer wraps its label with `wrapText(text, 10)`. */
  method TickLines(text: string) returns (lines: seq<string>)
    ensures forall k :: 0 <= k < |lines| ==> lines[k] != "" && Trimmed(lines[k])
    ensures forall k :: 0 <= k < |lines| && |lines[k]| > DEFAULT_MAX_LEN ==> ' ' !in lines[k]
    ensures Unwords(lines) == Unwords(NonEmptyWords(Split(text)))
    ensures lines == [] <==> NonEmptyWords(Split(text)) == []
    ensures forall k :: 1 <= k < |lines| ==> Overflows(lines[k - 1], lines[k], DEFAULT_MAX_LEN)
  {
    lines := WrapText(text, DEFAULT_MAX_LEN);
  }
}
