/** The height estimate of the deck's visual check (deck/qa_visual.py): a greedy line wrapper.
    `width` stands for the font's getlength; heights are exact reals. */
module LineWrap {
  import opened Options

  const LINE_FACTOR: real := 1.30

  // ---------- splitting ----------

  /** Python's text.split(sep) for a one-character separator. */
  function Split(text: string, sep: char): (parts: seq<string>)
    ensures |parts| >= 1
  {
    if text == "" then [""]
    else
      var rest := Split(text[1..], sep);
      if text[0] == sep then [""] + rest else [[text[0]] + rest[0]] + rest[1..]
  }

  function Join(parts: seq<string>, sep: char): string
    requires |parts| >= 1
  {
    if |parts| == 1 then parts[0] else parts[0] + [sep] + Join(parts[1..], sep)
  }

  function Count(text: string, c: char): nat {
    if text == "" then 0 else (if text[0] == c then 1 else 0) + Count(text[1..], c)
  }

  lemma JoinPrepends(c: char, rest: seq<string>, sep: char)
    requires |rest| >= 1
    ensures Join([[c] + rest[0]] + rest[1..], sep) == [c] + Join(rest, sep)
    ensures Join([""] + rest, sep) == [sep] + Join(rest, sep)
  {
    assert ([[c] + rest[0]] + rest[1..])[1..] == rest[1..] && ([""] + rest)[1..] == rest;
    if |rest| > 1 {
      assert [c] + rest[0] + [sep] + Join(rest[1..], sep) == [c] + (rest[0] + [sep] + Join(rest[1..], sep));
    }
  }

  lemma {:induction false} JoinOfSplit(text: string, sep: char)
    ensures Join(Split(text, sep), sep) == text
  {
    if text != "" {
      JoinOfSplit(text[1..], sep);
      JoinPrepends(text[0], Split(text[1..], sep), sep);
      assert [text[0]] + text[1..] == text;
    }
  }

  lemma {:induction false} PartsOfSplit(text: string, sep: char)
    ensures forall part <- Split(text, sep) :: sep !in part
    ensures |Split(text, sep)| == Count(text, sep) + 1
  {
    if text != "" { PartsOfSplit(text[1..], sep); }
  }

  /** Splitting undoes joining: the parts hold no separator and joined they give the text back, and
      there is one part more than there are separators. */
  lemma SplitIsInverseOfJoin(text: string, sep: char)
    ensures Join(Split(text, sep), sep) == text
    ensures forall part <- Split(text, sep) :: sep !in part
    ensures |Split(text, sep)| == Count(text, sep) + 1
  {
    JoinOfSplit(text, sep);
    PartsOfSplit(text, sep);
  }

  lemma {:induction false} SplitOfJoined(a: string, b: string, sep: char)
    ensures Split(a + [sep] + b, sep) == Split(a, sep) + Split(b, sep)
  {
    if a == "" {
      assert a + [sep] + b == [sep] + b && ([sep] + b)[1..] == b;
    } else {
      assert (a + [sep] + b)[1..] == a[1..] + [sep] + b;
      SplitOfJoined(a[1..], b, sep);
    }
  }

  // ---------- the wrapper ----------

  /** A word is put at the end of a line; a line that is still empty is replaced by it. */
  function Extended(line: string, word: string): string {
    if line == "" then word else line + " " + word
  }

  /** The inner loop: the line being filled and the number of lines, after the given words. */
  function Wrap(words: seq<string>, width: string -> real, limit: real): (string, nat) {
    if words == [] then ("", 1)
    else
      var (line, lines) := Wrap(words[..|words| - 1], width, limit);
      var word := words[|words| - 1];
      if width(Extended(line, word)) <= limit || line == "" then (Extended(line, word), lines) else (word, lines + 1)
  }

  function Lines(para: string, width: string -> real, limit: real): nat {
    Wrap(Split(para, ' '), width, limit).1
  }

  function TotalLines(paras: seq<string>, width: string -> real, limit: real): nat {
    if paras == [] then 0
    else TotalLines(paras[..|paras| - 1], width, limit) + Lines(paras[|paras| - 1], width, limit)
  }

  /** `value or default` of the source: zero counts as missing. */
  function OrDefault(value: Option<real>, default: real): real {
    if value.Some? && value.value != 0.0 then value.value else default
  }

  function LineHeight(size: real, lineSpacing: Option<real>): real {
    size * LINE_FACTOR * OrDefault(lineSpacing, 1.0)
  }

  function Stacked(lines: nat, lineHeight: real, paras: nat, space: real): real {
    lines as real * lineHeight + paras as real * space
  }

  function Height(text: string, width: string -> real, limit: real, lineHeight: real, space: real): real {
    Stacked(TotalLines(Split(text, '\n'), width, limit), lineHeight, Count(text, '\n') + 1, space)
  }

  method WrapHeightPt(text: string, width: string -> real, limit: real, size: real,
                      lineSpacing: Option<real>, spaceAfter: Option<real>) returns (height: real)
    ensures height == Height(text, width, limit, LineHeight(size, lineSpacing), OrDefault(spaceAfter, 0.0))
  {
    var totalLines := 0;
    var parts := Split(text, '\n');
    for p := 0 to |parts|
      invariant totalLines == TotalLines(parts[..p], width, limit)
    {
      var lines := CountLines(Split(parts[p], ' '), width, limit);
      assert parts[..p + 1][..p] == parts[..p];
      totalLines := totalLines + lines;
    }
    assert parts[..|parts|] == parts;
    var paras := Count(text, '\n') + 1;
    height := Stacked(totalLines, LineHeight(size, lineSpacing), paras, OrDefault(spaceAfter, 0.0));
  }

  /** The loop over the words of one paragraph. */
  method CountLines(words: seq<string>, width: string -> real, limit: real) returns (lines: nat)
    ensures lines == Wrap(words, width, limit).1
  {
    var line := "";
    lines := 1;
    for k := 0 to |words|
      invariant (line, lines) == Wrap(words[..k], width, limit)
    {
      assert words[..k + 1][..k] == words[..k];
      var candidate := if line == "" then words[k] else line + " " + words[k];
      if width(candidate) <= limit || line == "" {
        line := candidate;
      } else {
        lines := lines + 1;
        line := words[k];
      }
    }
    assert words[..|words|] == words;
  }

  // ---------- what a line is ----------

  /** The text of a line that holds the given words. */
  function LineOf(words: seq<string>): string {
    if words == [] then "" else Extended(LineOf(words[..|words| - 1]), words[|words| - 1])
  }

  /** A line is acceptable if it fits, or if no word of it could have been left out to make it fit. */
  predicate Fits(group: seq<string>, width: string -> real, limit: real)
    requires group != []
  {
    width(LineOf(group)) <= limit || LineOf(group[..|group| - 1]) == ""
  }

  /** The words are cut into consecutive groups, each of which is acceptable as a line. */
  ghost predicate Layout(groups: seq<seq<string>>, words: seq<string>, width: string -> real, limit: real) {
    && Flatten(groups) == words
    && forall k :: 0 <= k < |groups| ==> groups[k] != [] && Fits(groups[k], width, limit)
  }

  function Flatten(groups: seq<seq<string>>): seq<string> {
    if groups == [] then [] else Flatten(groups[..|groups| - 1]) + groups[|groups| - 1]
  }

  /** No run of words is narrower than a run inside it. */
  ghost predicate Monotone(width: string -> real) {
    forall words: seq<string>, i, j {:trigger LineOf(words[i..j])} ::
      0 <= i <= j <= |words| ==> width(LineOf(words[i..j])) <= width(LineOf(words))
  }

  lemma {:induction false} LineOfSuffix(words: seq<string>, i: nat) returns (before: string)
    requires i <= |words|
    ensures LineOf(words) == before + LineOf(words[i..])
    decreases |words|
  {
    if i == |words| {
      before := LineOf(words);
    } else {
      var n := |words| - 1;
      var init := LineOfSuffix(words[..n], i);
      assert words[i..][..n - i] == words[..n][i..];
      if LineOf(words[..n][i..]) != "" {
        before := init;
      } else {
        before := if LineOf(words[..n]) == "" then "" else LineOf(words[..n]) + " ";
      }
    }
  }

  /** A width that does not shrink when characters are added around a text is monotone. */
  lemma SubstringMonotoneSuffices(width: string -> real)
    requires forall a, m, b :: width(m) <= width(a + m + b)
    ensures Monotone(width)
  {
    forall words: seq<string>, i, j | 0 <= i <= j <= |words|
      ensures width(LineOf(words[i..j])) <= width(LineOf(words))
    {
      var a := LineOfSuffix(words[..j], i);
      var b := LineOfPrefix(words, j);
      assert words[..j][i..] == words[i..j];
      assert LineOf(words) == a + LineOf(words[i..j]) + b;
    }
  }

  lemma {:induction false} LineOfPrefix(words: seq<string>, j: nat) returns (after: string)
    requires j <= |words|
    ensures LineOf(words) == LineOf(words[..j]) + after
    decreases |words|
  {
    if j == |words| {
      assert words[..j] == words;
      after := "";
    } else {
      var n := |words| - 1;
      var more := LineOfPrefix(words[..n], j);
      assert words[..n][..j] == words[..j];
      after := if LineOf(words[..n]) == "" then words[n] else more + " " + words[n];
    }
  }

  lemma FitsSuffix(group: seq<string>, i: nat, width: string -> real, limit: real)
    requires Monotone(width) && i < |group| && Fits(group, width, limit)
    ensures Fits(group[i..], width, limit)
  {
    var n := |group| - 1;
    assert group[i..|group|] == group[i..];
    var before := LineOfSuffix(group[..n], i);
    assert group[..n][i..] == group[i..][..n - i];
  }

  lemma FitsInit(group: seq<string>, width: string -> real, limit: real)
    requires Monotone(width) && |group| > 1 && Fits(group, width, limit)
    ensures Fits(group[..|group| - 1], width, limit)
  {
    var init := group[..|group| - 1];
    assert group[0..|group| - 1] == init;
    var after := LineOfPrefix(init, |init| - 1);
  }

  // ---------- the greedy layout ----------

  /** The layout that the loop builds. */
  function Greedy(words: seq<string>, width: string -> real, limit: real): (groups: seq<seq<string>>)
    ensures words != [] ==> groups != []
    ensures forall k :: 0 <= k < |groups| ==> groups[k] != []
  {
    if words == [] then []
    else
      var groups := Greedy(words[..|words| - 1], width, limit);
      if groups == [] then [words] else Placed(groups, words[|words| - 1], width, limit)
  }

  lemma FlattenAppend(groups: seq<seq<string>>, group: seq<string>)
    ensures Flatten(groups + [group]) == Flatten(groups) + group
  {
    assert (groups + [group])[..|groups|] == groups;
  }

  /** How one more word changes a greedy layout. */
  function Placed(groups: seq<seq<string>>, word: string, width: string -> real, limit: real): seq<seq<string>>
    requires groups != []
  {
    var last := groups[|groups| - 1];
    if Fits(last + [word], width, limit) then groups[..|groups| - 1] + [last + [word]] else groups + [[word]]
  }

  lemma PlacedLayout(groups: seq<seq<string>>, words: seq<string>, word: string, width: string -> real, limit: real)
    requires groups != [] && Layout(groups, words, width, limit)
    ensures Layout(Placed(groups, word, width, limit), words + [word], width, limit)
  {
    var n := |groups| - 1;
    var last := groups[n];
    assert groups == groups[..n] + [last] && [word][..0] == [];
    FlattenAppend(groups[..n], last);
    FlattenAppend(groups[..n], last + [word]);
    FlattenAppend(groups, [word]);
  }

  lemma {:induction false} GreedyIsLayout(words: seq<string>, width: string -> real, limit: real)
    requires words != []
    ensures Layout(Greedy(words, width, limit), words, width, limit)
    decreases |words|
  {
    var init, word := words[..|words| - 1], words[|words| - 1];
    assert words == init + [word];
    if init == [] {
      assert words == [word] && [word][..0] == [] && Greedy(words, width, limit) == [] + [[word]];
      FlattenAppend([], [word]);
    } else {
      GreedyIsLayout(init, width, limit);
      PlacedLayout(Greedy(init, width, limit), init, word, width, limit);
    }
  }

  /** The loop's line is the last line of the greedy layout, and its counter the number of lines. */
  lemma {:induction false} WrapIsGreedy(words: seq<string>, width: string -> real, limit: real)
    requires words != []
    ensures var groups := Greedy(words, width, limit);
            Wrap(words, width, limit) == (LineOf(groups[|groups| - 1]), |groups|)
    decreases |words|
  {
    var init, word := words[..|words| - 1], words[|words| - 1];
    assert [word][..0] == [];
    if init == [] {
      assert Wrap(init, width, limit) == ("", 1);
    } else {
      WrapIsGreedy(init, width, limit);
      var before := Greedy(init, width, limit);
      var last := before[|before| - 1];
      assert (last + [word])[..|last|] == last;
      assert LineOf(last + [word]) == Extended(LineOf(last), word);
    }
  }

  /** The greedy layout stays ahead of every other one: it has fewer lines, or as many and no more
      words on the last one. */
  ghost predicate Ahead(groups: seq<seq<string>>, other: seq<seq<string>>) {
    groups != [] && other != []
    && (|groups| < |other| || (|groups| == |other| && |groups[|groups| - 1]| <= |other[|other| - 1]|))
  }

  /** A layout without its last word. */
  function Shortened(groups: seq<seq<string>>): seq<seq<string>>
    requires groups != [] && groups[|groups| - 1] != []
  {
    var n := |groups| - 1;
    var last := groups[n];
    if |last| == 1 then groups[..n] else groups[..n] + [last[..|last| - 1]]
  }

  lemma ShortenedLayout(groups: seq<seq<string>>, words: seq<string>, width: string -> real, limit: real)
    requires Monotone(width) && words != [] && Layout(groups, words, width, limit)
    ensures groups != [] && Layout(Shortened(groups), words[..|words| - 1], width, limit)
  {
    var n := |groups| - 1;
    var last := groups[n];
    assert words == Flatten(groups[..n]) + last;
    if |last| > 1 {
      FitsInit(last, width, limit);
      FlattenAppend(groups[..n], last[..|last| - 1]);
    }
  }

  /** The last line of a layout holds the last words. */
  lemma LastLine(groups: seq<seq<string>>, words: seq<string>, width: string -> real, limit: real)
    requires groups != [] && Layout(groups, words, width, limit)
    ensures var last := groups[|groups| - 1]; |last| <= |words| && words[|words| - |last|..] == last
  {
  }

  lemma SuffixesAgree(words: seq<string>, last: seq<string>, mine: seq<string>)
    requires |mine| < |last| <= |words| && words[|words| - |last|..] == last
    requires words[|words| - 1 - |mine|..|words| - 1] == mine
    ensures last[|last| - 1 - |mine|..] == mine + [words[|words| - 1]]
  {
  }

  lemma AheadStep(groups: seq<seq<string>>, other: seq<seq<string>>, words: seq<string>, width: string -> real,
                  limit: real)
    requires Monotone(width) && |words| > 1 && Layout(other, words, width, limit) && other != []
    requires Layout(groups, words[..|words| - 1], width, limit) && Ahead(groups, Shortened(other))
    ensures Ahead(Placed(groups, words[|words| - 1], width, limit), other)
  {
    var last, mine := other[|other| - 1], groups[|groups| - 1];
    LastLine(other, words, width, limit);
    LastLine(groups, words[..|words| - 1], width, limit);
    if |last| > 1 && |groups| == |other| {
      var i := |last| - 1 - |mine|;
      SuffixesAgree(words, last, mine);
      FitsSuffix(last, i, width, limit);
    }
  }

  lemma {:induction false} GreedyStaysAhead(words: seq<string>, other: seq<seq<string>>, width: string -> real,
                                            limit: real)
    requires Monotone(width) && words != [] && Layout(other, words, width, limit)
    ensures Ahead(Greedy(words, width, limit), other)
    decreases |words|
  {
    ShortenedLayout(other, words, width, limit);
    if |words| > 1 {
      var init := words[..|words| - 1];
      GreedyStaysAhead(init, Shortened(other), width, limit);
      GreedyIsLayout(init, width, limit);
      AheadStep(Greedy(init, width, limit), other, words, width, limit);
    }
  }

  /** Greedy wrapping is optimal: no acceptable layout of the words has fewer lines than the loop
      counts, and one has exactly as many. */
  lemma WrapIsOptimal(words: seq<string>, other: seq<seq<string>>, width: string -> real, limit: real)
    requires Monotone(width) && words != []
    ensures Layout(other, words, width, limit) ==> Wrap(words, width, limit).1 <= |other|
    ensures exists groups :: Layout(groups, words, width, limit) && |groups| == Wrap(words, width, limit).1
  {
    WrapIsGreedy(words, width, limit);
    GreedyIsLayout(words, width, limit);
    if Layout(other, words, width, limit) { GreedyStaysAhead(words, other, width, limit); }
  }

  /** A wider box never needs more lines. */
  lemma WiderNeedsNoMoreLines(words: seq<string>, width: string -> real, narrow: real, wide: real)
    requires Monotone(width) && words != [] && narrow <= wide
    ensures Wrap(words, width, wide).1 <= Wrap(words, width, narrow).1
  {
    WrapIsGreedy(words, width, narrow);
    GreedyIsLayout(words, width, narrow);
    WrapIsOptimal(words, Greedy(words, width, narrow), width, wide);
  }

  lemma {:induction false} WiderTotal(paras: seq<string>, width: string -> real, narrow: real, wide: real)
    requires Monotone(width) && narrow <= wide
    ensures TotalLines(paras, width, wide) <= TotalLines(paras, width, narrow)
    decreases |paras|
  {
    if paras != [] {
      WiderTotal(paras[..|paras| - 1], width, narrow, wide);
      WiderNeedsNoMoreLines(Split(paras[|paras| - 1], ' '), width, narrow, wide);
    }
  }

  /** The needed height never rises when the box gets wider. */
  lemma WiderIsNoTaller(text: string, width: string -> real, narrow: real, wide: real, lineHeight: real, space: real)
    requires Monotone(width) && narrow <= wide && lineHeight >= 0.0
    ensures Height(text, width, wide, lineHeight, space) <= Height(text, width, narrow, lineHeight, space)
  {
    var parts := Split(text, '\n');
    WiderTotal(parts, width, narrow, wide);
    StackedGrows(TotalLines(parts, width, wide), TotalLines(parts, width, narrow), lineHeight, Count(text, '\n') + 1,
                 space);
  }

  lemma StackedGrows(m: nat, n: nat, lineHeight: real, paras: nat, space: real)
    requires m <= n && lineHeight >= 0.0
    ensures Stacked(m, lineHeight, paras, space) <= Stacked(n, lineHeight, paras, space)
  {
    assert n as real * lineHeight == m as real * lineHeight + (n - m) as real * lineHeight;
  }

  lemma {:induction false} TotalLinesAppend(a: seq<string>, b: seq<string>, width: string -> real, limit: real)
    ensures TotalLines(a + b, width, limit) == TotalLines(a, width, limit) + TotalLines(b, width, limit)
    decreases |b|
  {
    if b == [] {
      assert a + b == a;
    } else {
      assert (a + b)[..|a + b| - 1] == a + b[..|b| - 1];
      TotalLinesAppend(a, b[..|b| - 1], width, limit);
    }
  }

  /** The height of two texts joined by a newline is the sum of their heights. */
  lemma HeightOfJoined(a: string, b: string, width: string -> real, limit: real, lineHeight: real, space: real)
    ensures Height(a + ['\n'] + b, width, limit, lineHeight, space)
            == Height(a, width, limit, lineHeight, space) + Height(b, width, limit, lineHeight, space)
  {
    SplitOfJoined(a, b, '\n');
    HeightByParts(a, width, limit, lineHeight, space);
    HeightByParts(b, width, limit, lineHeight, space);
    HeightByParts(a + ['\n'] + b, width, limit, lineHeight, space);
    PartsAdd(Split(a, '\n'), Split(b, '\n'), width, limit, lineHeight, space);
  }

  /** The height stacks the lines of all paragraphs, and a space for each. */
  lemma HeightByParts(text: string, width: string -> real, limit: real, lineHeight: real, space: real)
    ensures Height(text, width, limit, lineHeight, space)
            == Stacked(TotalLines(Split(text, '\n'), width, limit), lineHeight, |Split(text, '\n')|, space)
  {
    SplitIsInverseOfJoin(text, '\n');
  }

  lemma PartsAdd(a: seq<string>, b: seq<string>, width: string -> real, limit: real, lineHeight: real, space: real)
    ensures Stacked(TotalLines(a + b, width, limit), lineHeight, |a + b|, space)
            == Stacked(TotalLines(a, width, limit), lineHeight, |a|, space)
               + Stacked(TotalLines(b, width, limit), lineHeight, |b|, space)
  {
    TotalLinesAppend(a, b, width, limit);
    StackedJoin(TotalLines(a + b, width, limit), TotalLines(a, width, limit), TotalLines(b, width, limit), lineHeight,
                |a + b|, |a|, |b|, space);
  }

  lemma StackedJoin(lines: nat, m: nat, n: nat, lineHeight: real, paras: nat, p: nat, q: nat, space: real)
    requires lines == m + n && paras == p + q
    ensures Stacked(lines, lineHeight, paras, space)
            == Stacked(m, lineHeight, p, space) + Stacked(n, lineHeight, q, space)
  {
    StackedAdds(m, n, lineHeight, p, q, space);
  }

  lemma StackedAdds(m: nat, n: nat, lineHeight: real, p: nat, q: nat, space: real)
    ensures Stacked(m + n, lineHeight, p + q, space)
            == Stacked(m, lineHeight, p, space) + Stacked(n, lineHeight, q, space)
  {
  }

  // ---------- the height, without the loops ----------

  /** The least number of lines on which the words of a paragraph can be laid out. */
  ghost predicate LeastLines(para: string, lines: nat, width: string -> real, limit: real) {
    && (exists groups :: Layout(groups, Split(para, ' '), width, limit) && |groups| == lines)
    && (forall groups :: Layout(groups, Split(para, ' '), width, limit) ==> lines <= |groups|)
  }

  function Sum(counts: seq<nat>): nat {
    if counts == [] then 0 else Sum(counts[..|counts| - 1]) + counts[|counts| - 1]
  }

  lemma LinesAreLeast(para: string, lines: nat, width: string -> real, limit: real)
    requires Monotone(width) && LeastLines(para, lines, width, limit)
    ensures Lines(para, width, limit) == lines
  {
    var words := Split(para, ' ');
    var least :| Layout(least, words, width, limit) && |least| == lines;
    WrapIsOptimal(words, least, width, limit);
    var groups :| Layout(groups, words, width, limit) && |groups| == Wrap(words, width, limit).1;
  }

  /** Over all paragraphs together the loop counts the least number of lines for each. */
  lemma {:induction false} TotalIsLeast(paras: seq<string>, least: seq<nat>, width: string -> real, limit: real)
    requires Monotone(width) && |least| == |paras|
    requires forall k :: 0 <= k < |paras| ==> LeastLines(paras[k], least[k], width, limit)
    ensures TotalLines(paras, width, limit) == Sum(least)
    decreases |paras|
  {
    if paras != [] {
      var n := |paras| - 1;
      TotalIsLeast(paras[..n], least[..n], width, limit);
      LinesAreLeast(paras[n], least[n], width, limit);
    }
  }

  /** 1.3 times the font size and the line spacing; a missing one, or one of zero, counts as single. */
  predicate IsLineHeight(lineHeight: real, size: real, lineSpacing: Option<real>) {
    if lineSpacing == None || lineSpacing == Some(0.0) then lineHeight == size * 1.3
    else lineHeight == size * 1.3 * lineSpacing.value
  }

  /** The two numbers that the source takes from the shape, or else from its defaults. */
  lemma LineHeightIs(size: real, lineSpacing: Option<real>, spaceAfter: Option<real>)
    ensures IsLineHeight(LineHeight(size, lineSpacing), size, lineSpacing)
    ensures OrDefault(spaceAfter, 0.0) == if spaceAfter.Some? then spaceAfter.value else 0.0
  {
  }

  /** A stack grows by one line height with each line, and by one space with each paragraph. */
  lemma StackedByOne(lines: nat, lineHeight: real, paras: nat, space: real)
    ensures Stacked(0, lineHeight, 0, space) == 0.0
    ensures Stacked(lines + 1, lineHeight, paras, space) == Stacked(lines, lineHeight, paras, space) + lineHeight
    ensures Stacked(lines, lineHeight, paras + 1, space) == Stacked(lines, lineHeight, paras, space) + space
  {
    StackedAdds(lines, 1, lineHeight, paras, 0, space);
    StackedAdds(lines, 0, lineHeight, paras, 1, space);
  }

  /** A paragraph takes one line exactly if it is no wider than the box, or has no second word to move. */
  lemma OneLineIff(para: string, width: string -> real, limit: real)
    requires Monotone(width)
    ensures Lines(para, width, limit) == 1 <==> Fits(Split(para, ' '), width, limit)
  {
    var words := Split(para, ' ');
    var groups := Greedy(words, width, limit);
    WrapIsGreedy(words, width, limit);
    GreedyIsLayout(words, width, limit);
    if |groups| == 1 { FlattenOne(groups); }
    if Fits(words, width, limit) {
      FlattenOne([words]);
      GreedyStaysAhead(words, [words], width, limit);
    }
  }

  lemma FlattenOne(groups: seq<seq<string>>)
    requires |groups| == 1
    ensures Flatten(groups) == groups[0]
  {
    assert Flatten([]) == [];
    assert groups == [] + [groups[0]];
    FlattenAppend([], groups[0]);
  }
}
