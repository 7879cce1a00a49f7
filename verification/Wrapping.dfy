/** Word wrapping in the terminal report: the greedy loops of
    crates/report/src/table.rs and crates/report/src/correlation.rs, what they
    lay out, and why no other layout uses fewer lines. Both loops work on text
    that has been sanitized before. */
module Wrapping {
  import opened Ordering

  const WIDTH: nat := 78
  const DETAIL_INDENT: nat := 10
  const LABEL: nat := 10

  // ------------------------------------------------------------------ words

  /** Unicode `White_Space`. */
  predicate IsSpace(c: char)
  {
    var n := c as int;
    || 0x09 <= n <= 0x0D || n == 0x20 || n == 0x85 || n == 0xA0 || n == 0x1680
    || 0x2000 <= n <= 0x200A || n == 0x2028 || n == 0x2029 || n == 0x202F || n == 0x205F || n == 0x3000
  }

  predicate IsWord(w: string)
  {
    w != "" && forall c :: c in w ==> !IsSpace(c)
  }

  ghost predicate AllWords(ws: seq<string>)
  {
    forall w :: w in ws ==> IsWord(w)
  }

  /** Length of the word at the start of `s`. */
  function WordLength(s: string): (n: nat)
    ensures n <= |s|
    ensures s != "" && !IsSpace(s[0]) ==> n > 0
    ensures forall i :: 0 <= i < n ==> !IsSpace(s[i])
    ensures n < |s| ==> IsSpace(s[n])
  {
    if s == "" || IsSpace(s[0]) then 0 else 1 + WordLength(s[1..])
  }

  /** `split_whitespace`. */
  function Words(s: string): (ws: seq<string>)
    ensures AllWords(ws)
    decreases |s|
  {
    if s == "" then []
    else if IsSpace(s[0]) then Words(s[1..])
    else
      var n := WordLength(s);
      [s[..n]] + Words(s[n..])
  }

  function Joined(ws: seq<string>): (r: string)
  {
    if ws == [] then "" else if |ws| == 1 then ws[0] else ws[0] + " " + Joined(ws[1..])
  }

  function Spaces(n: nat): (r: string)
    ensures |r| == n && forall c :: c in r ==> c == ' '
  {
    seq(n, _ => ' ')
  }

  /** `trim_end`. */
  function TrimEnd(s: string): (r: string)
    ensures r <= s
    ensures r != "" ==> !IsSpace(r[|r| - 1])
  {
    if s != "" && IsSpace(s[|s| - 1]) then TrimEnd(s[..|s| - 1]) else s
  }

  lemma {:induction false} JoinedSnoc(ws: seq<string>, w: string)
    ensures ws != [] ==> Joined(ws + [w]) == Joined(ws) + " " + w
    ensures ws == [] ==> Joined(ws + [w]) == w
  {
    if |ws| == 1 {
      assert (ws + [w])[1..] == [w];
    } else if |ws| > 1 {
      assert (ws + [w])[1..] == ws[1..] + [w];
      JoinedSnoc(ws[1..], w);
      var tail := Joined(ws[1..]);
      assert ws[0] + " " + (tail + " " + w) == (ws[0] + " " + tail) + " " + w;
    }
  }

  lemma TailSlice(ws: seq<string>, i: nat, j: nat)
    requires 0 < i <= j <= |ws|
    ensures ws[1..][i - 1..j - 1] == ws[i..j]
  {
    var a, b := ws[1..][i - 1..j - 1], ws[i..j];
    assert |a| == |b|;
    forall k | 0 <= k < j - i ensures a[k] == b[k] {
      assert a[k] == ws[1..][i - 1 + k] == ws[i + k];
    }
  }

  /** Leaving out words at either end makes the line no longer. */
  lemma {:induction false} JoinedShorter(ws: seq<string>, i: nat, j: nat)
    requires i <= j <= |ws|
    ensures |Joined(ws[i..j])| <= |Joined(ws)|
    decreases |ws|
  {
    if j < |ws| {
      var init := ws[..|ws| - 1];
      JoinedSnoc(init, ws[|ws| - 1]);
      assert ws == init + [ws[|ws| - 1]];
      JoinedShorter(init, i, j);
      assert init[i..j] == ws[i..j];
    } else if i > 0 {
      JoinedShorter(ws[1..], i - 1, j - 1);
      TailSlice(ws, i, j);
    } else {
      assert ws[i..j] == ws;
    }
  }

  lemma {:induction false} WordThenRest(w: string, t: string)
    requires IsWord(w) && (t == "" || IsSpace(t[0]))
    ensures Words(w + t) == [w] + Words(t)
  {
    var s := w + t;
    assert s[0] == w[0] && w[0] in w;
    WordEnds(w, t);
    assert s[..|w|] == w && s[|w|..] == t;
  }

  lemma WordEnds(w: string, t: string)
    requires IsWord(w) && (t == "" || IsSpace(t[0]))
    ensures WordLength(w + t) == |w|
  {
    var s := w + t;
    var n := WordLength(s);
    assert forall i :: 0 <= i < |w| ==> s[i] == w[i] && w[i] in w;
    assert t != "" ==> s[|w|] == t[0];
    assert n < |s| ==> IsSpace(s[n]);
  }

  lemma {:induction false} WordsAfterSpaces(n: nat, t: string)
    ensures Words(Spaces(n) + t) == Words(t)
  {
    var s := Spaces(n) + t;
    if n == 0 {
      assert s == t;
    } else {
      assert s[0] == Spaces(n)[0] && Spaces(n)[0] in Spaces(n);
      assert s[1..] == Spaces(n - 1) + t;
      WordsAfterSpaces(n - 1, t);
    }
  }

  lemma {:induction false} WordsOfJoined(ws: seq<string>)
    requires AllWords(ws)
    ensures Words(Joined(ws)) == ws
  {
    if |ws| == 1 {
      WordThenRest(ws[0], "");
      assert ws[0] + "" == ws[0];
    } else if |ws| > 1 {
      WordsOfJoined(ws[1..]);
      var rest := " " + Joined(ws[1..]);
      assert Joined(ws) == ws[0] + rest;
      WordThenRest(ws[0], rest);
      assert rest[1..] == Joined(ws[1..]);
      assert ws == [ws[0]] + ws[1..];
    }
  }

  /** Reading an emitted line back gives its words. */
  lemma LineReadsBack(indent: nat, ws: seq<string>)
    requires AllWords(ws)
    ensures Words(Spaces(indent) + Joined(ws)) == ws
  {
    WordsAfterSpaces(indent, Joined(ws));
    WordsOfJoined(ws);
  }

  // ---------------------------------------------------------- greedy layout

  predicate Fits(prefix: nat, ws: seq<string>)
  {
    prefix + |Joined(ws)| <= WIDTH
  }

  /** How many words the line that already has `n` ends up with. */
  function Extend(ws: seq<string>, prefix: nat, n: nat): (r: nat)
    requires 1 <= n <= |ws|
    ensures n <= r <= |ws|
    decreases |ws| - n
  {
    if n < |ws| && Fits(prefix, ws[..n + 1]) then Extend(ws, prefix, n + 1) else n
  }

  /** The greedy layout: the first line starts after `first` columns, the others
      after `rest`. A word that does not fit still gets a line of its own. */
  function Greedy(ws: seq<string>, first: nat, rest: nat): (r: seq<seq<string>>)
    decreases |ws|
  {
    if ws == [] then []
    else
      var n := Extend(ws, first, 1);
      [ws[..n]] + Greedy(ws[n..], rest, rest)
  }

  function PrefixOf(k: nat, first: nat, rest: nat): (r: nat)
  {
    if k == 0 then first else rest
  }

  /** A layout of exactly these words in which every line fits or holds at most
      one word. */
  ghost predicate ValidLayout(layout: seq<seq<string>>, ws: seq<string>, first: nat, rest: nat)
  {
    && Flatten(layout) == ws
    && forall k :: 0 <= k < |layout| ==> |layout[k]| <= 1 || Fits(PrefixOf(k, first, rest), layout[k])
  }

  lemma {:induction false} ExtendFits(ws: seq<string>, prefix: nat, n: nat)
    requires 1 <= n <= |ws|
    requires n == 1 || Fits(prefix, ws[..n])
    ensures var r := Extend(ws, prefix, n); r == 1 || Fits(prefix, ws[..r])
    decreases |ws| - n
  {
    if n < |ws| && Fits(prefix, ws[..n + 1]) { ExtendFits(ws, prefix, n + 1); }
  }

  /** The greedy line takes every prefix of the words that fits. */
  lemma {:induction false} ExtendReaches(ws: seq<string>, prefix: nat, n: nat, m: nat)
    requires 1 <= n <= m <= |ws|
    requires m == n || Fits(prefix, ws[..m])
    ensures Extend(ws, prefix, n) >= m
    decreases m - n
  {
    if n < m {
      JoinedShorter(ws[..m], 0, n + 1);
      assert ws[..m][0..n + 1] == ws[..n + 1];
      ExtendReaches(ws, prefix, n + 1, m);
    }
  }

  /** The greedy layout keeps the word sequence, has no empty line, and every
      line fits or holds a single word. */
  lemma {:induction false} GreedyIsValid(ws: seq<string>, first: nat, rest: nat)
    ensures ValidLayout(Greedy(ws, first, rest), ws, first, rest)
    ensures forall line :: line in Greedy(ws, first, rest) ==> line != []
    decreases |ws|
  {
    if ws != [] {
      var n := Extend(ws, first, 1);
      var tail := Greedy(ws[n..], rest, rest);
      ExtendFits(ws, first, 1);
      GreedyIsValid(ws[n..], rest, rest);
      PutFirst(ws[..n], ws[n..], tail, first, rest);
      assert ws == ws[..n] + ws[n..];
    }
  }

  /** A line that fits before a layout that fits. */
  lemma PutFirst(line: seq<string>, after: seq<string>, tail: seq<seq<string>>, first: nat, rest: nat)
    requires ValidLayout(tail, after, rest, rest) && (|line| <= 1 || Fits(first, line))
    ensures ValidLayout([line] + tail, line + after, first, rest)
  {
    var layout := [line] + tail;
    FlattenCons(layout);
    assert layout[1..] == tail;
    forall k | 0 <= k < |layout|
      ensures |layout[k]| <= 1 || Fits(PrefixOf(k, first, rest), layout[k])
    {
      if k > 0 {
        assert layout[k] == tail[k - 1];
        assert PrefixOf(k - 1, rest, rest) == rest;
      }
    }
  }

  lemma NoLines(layout: seq<seq<string>>)
    ensures Flatten(layout) != [] ==> layout != []
  {
  }

  /** The first line of a layout, and the layout of what follows. */
  lemma FirstLine(ws: seq<string>, placed: nat, layout: seq<seq<string>>, first: nat, rest: nat)
    requires placed <= |ws| && layout != [] && ValidLayout(layout, ws[placed..], first, rest)
    ensures var reached := placed + |layout[0]|;
      && reached <= |ws| && layout[0] == ws[placed..reached] && (|layout[0]| <= 1 || Fits(first, layout[0]))
      && ValidLayout(layout[1..], ws[reached..], rest, rest)
  {
    var line, tail := layout[0], layout[1..];
    var here := ws[placed..];
    FlattenCons(layout);
    assert here == line + Flatten(tail) && here[|line|..] == Flatten(tail);
    assert here[..|line|] == line;
    forall k | 0 <= k < |tail| ensures |tail[k]| <= 1 || Fits(PrefixOf(k, rest, rest), tail[k]) {
      assert tail[k] == layout[k + 1];
      assert PrefixOf(k + 1, first, rest) == rest;
    }
    assert |layout[0]| <= 1 || Fits(PrefixOf(0, first, rest), layout[0]);
  }

  /** The first greedy line reaches at least as far as a line that started no
      later. */
  lemma FirstReaches(ws: seq<string>, placed: nat, ahead: nat, line: seq<string>, first: nat)
    requires placed <= ahead < |ws| && placed + |line| <= |ws| && line == ws[placed..placed + |line|]
    requires |line| <= 1 || Fits(first, line)
    ensures placed + |line| <= ahead + Extend(ws[ahead..], first, 1)
  {
    var here, reached := ws[ahead..], placed + |line|;
    if reached > ahead + 1 {
      JoinedShorter(line, ahead - placed, |line|);
      SameStretch(ws, placed, ahead, reached);
      assert line[ahead - placed..|line|] == line[ahead - placed..];
      assert Fits(first, here[..reached - ahead]);
      ExtendReaches(here, first, 1, reached - ahead);
    }
  }

  lemma SameStretch(ws: seq<string>, placed: nat, ahead: nat, reached: nat)
    requires placed <= ahead <= reached <= |ws|
    ensures ws[placed..reached][ahead - placed..] == ws[ahead..][..reached - ahead] == ws[ahead..reached]
  {
  }

  /** Greedy stays ahead: when another layout has placed no more words, it needs
      at least as many lines for the rest. */
  lemma {:induction false} StaysAhead(ws: seq<string>, placed: nat, ahead: nat,
                                      layout: seq<seq<string>>, first: nat, rest: nat)
    requires placed <= ahead <= |ws|
    requires ValidLayout(layout, ws[placed..], first, rest)
    ensures |Greedy(ws[ahead..], first, rest)| <= |layout|
    decreases |layout|
  {
    if ahead < |ws| {
      NoLines(layout);
      FirstLine(ws, placed, layout, first, rest);
      FirstReaches(ws, placed, ahead, layout[0], first);
      var n := Extend(ws[ahead..], first, 1);
      StaysAhead(ws, placed + |layout[0]|, ahead + n, layout[1..], rest, rest);
      assert ws[ahead..][n..] == ws[ahead + n..];
    }
  }

  /** No valid layout uses fewer lines than the greedy one. */
  lemma GreedyIsShortest(ws: seq<string>, first: nat, rest: nat, layout: seq<seq<string>>)
    requires ValidLayout(layout, ws, first, rest)
    ensures |Greedy(ws, first, rest)| <= |layout|
  {
    assert ws[0..] == ws;
    StaysAhead(ws, 0, 0, layout, first, rest);
  }

  // -------------------------------------------------------------- the loops

  /** What each line of a layout looks like on screen. */
  function Render(layout: seq<seq<string>>, first: string, rest: string): (r: seq<string>)
  {
    seq(|layout|, k requires 0 <= k < |layout| => (if k == 0 then first else rest) + Joined(layout[k]))
  }

  lemma RenderSnoc(layout: seq<seq<string>>, line: seq<string>, first: string, rest: string)
    ensures Render(layout + [line], first, rest)
         == Render(layout, first, rest) + [(if layout == [] then first else rest) + Joined(line)]
  {
  }

  /** The loop state after `i` words: `layout` is done and the current line holds
      the words from `start`. */
  ghost predicate Filling(ws: seq<string>, layout: seq<seq<string>>, start: nat, i: nat, first: nat, rest: nat)
    requires start <= i <= |ws|
  {
    var prefix := PrefixOf(|layout|, first, rest);
    && Greedy(ws, first, rest) == layout + Greedy(ws[start..], prefix, rest)
    && (start < i ==> Extend(ws[start..], prefix, 1) == Extend(ws[start..], prefix, i - start))
  }

  lemma BreakLine(ws: seq<string>, layout: seq<seq<string>>, start: nat, i: nat, first: nat, rest: nat)
    requires start < i <= |ws| && Filling(ws, layout, start, i, first, rest)
    requires i == |ws| || !Fits(PrefixOf(|layout|, first, rest), ws[start..i + 1])
    ensures Filling(ws, layout + [ws[start..i]], i, i, first, rest)
  {
    var here := ws[start..];
    assert i < |ws| ==> here[..i - start + 1] == ws[start..i + 1];
    assert here[..i - start] == ws[start..i] && here[i - start..] == ws[i..];
    var tail := Greedy(ws[i..], rest, rest);
    assert layout + ([ws[start..i]] + tail) == layout + [ws[start..i]] + tail;
  }

  lemma AddWord(ws: seq<string>, layout: seq<seq<string>>, start: nat, i: nat, first: nat, rest: nat)
    requires start <= i < |ws| && Filling(ws, layout, start, i, first, rest)
    requires start == i || Fits(PrefixOf(|layout|, first, rest), ws[start..i + 1])
    ensures Filling(ws, layout, start, i + 1, first, rest)
    ensures Joined(ws[start..i + 1]) == if start == i then ws[i] else Joined(ws[start..i]) + " " + ws[i]
  {
    assert ws[start..][..i - start + 1] == ws[start..i + 1] == ws[start..i] + [ws[i]];
    JoinedSnoc(ws[start..i], ws[i]);
  }

  lemma NonEmptyLine(ws: seq<string>)
    requires ws != [] && AllWords(ws)
    ensures Joined(ws) != ""
  {
    assert ws[0] in ws && IsWord(ws[0]);
  }

  /** A line that ends in a word has no trailing space to trim. */
  lemma NothingToTrim(prefix: string, line: seq<string>)
    requires line != [] && AllWords(line)
    ensures TrimEnd(prefix + Joined(line)) == prefix + Joined(line)
  {
    JoinedEnds(line);
    EndsLike(prefix, Joined(line));
  }

  lemma EndsLike(prefix: string, body: string)
    requires body != "" && !IsSpace(body[|body| - 1])
    ensures TrimEnd(prefix + body) == prefix + body
  {
    var s := prefix + body;
    assert s[|s| - 1] == body[|body| - 1];
  }

  lemma JoinedEnds(line: seq<string>)
    requires line != [] && AllWords(line)
    ensures Joined(line) != "" && !IsSpace(Joined(line)[|Joined(line)| - 1])
  {
    var init, last := line[..|line| - 1], line[|line| - 1];
    assert line == init + [last] && last in line;
    JoinedSnoc(init, last);
    var s := Joined(line);
    assert s[|s| - 1] == last[|last| - 1] && last[|last| - 1] in last;
  }

  lemma LineLength(ws: seq<string>, start: nat, i: nat)
    requires start <= i < |ws|
    ensures |Joined(ws[start..i + 1])| == (if start == i then 0 else |Joined(ws[start..i])| + 1) + |ws[i]|
  {
    assert ws[start..i + 1] == ws[start..i] + [ws[i]];
    JoinedSnoc(ws[start..i], ws[i]);
  }

  lemma Regroup(prefix: string, line: string, word: string)
    ensures prefix + line + " " + word == prefix + (line + " " + word)
  {
  }

  /** Writing out the current line of a layout, with or without trimming it. */
  lemma WriteLine(ws: seq<string>, layout: seq<seq<string>>, start: nat, i: nat, first: string, rest: string)
    requires AllWords(ws)
    requires start < i <= |ws| && Filling(ws, layout, start, i, |first|, |rest|)
    requires i == |ws| || !Fits(PrefixOf(|layout|, |first|, |rest|), ws[start..i + 1])
    ensures var line := (if layout == [] then first else rest) + Joined(ws[start..i]);
            TrimEnd(line) == line &&
            Render(layout + [ws[start..i]], first, rest) == Render(layout, first, rest) + [line]
    ensures Filling(ws, layout + [ws[start..i]], i, i, |first|, |rest|)
    ensures i == |ws| ==> Greedy(ws, |first|, |rest|) == layout + [ws[start..i]]
  {
    BreakLine(ws, layout, start, i, |first|, |rest|);
    RenderSnoc(layout, ws[start..i], first, rest);
    NothingToTrim(if layout == [] then first else rest, ws[start..i]);
  }

  function DetailLines(text: string): (r: seq<string>)
  {
    Render(Greedy(Words(text), DETAIL_INDENT, DETAIL_INDENT), Spaces(DETAIL_INDENT), Spaces(DETAIL_INDENT))
  }

  /** Detail text of a finding: no line at all for blank text. */
  method Wrap(text: string) returns (out: seq<string>)
    ensures out == DetailLines(text)
  {
    var ws := Words(text);
    var indent := Spaces(DETAIL_INDENT);
    var line := "";
    out := [];
    ghost var layout: seq<seq<string>> := [];
    ghost var start := 0;
    for i := 0 to |ws|
      invariant start <= i && (i > 0 ==> start < i)
      invariant line == Joined(ws[start..i])
      invariant out == Render(layout, indent, indent)
      invariant Filling(ws, layout, start, i, DETAIL_INDENT, DETAIL_INDENT)
    {
      var word := ws[i];
      if start < i { NonEmptyLine(ws[start..i]); }
      assert ws[start..i + 1] == ws[start..i] + [word];
      JoinedSnoc(ws[start..i], word);
      if line != "" && DETAIL_INDENT + |line| + 1 + |word| > WIDTH {
        out := out + [indent + line];
        line := "";
        WriteLine(ws, layout, start, i, indent, indent);
        layout, start := layout + [ws[start..i]], i;
      }
      AddWord(ws, layout, start, i, DETAIL_INDENT, DETAIL_INDENT);
      if line != "" { line := line + " "; }
      line := line + word;
    }
    if start < |ws| { NonEmptyLine(ws[start..]); }
    if line != "" {
      out := out + [indent + line];
      WriteLine(ws, layout, start, |ws|, indent, indent);
    }
  }

  /** Pads on the right to at least `LABEL` columns. */
  function Padded(heading: string): (r: string)
    ensures |r| >= LABEL && |r| >= |heading|
  {
    if |heading| >= LABEL then heading else heading + Spaces(LABEL - |heading|)
  }

  function FirstPrefix(heading: string, indent: nat): (r: string)
  {
    if heading == "" then Spaces(indent) else Spaces(indent) + Padded(heading)
  }

  function RestPrefix(heading: string, indent: nat): (r: string)
  {
    Spaces(if heading == "" then indent else indent + LABEL)
  }

  function LabelledLines(heading: string, text: string, indent: nat): (r: seq<string>)
  {
    var first, rest := FirstPrefix(heading, indent), RestPrefix(heading, indent);
    if Words(text) == [] then [TrimEnd(first)] else Render(Greedy(Words(text), |first|, |rest|), first, rest)
  }

  function Prefixed(layout: seq<seq<string>>, first: string, rest: string): (r: string)
  {
    if layout == [] then first else rest
  }

  /** The state of the writing loop: `line` is the current line with its prefix,
      `out` the lines written. */
  ghost predicate Writing(ws: seq<string>, layout: seq<seq<string>>, start: nat, i: nat, first: string, rest: string,
                          line: string, out: seq<string>)
    requires start <= i <= |ws|
  {
    && line == Prefixed(layout, first, rest) + Joined(ws[start..i])
    && out == Render(layout, first, rest)
    && Filling(ws, layout, start, i, |first|, |rest|)
  }

  lemma LineBroken(ws: seq<string>, layout: seq<seq<string>>, start: nat, i: nat, first: string, rest: string,
                   line: string, out: seq<string>)
    requires AllWords(ws) && start < i < |ws| && Writing(ws, layout, start, i, first, rest, line, out)
    requires |line| + 1 + |ws[i]| > WIDTH
    ensures TrimEnd(line) == line
    ensures Writing(ws, layout + [ws[start..i]], i, i, first, rest, rest, out + [line])
  {
    LineLength(ws, start, i);
    WriteLine(ws, layout, start, i, first, rest);
    assert Joined(ws[i..i]) == "" && rest + "" == rest;
  }

  lemma WordAdded(ws: seq<string>, layout: seq<seq<string>>, start: nat, i: nat, first: string, rest: string,
                  line: string, out: seq<string>)
    requires start <= i < |ws| && Writing(ws, layout, start, i, first, rest, line, out)
    requires start == i || |line| + 1 + |ws[i]| <= WIDTH
    ensures Writing(ws, layout, start, i + 1, first, rest, (if start == i then line else line + " ") + ws[i], out)
  {
    LineLength(ws, start, i);
    AddWord(ws, layout, start, i, |first|, |rest|);
    Regroup(Prefixed(layout, first, rest), Joined(ws[start..i]), ws[i]);
    if start == i { assert Joined(ws[i..i]) == "" && line == Prefixed(layout, first, rest) + ""; }
  }

  /** Writes the words one after another; the last line is still open. */
  method WriteWords(ws: seq<string>, first: string, rest: string)
    returns (line: string, out: seq<string>, ghost layout: seq<seq<string>>, ghost start: nat)
    requires AllWords(ws)
    ensures start <= |ws| && (ws != [] ==> start < |ws|)
    ensures Writing(ws, layout, start, |ws|, first, rest, line, out) && (ws == [] ==> line == first && out == [])
  {
    line, out, layout, start := first, [], [], 0;
    var empty := true;
    assert Joined(ws[0..0]) == "" && first + "" == first;
    for i := 0 to |ws|
      invariant start <= i && (i > 0 ==> start < i) && (empty <==> start == i)
      invariant Writing(ws, layout, start, i, first, rest, line, out) && (i == 0 ==> line == first && out == [])
    {
      var word := ws[i];
      if !empty && |line| + 1 + |word| > WIDTH {
        LineBroken(ws, layout, start, i, first, rest, line, out);
        out := out + [TrimEnd(line)];
        line := rest;
        empty := true;
        layout, start := layout + [ws[start..i]], i;
      }
      WordAdded(ws, layout, start, i, first, rest, line, out);
      if !empty { line := line + " "; }
      line := line + word;
      empty := false;
    }
  }

  /** Labelled text of a correlation: continuation lines are aligned after the
      heading, and blank text still writes the label. */
  method Wrapped(heading: string, text: string, indent: nat) returns (out: seq<string>)
    ensures out == LabelledLines(heading, text, indent)
  {
    var ws := Words(text);
    var first := FirstPrefix(heading, indent);
    var rest := RestPrefix(heading, indent);
    var line;
    ghost var layout, start;
    line, out, layout, start := WriteWords(ws, first, rest);
    if ws != [] { FinishedLine(ws, layout, start, first, rest, line, out); }
    out := out + [TrimEnd(line)];
  }

  lemma FinishedLine(ws: seq<string>, layout: seq<seq<string>>, start: nat, first: string, rest: string,
                     line: string, out: seq<string>)
    requires AllWords(ws) && start < |ws| && Writing(ws, layout, start, |ws|, first, rest, line, out)
    ensures out + [TrimEnd(line)] == Render(Greedy(ws, |first|, |rest|), first, rest)
  {
    WriteLine(ws, layout, start, |ws|, first, rest);
  }

  // --------------------------------------------------------- reading the lines

  /** White space separates words: what stands before it and what follows are split
      apart. */
  lemma {:induction false} WordsSplit(a: string, c: char, b: string)
    requires IsSpace(c)
    ensures Words(a + [c] + b) == Words(a) + Words(b)
    decreases |a|
  {
    var s := a + [c] + b;
    if a == "" {
      assert s[0] == c && s[1..] == b;
    } else if IsSpace(a[0]) {
      assert s[0] == a[0] && s[1..] == a[1..] + [c] + b;
      WordsSplit(a[1..], c, b);
    } else {
      var n := WordLength(a);
      var w, more := a[..n], a[n..];
      assert a == w + more && s == w + (more + [c] + b);
      WordThenRest(w, more);
      WordThenRest(w, more + [c] + b);
      WordsSplit(more, c, b);
    }
  }

  /** The words that stand on these lines from these columns on. */
  function WordsFrom(out: seq<string>, first: nat, rest: nat): (r: seq<seq<string>>)
  {
    seq(|out|, k requires 0 <= k < |out| =>
      Words(if PrefixOf(k, first, rest) <= |out[k]| then out[k][PrefixOf(k, first, rest)..] else out[k]))
  }

  /** The lines begin with these prefixes, the words after them are these, and each
      line fits or has one word. */
  ghost predicate Shows(out: seq<string>, ws: seq<string>, first: string, rest: string)
  {
    var columns := WordsFrom(out, |first|, |rest|);
    && Flatten(columns) == ws
    && forall k :: 0 <= k < |out| ==>
         && (if k == 0 then first else rest) <= out[k]
         && columns[k] != [] && (|out[k]| <= WIDTH || |columns[k]| == 1)
  }

  lemma LineShows(line: seq<string>, prefix: string)
    requires AllWords(line)
    ensures (prefix + Joined(line))[|prefix|..] == Joined(line) && Words(Joined(line)) == line
  {
    WordsOfJoined(line);
  }

  lemma LayoutWords(layout: seq<seq<string>>, ws: seq<string>, k: nat)
    requires AllWords(ws) && Flatten(layout) == ws && k < |layout|
    ensures AllWords(layout[k])
  {
    FlattenMembers(layout);
  }

  lemma ColumnsRead(layout: seq<seq<string>>, ws: seq<string>, first: string, rest: string)
    requires AllWords(ws) && Flatten(layout) == ws
    ensures WordsFrom(Render(layout, first, rest), |first|, |rest|) == layout
  {
    var columns := WordsFrom(Render(layout, first, rest), |first|, |rest|);
    forall k | 0 <= k < |layout| ensures columns[k] == layout[k] {
      LayoutWords(layout, ws, k);
      LineShows(layout[k], if k == 0 then first else rest);
    }
  }

  lemma LinesFit(layout: seq<seq<string>>, ws: seq<string>, first: string, rest: string)
    requires ValidLayout(layout, ws, |first|, |rest|)
    ensures var out := Render(layout, first, rest);
            forall k :: 0 <= k < |out| ==> (if k == 0 then first else rest) <= out[k] && (|out[k]| <= WIDTH || |layout[k]| <= 1)
  {
  }

  lemma ReadShows(out: seq<string>, layout: seq<seq<string>>, ws: seq<string>, first: string, rest: string)
    requires WordsFrom(out, |first|, |rest|) == layout && Flatten(layout) == ws
    requires forall k :: 0 <= k < |out| ==> (if k == 0 then first else rest) <= out[k] && (|out[k]| <= WIDTH || |layout[k]| <= 1)
    requires forall k :: 0 <= k < |layout| ==> layout[k] != []
    ensures Shows(out, ws, first, rest)
  {
  }

  lemma NoneEmpty(ws: seq<string>, first: nat, rest: nat)
    ensures forall k :: 0 <= k < |Greedy(ws, first, rest)| ==> Greedy(ws, first, rest)[k] != []
  {
    GreedyIsValid(ws, first, rest);
    var layout := Greedy(ws, first, rest);
    forall k | 0 <= k < |layout| ensures layout[k] != [] { assert layout[k] in layout; }
  }

  lemma RenderedShows(ws: seq<string>, first: string, rest: string)
    requires AllWords(ws)
    ensures Shows(Render(Greedy(ws, |first|, |rest|), first, rest), ws, first, rest)
  {
    var layout := Greedy(ws, |first|, |rest|);
    GreedyIsValid(ws, |first|, |rest|);
    NoneEmpty(ws, |first|, |rest|);
    ColumnsRead(layout, ws, first, rest);
    LinesFit(layout, ws, first, rest);
    ReadShows(Render(layout, first, rest), layout, ws, first, rest);
  }

  /** The lines of a detail text read back as its words, in order; each is indented,
      and fits or has one word. */
  lemma DetailShows(text: string)
    ensures Shows(DetailLines(text), Words(text), Spaces(DETAIL_INDENT), Spaces(DETAIL_INDENT))
  {
    RenderedShows(Words(text), Spaces(DETAIL_INDENT), Spaces(DETAIL_INDENT));
  }

  lemma {:induction false} TrimmedBlanks(s: string, n: nat)
    ensures TrimEnd(s + Spaces(n)) == TrimEnd(s)
  {
    var t := s + Spaces(n);
    if n == 0 {
      assert t == s;
    } else {
      assert t[|t| - 1] == Spaces(n)[n - 1] && Spaces(n)[n - 1] in Spaces(n);
      assert t[..|t| - 1] == s + Spaces(n - 1);
      TrimmedBlanks(s, n - 1);
    }
  }

  /** The columns a label takes, with the blanks after it. */
  function LabelWidth(heading: string): (n: nat)
  {
    if heading == "" then 0 else if |heading| < LABEL then LABEL else |heading|
  }

  /** A labelled text starts with its indented label; the lines after the first are
      indented as far as a label reaches. They read back as the words of the text, and
      each fits or has one word. For blank text the label stands alone. */
  lemma LabelledShows(heading: string, text: string, indent: nat)
    ensures var front := Spaces(indent) + heading + Spaces(LabelWidth(heading) - |heading|);
            var further := Spaces(indent + if heading == "" then 0 else LABEL);
            var out := LabelledLines(heading, text, indent);
            if Words(text) == [] then out == [TrimEnd(Spaces(indent) + heading)] else Shows(out, Words(text), front, further)
  {
    Prefixes(heading, indent);
    if Words(text) == [] {
      TrimmedBlanks(Spaces(indent) + heading, LabelWidth(heading) - |heading|);
    } else {
      RenderedShows(Words(text), FirstPrefix(heading, indent), RestPrefix(heading, indent));
    }
  }

  lemma Prefixes(heading: string, indent: nat)
    ensures FirstPrefix(heading, indent) == Spaces(indent) + heading + Spaces(LabelWidth(heading) - |heading|)
    ensures RestPrefix(heading, indent) == Spaces(indent + if heading == "" then 0 else LABEL)
  {
  }
}
