/**
 * The chat's Markdown subset (`components/MarkdownRenderer.tsx`): the text is
 * cut at triple-backtick fences into alternating text and code parts; each
 * text part is cut into lines, blank lines are dropped, and a line-by-line
 * loop groups consecutive bullet or numbered items into lists and turns every
 * other line into a paragraph. Bold, italic and inline code are substituted
 * in that order. The output is a sequence of blocks instead of React elements.
 */
module Markdown {
  import opened Types
  import opened Js

  /** `'ul'` and `'ol'`. */
  datatype ListKind = Bullet | Numbered

  /** What one source line contributes: a list item of a kind, or a paragraph. */
  datatype Line = Item(kind: ListKind, text: string) | Plain(text: string)

  /** A paragraph or a list; the texts are already inline-rendered. */
  datatype Block = Paragraph(html: string) | List(kind: ListKind, items: seq<string>)

  /** A code part (fence contents) or a text part (its blocks). */
  datatype Part = Code(code: string) | Text(blocks: seq<Block>)

  const Fence := "```"

  // ---------------------------------------------------------------------------
  // Fenced code

  /** `content.split(/```([\s\S]*?)```/g)`: the text before each fence pair,
      then what the pair encloses (the shortest run up to the next fence), and
      finally whatever follows the last pair. */
  function FenceSplit(s: string): (r: seq<string>)
    ensures r != []
    decreases |s|
  {
    var i := IndexOf(s, Fence);
    if i == -1 then [s]
    else
      var j := IndexOf(s[i + 3..], Fence);
      if j == -1 then [s]
      else [s[..i], s[i + 3..][..j]] + FenceSplit(s[i + 3 + j + 3..])
  }

  lemma OddPlusTwo(n: nat)
    requires n % 2 == 1
    ensures (n + 2) % 2 == 1
  {
  }

  /** The parts alternate, starting and ending with text. */
  lemma {:induction false} FenceSplitOdd(s: string)
    ensures |FenceSplit(s)| % 2 == 1
    decreases |s|
  {
    var i := IndexOf(s, Fence);
    if i != -1 {
      var j := IndexOf(s[i + 3..], Fence);
      if j != -1 {
        var rest := s[i + 3 + j + 3..];
        FenceSplitOdd(rest);
        var tail := FenceSplit(rest);
        assert FenceSplit(s) == [s[..i], s[i + 3..][..j]] + tail;
        OddPlusTwo(|tail|);
      }
    }
  }

  /** No part but the last contains a fence: the text before a fence pair
      stops at the first fence, and the code stops at the next one. */
  lemma {:induction false} FenceSplitParts(s: string)
    ensures forall k :: 0 <= k < |FenceSplit(s)| - 1 ==> !Includes(FenceSplit(s)[k], Fence)
    decreases |s|
  {
    var i := IndexOf(s, Fence);
    if i != -1 {
      var j := IndexOf(s[i + 3..], Fence);
      if j != -1 {
        var rest := s[i + 3 + j + 3..];
        IndexOfFirst(s, Fence);
        PrefixBeforeFirst(s, Fence, i);
        IndexOfFirst(s[i + 3..], Fence);
        PrefixBeforeFirst(s[i + 3..], Fence, j);
        FenceSplitParts(rest);
        var r := FenceSplit(s);
        var tail := FenceSplit(rest);
        assert r == [s[..i], s[i + 3..][..j]] + tail;
        forall k | 2 <= k < |r| ensures r[k] == tail[k - 2] {
        }
      }
    }
  }

  /** The content around one fence pair. */
  lemma FencePair(s: string, i: nat, j: nat)
    requires i + 3 <= |s| && s[i..i + 3] == Fence
    requires i + 3 + j + 3 <= |s| && s[i + 3..][j..j + 3] == Fence
    ensures s == s[..i] + (Fence + (s[i + 3..][..j] + (Fence + s[i + 3 + j + 3..])))
  {
    var after := s[i + 3..];
    var rest := s[i + 3 + j + 3..];
    assert after == after[..j] + after[j..];
    assert after[j..] == Fence + rest by {
      assert after[j..][..3] == Fence;
      assert after[j..][3..] == rest;
    }
    assert s == s[..i] + (Fence + after) by {
      assert s[i..][..3] == Fence;
      assert s[i..][3..] == after;
      assert s == s[..i] + s[i..];
    }
  }

  lemma JoinPair(a: string, b: string, tail: seq<string>, sep: string)
    requires tail != []
    ensures Join([a, b] + tail, sep) == a + (sep + (b + (sep + Join(tail, sep))))
  {
    var inner := [b] + tail;
    assert Join(inner, sep) == b + sep + Join(tail, sep) by {
      assert inner[0] == b && inner[1..] == tail;
    }
    var parts := [a] + inner;
    assert [a, b] + tail == parts;
    assert Join(parts, sep) == a + sep + Join(inner, sep) by {
      assert parts[0] == a && parts[1..] == inner;
    }
  }

  /** Putting the fences back between the parts gives the content again. */
  lemma {:induction false} FenceSplitJoin(s: string)
    ensures Join(FenceSplit(s), Fence) == s
    decreases |s|
  {
    var i := IndexOf(s, Fence);
    if i != -1 {
      var j := IndexOf(s[i + 3..], Fence);
      if j != -1 {
        var rest := s[i + 3 + j + 3..];
        FenceSplitJoin(rest);
        JoinPair(s[..i], s[i + 3..][..j], FenceSplit(rest), Fence);
        FencePair(s, i, j);
      }
    }
  }

  // ---------------------------------------------------------------------------
  // Lines

  /** The filter on the lines of a text part: `line.trim() !== ''`. */
  predicate IsContentLine(line: string) {
    !IsBlank(line)
  }

  /** The lines of a text part that take part in block building. */
  function ContentLines(part: string): (r: seq<string>)
    ensures forall k :: 0 <= k < |r| ==> !IsBlank(r[k])
  {
    Filter(Split(part, '\n'), IsContentLine)
  }

  /** The number of leading decimal digits (`\d+` is greedy). */
  function DigitRun(s: string): (n: nat)
    ensures n <= |s|
    ensures forall k :: 0 <= k < n ==> IsDigit(s[k])
    ensures n < |s| ==> !IsDigit(s[n])
  {
    if s != [] && IsDigit(s[0]) then 1 + DigitRun(s[1..]) else 0
  }

  /** `line.match(/^(\s*)\* (.*)/)`, giving the second group. */
  function BulletMatch(line: string): (r: Option<string>)
    ensures r.Some? <==> StartsWith(TrimStart(line), "* ")
    ensures r.Some? ==> r.value <= TrimStart(line)[2..]
  {
    var rest := TrimStart(line);
    if StartsWith(rest, "* ") then Some(LineText(rest[2..])) else None
  }

  /** `line.match(/^(\s*)\d+\. (.*)/)`, giving the second group. */
  function NumberedMatch(line: string): (r: Option<string>)
    ensures r.Some? ==> exists n :: 1 <= n <= |TrimStart(line)| && StartsWith(TrimStart(line)[n..], ". ")
    ensures r.Some? ==> forall k :: 0 <= k < |r.value| ==> !IsLineTerminator(r.value[k])
  {
    var rest := TrimStart(line);
    var n := DigitRun(rest);
    if n > 0 && StartsWith(rest[n..], ". ") then Some(LineText(rest[n + 2..])) else None
  }

  /** The role of a line, testing for a bullet first. */
  function Classify(line: string): (r: Line)
    ensures r == Item(Bullet, r.text) <==> BulletMatch(line).Some?
    ensures r == Item(Numbered, r.text) <==> BulletMatch(line).None? && NumberedMatch(line).Some?
    ensures r.Plain? ==> r.text == line
    ensures r.Item? ==> forall k :: 0 <= k < |r.text| ==> !IsLineTerminator(r.text[k])
  {
    match BulletMatch(line)
    case Some(t) => Item(Bullet, t)
    case None =>
      match NumberedMatch(line)
      case Some(t) => Item(Numbered, t)
      case None => Plain(line)
  }

  /** A line that starts with `* ` is a bullet item whatever follows, even
      text that would make a numbered item (`* 1. x`). */
  lemma BulletFirst(t: string)
    requires LineText(t) == t
    ensures Classify("* " + t) == Item(Bullet, t)
  {
    BulletMatches(t);
  }

  lemma BulletMatches(t: string)
    requires LineText(t) == t
    ensures BulletMatch("* " + t) == Some(t)
  {
    var star: string := ['*', ' '];
    var line := star + t;
    assert line[0] == '*';
    TrimStartUnspaced(line);
    assert line[..|star|] == star && line[|star|..] == t;
  }

  /** A numbered item's text starts after the dot and the space. */
  lemma NumberedItem()
    ensures Classify("12. y") == Item(Numbered, "y")
  {
    var line := "12. y";
    assert !IsSpace(line[0]);
    assert TrimStart(line) == line;
    assert !StartsWith(line, "* ");
    assert DigitRun(line[2..]) == 0;
    assert DigitRun(line[1..]) == 1;
    assert DigitRun(line) == 2;
    assert line[2..][..2] == ". ";
    assert line[4..] == "y";
    assert LineText(line[4..]) == "y" by {
      assert line[4..][1..] == [];
    }
  }

  /** A star without the space after it is not a bullet. */
  lemma StarWithoutSpace()
    ensures Classify("*x") == Plain("*x")
  {
    var line := "*x";
    assert !IsSpace(line[0]) && !IsDigit(line[0]);
    assert TrimStart(line) == line;
    assert line[..2] != "* " by {
      assert line[1] != ' ';
    }
    assert BulletMatch(line) == None;
    assert DigitRun(line) == 0;
    assert NumberedMatch(line) == None;
  }

  // ---------------------------------------------------------------------------
  // Inline rendering

  /** Where the first closing `d` starts in `t`, provided no line terminator
      comes before it (`.*?` stops at line terminators); -1 if there is none. */
  function CloseAt(t: string, d: string): (r: int)
    requires d != [] && !IsLineTerminator(d[0])
    ensures -1 <= r <= |t|
    ensures r >= 0 ==> r + |d| <= |t| && t[r..r + |d|] == d
  {
    if d <= t then 0
    else if t == [] || IsLineTerminator(t[0]) then -1
    else
      var k := CloseAt(t[1..], d);
      if k == -1 then -1 else k + 1
  }

  /** The closing delimiter found is the first one, and no line terminator
      comes before it. */
  lemma {:induction false} CloseAtFirst(t: string, d: string)
    requires d != [] && !IsLineTerminator(d[0])
    ensures forall k :: 0 <= k < CloseAt(t, d) ==> !IsLineTerminator(t[k]) && !(d <= t[k..])
  {
    if !(d <= t) && t != [] && !IsLineTerminator(t[0]) {
      CloseAtFirst(t[1..], d);
      assert forall p :: 1 <= p <= |t| ==> t[p..] == t[1..][p - 1..];
    }
  }

  /** Whether a delimited run starts at the front of `s`: the length of the
      run, or -1. */
  function MatchEnd(s: string, d: string): (j: int)
    requires d != [] && !IsLineTerminator(d[0])
    ensures j >= 0 ==> |d| + j + |d| <= |s| && s[..|d|] == d && s[|d|..][j..j + |d|] == d
  {
    if d <= s then CloseAt(s[|d|..], d) else -1
  }

  /** `s.replace(/D(.*?)D/g, open + '$1' + close)` for the delimiter `d`:
      scanning left to right, each `d` that has a closing `d` later on the same
      line is replaced, with the closing one, by the tags; the text between
      is copied as it is. */
  function Replace(s: string, d: string, open: string, close: string): (r: string)
    requires d != [] && !IsLineTerminator(d[0])
    decreases |s|
  {
    if s == [] then []
    else
      var j := MatchEnd(s, d);
      if j >= 0 then open + s[|d|..][..j] + close + Replace(s[|d|..][j + |d|..], d, open, close)
      else [s[0]] + Replace(s[1..], d, open, close)
  }

  const StrongOpen := "<strong>"
  const StrongClose := "</strong>"
  const EmOpen := "<em>"
  const EmClose := "</em>"
  const CodeClasses := "bg-gray-200 text-gray-800 font-mono px-1.5 py-0.5 rounded-md text-sm"
  const CodeOpen := "<code class=\"" + CodeClasses + "\">"
  const CodeClose := "</code>"

  function Bold(s: string): string {
    Replace(s, "**", StrongOpen, StrongClose)
  }

  function Italic(s: string): string {
    Replace(s, "*", EmOpen, EmClose)
  }

  function InlineCode(s: string): string {
    Replace(s, "`", CodeOpen, CodeClose)
  }

  /** `renderInline`: bold, then italic, then inline code. */
  function RenderInline(s: string): string {
    InlineCode(Italic(Bold(s)))
  }

  /** Text in which the delimiter's first character never occurs is copied. */
  lemma {:induction false} ReplaceNoDelimiter(s: string, d: string, open: string, close: string)
    requires d != [] && !IsLineTerminator(d[0])
    requires d[0] !in s
    ensures Replace(s, d, open, close) == s
    decreases |s|
  {
    if s != [] {
      assert s[0] != d[0];
      ReplaceNoDelimiter(s[1..], d, open, close);
      assert [s[0]] + s[1..] == s;
    }
  }

  /** Text without `*` and backquotes comes out of `renderInline` unchanged. */
  lemma RenderPlainText(s: string)
    requires '*' !in s && '`' !in s
    ensures RenderInline(s) == s
  {
    ReplaceNoDelimiter(s, "**", StrongOpen, StrongClose);
    ReplaceNoDelimiter(s, "*", EmOpen, EmClose);
    ReplaceNoDelimiter(s, "`", CodeOpen, CodeClose);
  }

  /** Turns the tags of one substitution back into its delimiter. */
  function Restore(t: string, d: string, open: string, close: string): string
    requires open != [] && close != []
    decreases |t|
  {
    if t == [] then []
    else if open <= t then d + Restore(t[|open|..], d, open, close)
    else if close <= t then d + Restore(t[|close|..], d, open, close)
    else [t[0]] + Restore(t[1..], d, open, close)
  }

  /** Tags that start with `<` and differ in their second character. */
  predicate TagPair(open: string, close: string) {
    |open| > 1 && |close| > 1 && open[0] == '<' && close[0] == '<' && open[1] != close[1]
  }

  lemma {:induction false} RestoreCopies(c: string, t: string, d: string, open: string, close: string)
    requires TagPair(open, close) && '<' !in c
    ensures Restore(c + t, d, open, close) == c + Restore(t, d, open, close)
    decreases |c|
  {
    if c != [] {
      var ct := c + t;
      assert ct[0] == c[0] && ct[1..] == c[1..] + t;
      assert c[0] != '<';
      assert !(open <= ct) && !(close <= ct);
      assert Restore(ct, d, open, close) == [c[0]] + Restore(c[1..] + t, d, open, close);
      RestoreCopies(c[1..], t, d, open, close);
      assert [c[0]] + (c[1..] + Restore(t, d, open, close)) == c + Restore(t, d, open, close);
    } else {
      assert c + t == t;
    }
  }

  /** Restoring a wrapped run gives the delimiters back around it. */
  lemma {:induction false} RestoreWrapped(c: string, tail: string, d: string, open: string, close: string)
    requires TagPair(open, close) && '<' !in c
    ensures Restore(open + (c + (close + tail)), d, open, close) == d + (c + (d + Restore(tail, d, open, close)))
  {
    var w := open + (c + (close + tail));
    assert open <= w;
    assert w[|open|..] == c + (close + tail);
    RestoreCopies(c, close + tail, d, open, close);
    assert !(open <= close + tail) by {
      assert (close + tail)[1] == close[1];
    }
    assert close <= close + tail;
    assert (close + tail)[|close|..] == tail;
  }

  /** Where a substitution matches, the text is the delimiter, the run, the
      delimiter and the rest. */
  lemma MatchParts(s: string, d: string, j: nat)
    requires |d| + j + |d| <= |s| && s[..|d|] == d && s[|d|..][j..j + |d|] == d
    ensures s == d + (s[|d|..][..j] + (d + s[|d|..][j + |d|..]))
  {
    var after := s[|d|..];
    assert after[j..] == d + after[j + |d|..] by {
      assert after[j..][..|d|] == d;
    }
    assert after == after[..j] + after[j..];
    assert s == s[..|d|] + after;
  }

  lemma {:induction false} RestoreMatchStep(s: string, d: string, open: string, close: string, j: int, c: string, rest: string)
    requires d != [] && !IsLineTerminator(d[0]) && TagPair(open, close) && s != []
    requires j == MatchEnd(s, d) && j >= 0
    requires c == s[|d|..][..j] && '<' !in c && rest == s[|d|..][j + |d|..]
    requires Restore(Replace(rest, d, open, close), d, open, close) == rest
    ensures Restore(Replace(s, d, open, close), d, open, close) == s
  {
    var tail := Replace(rest, d, open, close);
    var w := open + (c + (close + tail));
    assert Replace(s, d, open, close) == w by {
      ReplaceAtMatch(s, d, open, close);
      Regroup(open, c, close, tail);
    }
    assert Restore(w, d, open, close) == d + (c + (d + rest)) by {
      RestoreWrapped(c, tail, d, open, close);
    }
    assert s == d + (c + (d + rest)) by {
      MatchParts(s, d, j);
    }
  }

  /** At a match, the substitution wraps the run in the tags and goes on
      after the closing delimiter. */
  lemma {:induction false} ReplaceAtMatch(s: string, d: string, open: string, close: string)
    requires d != [] && !IsLineTerminator(d[0]) && s != [] && MatchEnd(s, d) >= 0
    ensures var j := MatchEnd(s, d);
      Replace(s, d, open, close)
        == open + s[|d|..][..j] + close + Replace(s[|d|..][j + |d|..], d, open, close)
  {
  }

  /** The run and what follows a match are parts of the text; what follows
      is shorter. */
  lemma MatchRest(s: string, d: string, j: nat, ch: char)
    requires d != [] && |d| + j + |d| <= |s|
    ensures |s[|d|..][j + |d|..]| < |s|
    ensures ch !in s ==> ch !in s[|d|..][..j] && ch !in s[|d|..][j + |d|..]
  {
    assert s[|d|..][j + |d|..] == s[|d| + j + |d|..];
    assert s[|d|..][..j] == s[|d|..|d| + j];
  }

  lemma TailLacks(s: string, ch: char)
    requires s != [] && ch !in s
    ensures ch !in s[1..]
  {
    assert forall k :: 0 <= k < |s| - 1 ==> s[1..][k] == s[k + 1];
  }

  lemma Regroup(a: string, b: string, c: string, d: string)
    ensures a + b + c + d == a + (b + (c + d))
  {
  }

  lemma {:induction false} RestoreCopyStep(s: string, d: string, open: string, close: string)
    requires d != [] && !IsLineTerminator(d[0])
    requires TagPair(open, close) && '<' !in s && s != [] && MatchEnd(s, d) < 0
    requires Restore(Replace(s[1..], d, open, close), d, open, close) == s[1..]
    ensures Restore(Replace(s, d, open, close), d, open, close) == s
  {
    assert s[0] != '<';
    var r := Replace(s, d, open, close);
    assert r == [s[0]] + Replace(s[1..], d, open, close);
    assert !(open <= r) && !(close <= r);
    assert r[1..] == Replace(s[1..], d, open, close);
    assert [s[0]] + s[1..] == s;
  }

  /** A substitution only wraps: turning its tags back into the delimiter
      gives the text again (for text without `<`). */
  lemma {:induction false} ReplaceRestore(s: string, d: string, open: string, close: string)
    requires d != [] && !IsLineTerminator(d[0])
    requires TagPair(open, close) && '<' !in s
    ensures Restore(Replace(s, d, open, close), d, open, close) == s
    decreases |s|, 1
  {
    if s != [] {
      if MatchEnd(s, d) >= 0 {
        RestoreMatch(s, d, open, close);
      } else {
        RestoreCopy(s, d, open, close);
      }
    }
  }

  lemma {:induction false} RestoreMatch(s: string, d: string, open: string, close: string)
    requires d != [] && !IsLineTerminator(d[0])
    requires TagPair(open, close) && '<' !in s && s != [] && MatchEnd(s, d) >= 0
    ensures Restore(Replace(s, d, open, close), d, open, close) == s
    decreases |s|, 0
  {
    var j := MatchEnd(s, d);
    var c := s[|d|..][..j];
    var rest := s[|d|..][j + |d|..];
    MatchRest(s, d, j, '<');
    ReplaceRestore(rest, d, open, close);
    RestoreMatchStep(s, d, open, close, j, c, rest);
  }

  lemma {:induction false} RestoreCopy(s: string, d: string, open: string, close: string)
    requires d != [] && !IsLineTerminator(d[0])
    requires TagPair(open, close) && '<' !in s && s != [] && MatchEnd(s, d) < 0
    ensures Restore(Replace(s, d, open, close), d, open, close) == s
    decreases |s|, 0
  {
    TailLacks(s, '<');
    ReplaceRestore(s[1..], d, open, close);
    RestoreCopyStep(s, d, open, close);
  }

  /** Bold and italic substitutions only wrap what they mark. */
  lemma EmphasisRoundTrip(s: string)
    requires '<' !in s
    ensures Restore(Bold(s), "**", StrongOpen, StrongClose) == s
    ensures Restore(Italic(s), "*", EmOpen, EmClose) == s
    ensures Restore(InlineCode(s), "`", CodeOpen, CodeClose) == s
  {
    assert TagPair(StrongOpen, StrongClose) && TagPair(EmOpen, EmClose) && TagPair(CodeOpen, CodeClose);
    ReplaceRestore(s, "**", StrongOpen, StrongClose);
    ReplaceRestore(s, "*", EmOpen, EmClose);
    ReplaceRestore(s, "`", CodeOpen, CodeClose);
  }

  /** Because bold runs first, `**a**` is bold and not two empty italics. */
  lemma BoldBeforeItalic()
    ensures RenderInline("**a**") == StrongOpen + "a" + StrongClose
  {
    var s := "**a**";
    var t := s[2..];
    assert t == "a**";
    assert t[1..] == "**";
    assert CloseAt(t[1..], "**") == 0;
    assert !("**" <= t) by {
      assert t[0] != '*';
    }
    assert CloseAt(t, "**") == 1;
    assert s[..2] == "**";
    assert MatchEnd(s, "**") == 1;
    assert t[..1] == "a" && t[3..] == "";
    var x := StrongOpen + "a" + StrongClose;
    assert Bold(s) == x;
    assert '*' !in x && '`' !in x;
    ReplaceNoDelimiter(x, "*", EmOpen, EmClose);
    ReplaceNoDelimiter(x, "`", CodeOpen, CodeClose);
  }

  // ---------------------------------------------------------------------------
  // Blocks

  /** The role of each line, in order. */
  function Classified(lines: seq<string>): (r: seq<Line>)
    ensures |r| == |lines|
    ensures forall k :: 0 <= k < |lines| ==> r[k] == Classify(lines[k])
  {
    Map(lines, Classify)
  }

  /** Classifying one more line adds its role at the end. */
  lemma ClassifiedNext(lines: seq<string>, i: nat)
    requires i < |lines|
    ensures Classified(lines[..i + 1]) == Classified(lines[..i]) + [Classify(lines[i])]
  {
    MapNext(lines, Classify, i);
  }

  /** The line contributions one block carries. */
  function LinesOf(b: Block): seq<Line> {
    match b
    case Paragraph(h) => [Plain(h)]
    case List(k, items) => seq(|items|, i requires 0 <= i < |items| => Item(k, items[i]))
  }

  /** The line contributions of a sequence of blocks, in order. */
  function Lines(bs: seq<Block>): seq<Line> {
    if bs == [] then [] else Lines(bs[..|bs| - 1]) + LinesOf(bs[|bs| - 1])
  }

  /** No list is empty and no two lists of the same kind are adjacent: every
      list is a maximal run of same-kind items. */
  ghost predicate WellGrouped(bs: seq<Block>) {
    && (forall i :: 0 <= i < |bs| && bs[i].List? ==> bs[i].items != [])
    && (forall i, j :: 0 <= i && j == i + 1 && j < |bs| && bs[i].List? && bs[j].List? ==> bs[i].kind != bs[j].kind)
  }

  lemma LinesSnoc(bs: seq<Block>, b: Block)
    ensures Lines(bs + [b]) == Lines(bs) + LinesOf(b)
  {
    assert (bs + [b])[..|bs|] == bs;
  }

  /** One more item at the end of a list is one more line at the end. */
  lemma LinesOfPush(k: ListKind, items: seq<string>, t: string)
    ensures LinesOf(List(k, items + [t])) == LinesOf(List(k, items)) + [Item(k, t)]
  {
  }

  lemma WellGroupedSnoc(bs: seq<Block>, b: Block)
    requires WellGrouped(bs)
    requires b.List? ==> b.items != []
    requires b.List? && bs != [] && bs[|bs| - 1].List? ==> bs[|bs| - 1].kind != b.kind
    ensures WellGrouped(bs + [b])
  {
  }

  lemma WellGroupedInit(bs: seq<Block>, b: Block)
    requires WellGrouped(bs + [b])
    ensures WellGrouped(bs)
    ensures b.List? && bs != [] && bs[|bs| - 1].List? ==> bs[|bs| - 1].kind != b.kind
  {
    var all := bs + [b];
    forall i | 0 <= i < |bs| ensures all[i] == bs[i] {
    }
    if bs != [] {
      assert all[|bs|] == b && all[|bs| - 1] == bs[|bs| - 1];
    }
  }

  /** In well-grouped blocks, the last line comes from the last block. */
  lemma LastLine(bs: seq<Block>)
    requires WellGrouped(bs) && bs != []
    ensures var last := bs[|bs| - 1];
      && LinesOf(last) != []
      && |Lines(bs)| >= |LinesOf(last)|
      && Lines(bs)[|Lines(bs)| - |LinesOf(last)|..] == LinesOf(last)
      && Lines(bs)[|Lines(bs)| - 1] == LinesOf(last)[|LinesOf(last)| - 1]
  {
    var init, last := bs[..|bs| - 1], bs[|bs| - 1];
    assert bs == init + [last];
    LinesSnoc(init, last);
    if last.List? {
      assert last.items != [];
    }
  }

  /** If blocks ending in a list of kind `k` have the same lines as blocks
      ending in a longer list of kind `k`, the block before the shorter list
      is a list of kind `k` too. */
  lemma ListBeforeShorter(init: seq<Block>, ia: seq<string>, b: seq<Block>, k: ListKind)
    requires WellGrouped(init) && WellGrouped(b) && ia != []
    requires b != [] && b[|b| - 1].List? && b[|b| - 1].kind == k && |ia| < |b[|b| - 1].items|
    requires Lines(init + [List(k, ia)]) == Lines(b)
    ensures init != [] && init[|init| - 1].List? && init[|init| - 1].kind == k
  {
    LinesSnoc(init, List(k, ia));
    var m := |Lines(b)| - |ia|;
    assert |Lines(init)| == m;
    LastListLines(b, m - 1);
    assert Lines(init)[m - 1] == Lines(b)[m - 1];
    LastLine(init);
    LastOfLinesOf(init[|init| - 1]);
  }

  /** The lines of a final list sit at the end of the lines. */
  lemma LastListLines(b: seq<Block>, p: int)
    requires WellGrouped(b) && b != [] && b[|b| - 1].List?
    requires |Lines(b)| - |b[|b| - 1].items| <= p < |Lines(b)|
    ensures Lines(b)[p].Item? && Lines(b)[p].kind == b[|b| - 1].kind
  {
    LastLine(b);
    var lb := b[|b| - 1];
    var n := |Lines(b)|;
    assert Lines(b)[p] == LinesOf(lb)[p - (n - |lb.items|)];
  }

  /** Two well-grouped block sequences with the same lines end in lists of
      the same kind only if the lists are equally long: a longer list would
      need a list of the same kind right before the shorter one. */
  lemma LastListsAgree(a: seq<Block>, b: seq<Block>)
    requires WellGrouped(a) && WellGrouped(b) && Lines(a) == Lines(b)
    requires a != [] && b != [] && a[|a| - 1].List? && b[|b| - 1].List?
    requires a[|a| - 1].kind == b[|b| - 1].kind
    ensures |a[|a| - 1].items| >= |b[|b| - 1].items|
  {
    var init, la := a[..|a| - 1], a[|a| - 1];
    assert a == init + [la];
    WellGroupedInit(init, la);
    if |la.items| < |b[|b| - 1].items| {
      ListBeforeShorter(init, la.items, b, la.kind);
      assert false;
    }
  }

  /** Well-grouped blocks with the same lines end in blocks of the same
      shape: both paragraphs with the same text, or both lists of one kind. */
  lemma LastBlocksAlike(a: seq<Block>, b: seq<Block>)
    requires WellGrouped(a) && WellGrouped(b) && Lines(a) == Lines(b)
    requires a != [] && b != []
    ensures a[|a| - 1].List? <==> b[|b| - 1].List?
    ensures a[|a| - 1].List? ==> a[|a| - 1].kind == b[|b| - 1].kind
    ensures a[|a| - 1].Paragraph? ==> a[|a| - 1] == b[|b| - 1]
  {
    LastLine(a);
    LastLine(b);
    LastOfLinesOf(a[|a| - 1]);
    LastOfLinesOf(b[|b| - 1]);
  }

  /** The last line a block carries tells its shape. */
  lemma LastOfLinesOf(b: Block)
    requires LinesOf(b) != []
    ensures var x := LinesOf(b)[|LinesOf(b)| - 1];
      && (b.List? ==> x.Item? && x.kind == b.kind)
      && (b.Paragraph? ==> x == Plain(b.html))
  {
  }

  /** Well-grouped blocks with the same lines end in the same block. */
  lemma LastBlocksEqual(a: seq<Block>, b: seq<Block>)
    requires WellGrouped(a) && WellGrouped(b) && Lines(a) == Lines(b)
    requires a != [] && b != []
    ensures a[|a| - 1] == b[|b| - 1]
  {
    var la, lb := a[|a| - 1], b[|b| - 1];
    LastBlocksAlike(a, b);
    if la.List? {
      LastListsAgree(a, b);
      LastListsAgree(b, a);
      LastLine(a);
      LastLine(b);
      LinesOfInjective(la, lb);
    }
  }

  /** A list's lines give back its items. */
  lemma LinesOfInjective(x: Block, y: Block)
    requires x.List? && y.List? && x.kind == y.kind && |x.items| == |y.items|
    requires LinesOf(x) == LinesOf(y)
    ensures x == y
  {
    forall i | 0 <= i < |x.items| ensures x.items[i] == y.items[i] {
      assert LinesOf(x)[i] == LinesOf(y)[i];
    }
  }

  /** The lines determine the blocks: well-grouped blocks with the same lines
      are the same blocks, so grouping leaves no freedom. */
  lemma {:induction false} GroupingUnique(a: seq<Block>, b: seq<Block>)
    requires WellGrouped(a) && WellGrouped(b) && Lines(a) == Lines(b)
    ensures a == b
    decreases |a|
  {
    if a == [] || b == [] {
      if a != [] {
        LastLine(a);
      }
      if b != [] {
        LastLine(b);
      }
    } else {
      var ia, la := a[..|a| - 1], a[|a| - 1];
      var ib, lb := b[..|b| - 1], b[|b| - 1];
      LastBlocksEqual(a, b);
      assert a == ia + [la] && b == ib + [lb];
      LinesSnoc(ia, la);
      LinesSnoc(ib, lb);
      WellGroupedInit(ia, la);
      WellGroupedInit(ib, lb);
      assert Lines(ia) == Lines(ib) by {
        var n := |Lines(a)|;
        assert Lines(ia) == Lines(a)[..n - |LinesOf(la)|];
      }
      GroupingUnique(ia, ib);
    }
  }

  /** The blocks emitted so far followed by the pending list, if any. */
  function WithPending(elements: seq<Block>, listType: Option<ListKind>, items: seq<string>): seq<Block> {
    if listType.Some? && items != [] then elements + [List(listType.value, items)] else elements
  }

  /** Starting a list after a block that is not a list of the same kind. */
  lemma AppendFirst(elements: seq<Block>, k: ListKind, t: string)
    requires WellGrouped(elements)
    requires elements == [] || !(elements[|elements| - 1].List? && elements[|elements| - 1].kind == k)
    ensures WellGrouped(elements + [List(k, [t])])
    ensures Lines(elements + [List(k, [t])]) == Lines(elements) + [Item(k, t)]
  {
    var b := List(k, [t]);
    assert LinesOf(b) == [Item(k, t)];
    WellGroupedSnoc(elements, b);
    LinesSnoc(elements, b);
  }

  /** Extending the pending list. */
  lemma AppendMore(elements: seq<Block>, k: ListKind, items: seq<string>, t: string)
    requires WellGrouped(elements + [List(k, items)])
    ensures WellGrouped(elements + [List(k, items + [t])])
    ensures Lines(elements + [List(k, items + [t])]) == Lines(elements + [List(k, items)]) + [Item(k, t)]
  {
    var b := List(k, items + [t]);
    WellGroupedInit(elements, List(k, items));
    LinesSnoc(elements, List(k, items));
    LinesOfPush(k, items, t);
    LinesSnoc(elements, b);
    WellGroupedSnoc(elements, b);
  }

  /** Adding an item to the pending list of kind `k` adds one line and keeps
      the grouping, provided an emitted list of kind `k` is not directly
      before a new list. */
  lemma AppendStep(elements: seq<Block>, k: ListKind, items: seq<string>, t: string)
    requires WellGrouped(WithPending(elements, Some(k), items))
    requires items == [] ==> elements == [] || !(elements[|elements| - 1].List? && elements[|elements| - 1].kind == k)
    ensures WellGrouped(WithPending(elements, Some(k), items + [t]))
    ensures Lines(WithPending(elements, Some(k), items + [t])) == Lines(WithPending(elements, Some(k), items)) + [Item(k, t)]
  {
    if items == [] {
      assert items + [t] == [t];
      AppendFirst(elements, k, t);
    } else {
      AppendMore(elements, k, items, t);
    }
  }

  /**
   * The line loop's state: the blocks emitted so far, the kind of the pending
   * list and its items (not yet rendered).
   */
  class BlockBuilder {
    var elements: seq<Block>
    var listType: Option<ListKind>
    var listItems: seq<string>

    /** The blocks there would be if the pending list were flushed now. */
    ghost function Pending(): seq<Block>
      reads this
    {
      WithPending(elements, listType, listItems)
    }

    /** Between lines: a list kind is set exactly while items are pending, the
        last emitted block is a list only while a list of the other kind is
        pending, and the blocks so far are well grouped. */
    ghost predicate Valid()
      reads this
    {
      && (listItems == [] <==> listType == None)
      && (listType == None ==> elements == [] || !elements[|elements| - 1].List?)
      && WellGrouped(Pending())
    }

    constructor()
      ensures elements == [] && listType == None && listItems == []
      ensures Valid()
    {
      elements := [];
      listType := None;
      listItems := [];
    }

    /** `flushList`: emits the pending items as one list, if there are any. */
    method FlushList()
      modifies this
      ensures old(listItems) != [] && old(listType).Some? ==>
        && elements == old(elements) + [List(old(listType).value, old(listItems))]
        && listItems == [] && listType == None
      ensures !(old(listItems) != [] && old(listType).Some?) ==>
        elements == old(elements) && listItems == old(listItems) && listType == old(listType)
      ensures old(Valid()) ==>
        && listItems == [] && listType == None
        && elements == old(Pending()) && WellGrouped(elements)
        && (elements == [] || !elements[|elements| - 1].List? || old(listType) == Some(elements[|elements| - 1].kind))
    {
      if listItems != [] && listType.Some? {
        elements := elements + [List(listType.value, listItems)];
        listItems := [];
        listType := None;
      }
    }

    /** A list of some kind is being collected, possibly still empty, and
        it may be extended without breaking the grouping. */
    ghost predicate Collecting()
      reads this
    {
      && listType.Some?
      && WellGrouped(Pending())
      && (listItems == [] ==> elements == [] || !(elements[|elements| - 1].List? && elements[|elements| - 1].kind == listType.value))
    }

    /** Flushes a pending list of another kind and starts one of kind `k`. */
    method StartList(k: ListKind)
      requires Valid() && listType != Some(k)
      modifies this
      ensures Collecting() && listType == Some(k) && listItems == []
      ensures Pending() == old(Pending())
    {
      FlushList();
      listType := Some(k);
    }

    /** `listItems.push(...)`. */
    method AppendItem(t: string)
      requires Collecting()
      modifies this
      ensures Valid() && listType == old(listType)
      ensures Lines(Pending()) == old(Lines(Pending())) + [Item(listType.value, t)]
    {
      AppendStep(elements, listType.value, listItems, t);
      listItems := listItems + [t];
    }

    /** The bullet and numbered branches of the line loop: a list of another
        kind is flushed first, then the item is added. */
    method PushItem(k: ListKind, t: string)
      requires Valid()
      modifies this
      ensures Valid()
      ensures Lines(Pending()) == old(Lines(Pending())) + [Item(k, t)]
    {
      if listType != Some(k) {
        StartList(k);
      }
      AppendItem(t);
    }

    /** The body of the line loop. */
    method AddLine(line: string)
      requires Valid()
      modifies this
      ensures Valid()
      ensures Lines(Pending()) == old(Lines(Pending())) + [Classify(line)]
    {
      var ulMatch := BulletMatch(line);
      var olMatch := NumberedMatch(line);
      if ulMatch.Some? {
        PushItem(Bullet, ulMatch.value);
      } else if olMatch.Some? {
        PushItem(Numbered, olMatch.value);
      } else {
        FlushList();
        LinesSnoc(elements, Paragraph(line));
        WellGroupedSnoc(elements, Paragraph(line));
        elements := elements + [Paragraph(line)];
      }
    }
  }

  /**
   * The blocks of one text part's lines: every line appears exactly once, in
   * order, as a list item of its kind or as a paragraph, and the lists are
   * exactly the maximal runs of same-kind items.
   */
  method BuildBlocks(lines: seq<string>) returns (blocks: seq<Block>)
    ensures Lines(blocks) == Classified(lines)
    ensures WellGrouped(blocks)
  {
    var b := new BlockBuilder();
    for i := 0 to |lines|
      invariant b.Valid()
      invariant Lines(b.Pending()) == Classified(lines[..i])
    {
      b.AddLine(lines[i]);
      ClassifiedNext(lines, i);
    }
    b.FlushList();
    blocks := b.elements;
    assert lines[..|lines|] == lines;
  }

  // ---------------------------------------------------------------------------
  // Output

  /** A line's contribution with its text inline-rendered. */
  function RenderLine(l: Line): Line {
    match l
    case Item(k, t) => Item(k, RenderInline(t))
    case Plain(t) => Plain(RenderInline(t))
  }

  function RenderLines(ls: seq<Line>): (r: seq<Line>)
    ensures |r| == |ls|
  {
    seq(|ls|, k requires 0 <= k < |ls| => RenderLine(ls[k]))
  }

  function RenderAll(items: seq<string>): (r: seq<string>)
    ensures |r| == |items|
  {
    seq(|items|, k requires 0 <= k < |items| => RenderInline(items[k]))
  }

  /** A block as it is shown: paragraph text and list items inline-rendered. */
  function RenderBlock(b: Block): (r: Block)
    ensures r.List? <==> b.List?
    ensures r.List? ==> r.kind == b.kind && |r.items| == |b.items|
  {
    match b
    case Paragraph(t) => Paragraph(RenderInline(t))
    case List(k, items) => List(k, RenderAll(items))
  }

  function RenderBlocks(bs: seq<Block>): (r: seq<Block>)
    ensures |r| == |bs|
  {
    seq(|bs|, k requires 0 <= k < |bs| => RenderBlock(bs[k]))
  }

  /** Rendering keeps the grouping. */
  lemma RenderKeepsGrouping(bs: seq<Block>)
    requires WellGrouped(bs)
    ensures WellGrouped(RenderBlocks(bs))
  {
    var r := RenderBlocks(bs);
    forall i | 0 <= i < |r| && r[i].List? ensures r[i].items != [] {
      assert r[i] == RenderBlock(bs[i]);
    }
    forall i, j | 0 <= i && j == i + 1 && j < |r| && r[i].List? && r[j].List? ensures r[i].kind != r[j].kind {
      assert r[i] == RenderBlock(bs[i]) && r[j] == RenderBlock(bs[j]);
    }
  }

  lemma RenderLinesConcat(a: seq<Line>, b: seq<Line>)
    ensures RenderLines(a + b) == RenderLines(a) + RenderLines(b)
  {
  }

  lemma RenderBlockLines(b: Block)
    ensures LinesOf(RenderBlock(b)) == RenderLines(LinesOf(b))
  {
  }

  lemma RenderBlocksSnoc(bs: seq<Block>, b: Block)
    ensures RenderBlocks(bs + [b]) == RenderBlocks(bs) + [RenderBlock(b)]
  {
  }

  /** Rendering renders each line's text and keeps everything in place. */
  lemma {:induction false} RenderKeepsLines(bs: seq<Block>)
    ensures Lines(RenderBlocks(bs)) == RenderLines(Lines(bs))
  {
    if bs != [] {
      var init, last := bs[..|bs| - 1], bs[|bs| - 1];
      assert bs == init + [last];
      RenderKeepsLines(init);
      RenderBlocksSnoc(init, last);
      LinesSnoc(RenderBlocks(init), RenderBlock(last));
      LinesSnoc(init, last);
      RenderBlockLines(last);
      RenderLinesConcat(Lines(init), LinesOf(last));
    }
  }

  /** One text part: its non-blank lines, grouped into blocks and rendered. */
  method RenderTextPart(piece: string) returns (part: Part)
    ensures part.Text?
    ensures Lines(part.blocks) == RenderLines(Classified(ContentLines(piece)))
    ensures WellGrouped(part.blocks)
  {
    var blocks := BuildBlocks(ContentLines(piece));
    RenderKeepsLines(blocks);
    RenderKeepsGrouping(blocks);
    part := Text(RenderBlocks(blocks));
  }

  /** What a part of the fence split shows: a code part is the trimmed
      code; a text part has every non-blank line once, in order, rendered,
      in well-grouped blocks. */
  ghost predicate Shows(piece: string, isCode: bool, part: Part) {
    if isCode then part == Code(Trim(piece))
    else
      && part.Text?
      && Lines(part.blocks) == RenderLines(Classified(ContentLines(piece)))
      && WellGrouped(part.blocks)
  }

  /** Which positions of the fence split hold code: the odd ones. */
  function CodePositions(n: nat): (r: seq<bool>)
    ensures |r| == n
    ensures forall k :: 0 <= k < n ==> (r[k] <==> k % 2 == 1)
  {
    seq(n, k requires 0 <= k < n => k % 2 == 1)
  }

  /** The callback of `parts.map`: code blocks at odd indices. */
  method RenderPiece(piece: string, index: nat) returns (part: Part)
    ensures Shows(piece, index % 2 == 1, part)
  {
    if index % 2 == 1 {
      part := Code(Trim(piece));
    } else {
      part := RenderTextPart(piece);
    }
  }

  /** `MarkdownRenderer`: one part per piece of the fence split, code at the
      odd positions. */
  method RenderMarkdown(content: string) returns (parts: seq<Part>)
    ensures |parts| == |FenceSplit(content)|
    ensures forall k :: 0 <= k < |parts| ==> Shows(FenceSplit(content)[k], CodePositions(|parts|)[k], parts[k])
  {
    parts := RenderPieces(FenceSplit(content));
  }

  /** The `parts.map` over the pieces, each shown by its position. */
  method RenderPieces(pieces: seq<string>) returns (parts: seq<Part>)
    ensures |parts| == |pieces|
    ensures forall k :: 0 <= k < |parts| ==> Shows(pieces[k], CodePositions(|pieces|)[k], parts[k])
  {
    ghost var code := CodePositions(|pieces|);
    parts := [];
    for i := 0 to |pieces|
      invariant |parts| == i
      invariant forall k :: 0 <= k < i ==> Shows(pieces[k], code[k], parts[k])
    {
      var part := RenderPiece(pieces[i], i);
      parts := parts + [part];
    }
  }
}
