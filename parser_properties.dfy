/** What `parse_ranking_from_text` returns for text a ranker writes in the requested format,
    for prose that merely mentions labels, and for text with no label in it. */
module ParserProperties {
  import opened Wrappers
  import opened Text
  import opened RankingParser

  // ---- Scanning steps ------------------------------------------------------------------

  /** Scanning past indices where the table has no match changes nothing. */
  lemma {:induction false} ScanSkips(table: seq<Option<nat>>, i: nat, j: nat)
    requires Advancing(table) && i <= j <= |table|
    requires forall k :: i <= k < j ==> table[k].None?
    ensures ScanFrom(table, i) == ScanFrom(table, j)
    decreases j - i
  {
    if i < j {
      ScanSkips(table, i + 1, j);
    }
  }

  /** The bare pattern cannot match where there is no `R`. */
  lemma BareNeedsR(s: string, k: nat)
    requires k < |s| && s[k] != 'R'
    ensures MatchEnd(Bare, s, k).None?
  {
    NoLabelWithoutR(s, k);
  }

  /** The numbered pattern cannot match where there is no digit. */
  lemma NumberedNeedsDigit(s: string, k: nat)
    requires k < |s| && !IsDigit(s[k])
    ensures MatchEnd(Numbered, s, k).None?
  {
  }

  /** The sentinel does not occur at `j` when one of the characters it would cover differs. */
  lemma NoSentinelAt(s: string, j: nat, m: nat)
    requires j <= m < j + |Sentinel| <= |s| && s[m] != Sentinel[m - j]
    ensures !OccursAt(s, Sentinel, j)
  {
    assert s[j..j + |Sentinel|][m - j] == s[m];
  }

  /** Text without a colon holds no sentinel. */
  lemma NoColonNoSentinel(s: string)
    requires forall k :: 0 <= k < |s| ==> s[k] != ':'
    ensures forall j: nat :: !OccursAt(s, Sentinel, j)
  {
    forall j: nat | j + |Sentinel| <= |s|
      ensures !OccursAt(s, Sentinel, j)
    {
      NoSentinelAt(s, j, j + 13);
    }
  }

  /** Text whose colons all sit in its first 13 characters holds no sentinel: the sentinel's
      colon is its 14th character. */
  lemma EarlyColonsNoSentinel(s: string, n: nat)
    requires n < |Sentinel| && forall k :: n <= k < |s| ==> s[k] != ':'
    ensures forall j: nat :: !OccursAt(s, Sentinel, j)
  {
    forall j: nat | j + |Sentinel| <= |s|
      ensures !OccursAt(s, Sentinel, j)
    {
      NoSentinelAt(s, j, j + 13);
    }
  }

  /** A sentinel that ends past index `m` and begins before it would need an `F` at `m`, and
      `F` is only the first letter of the sentinel. */
  lemma NoSentinelAcross(s: string, j: nat, m: nat)
    requires j < m < j + |Sentinel| <= |s| && s[m] == 'F'
    ensures !OccursAt(s, Sentinel, j)
  {
    assert forall d :: 1 <= d < |Sentinel| ==> Sentinel[d] != 'F';
    NoSentinelAt(s, j, m);
  }

  /** A label holds no colon. */
  lemma LabelHasNoColon(x: string)
    requires IsLabel(x)
    ensures forall k :: 0 <= k < |x| ==> x[k] != ':'
  {
    assert forall k :: 0 <= k < 9 ==> x[k] == x[..9][k];
  }

  // ---- Text in the requested format ----------------------------------------------------

  /** One line of a ranking in the requested format: a newline, a number, a period, a space
      and the label of the letter. The number is not checked by the parser, so it is any
      digits. */
  datatype Entry = Entry(numeral: string, letter: char)

  predicate WellFormed(e: Entry)
  {
    && |e.numeral| > 0
    && (forall k :: 0 <= k < |e.numeral| ==> IsDigit(e.numeral[k]))
    && IsUpper(e.letter)
  }

  function EntryLine(e: Entry): string
  {
    "\n" + e.numeral + ". " + LabelOf(e.letter)
  }

  function Lines(es: seq<Entry>): string
  {
    if es == [] then "" else EntryLine(es[0]) + Lines(es[1..])
  }

  /** The labels of a list of entries, in order. */
  function EntryLabels(es: seq<Entry>): (ls: seq<string>)
    ensures |ls| == |es|
  {
    if es == [] then [] else [LabelOf(es[0].letter)] + EntryLabels(es[1..])
  }

  /** An entry line holds no colon. */
  lemma EntryLineHasNoColon(e: Entry)
    requires WellFormed(e)
    ensures forall k :: 0 <= k < |EntryLine(e)| ==> EntryLine(e)[k] != ':'
  {
    var line := EntryLine(e);
    var lab := LabelOf(e.letter);
    LabelHasNoColon(lab);
    forall k | 0 <= k < |line| ensures line[k] != ':' {
      if 1 <= k < 1 + |e.numeral| {
        assert line[k] == e.numeral[k - 1];
      } else if 3 + |e.numeral| <= k {
        assert line[k] == lab[k - 3 - |e.numeral|];
      }
    }
  }

  lemma {:induction false} LinesHaveNoColon(es: seq<Entry>)
    requires forall k :: 0 <= k < |es| ==> WellFormed(es[k])
    ensures forall k :: 0 <= k < |Lines(es)| ==> Lines(es)[k] != ':'
  {
    if es != [] {
      var line := EntryLine(es[0]);
      EntryLineHasNoColon(es[0]);
      LinesHaveNoColon(es[1..]);
      assert forall k :: 0 <= k < |Lines(es)| ==> Lines(es)[k] == (line + Lines(es[1..]))[k];
    }
  }

  /** What follows a prefix of a suffix. */
  lemma SuffixAfter(t: string, i: nat, u: string, rest: string)
    requires i <= |t| && t[i..] == u + rest
    ensures i + |u| <= |t| && t[i + |u|..] == rest
  {
    assert t[i + |u|..] == t[i..][|u|..];
  }

  /** Reading a string through one of its suffixes. */
  lemma SuffixChars(t: string, i: nat, u: string, rest: string)
    requires i <= |t| && t[i..] == u + rest
    ensures i + |u| <= |t| && t[i + |u|..] == rest
    ensures forall k :: 0 <= k < |u| ==> t[i + k] == u[k]
  {
    assert forall k :: 0 <= k < |u| ==> t[i..][k] == t[i + k];
    assert t[i..][|u|..] == rest;
  }

  /** The parts of an entry line, read through a suffix of the text that begins with it: the
      digits end at the period `a`, and the label begins at `a + 2`. */
  lemma EntryLineShape(t: string, i: nat, e: Entry, rest: string)
    requires WellFormed(e) && i <= |t| && t[i..] == EntryLine(e) + rest
    ensures var a := i + 1 + |e.numeral|;
      && |EntryLine(e)| == a + 12 - i && t[a + 12..] == rest
      && t[i] == '\n'
      && (forall k :: i + 1 <= k < a ==> IsDigit(t[k]))
      && t[a] == '.' && t[a + 1] == ' '
      && t[a + 2..a + 12] == LabelOf(e.letter) && LabelAt(t, a + 2)
  {
    var line := EntryLine(e);
    var lab := LabelOf(e.letter);
    var a := i + 1 + |e.numeral|;
    SuffixChars(t, i, line, rest);
    assert t[i] == line[0];
    forall k | i + 1 <= k < a ensures IsDigit(t[k]) {
      assert t[i + (k - i)] == line[k - i] == e.numeral[k - i - 1];
    }
    assert t[i + (a - i)] == line[a - i] == '.';
    assert t[i + (a + 1 - i)] == line[a + 1 - i] == ' ';
    forall k | 0 <= k < 10 ensures t[a + 2..a + 12][k] == lab[k] {
      assert t[i + (a + 2 - i + k)] == line[a + 2 - i + k] == lab[k];
    }
    assert t[a + 2..a + 12] == lab;
  }

  /** The numbered pattern matches an entry line from its number to its end, and not at the
      newline before it. */
  lemma EntryLineMatch(t: string, i: nat, e: Entry, rest: string)
    requires WellFormed(e) && i <= |t| && t[i..] == EntryLine(e) + rest
    ensures i + |EntryLine(e)| <= |t| && t[i + |EntryLine(e)|..] == rest
    ensures MatchEnd(Numbered, t, i).None?
    ensures MatchEnd(Numbered, t, i + 1) == Some(i + |EntryLine(e)|)
    ensures Kept(t, Span(i + 1, i + |EntryLine(e)|)) == LabelOf(e.letter)
  {
    EntryLineShape(t, i, e, rest);
    var a := i + 1 + |e.numeral|;
    var b := a + 2;
    DigitsEndOfRun(t, i + 1, a);
    LabelBeginsWithR(t, b);
    SpacesEndOfRun(t, a + 1, b);
    NumberedNeedsDigit(t, i);
    NumberedMatchAt(t, i + 1, a, b);
  }

  /** A scan that meets no match and then a match right after it. */
  lemma ScanStep(table: seq<Option<nat>>, i: nat, e: nat)
    requires Advancing(table) && i + 1 < |table|
    requires table[i].None? && table[i + 1] == Some(e)
    ensures ScanFrom(table, i) == [Span(i + 1, e)] + ScanFrom(table, e)
  {
    assert ScanFrom(table, i) == ScanFrom(table, i + 1);
  }

  /** Scanning from the start of an entry line: one span, then the rest of the text. */
  lemma EntryLineScan(t: string, i: nat, e: Entry, rest: string)
    requires WellFormed(e) && i <= |t| && t[i..] == EntryLine(e) + rest
    ensures i + |EntryLine(e)| <= |t| && t[i + |EntryLine(e)|..] == rest
    ensures var table := Matches(Numbered, t);
      && Advancing(table)
      && ScanFrom(table, i) == [Span(i + 1, i + |EntryLine(e)|)] + ScanFrom(table, i + |EntryLine(e)|)
    ensures Kept(t, Span(i + 1, i + |EntryLine(e)|)) == LabelOf(e.letter)
  {
    EntryLineMatch(t, i, e, rest);
    MatchesAdvance(Numbered, t);
    MatchesAt(Numbered, t, i);
    MatchesAt(Numbered, t, i + 1);
    ScanStep(Matches(Numbered, t), i, i + |EntryLine(e)|);
  }

  /** The first of the entry lines at `i`, and the lines after it. */
  lemma FirstLine(t: string, i: nat, es: seq<Entry>, gap: string)
    requires es != [] && i <= |t| && t[i..] == Lines(es) + gap
    requires forall k :: 0 <= k < |es| ==> WellFormed(es[k])
    ensures WellFormed(es[0]) && t[i..] == EntryLine(es[0]) + (Lines(es[1..]) + gap)
    ensures i + |EntryLine(es[0])| <= |t| && t[i + |EntryLine(es[0])|..] == Lines(es[1..]) + gap
    ensures forall k :: 0 <= k < |es[1..]| ==> WellFormed(es[1..][k])
    ensures EntryLabels(es) == [LabelOf(es[0].letter)] + EntryLabels(es[1..])
  {
    assert Lines(es) == EntryLine(es[0]) + Lines(es[1..]);
    assert Lines(es) + gap == EntryLine(es[0]) + (Lines(es[1..]) + gap);
    SuffixAfter(t, i, EntryLine(es[0]), Lines(es[1..]) + gap);
    forall k | 0 <= k < |es[1..]| ensures WellFormed(es[1..][k]) {
      assert es[1..][k] == es[k + 1];
    }
  }

  /** The numbered matches the scan finds from `i` on in `t`, read as text, are `ls`. */
  predicate ScansTo(t: string, i: nat, ls: seq<string>)
  {
    && Advancing(Matches(Numbered, t))
    && i <= |t|
    && Within(t, ScanFrom(Matches(Numbered, t), i))
    && KeptAll(t, ScanFrom(Matches(Numbered, t), i)) == ls
  }

  /** An entry line adds its label in front of what the scan keeps after it. */
  lemma ScanLinesStep(t: string, i: nat, e: Entry, rest: string, after: seq<string>)
    requires WellFormed(e) && i <= |t| && t[i..] == EntryLine(e) + rest
    requires i + |EntryLine(e)| <= |t|
    requires ScansTo(t, i + |EntryLine(e)|, after)
    ensures ScansTo(t, i, [LabelOf(e.letter)] + after)
  {
    var table := Matches(Numbered, t);
    var next := i + |EntryLine(e)|;
    EntryLineScan(t, i, e, rest);
    var spans, later := ScanFrom(table, i), ScanFrom(table, next);
    assert spans == [Span(i + 1, next)] + later;
    assert spans[0] == Span(i + 1, next) && spans[1..] == later;
  }

  /** The numbered pattern finds nothing in a digit-free end of the text. */
  lemma ScanDigitFree(t: string, i: nat)
    requires i <= |t| && forall k :: i <= k < |t| ==> !IsDigit(t[k])
    ensures Advancing(Matches(Numbered, t)) && ScanFrom(Matches(Numbered, t), i) == []
  {
    var table := Matches(Numbered, t);
    MatchesAdvance(Numbered, t);
    forall k | i <= k < |t| ensures table[k].None? {
      MatchesAt(Numbered, t, k);
      NumberedNeedsDigit(t, k);
    }
    ScanSkips(table, i, |t|);
  }

  /** Scanning entry lines for numbered matches keeps each entry's label, in order; text
      without digits after the lines holds no numbered match. */
  lemma {:induction false} ScanLines(t: string, i: nat, es: seq<Entry>, gap: string)
    requires i <= |t| && t[i..] == Lines(es) + gap
    requires forall k :: 0 <= k < |es| ==> WellFormed(es[k])
    requires forall k :: 0 <= k < |gap| ==> !IsDigit(gap[k])
    ensures ScansTo(t, i, EntryLabels(es))
    decreases |es|
  {
    var table := Matches(Numbered, t);
    MatchesAdvance(Numbered, t);
    if es == [] {
      forall k | i <= k < |t| ensures !IsDigit(t[k]) {
        assert t[k] == t[i..][k - i];
      }
      ScanDigitFree(t, i);
    } else {
      var e, more := es[0], es[1..];
      FirstLine(t, i, es, gap);
      ScanLines(t, i + |EntryLine(e)|, more, gap);
      ScanLinesStep(t, i, e, Lines(more) + gap, EntryLabels(more));
    }
  }

  // ---- The sentinel's section ----------------------------------------------------------

  /** The section is pinned down by where the sentinel does and does not occur. */
  lemma SectionIs(s: string, lo: nat, hi: nat)
    requires |Sentinel| <= lo <= hi <= |s| && OccursAt(s, Sentinel, lo - |Sentinel|)
    requires forall j: nat :: j < lo - |Sentinel| ==> !OccursAt(s, Sentinel, j)
    requires forall j: nat :: lo <= j < hi ==> !OccursAt(s, Sentinel, j)
    requires hi == |s| || OccursAt(s, Sentinel, hi)
    ensures SentinelSection(s) == Some(Section(lo, hi))
  {
    SectionExists(s);
    SectionBounds(s);
    var sec := SentinelSection(s).value;
    SameFirst(s, Sentinel, lo - |Sentinel|, sec.lo - |Sentinel|);
    SameNext(s, Sentinel, lo, hi, sec.hi);
  }

  /** There is only one first occurrence. */
  lemma SameFirst(s: string, t: string, a: nat, b: nat)
    requires OccursAt(s, t, a) && forall j: nat :: j < a ==> !OccursAt(s, t, j)
    requires OccursAt(s, t, b) && forall j: nat :: j < b ==> !OccursAt(s, t, j)
    ensures a == b
  {
  }

  /** There is only one next occurrence from `lo` on, or else the end of the text. */
  lemma SameNext(s: string, t: string, lo: nat, h1: nat, h2: nat)
    requires lo <= h1 <= |s| && (h1 == |s| || OccursAt(s, t, h1))
    requires forall j: nat :: lo <= j < h1 ==> !OccursAt(s, t, j)
    requires lo <= h2 <= |s| && (h2 == |s| || OccursAt(s, t, h2))
    requires forall j: nat :: lo <= j < h2 ==> !OccursAt(s, t, j)
    ensures h1 == h2
  {
  }

  /** No sentinel begins in `pre` when `pre` holds none and a sentinel follows it. */
  lemma NoSentinelInPrefix(pre: string, rest: string, j: nat)
    requires forall m: nat :: !OccursAt(pre, Sentinel, m)
    requires OccursAt(rest, Sentinel, 0) && j < |pre|
    ensures !OccursAt(pre + rest, Sentinel, j)
  {
    var s := pre + rest;
    assert s[|pre|] == rest[0] == Sentinel[0];
    if j + |Sentinel| <= |pre| {
      assert s[j..j + |Sentinel|] == pre[j..j + |Sentinel|];
      assert !OccursAt(pre, Sentinel, j);
    } else if j + |Sentinel| <= |s| {
      NoSentinelAcross(s, j, |pre|);
    }
  }

  /** No sentinel begins inside a colon-free stretch `s[lo..hi]` that is followed by the end
      of the text or by a sentinel. */
  lemma NoSentinelInStretch(s: string, lo: nat, hi: nat, j: nat)
    requires lo <= j < hi <= |s|
    requires forall k :: lo <= k < hi ==> s[k] != ':'
    requires hi == |s| || OccursAt(s, Sentinel, hi)
    ensures !OccursAt(s, Sentinel, j)
  {
    if j + |Sentinel| <= hi {
      NoSentinelAt(s, j, j + 13);
    } else if j + |Sentinel| <= |s| {
      assert s[hi..hi + |Sentinel|][0] == s[hi];
      NoSentinelAcross(s, j, hi);
    }
  }

  // ---- Round trips ---------------------------------------------------------------------

  /** Text made of whitespace only, such as the newline that ends a reply. */
  predicate Blank(gap: string)
  {
    gap == [] || (IsSpace(gap[0]) && Blank(gap[1..]))
  }

  /** Whitespace is no digit, no colon and no `R`. */
  lemma {:induction false} BlankChars(gap: string)
    requires Blank(gap)
    ensures forall k :: 0 <= k < |gap| ==> !IsDigit(gap[k]) && gap[k] != ':' && gap[k] != 'R'
  {
    if gap != [] {
      BlankChars(gap[1..]);
      forall k | 1 <= k < |gap| ensures !IsDigit(gap[k]) && gap[k] != ':' && gap[k] != 'R' {
        assert gap[k] == gap[1..][k - 1];
      }
    }
  }

  /** The text a ranker writes when it follows the requested format: free text without the
      sentinel, the sentinel, the entry lines, whitespace, and then either nothing or a second
      sentinel with anything after it. */
  function Formatted(pre: string, es: seq<Entry>, gap: string, tail: string): string
  {
    pre + Sentinel + (Lines(es) + gap) + tail
  }

  /** The four pieces of a concatenation, read back by slicing. */
  lemma Pieces(a: string, b: string, c: string, d: string)
    ensures var s := a + b + c + d;
      && s == a + (b + c + d)
      && s[|a|..|a| + |b|] == b
      && s[|a| + |b|..|a| + |b| + |c|] == c
      && s[|a| + |b| + |c|..] == d
  {
  }

  /** No sentinel begins in `pre` when `pre` holds none and a sentinel follows it. */
  lemma CleanPrefix(pre: string, rest: string)
    requires forall m: nat :: !OccursAt(pre, Sentinel, m)
    requires OccursAt(rest, Sentinel, 0)
    ensures forall j: nat :: j < |pre| ==> !OccursAt(pre + rest, Sentinel, j)
  {
    forall j: nat | j < |pre| ensures !OccursAt(pre + rest, Sentinel, j) {
      NoSentinelInPrefix(pre, rest, j);
    }
  }

  /** No sentinel begins in a colon-free stretch followed by the end or by a sentinel. */
  lemma CleanStretch(s: string, lo: nat, hi: nat)
    requires lo <= hi <= |s|
    requires forall k :: lo <= k < hi ==> s[k] != ':'
    requires hi == |s| || OccursAt(s, Sentinel, hi)
    ensures forall j: nat :: lo <= j < hi ==> !OccursAt(s, Sentinel, j)
  {
    forall j: nat | lo <= j < hi ensures !OccursAt(s, Sentinel, j) {
      NoSentinelInStretch(s, lo, hi, j);
    }
  }

  /** A slice equal to a colon-free string is colon-free. */
  lemma SliceHasNoColon(s: string, lo: nat, hi: nat, u: string)
    requires lo <= hi <= |s| && s[lo..hi] == u
    requires forall k :: 0 <= k < |u| ==> u[k] != ':'
    ensures forall k :: lo <= k < hi ==> s[k] != ':'
  {
    forall k | lo <= k < hi ensures s[k] != ':' {
      assert s[k] == u[k - lo];
    }
  }

  /** A suffix that is empty or begins with the sentinel. */
  lemma EndsOrSentinel(s: string, hi: nat, tail: string)
    requires hi <= |s| && s[hi..] == tail
    requires tail == [] || OccursAt(tail, Sentinel, 0)
    ensures hi == |s| || OccursAt(s, Sentinel, hi)
  {
    if tail != [] {
      assert s[hi..hi + |Sentinel|] == tail[..|Sentinel|];
    }
  }

  /** Entry lines followed by whitespace hold no colon. */
  lemma SectionHasNoColon(es: seq<Entry>, gap: string)
    requires forall k :: 0 <= k < |es| ==> WellFormed(es[k])
    requires Blank(gap)
    ensures forall k :: 0 <= k < |Lines(es) + gap| ==> (Lines(es) + gap)[k] != ':'
  {
    var lines := Lines(es);
    LinesHaveNoColon(es);
    BlankChars(gap);
    forall k | 0 <= k < |lines + gap| ensures (lines + gap)[k] != ':' {
      if k >= |lines| {
        assert (lines + gap)[k] == gap[k - |lines|];
      }
    }
  }

  /** Where the section of a formatted ranking lies: exactly over its entry lines. */
  lemma FormattedSection(pre: string, es: seq<Entry>, gap: string, tail: string)
    requires forall j: nat :: !OccursAt(pre, Sentinel, j)
    requires forall k :: 0 <= k < |es| ==> WellFormed(es[k])
    requires Blank(gap)
    requires tail == [] || OccursAt(tail, Sentinel, 0)
    ensures |pre| + |Sentinel| + |Lines(es) + gap| <= |Formatted(pre, es, gap, tail)|
    ensures SentinelSection(Formatted(pre, es, gap, tail)).Some?
    ensures SentinelSection(Formatted(pre, es, gap, tail)).value.lo == |pre| + |Sentinel|
    ensures SentinelSection(Formatted(pre, es, gap, tail)).value.hi == |pre| + |Sentinel| + |Lines(es) + gap|
    ensures Formatted(pre, es, gap, tail)[|pre| + |Sentinel|..|pre| + |Sentinel| + |Lines(es) + gap|] == Lines(es) + gap
  {
    var lines := Lines(es);
    var body := lines + gap;
    var s := Formatted(pre, es, gap, tail);
    var lo := |pre| + |Sentinel|;
    var hi := lo + |body|;
    Pieces(pre, Sentinel, body, tail);
    CleanPrefix(pre, Sentinel + body + tail);
    EndsOrSentinel(s, hi, tail);
    SectionHasNoColon(es, gap);
    SliceHasNoColon(s, lo, hi, body);
    CleanStretch(s, lo, hi);
    SectionIs(s, lo, hi);
  }


  /** `ScanLines` over a text that consists of entry lines and whitespace only. */
  lemma ScanAllLines(es: seq<Entry>, gap: string)
    requires forall k :: 0 <= k < |es| ==> WellFormed(es[k])
    requires Blank(gap)
    ensures Advancing(Matches(Numbered, Lines(es) + gap))
    ensures Within(Lines(es) + gap, ScanFrom(Matches(Numbered, Lines(es) + gap), 0))
    ensures KeptAll(Lines(es) + gap, ScanFrom(Matches(Numbered, Lines(es) + gap), 0)) == EntryLabels(es)
  {
    var body := Lines(es) + gap;
    assert body[0..] == body;
    BlankChars(gap);
    ScanLines(body, 0, es, gap);
  }

  /** The numbered matches of entry lines followed by whitespace are the entries' labels. */
  lemma NumberedLines(es: seq<Entry>, gap: string)
    requires forall k :: 0 <= k < |es| ==> WellFormed(es[k])
    requires Blank(gap)
    ensures FindAll(Numbered, Lines(es) + gap) == EntryLabels(es)
  {
    ScanAllLines(es, gap);
    KeptAllIsFindAll(Numbered, Lines(es) + gap);
  }

  /** A formatted ranking is parsed from its entry lines and the whitespace after them. */
  lemma ParseFormattedLines(pre: string, es: seq<Entry>, gap: string, tail: string)
    requires forall j: nat :: !OccursAt(pre, Sentinel, j)
    requires forall k :: 0 <= k < |es| ==> WellFormed(es[k])
    requires Blank(gap)
    requires tail == [] || OccursAt(tail, Sentinel, 0)
    ensures var body := Lines(es) + gap;
      ParseRanking(Formatted(pre, es, gap, tail))
        == if |FindAll(Numbered, body)| > 0 then FindAll(Numbered, body) else FindAll(Bare, body)
  {
    FormattedSection(pre, es, gap, tail);
    var lo := |pre| + |Sentinel|;
    ParseWithSentinel(Formatted(pre, es, gap, tail), lo, lo + |Lines(es) + gap|);
  }

  /** There is nothing to find in the empty text. */
  lemma FindNothing(p: Pattern)
    ensures FindAll(p, "") == []
  {
  }

  /** Without entries there are no lines, and whitespace holds no label, so the fallback
      search finds nothing either. */
  lemma NoEntriesNoLabels(es: seq<Entry>, gap: string)
    requires forall k :: 0 <= k < |es| ==> WellFormed(es[k])
    requires Blank(gap)
    ensures |FindAll(Numbered, Lines(es) + gap)| == 0 ==> FindAll(Bare, Lines(es) + gap) == EntryLabels(es)
  {
    if es == [] {
      assert Lines(es) + gap == gap;
      BlankChars(gap);
      forall k | 0 <= k < |gap| ensures !LabelAt(gap, k) {
        NoLabelWithoutR(gap, k);
      }
      NoLabelsFindNothing(Bare, gap);
    } else {
      NumberedLines(es, gap);
    }
  }

  /** Parsing a ranking written in the requested format gives back its labels, in order,
      with duplicates and any letters kept as written, whatever whitespace ends the lines. */
  lemma ParseFormatted(pre: string, es: seq<Entry>, gap: string, tail: string)
    requires forall j: nat :: !OccursAt(pre, Sentinel, j)
    requires forall k :: 0 <= k < |es| ==> WellFormed(es[k])
    requires Blank(gap)
    requires tail == [] || OccursAt(tail, Sentinel, 0)
    ensures ParseRanking(Formatted(pre, es, gap, tail)) == EntryLabels(es)
  {
    NumberedLines(es, gap);
    NoEntriesNoLabels(es, gap);
    ParseFormattedLines(pre, es, gap, tail);
  }

  /** A search finds nothing in text where no label begins. */
  lemma NoLabelsFindNothing(p: Pattern, s: string)
    requires forall k :: 0 <= k < |s| ==> !LabelAt(s, k)
    ensures FindAll(p, s) == []
  {
    if |Scan(p, s)| > 0 {
      FirstMatchIsLabel(p, s);
      assert false;
    }
  }

  /** The first match of a search ends with a label. */
  lemma FirstMatchIsLabel(p: Pattern, s: string)
    requires |Scan(p, s)| > 0
    ensures Scan(p, s)[0].end - 10 < |s| && LabelAt(s, Scan(p, s)[0].end - 10)
  {
    ScanSound(p, s);
    assert MatchEnd(p, s, Scan(p, s)[0].start) == Some(Scan(p, s)[0].end);
  }

  /** A label in a slice of the text is a label of the text. */
  lemma LabelInSlice(s: string, lo: nat, hi: nat, k: nat)
    requires lo <= hi <= |s| && LabelAt(s[lo..hi], k)
    ensures LabelAt(s, lo + k)
  {
    var t := s[lo..hi];
    assert k + 10 <= |t|;
    var u, w := t[k..k + 10], s[lo + k..lo + k + 10];
    forall m | 0 <= m < 10 ensures u[m] == w[m] {
      assert t[k + m] == s[lo + k + m];
    }
    assert u == w;
  }

  /** Text in which no label begins parses as the empty ranking, whatever its sentinels. */
  lemma ParseNoLabels(text: string)
    requires forall k :: 0 <= k < |text| ==> !LabelAt(text, k)
    ensures ParseRanking(text) == []
  {
    match SentinelSection(text)
    case None =>
      NoLabelsFindNothing(Bare, text);
    case Some(sec) =>
      var section := text[sec.lo..sec.hi];
      forall k | 0 <= k < |section| ensures !LabelAt(section, k) {
        if LabelAt(section, k) {
          LabelInSlice(text, sec.lo, sec.hi, k);
        }
      }
      NoLabelsFindNothing(Numbered, section);
      NoLabelsFindNothing(Bare, section);
  }

  /** Text without the letter `R` holds no label, so it parses as the empty ranking. */
  lemma ParseWithoutR(text: string)
    requires 'R' !in text
    ensures ParseRanking(text) == []
  {
    forall k | 0 <= k < |text| ensures !LabelAt(text, k) {
      NoLabelWithoutR(text, k);
    }
    ParseNoLabels(text);
  }

  /** A text whose only `R` begins a label holds just that label. */
  lemma FindSingleLabel(pre: string, x: string, post: string)
    requires 'R' !in pre && 'R' !in post && IsLabel(x)
    ensures FindAll(Bare, pre + x + post) == [x]
  {
    var s := pre + x + post;
    var table := Matches(Bare, s);
    var at := |pre|;
    MatchesAdvance(Bare, s);
    forall k | 0 <= k < at ensures table[k].None? {
      assert s[k] == pre[k];
      MatchesAt(Bare, s, k);
      BareNeedsR(s, k);
    }
    ScanSkips(table, 0, at);
    assert s[at..at + 10] == x;
    MatchesAt(Bare, s, at);
    forall k | at + 10 <= k < |s| ensures table[k].None? {
      assert s[k] == post[k - at - 10];
      MatchesAt(Bare, s, k);
      BareNeedsR(s, k);
    }
    ScanSkips(table, at + 10, |s|);
    assert ScanFrom(table, 0) == [Span(at, at + 10)];
    KeptAllIsFindAll(Bare, s);
  }

  /** A text made of one label between text with no `R`, whose colons all sit before the
      label's 14th character, is parsed as that one label. */
  lemma ParseSingleLabel(pre: string, x: string, post: string)
    requires |pre| < |Sentinel| && 'R' !in pre && IsLabel(x) && 'R' !in post && ':' !in post
    ensures ParseRanking(pre + x + post) == [x]
  {
    var s := pre + x + post;
    LabelHasNoColon(x);
    forall k | |pre| <= k < |s| ensures s[k] != ':' {
      if k < |pre| + 10 {
        assert s[k] == x[k - |pre|];
      } else {
        assert s[k] == post[k - |pre| - 10];
      }
    }
    EarlyColonsNoSentinel(s, |pre|);
    ParseWithoutSentinel(s);
    FindSingleLabel(pre, x, post);
  }

  /** Text without an `R` holds no sentinel, whose seventh character is `R`. */
  lemma NoSentinelWithoutR(pre: string)
    requires 'R' !in pre
    ensures forall m: nat :: !OccursAt(pre, Sentinel, m)
  {
    forall m: nat | m + |Sentinel| <= |pre| ensures !OccursAt(pre, Sentinel, m) {
      NoSentinelAt(pre, m, m + 6);
    }
  }

  /** After the first sentinel, a text with no colon runs to the end as the sentinel's
      section. */
  lemma SectionToEnd(pre: string, section: string)
    requires 'R' !in pre
    requires forall k :: 0 <= k < |section| ==> section[k] != ':'
    ensures SentinelSection(pre + Sentinel + section)
      == Some(Section(|pre| + |Sentinel|, |pre| + |Sentinel| + |section|))
  {
    var rest := Sentinel + section;
    var s := pre + rest;
    var lo := |pre| + |Sentinel|;
    assert pre + Sentinel + section == s;
    assert rest[0..|Sentinel|] == Sentinel;
    assert s[|pre|..lo] == Sentinel;
    NoSentinelWithoutR(pre);
    forall j: nat | j < |pre| ensures !OccursAt(s, Sentinel, j) {
      NoSentinelInPrefix(pre, rest, j);
    }
    forall k | lo <= k < |s| ensures s[k] != ':' {
      assert s[k] == section[k - lo];
    }
    forall j: nat | lo <= j < |s| ensures !OccursAt(s, Sentinel, j) {
      NoSentinelInStretch(s, lo, |s|, j);
    }
    SectionIs(s, lo, |s|);
  }

  /** A label after the only sentinel, with no `R`, colon or digit elsewhere in the section,
      is the one label parsed, whatever stands before the sentinel without an `R`. */
  lemma ParseLabelAfterSentinel(pre: string, mid: string, x: string, post: string)
    requires 'R' !in pre && IsLabel(x)
    requires forall k :: 0 <= k < |mid| ==> mid[k] != 'R' && mid[k] != ':' && !IsDigit(mid[k])
    requires forall k :: 0 <= k < |post| ==> post[k] != 'R' && post[k] != ':' && !IsDigit(post[k])
    ensures ParseRanking(pre + Sentinel + (mid + x + post)) == [x]
  {
    var section := mid + x + post;
    var s := pre + Sentinel + section;
    var lo := |pre| + |Sentinel|;
    LabelHasNoColon(x);
    forall k | 0 <= k < |section|
      ensures section[k] != ':' && !IsDigit(section[k])
    {
      if k < |mid| {
        assert section[k] == mid[k];
      } else if k < |mid| + 10 {
        assert section[k] == x[k - |mid|];
        if k - |mid| < 9 {
          assert x[k - |mid|] == x[..9][k - |mid|];
        }
      } else {
        assert section[k] == post[k - |mid| - 10];
      }
    }
    SectionToEnd(pre, section);
    ParseWithSentinel(s, lo, |s|);
    assert s[lo..|s|] == section;
    ScanDigitFree(section, 0);
    KeptAllIsFindAll(Numbered, section);
    FindSingleLabel(mid, x, post);
  }

  /** The sentinel followed by the numbered lines `1. Response x` and `2. Response y` gives
      the two labels in that order, also when `x` and `y` are the same letter. */
  lemma ParseTwoLines(x: char, y: char)
    requires IsUpper(x) && IsUpper(y)
    ensures ParseRanking(Sentinel + "\n1. " + LabelOf(x) + "\n2. " + LabelOf(y)) == [LabelOf(x), LabelOf(y)]
  {
    var es := [Entry("1", x), Entry("2", y)];
    assert Lines(es) == "\n1. " + LabelOf(x) + "\n2. " + LabelOf(y) by {
      assert Lines(es[1..][1..]) == "";
    }
    assert Lines(es) + "" == Lines(es);
    assert Formatted("", es, "", "") == Sentinel + "\n1. " + LabelOf(x) + "\n2. " + LabelOf(y);
    ParseFormatted("", es, "", "");
    assert EntryLabels(es[1..][1..]) == [];
  }
}
