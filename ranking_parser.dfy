/** `parse_ranking_from_text`: extract the ordered list of `Response X` labels from a ranker's
    free-form answer. It never fails; it degrades from the numbered list after the
    `FINAL RANKING:` sentinel, to any label in that section, to any label in the whole text.

    The two regular expressions are scanned by hand, the way `re.findall` does: from left to
    right, taking the leftmost match, resuming the search where that match ends. */
module RankingParser {
  import opened Wrappers
  import opened Text

  const Sentinel: string := "FINAL RANKING:"
  const LabelPrefix: string := "Response "

  /** `[A-Z]`. */
  predicate IsUpper(c: char) { 'A' <= c <= 'Z' }

  /** `\d`, taken as the ASCII digits. */
  predicate IsDigit(c: char) { '0' <= c <= '9' }

  /** `\s`. */
  predicate IsSpace(c: char) { IsWhitespace(c) }

  /** A parsed label: `Response ` and one upper-case letter. */
  predicate IsLabel(x: string)
  {
    |x| == 10 && x[..9] == LabelPrefix && IsUpper(x[9])
  }

  /** The label of a letter. */
  function LabelOf(c: char): (x: string)
    ensures |x| == 10 && x[9] == c
    ensures IsUpper(c) <==> IsLabel(x)
  {
    assert (LabelPrefix + [c])[..9] == LabelPrefix;
    LabelPrefix + [c]
  }

  /** The pattern `Response [A-Z]` matches at index `i`. */
  predicate LabelAt(s: string, i: nat)
  {
    i + 10 <= |s| && IsLabel(s[i..i + 10])
  }

  /** A label begins with the letter `R`. */
  lemma LabelBeginsWithR(s: string, i: nat)
    requires LabelAt(s, i)
    ensures s[i] == 'R'
  {
    assert s[i..i + 10][..9][0] == LabelPrefix[0];
  }

  /** So no label begins where there is no `R`. */
  lemma NoLabelWithoutR(s: string, i: nat)
    requires i < |s| && s[i] != 'R'
    ensures !LabelAt(s, i)
  {
    if LabelAt(s, i) {
      LabelBeginsWithR(s, i);
    }
  }

  /** End of the longest run of digits starting at `i`. */
  function DigitsEnd(s: string, i: nat): (j: nat)
    requires i <= |s|
    ensures i <= j <= |s|
    ensures j == |s| || !IsDigit(s[j])
    decreases |s| - i
  {
    if i < |s| && IsDigit(s[i]) then DigitsEnd(s, i + 1) else i
  }

  /** End of the longest run of whitespace starting at `i`. */
  function SpacesEnd(s: string, i: nat): (j: nat)
    requires i <= |s|
    ensures i <= j <= |s|
    ensures j == |s| || !IsSpace(s[j])
    decreases |s| - i
  {
    if i < |s| && IsSpace(s[i]) then SpacesEnd(s, i + 1) else i
  }

  /** Everything `DigitsEnd` passes over is a digit. */
  lemma {:induction false} DigitsRun(s: string, i: nat)
    requires i <= |s|
    ensures forall k :: i <= k < DigitsEnd(s, i) ==> IsDigit(s[k])
    decreases |s| - i
  {
    if i < |s| && IsDigit(s[i]) {
      DigitsRun(s, i + 1);
    }
  }

  /** Everything `SpacesEnd` passes over is whitespace. */
  lemma {:induction false} SpacesRun(s: string, i: nat)
    requires i <= |s|
    ensures forall k :: i <= k < SpacesEnd(s, i) ==> IsSpace(s[k])
    decreases |s| - i
  {
    if i < |s| && IsSpace(s[i]) {
      SpacesRun(s, i + 1);
    }
  }

  /** A run of digits that stops at a non-digit is the one `DigitsEnd` finds. */
  lemma {:induction false} DigitsEndOfRun(s: string, i: nat, j: nat)
    requires i <= j < |s| && !IsDigit(s[j])
    requires forall k :: i <= k < j ==> IsDigit(s[k])
    ensures DigitsEnd(s, i) == j
    decreases j - i
  {
    if i < j {
      DigitsEndOfRun(s, i + 1, j);
    }
  }

  /** A run of whitespace that stops at other text is the one `SpacesEnd` finds. */
  lemma {:induction false} SpacesEndOfRun(s: string, i: nat, j: nat)
    requires i <= j < |s| && !IsSpace(s[j])
    requires forall k :: i <= k < j ==> IsSpace(s[k])
    ensures SpacesEnd(s, i) == j
    decreases j - i
  {
    if i < j {
      SpacesEndOfRun(s, i + 1, j);
    }
  }

  /** The two patterns the parser uses: `Response [A-Z]` and `\d+\.\s*Response [A-Z]`. */
  datatype Pattern = Bare | Numbered

  /** `\d+\.\s*Response [A-Z]` matches the text from `i` to `e`, split at the period `a`
      and the label `b`; a relational reading of the regular expression. */
  ghost predicate NumberedShape(s: string, i: nat, a: nat, b: nat, e: nat)
  {
    && i < a < b <= |s| && e == b + 10
    && (forall k :: i <= k < a ==> IsDigit(s[k]))
    && s[a] == '.'
    && (forall k :: a + 1 <= k < b ==> IsSpace(s[k]))
    && LabelAt(s, b)
  }

  /** The end of the match of pattern `p` that starts at index `i`, if there is one. */
  function MatchEnd(p: Pattern, s: string, i: nat): (r: Option<nat>)
    requires i <= |s|
    ensures r.Some? ==> i + 10 <= r.value <= |s| && LabelAt(s, r.value - 10)
  {
    match p
    case Bare => if LabelAt(s, i) then Some(i + 10) else None
    case Numbered =>
      var a := DigitsEnd(s, i);
      if i < a < |s| && s[a] == '.' then
        var b := SpacesEnd(s, a + 1);
        if LabelAt(s, b) then Some(b + 10) else None
      else None
  }

  /** The numbered pattern matches at `i` exactly when the text has its shape there, and that
      shape is unique: greedy or backtracking matching find the same match. */
  lemma NumberedMatchIsShape(s: string, i: nat, a: nat, b: nat, e: nat)
    requires i <= |s|
    ensures NumberedShape(s, i, a, b, e) ==> MatchEnd(Numbered, s, i) == Some(e)
    ensures MatchEnd(Numbered, s, i) == Some(e) ==> NumberedShape(s, i, DigitsEnd(s, i), SpacesEnd(s, DigitsEnd(s, i) + 1), e)
  {
    if NumberedShape(s, i, a, b, e) {
      LabelBeginsWithR(s, b);
      DigitsEndOfRun(s, i, a);
      SpacesEndOfRun(s, a + 1, b);
    }
    DigitsRun(s, i);
    if DigitsEnd(s, i) < |s| {
      SpacesRun(s, DigitsEnd(s, i) + 1);
    }
  }

  /** The numbered pattern matches at `i` when the digit run from `i` ends at a period, and
      the whitespace run after the period ends at a label. */
  lemma NumberedMatchAt(s: string, i: nat, a: nat, b: nat)
    requires i < a < |s| && DigitsEnd(s, i) == a && s[a] == '.'
    requires SpacesEnd(s, a + 1) == b && LabelAt(s, b)
    ensures MatchEnd(Numbered, s, i) == Some(b + 10)
  {
  }

  /** The ends of the pattern's matches at the indices from `i` on. */
  function MatchesFrom(p: Pattern, s: string, i: nat): (table: seq<Option<nat>>)
    requires i <= |s|
    ensures |table| == |s| - i
    decreases |s| - i
  {
    if i == |s| then [] else [MatchEnd(p, s, i)] + MatchesFrom(p, s, i + 1)
  }

  /** For each index of the text, the end of the pattern's match that starts there. */
  function Matches(p: Pattern, s: string): (table: seq<Option<nat>>)
    ensures |table| == |s|
  {
    MatchesFrom(p, s, 0)
  }

  lemma {:induction false} MatchesFromAt(p: Pattern, s: string, i: nat, j: nat)
    requires i <= j < |s|
    ensures MatchesFrom(p, s, i)[j - i] == MatchEnd(p, s, j)
    decreases j - i
  {
    if i < j {
      MatchesFromAt(p, s, i + 1, j);
      assert MatchesFrom(p, s, i)[j - i] == MatchesFrom(p, s, i + 1)[j - i - 1];
    }
  }

  /** The table holds, at each index, the end of the match that starts there. */
  lemma MatchesAt(p: Pattern, s: string, j: nat)
    requires j < |s|
    ensures Matches(p, s)[j] == MatchEnd(p, s, j)
  {
    MatchesFromAt(p, s, 0, j);
  }

  /** A match table: every match is at least a label long and ends within the text. */
  predicate Advancing(table: seq<Option<nat>>)
  {
    forall i :: 0 <= i < |table| && table[i].Some? ==> i + 10 <= table[i].value <= |table|
  }

  lemma MatchesAdvance(p: Pattern, s: string)
    ensures Advancing(Matches(p, s))
  {
    forall i | 0 <= i < |s| && Matches(p, s)[i].Some?
      ensures i + 10 <= Matches(p, s)[i].value <= |s|
    {
      MatchesAt(p, s, i);
    }
  }

  /** A match found by the scanner: its first index and the index just past it. */
  datatype Span = Span(start: nat, end: nat)

  /** The loop of `re.finditer` from index `i`: at each index look the match up; on a match
      record it and resume at its end, otherwise move one character on. */
  function ScanFrom(table: seq<Option<nat>>, i: nat): (spans: seq<Span>)
    requires Advancing(table) && i <= |table|
    ensures forall k :: 0 <= k < |spans| ==>
      && i <= spans[k].start
      && spans[k].start + 10 <= spans[k].end <= |table|
      && table[spans[k].start] == Some(spans[k].end)
    ensures forall k :: 0 <= k < |spans| - 1 ==> spans[k].end <= spans[k + 1].start
    decreases |table| - i
  {
    if i == |table| then []
    else match table[i]
      case Some(e) => [Span(i, e)] + ScanFrom(table, e)
      case None => ScanFrom(table, i + 1)
  }

  /** Every place at or after `i` where the table has a match lies in some returned span, the
      `k`-th: it is either returned itself or swallowed by a match that began earlier. */
  lemma {:induction false} ScanComplete(table: seq<Option<nat>>, i: nat, j: nat) returns (k: nat)
    requires Advancing(table) && i <= j < |table| && table[j].Some?
    ensures k < |ScanFrom(table, i)| && ScanFrom(table, i)[k].start <= j < ScanFrom(table, i)[k].end
    decreases |table| - i
  {
    match table[i]
    case Some(e) =>
      assert ScanFrom(table, i) == [Span(i, e)] + ScanFrom(table, e);
      if j < e {
        k := 0;
      } else {
        var k' := ScanComplete(table, e, j);
        k := k' + 1;
      }
    case None =>
      assert ScanFrom(table, i) == ScanFrom(table, i + 1);
      k := ScanComplete(table, i + 1, j);
  }

  /** The text a span keeps: its label, that is its last ten characters. For the numbered
      pattern this is what `re.search(r'Response [A-Z]', m)` finds in the match `m`. */
  function Kept(s: string, sp: Span): string
    requires sp.start + 10 <= sp.end <= |s|
  {
    s[sp.end - 10..sp.end]
  }

  /** Spans that lie within the text and are at least a label long. */
  predicate Within(s: string, spans: seq<Span>)
  {
    forall k :: 0 <= k < |spans| ==> spans[k].start + 10 <= spans[k].end <= |s|
  }

  /** The text each span keeps, in order. */
  function KeptAll(s: string, spans: seq<Span>): (r: seq<string>)
    requires Within(s, spans)
    ensures |r| == |spans|
  {
    if spans == [] then [] else [Kept(s, spans[0])] + KeptAll(s, spans[1..])
  }

  lemma {:induction false} KeptAllAt(s: string, spans: seq<Span>, k: nat)
    requires Within(s, spans) && k < |spans|
    ensures KeptAll(s, spans)[k] == Kept(s, spans[k])
  {
    if k > 0 {
      KeptAllAt(s, spans[1..], k - 1);
    }
  }

  /** The matches of pattern `p` in `s`, leftmost first, none overlapping. */
  function Scan(p: Pattern, s: string): (spans: seq<Span>)
    ensures Within(s, spans)
    ensures forall k :: 0 <= k < |spans| - 1 ==> spans[k].end <= spans[k + 1].start
  {
    MatchesAdvance(p, s);
    ScanFrom(Matches(p, s), 0)
  }

  /** Every span `Scan` returns is a match of the pattern. */
  lemma ScanSound(p: Pattern, s: string)
    ensures forall k :: 0 <= k < |Scan(p, s)| ==>
      MatchEnd(p, s, Scan(p, s)[k].start) == Some(Scan(p, s)[k].end)
  {
    forall k | 0 <= k < |Scan(p, s)|
      ensures MatchEnd(p, s, Scan(p, s)[k].start) == Some(Scan(p, s)[k].end)
    {
      MatchesAt(p, s, Scan(p, s)[k].start);
    }
  }

  /** Every index where the pattern matches lies in one of the spans `Scan` returns. With
      `ScanSound` and the order of the spans this is exactly leftmost, non-overlapping,
      left-to-right matching: the first match must be returned, the matches it overlaps must
      be skipped, and so on. */
  lemma ScanCovers(p: Pattern, s: string, j: nat) returns (k: nat)
    requires j < |s| && MatchEnd(p, s, j).Some?
    ensures k < |Scan(p, s)| && Scan(p, s)[k].start <= j < Scan(p, s)[k].end
  {
    MatchesAt(p, s, j);
    MatchesAdvance(p, s);
    k := ScanComplete(Matches(p, s), 0, j);
  }

  /** The first `Response [A-Z]` in the text of a numbered match is its trailing label: digits,
      the period and whitespace cannot begin one. */
  lemma NumberedSearchFindsTrailingLabel(s: string, sp: Span, k: nat)
    requires sp.start <= |s| && MatchEnd(Numbered, s, sp.start) == Some(sp.end)
    requires sp.start <= k < sp.end - 10
    ensures !LabelAt(s, k)
  {
    var a := DigitsEnd(s, sp.start);
    var b := SpacesEnd(s, a + 1);
    DigitsRun(s, sp.start);
    SpacesRun(s, a + 1);
    assert b + 10 == sp.end;
    if k < a { assert IsDigit(s[k]); }
    else if k == a { assert s[k] == '.'; }
    else { assert IsSpace(s[k]); }
    NoLabelWithoutR(s, k);
  }

  /** `re.findall(pattern, s)`, with the numbered pattern's matches reduced to their label. */
  function FindAll(p: Pattern, s: string): (r: seq<string>)
    ensures |r| == |Scan(p, s)|
  {
    KeptAll(s, Scan(p, s))
  }

  /** Each string `FindAll` returns is the text its span keeps. */
  lemma FindAllAt(p: Pattern, s: string, k: nat)
    requires k < |Scan(p, s)|
    ensures FindAll(p, s)[k] == Kept(s, Scan(p, s)[k])
  {
    KeptAllAt(s, Scan(p, s), k);
  }

  /** `FindAll` returns labels only: the text a span keeps is the label its match ends with. */
  lemma FindAllLabels(p: Pattern, s: string)
    ensures forall k :: 0 <= k < |FindAll(p, s)| ==> IsLabel(FindAll(p, s)[k])
  {
    ScanSound(p, s);
    forall k | 0 <= k < |FindAll(p, s)| ensures IsLabel(FindAll(p, s)[k]) {
      FindAllAt(p, s, k);
    }
  }

  /** `FindAll` is the text kept by the spans of the scan from the first index. */
  lemma KeptAllIsFindAll(p: Pattern, s: string)
    ensures Advancing(Matches(p, s)) && Within(s, ScanFrom(Matches(p, s), 0))
    ensures FindAll(p, s) == KeptAll(s, ScanFrom(Matches(p, s), 0))
  {
    MatchesAdvance(p, s);
  }

  /** The part of the text between the first sentinel and the next one, or the end: what
      `text.split("FINAL RANKING:")[1]` is when the sentinel occurs at all. */
  datatype Section = Section(lo: nat, hi: nat)

  function SentinelSection(s: string): (r: Option<Section>)
    ensures r.Some? ==> |Sentinel| <= r.value.lo <= r.value.hi <= |s|
  {
    match FindFrom(s, Sentinel, 0)
    case None => None
    case Some(first) =>
      var lo := first + |Sentinel|;
      match FindFrom(s, Sentinel, lo)
      case None => Some(Section(lo, |s|))
      case Some(second) => Some(Section(lo, second))
  }

  /** There is a section exactly when the sentinel occurs somewhere. */
  lemma SectionExists(s: string)
    ensures SentinelSection(s).None? <==> forall j: nat :: !OccursAt(s, Sentinel, j)
  {
  }

  /** The section begins right after the first sentinel and ends at the second one, or at the
      end of the text when there is no second one. */
  lemma SectionBounds(s: string)
    requires SentinelSection(s).Some?
    ensures var sec := SentinelSection(s).value;
      && OccursAt(s, Sentinel, sec.lo - |Sentinel|)
      && (forall j: nat :: j < sec.lo - |Sentinel| ==> !OccursAt(s, Sentinel, j))
      && (forall j: nat :: sec.lo <= j < sec.hi ==> !OccursAt(s, Sentinel, j))
      && (sec.hi == |s| || OccursAt(s, Sentinel, sec.hi))
  {
  }

  /** The parser. Without a sentinel, every bare label of the whole text. With one, the numbered
      entries of the sentinel's section if it has any, and otherwise the bare labels of that
      section. It returns labels only, and does no filtering of duplicates or of letters that
      name no answer. (The source's `len(parts) >= 2` test always holds once the sentinel
      occurs, so its fall-through to the whole text is unreachable.) */
  function ParseRanking(text: string): seq<string>
  {
    match SentinelSection(text)
    case None => FindAll(Bare, text)
    case Some(sec) =>
      var section := text[sec.lo..sec.hi];
      var numbered := FindAll(Numbered, section);
      if |numbered| > 0 then numbered else FindAll(Bare, section)
  }

  /** Without the sentinel the parser returns the bare labels of the whole text. */
  lemma ParseWithoutSentinel(text: string)
    requires forall j: nat :: !OccursAt(text, Sentinel, j)
    ensures ParseRanking(text) == FindAll(Bare, text)
  {
    SectionExists(text);
  }

  /** With the sentinel, the parser searches its section only: the numbered entries there if
      there are any, else the bare labels there. */
  lemma ParseWithSentinel(text: string, lo: nat, hi: nat)
    requires SentinelSection(text).Some?
    requires SentinelSection(text).value.lo == lo && SentinelSection(text).value.hi == hi
    ensures lo <= hi <= |text|
    ensures var section := text[lo..hi];
      ParseRanking(text)
        == if |FindAll(Numbered, section)| > 0 then FindAll(Numbered, section) else FindAll(Bare, section)
  {
  }

  /** The parser returns labels only. */
  lemma ParsedAreLabels(text: string)
    ensures forall k :: 0 <= k < |ParseRanking(text)| ==> IsLabel(ParseRanking(text)[k])
  {
    match SentinelSection(text)
    case None => FindAllLabels(Bare, text);
    case Some(sec) =>
      FindAllLabels(Numbered, text[sec.lo..sec.hi]);
      FindAllLabels(Bare, text[sec.lo..sec.hi]);
  }
}
