/** Question and answer lists edited as plain text (frontend/lib/faq-text.ts). */
module FaqText {
  import opened JsText

  datatype FaqPair = FaqPair(q: string, a: string)

  // ------------------------------------------ splitting at blank lines, as written

  /** The end of the run of white space beginning at `i`. */
  function SpaceEnd(s: string, i: nat): (j: nat)
    requires i <= |s|
    ensures i <= j <= |s|
    decreases |s| - i
  {
    if i < |s| && IsSpace(s[i]) then SpaceEnd(s, i + 1) else i
  }

  /** Behind the last newline in [lo, hi), or `lo` when there is none. */
  function BehindLastNewline(s: string, lo: nat, hi: nat): (j: nat)
    requires lo <= hi <= |s|
    ensures lo <= j <= hi
  {
    if hi == lo then lo
    else if s[hi - 1] == '\n' then hi
    else BehindLastNewline(s, lo, hi - 1)
  }

  /** Where a match of `\n\s*\n` beginning at `i` ends: the white space takes what
      it can and gives back up to its last newline. `i` when nothing matches. */
  function BreakEnd(s: string, i: nat): (j: nat)
    requires i < |s|
    ensures i <= j <= |s|
  {
    if s[i] != '\n' then i
    else
      var j := BehindLastNewline(s, i + 1, SpaceEnd(s, i + 1));
      if j == i + 1 then i else j
  }

  /** The first position from `i` on where a match begins, or the end. */
  function FirstBreak(s: string, i: nat): (j: nat)
    requires i <= |s|
    ensures i <= j <= |s|
    ensures j < |s| ==> BreakEnd(s, j) > j
    decreases |s| - i
  {
    if i == |s| || BreakEnd(s, i) > i then i else FirstBreak(s, i + 1)
  }

  /** `raw.split(/\n\s*\n/)`. */
  function SplitBlocks(s: string): seq<string>
    decreases |s|
  {
    var i := FirstBreak(s, 0);
    if i == |s| then [s] else [s[..i]] + SplitBlocks(s[BreakEnd(s, i)..])
  }

  /** `lines.map(trim).filter(Boolean)`. */
  function TrimmedLines(lines: seq<string>): seq<string> {
    if lines == [] then []
    else if Trim(lines[0]) == "" then TrimmedLines(lines[1..])
    else [Trim(lines[0])] + TrimmedLines(lines[1..])
  }

  /** The pair of a block of two or more lines; shorter blocks are dropped. */
  function PairOfLines(lines: seq<string>): seq<FaqPair> {
    if |lines| >= 2 then [FaqPair(lines[0], Join(lines[1..], "\n"))] else []
  }

  function PairOf(block: string): seq<FaqPair> { PairOfLines(TrimmedLines(Split(block, '\n'))) }

  function Pairs(blocks: seq<string>): seq<FaqPair> {
    if blocks == [] then [] else PairOf(blocks[0]) + Pairs(blocks[1..])
  }

  function ParseFaqBlocks(raw: string): seq<FaqPair> { Pairs(SplitBlocks(raw)) }

  function BlockOf(p: FaqPair): string { p.q + "\n" + p.a }

  function FaqToText(items: seq<FaqPair>): string {
    if items == [] then ""
    else if |items| == 1 then BlockOf(items[0])
    else BlockOf(items[0]) + "\n\n" + FaqToText(items[1..])
  }

  // ------------------------------------------------------------------- good pairs

  /** A line the parser keeps as it is. */
  predicate IsLine(s: string) { s != "" && IsTrimmed(s) && '\n' !in s }

  predicate AreLines(lines: seq<string>) { forall i :: 0 <= i < |lines| ==> IsLine(lines[i]) }

  /** One trimmed line for the question, one or more for the answer. */
  predicate Printable(p: FaqPair) { IsLine(p.q) && AreLines(Split(p.a, '\n')) }

  predicate AllPrintable(items: seq<FaqPair>) { forall i :: 0 <= i < |items| ==> Printable(items[i]) }

  lemma {:induction false} LinesStayLines(lines: seq<string>)
    requires AreLines(lines)
    ensures TrimmedLines(lines) == lines
  {
    if lines != [] {
      TrimProperties(lines[0]);
      LinesStayLines(lines[1..]);
    }
  }

  lemma {:induction false} TrimmedIsLine(s: string)
    requires '\n' !in s && Trim(s) != ""
    ensures IsLine(Trim(s))
  {
    TrimProperties(s);
  }

  lemma {:induction false} TrimmedAreLines(lines: seq<string>)
    requires forall i :: 0 <= i < |lines| ==> '\n' !in lines[i]
    ensures AreLines(TrimmedLines(lines))
  {
    if lines != [] {
      TrimmedAreLines(lines[1..]);
      if Trim(lines[0]) != "" { TrimmedIsLine(lines[0]); }
    }
  }

  lemma {:induction false} LinesMakePrintable(lines: seq<string>)
    requires AreLines(lines)
    ensures AllPrintable(PairOfLines(lines))
  {
    if |lines| >= 2 { SplitJoin(lines[1..], '\n'); }
  }

  lemma {:induction false} PairIsPrintable(block: string)
    ensures AllPrintable(PairOf(block))
  {
    TrimmedAreLines(Split(block, '\n'));
    LinesMakePrintable(TrimmedLines(Split(block, '\n')));
  }

  lemma {:induction false} ParsedArePrintable(blocks: seq<string>)
    ensures AllPrintable(Pairs(blocks))
  {
    if blocks != [] {
      ParsedArePrintable(blocks[1..]);
      PairIsPrintable(blocks[0]);
    }
  }

  /** Behind every newline of the block stands a visible character. */
  predicate Tight(s: string) {
    forall i :: 0 <= i < |s| && s[i] == '\n' ==> i + 1 < |s| && !IsSpace(s[i + 1])
  }

  lemma {:induction false} JoinedLinesAreTight(lines: seq<string>)
    requires lines != [] && AreLines(lines)
    ensures Tight(Join(lines, "\n")) && Join(lines, "\n") != "" && !IsSpace(Join(lines, "\n")[0])
  {
    if |lines| > 1 {
      JoinedLinesAreTight(lines[1..]);
      var rest := Join(lines[1..], "\n");
      var s := Join(lines, "\n");
      assert s == lines[0] + "\n" + rest;
      forall i | 0 <= i < |lines[0]| ensures s[i] != '\n' { assert s[i] == lines[0][i]; }
      forall i | 0 <= i < |s| && s[i] == '\n' ensures i + 1 < |s| && !IsSpace(s[i + 1]) {
        if i > |lines[0]| { assert rest[i - |lines[0]| - 1] == s[i]; }
      }
    } else {
      var s := lines[0];
      forall i | 0 <= i < |s| ensures s[i] != '\n' { assert s[i] in s; }
    }
  }

  /** The block of a good pair is its lines, joined. */
  lemma {:induction false} BlockIsLines(p: FaqPair)
    requires Printable(p)
    ensures AreLines([p.q] + Split(p.a, '\n'))
    ensures BlockOf(p) == Join([p.q] + Split(p.a, '\n'), "\n")
    ensures Tight(BlockOf(p)) && BlockOf(p) != "" && !IsSpace(BlockOf(p)[0])
    ensures TrimmedLines(Split(BlockOf(p), '\n')) == [p.q] + Split(p.a, '\n')
  {
    var lines := [p.q] + Split(p.a, '\n');
    assert lines[1..] == Split(p.a, '\n');
    JoinSplit(p.a, '\n');
    JoinedLinesAreTight(lines);
    SplitJoin(lines, '\n');
    LinesStayLines(lines);
  }

  // ------------------------------------------------------------ where blocks split

  /** A tight stretch of the text contains no beginning of a blank line. */
  lemma {:induction false} NoBreakInside(s: string, i: nat, n: nat)
    requires i <= n <= |s| && Tight(s[..n])
    ensures FirstBreak(s, i) == FirstBreak(s, n)
    decreases n - i
  {
    if i < n {
      assert s[..n][i] == s[i];
      if s[i] == '\n' {
        assert s[..n][i + 1] == s[i + 1];
        assert SpaceEnd(s, i + 1) == i + 1;
      }
      NoBreakInside(s, i + 1, n);
    }
  }

  lemma {:induction false} TightBlockFirst(b: string, rest: string)
    requires Tight(b) && rest != "" && !IsSpace(rest[0])
    ensures SplitBlocks(b + "\n\n" + rest) == [b] + SplitBlocks(rest)
  {
    var s := b + "\n\n" + rest;
    var n := |b|;
    assert s[..n] == b;
    NoBreakInside(s, 0, n);
    assert s[n] == '\n' && s[n + 1] == '\n' && s[n + 2] == rest[0];
    assert SpaceEnd(s, n + 2) == n + 2;
    assert SpaceEnd(s, n + 1) == n + 2;
    assert BehindLastNewline(s, n + 1, n + 2) == n + 2;
    assert BreakEnd(s, n) == n + 2;
    assert s[n + 2..] == rest;
  }

  // ---------------------------------------------------------------- main results

  lemma {:induction false} BlockReadsBack(p: FaqPair, blocks: seq<string>)
    requires Printable(p)
    ensures PairOf(BlockOf(p)) == [p] && Pairs([BlockOf(p)] + blocks) == [p] + Pairs(blocks)
  {
    var all := [BlockOf(p)] + blocks;
    var lines := [p.q] + Split(p.a, '\n');
    BlockIsLines(p);
    JoinSplit(p.a, '\n');
    assert all[0] == BlockOf(p) && all[1..] == blocks;
    assert lines[0] == p.q && lines[1..] == Split(p.a, '\n');
  }

  lemma {:induction false} PrintOneMore(p: FaqPair, text: string)
    requires Printable(p) && text != "" && !IsSpace(text[0])
    ensures ParseFaqBlocks(BlockOf(p) + "\n\n" + text) == [p] + ParseFaqBlocks(text)
  {
    BlockIsLines(p);
    TightBlockFirst(BlockOf(p), text);
    BlockReadsBack(p, SplitBlocks(text));
  }

  lemma {:induction false} PrintOne(p: FaqPair)
    requires Printable(p)
    ensures ParseFaqBlocks(BlockOf(p)) == [p]
  {
    BlockIsLines(p);
    BlockReadsBack(p, []);
    assert [BlockOf(p)] + [] == [BlockOf(p)];
  }

  lemma {:induction false} PrintThenParse(items: seq<FaqPair>)
    requires AllPrintable(items)
    ensures ParseFaqBlocks(FaqToText(items)) == items
  {
    if items == [] {
    } else if |items| == 1 {
      PrintOne(items[0]);
    } else {
      PrintThenParse(items[1..]);
      PrintOneMore(items[0], FaqToText(items[1..]));
    }
  }

  /** Printing and parsing give a list back if and only if every pair has a
      trimmed one-line question and an answer of trimmed non-empty lines. */
  lemma {:induction false} PrintedListsComeBackExactlyWhen(items: seq<FaqPair>)
    ensures ParseFaqBlocks(FaqToText(items)) == items <==> AllPrintable(items)
  {
    ParsedArePrintable(SplitBlocks(FaqToText(items)));
    if AllPrintable(items) { PrintThenParse(items); }
  }

  /** What any text parses to survives being printed and parsed again. */
  lemma {:induction false} ParseIsStable(raw: string)
    ensures ParseFaqBlocks(FaqToText(ParseFaqBlocks(raw))) == ParseFaqBlocks(raw)
  {
    ParsedArePrintable(SplitBlocks(raw));
    PrintThenParse(ParseFaqBlocks(raw));
  }
}
