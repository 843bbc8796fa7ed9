/** The hand-over text of an order of several proxies: one `#NN` block a proxy
    (frontend/lib/proxy-delivery.ts), as the backend composes it. */
module ProxyDelivery {
  import opened JsCollections
  import opened JsText
  import opened Options

  datatype ProxyBlock = ProxyBlock(line: nat, text: string, compact: string)

  /** A block while its lines are collected. */
  datatype Draft = Draft(line: nat, body: seq<string>)

  // ------------------------------------------------------------------------ lines

  function Chomp(s: string): string {
    if s != "" && s[|s| - 1] == '\r' then s[..|s| - 1] else s
  }

  function ChompAllButLast(parts: seq<string>): (r: seq<string>)
    ensures |r| == |parts|
  {
    if |parts| <= 1 then parts else [Chomp(parts[0])] + ChompAllButLast(parts[1..])
  }

  /** `text.split(/\r?\n/)`. */
  function LinesOf(text: string): (r: seq<string>)
    ensures |r| >= 1
  {
    ChompAllButLast(Split(text, '\n'))
  }

  /** The number of a header line `#N`, of one to three digits. */
  function HeaderNo(s: string): Option<nat> {
    if 2 <= |s| <= 4 && s[0] == '#' && AllDigits(s[1..]) then Some(NumberOf(s[1..])) else None
  }

  // ----------------------------------------------------------------------- compact

  /** The position of the first colon, or the length. */
  function ColonAt(s: string): (i: nat)
    ensures i <= |s|
  {
    if s == "" || s[0] == ':' then 0 else 1 + ColonAt(s[1..])
  }

  /** A line as the code reads it: what stands before its first colon, in lower
      case, and the value behind it, unless that is blank. */
  datatype FieldLine = FieldLine(name: Option<string>, value: Option<string>)

  function ReadField(raw: string): FieldLine {
    var i := ColonAt(raw);
    if i == |raw| then FieldLine(None, None)
    else
      var v := Trim(raw[i + 1..]);
      FieldLine(Some(ToLower(Trim(raw[..i]))), if v == "" then None else Some(v))
  }

  function ReadFields(lines: seq<string>): seq<FieldLine> { MapSeq(ReadField, lines) }

  /** The first line of that name decides, even when its value is empty. */
  function FieldIn(fields: seq<FieldLine>, name: string): Option<string> {
    if fields == [] then None
    else if fields[0].name == Some(name) then fields[0].value
    else FieldIn(fields[1..], name)
  }

  method Field(text: string, name: string) returns (r: Option<string>)
    ensures r == FieldIn(ReadFields(LinesOf(text)), name)
  {
    var lines := LinesOf(text);
    ghost var fields := ReadFields(lines);
    for i := 0 to |lines|
      invariant FieldIn(fields[i..], name) == FieldIn(fields, name)
    {
      assert fields[i..][0] == ReadField(lines[i]) && fields[i..][1..] == fields[i + 1..];
      var raw := lines[i];
      var c := ColonAt(raw);
      if c < |raw| && ToLower(Trim(raw[..c])) == name {
        var v := Trim(raw[c + 1..]);
        return if v == "" then None else Some(v);
      }
    }
    return None;
  }

  function CompactOfFields(fields: seq<FieldLine>, first: string): string {
    var host, port := FieldIn(fields, "host"), FieldIn(fields, "port");
    if host.None? || port.None? then first
    else
      var user, pass := FieldIn(fields, "username"), FieldIn(fields, "password");
      if user.Some? && pass.Some? then host.value + ":" + port.value + ":" + user.value + ":" + pass.value
      else host.value + ":" + port.value
  }

  function CompactOf(text: string): string {
    CompactOfFields(ReadFields(LinesOf(text)), Trim(LinesOf(text)[0]))
  }

  method CompactProxy(text: string) returns (r: string)
    ensures r == CompactOf(text)
  {
    var host := Field(text, "host");
    var port := Field(text, "port");
    if host.None? || port.None? { return Trim(LinesOf(text)[0]); }
    var user := Field(text, "username");
    var pass := Field(text, "password");
    if user.Some? && pass.Some? { return host.value + ":" + port.value + ":" + user.value + ":" + pass.value; }
    return host.value + ":" + port.value;
  }

  // -------------------------------------------------------------------- splitting

  function Finish(d: Draft): ProxyBlock {
    var text := Join(d.body, "\n");
    ProxyBlock(d.line, text, CompactOf(text))
  }

  function FinishAll(ds: seq<Draft>): (r: seq<ProxyBlock>)
    ensures |r| == |ds|
  {
    if ds == [] then [] else FinishAll(ds[..|ds| - 1]) + [Finish(ds[|ds| - 1])]
  }

  /** The block being collected and the blocks before it. */
  datatype Scanner = Scanner(current: Option<Draft>, closed: seq<Draft>)

  function Close(st: Scanner): seq<Draft> {
    if st.current.Some? then st.closed + [st.current.value] else st.closed
  }

  /** What the loop makes of one line. */
  datatype LineKind = HeaderLine(no: nat) | TextLine(text: string) | BlankLine

  function KindOf(raw: string): LineKind {
    var line := Trim(raw);
    if HeaderNo(line).Some? then HeaderLine(HeaderNo(line).value)
    else if line != "" then TextLine(line)
    else BlankLine
  }

  function KindsOf(lines: seq<string>): seq<LineKind> { MapSeq(KindOf, lines) }

  /** One turn of the loop. */
  function ScanLine(st: Scanner, kind: LineKind): Scanner {
    match kind
    case HeaderLine(no) => Scanner(Some(Draft(no, [])), Close(st))
    case TextLine(text) =>
      if st.current.None? then st
      else st.(current := Some(Draft(st.current.value.line, st.current.value.body + [text])))
    case BlankLine => st
  }

  function Scan(kinds: seq<LineKind>, st: Scanner): seq<Draft>
    decreases |kinds|
  {
    if kinds == [] then Close(st) else Scan(kinds[1..], ScanLine(st, kinds[0]))
  }

  const START := Scanner(None, [])

  function Blocks(text: string): Option<seq<ProxyBlock>> {
    var lines := LinesOf(text);
    var drafts := Scan(KindsOf(lines), START);
    if KindOf(lines[0]).HeaderLine? && |drafts| > 1 then Some(FinishAll(drafts)) else None
  }

  function BlocksShown(text: Option<string>): Option<seq<ProxyBlock>> { Blocks(if text.Some? then text.value else "") }

  method SplitProxyBlocks(text: Option<string>) returns (r: Option<seq<ProxyBlock>>)
    ensures r == BlocksShown(text)
  {
    var lines := LinesOf(if text.Some? then text.value else "");
    if HeaderNo(Trim(lines[0])).None? { return None; }
    var blocks := BlockLoop(lines);
    return if |blocks| > 1 then Some(blocks) else None;
  }

  method BlockLoop(lines: seq<string>) returns (blocks: seq<ProxyBlock>)
    ensures blocks == FinishAll(Scan(KindsOf(lines), START))
  {
    blocks := [];
    ghost var closed: seq<Draft> := [];
    ghost var kinds := KindsOf(lines);
    var current: Option<Draft> := None;
    for i := 0 to |lines|
      invariant Scan(kinds[i..], Scanner(current, closed)) == Scan(kinds, START)
      invariant blocks == FinishAll(closed)
    {
      assert kinds[i..][0] == KindOf(lines[i]) && kinds[i..][1..] == kinds[i + 1..];
      match KindOf(lines[i]) {
        case HeaderLine(no) =>
          if current.Some? {
            var block := FinishBlock(current.value);
            blocks := blocks + [block];
            closed := closed + [current.value];
          }
          current := Some(Draft(no, []));
        case TextLine(text) =>
          if current.Some? { current := Some(Draft(current.value.line, current.value.body + [text])); }
        case BlankLine =>
      }
    }
    if current.Some? {
      var block := FinishBlock(current.value);
      blocks := blocks + [block];
      closed := closed + [current.value];
    }
  }

  method FinishBlock(d: Draft) returns (b: ProxyBlock)
    ensures b == Finish(d)
  {
    var text := Join(d.body, "\n");
    var compact := CompactProxy(text);
    return ProxyBlock(d.line, text, compact);
  }

  // ------------------------------------------------------- when a text is split at all

  function Headers(kinds: seq<LineKind>): nat {
    if kinds == [] then 0 else (if kinds[0].HeaderLine? then 1 else 0) + Headers(kinds[1..])
  }

  lemma {:induction false} ScanCounts(kinds: seq<LineKind>, st: Scanner)
    ensures |Scan(kinds, st)| == |Close(st)| + Headers(kinds)
    decreases |kinds|
  {
    if kinds != [] { ScanCounts(kinds[1..], ScanLine(st, kinds[0])); }
  }

  /** A text is split if and only if its first line is a header and there is
      another header below it; it then has one block for each header. */
  lemma {:induction false} SplitsExactlyWhen(text: string)
    ensures Blocks(text).Some? <==> KindOf(LinesOf(text)[0]).HeaderLine? && Headers(KindsOf(LinesOf(text))) >= 2
    ensures Blocks(text).Some? ==> |Blocks(text).value| == Headers(KindsOf(LinesOf(text)))
  {
    ScanCounts(KindsOf(LinesOf(text)), START);
  }

  // ------------------------------------------------------------------- round trip

  /** `#` and the number, padded to two digits. */
  function LineLabel(line: nat): string { (if line < 10 then "#0" else "#") + Decimal(line) }

  lemma {:induction false} DecimalLength(n: nat)
    ensures n < 10 <==> |Decimal(n)| == 1
    ensures n < 100 <==> |Decimal(n)| <= 2
    ensures n < 1000 <==> |Decimal(n)| <= 3
  {
    if n >= 10 {
      DecimalLength(n / 10);
    }
  }

  /** A label is read as the header of its number up to 999, and not beyond. */
  lemma {:induction false} LabelIsHeaderExactlyWhen(line: nat)
    ensures HeaderNo(LineLabel(line)) == Some(line) <==> line <= 999
    ensures IsTrimmed(LineLabel(line)) && '\n' !in LineLabel(line)
  {
    var d, s := Decimal(line), LineLabel(line);
    DecimalLength(line);
    NumberOfDecimal(line);
    if line < 10 {
      assert s[1..] == "0" + d;
      assert (("0" + d)[..1] == "0") && "0"[..0] == "";
      assert NumberOf("0") == 0;
    } else {
      assert s[1..] == d;
    }
    assert forall i :: 0 < i < |s| ==> IsDigit(s[i]);
  }

  /** A line the splitter keeps as it is. */
  predicate IsBodyLine(s: string) { s != "" && IsTrimmed(s) && '\n' !in s && HeaderNo(s).None? }

  predicate AreBodyLines(lines: seq<string>) { forall i :: 0 <= i < |lines| ==> IsBodyLine(lines[i]) }

  predicate Printable(d: Draft) { d.line <= 999 && AreBodyLines(d.body) }

  /** One proxy of an order as the backend hands it over. */
  datatype Handover = Handover(line: nat, text: string)

  /** One block a proxy under its header, with a blank line between blocks. */
  function Labelled(hs: seq<Handover>): string {
    if hs == [] then ""
    else if |hs| == 1 then LineLabel(hs[0].line) + "\n" + hs[0].text
    else LineLabel(hs[0].line) + "\n" + hs[0].text + "\n\n" + Labelled(hs[1..])
  }

  function Texts(ds: seq<Draft>): (r: seq<Handover>)
    ensures |r| == |ds| && forall i :: 0 <= i < |r| ==> r[i] == Handover(ds[i].line, Join(ds[i].body, "\n"))
  {
    seq(|ds|, i requires 0 <= i < |ds| => Handover(ds[i].line, Join(ds[i].body, "\n")))
  }

  function BlockLines(d: Draft): seq<string> { [LineLabel(d.line)] + (if d.body == [] then [""] else d.body) }

  function ComposedLines(ds: seq<Draft>): seq<string> {
    if ds == [] then [""]
    else if |ds| == 1 then BlockLines(ds[0])
    else BlockLines(ds[0]) + [""] + ComposedLines(ds[1..])
  }

  /** A line of a composed text: no newline in it, no carriage return behind it. */
  predicate IsPlain(s: string) { '\n' !in s && (s != "" ==> s[|s| - 1] != '\r') }

  lemma {:induction false} JoinAppend(a: seq<string>, b: seq<string>, sep: string)
    requires a != [] && b != []
    ensures Join(a + b, sep) == Join(a, sep) + sep + Join(b, sep)
  {
    if |a| == 1 {
      assert (a + b)[1..] == b;
    } else {
      assert (a + b)[1..] == a[1..] + b;
      JoinAppend(a[1..], b, sep);
    }
  }

  /** Two pieces with an empty line between them. */
  lemma {:induction false} JoinApart(a: seq<string>, b: seq<string>)
    requires a != [] && b != []
    ensures Join(a + [""] + b, "\n") == Join(a, "\n") + "\n\n" + Join(b, "\n")
  {
    assert a + [""] + b == a + ([""] + b);
    JoinAppend(a, [""] + b, "\n");
    JoinAppend([""], b, "\n");
    assert "\n" + ("" + "\n" + Join(b, "\n")) == "\n\n" + Join(b, "\n");
  }

  lemma {:induction false} LabelledIsJoined(ds: seq<Draft>)
    ensures Labelled(Texts(ds)) == Join(ComposedLines(ds), "\n")
  {
    if ds != [] {
      if |ds| > 1 {
        LabelledIsJoined(ds[1..]);
        assert Texts(ds)[1..] == Texts(ds[1..]);
        JoinApart(BlockLines(ds[0]), ComposedLines(ds[1..]));
      }
    }
  }

  lemma {:induction false} ChompPlain(parts: seq<string>)
    requires forall i :: 0 <= i < |parts| ==> IsPlain(parts[i])
    ensures ChompAllButLast(parts) == parts
  {
    if |parts| > 1 { ChompPlain(parts[1..]); }
  }

  lemma {:induction false} LinesOfJoined(lines: seq<string>)
    requires lines != [] && forall i :: 0 <= i < |lines| ==> IsPlain(lines[i])
    ensures LinesOf(Join(lines, "\n")) == lines
  {
    SplitJoin(lines, '\n');
    ChompPlain(lines);
  }

  lemma {:induction false} ComposedArePlain(ds: seq<Draft>)
    requires forall i :: 0 <= i < |ds| ==> Printable(ds[i])
    ensures ComposedLines(ds) != [] && forall i :: 0 <= i < |ComposedLines(ds)| ==> IsPlain(ComposedLines(ds)[i])
  {
    if ds != [] {
      if |ds| > 1 { ComposedArePlain(ds[1..]); }
    }
  }

  /** How the lines of a composed text are read. */
  function TextLines(body: seq<string>): (r: seq<LineKind>)
    ensures |r| == |body| && forall i :: 0 <= i < |r| ==> r[i] == TextLine(body[i])
  {
    seq(|body|, i requires 0 <= i < |body| => TextLine(body[i]))
  }

  function BlockKinds(d: Draft): seq<LineKind> {
    [HeaderLine(d.line)] + (if d.body == [] then [BlankLine] else TextLines(d.body))
  }

  function ComposedKinds(ds: seq<Draft>): seq<LineKind> {
    if ds == [] then [BlankLine]
    else if |ds| == 1 then BlockKinds(ds[0])
    else BlockKinds(ds[0]) + [BlankLine] + ComposedKinds(ds[1..])
  }

  lemma {:induction false} LabelKind(line: nat)
    requires line <= 999
    ensures KindOf(LineLabel(line)) == HeaderLine(line)
  {
    LabelIsHeaderExactlyWhen(line);
    TrimProperties(LineLabel(line));
  }

  lemma {:induction false} BlockKindsAre(d: Draft)
    requires Printable(d)
    ensures KindsOf(BlockLines(d)) == BlockKinds(d)
  {
    LabelKind(d.line);
    forall i | 0 <= i < |d.body| ensures KindOf(d.body[i]) == TextLine(d.body[i]) {}
  }

  lemma {:induction false} ComposedKindsAre(ds: seq<Draft>)
    requires forall i :: 0 <= i < |ds| ==> Printable(ds[i])
    ensures KindsOf(ComposedLines(ds)) == ComposedKinds(ds)
  {
    assert KindsOf([""]) == [BlankLine];
    if ds != [] {
      BlockKindsAre(ds[0]);
      if |ds| > 1 {
        ComposedKindsAre(ds[1..]);
        MapAppend(KindOf, BlockLines(ds[0]) + [""], ComposedLines(ds[1..]));
        MapAppend(KindOf, BlockLines(ds[0]), [""]);
      }
    }
  }

  lemma {:induction false} ScanText(body: seq<string>, tail: seq<LineKind>, d: Draft, closed: seq<Draft>)
    ensures Scan(TextLines(body) + tail, Scanner(Some(d), closed)) ==
      Scan(tail, Scanner(Some(Draft(d.line, d.body + body)), closed))
    decreases |body|
  {
    var all := TextLines(body) + tail;
    if body == [] {
      assert all == tail && d.body + body == d.body;
    } else {
      assert all == [TextLine(body[0])] + (TextLines(body[1..]) + tail);
      ScanText(body[1..], tail, Draft(d.line, d.body + [body[0]]), closed);
      assert d.body + [body[0]] + body[1..] == d.body + body;
    }
  }

  /** A header opens a block, and everything up to the next one is its body. */
  lemma {:induction false} ScanBlock(d: Draft, tail: seq<LineKind>, st: Scanner)
    ensures Scan(BlockKinds(d) + tail, st) == Scan(tail, Scanner(Some(d), Close(st)))
  {
    var all := BlockKinds(d) + tail;
    var inner := (if d.body == [] then [BlankLine] else TextLines(d.body)) + tail;
    assert all[0] == HeaderLine(d.line) && all[1..] == inner;
    if d.body == [] {
      assert inner[1..] == tail && d == Draft(d.line, []);
    } else {
      ScanText(d.body, tail, Draft(d.line, []), Close(st));
      assert [] + d.body == d.body;
    }
  }

  lemma {:induction false} ScanComposed(ds: seq<Draft>, st: Scanner)
    requires ds != []
    ensures Scan(ComposedKinds(ds), st) == Close(st) + ds
    decreases |ds|
  {
    var next := Scanner(Some(ds[0]), Close(st));
    if |ds| == 1 {
      ScanBlock(ds[0], [], st);
      assert BlockKinds(ds[0]) + [] == BlockKinds(ds[0]);
      assert ds == [ds[0]];
    } else {
      var tail := ComposedKinds(ds[1..]);
      ScanBlock(ds[0], [BlankLine] + tail, st);
      assert BlockKinds(ds[0]) + [BlankLine] + tail == BlockKinds(ds[0]) + ([BlankLine] + tail);
      ScanComposed(ds[1..], next);
      assert Close(st) + [ds[0]] + ds[1..] == Close(st) + ds;
    }
  }

  lemma {:induction false} PrintedDraftsSplit(ds: seq<Draft>)
    requires |ds| >= 2 && forall i :: 0 <= i < |ds| ==> Printable(ds[i])
    ensures Blocks(Labelled(Texts(ds))) == Some(FinishAll(ds))
  {
    LabelledLines(ds);
    ComposedKindsAre(ds);
    ScanFromStart(ds);
    BlocksOfKinds(Labelled(Texts(ds)), ComposedKinds(ds), ds);
  }

  lemma {:induction false} ScanFromStart(ds: seq<Draft>)
    requires ds != []
    ensures Scan(ComposedKinds(ds), START) == ds
    ensures ComposedKinds(ds) != [] && ComposedKinds(ds)[0].HeaderLine?
  {
    ScanComposed(ds, START);
    assert [] + ds == ds;
  }

  lemma {:induction false} BlocksOfKinds(text: string, kinds: seq<LineKind>, ds: seq<Draft>)
    requires KindsOf(LinesOf(text)) == kinds && kinds != [] && kinds[0].HeaderLine?
    requires Scan(kinds, START) == ds && |ds| >= 2
    ensures Blocks(text) == Some(FinishAll(ds))
  {
  }

  lemma {:induction false} LabelledLines(ds: seq<Draft>)
    requires forall i :: 0 <= i < |ds| ==> Printable(ds[i])
    ensures LinesOf(Labelled(Texts(ds))) == ComposedLines(ds)
  {
    LabelledIsJoined(ds);
    ComposedArePlain(ds);
    LinesOfJoined(ComposedLines(ds));
  }

  // --------------------------------------------------- what a scan can yield at all

  predicate IsGoodKind(kind: LineKind) {
    (kind.HeaderLine? ==> kind.no <= 999) && (kind.TextLine? ==> IsBodyLine(kind.text))
  }

  lemma {:induction false} NumberOfFewDigits(s: string)
    requires AllDigits(s)
    ensures |s| == 0 ==> NumberOf(s) == 0
    ensures |s| <= 1 ==> NumberOf(s) <= 9
    ensures |s| <= 2 ==> NumberOf(s) <= 99
    ensures |s| <= 3 ==> NumberOf(s) <= 999
  {
    if s != "" { NumberOfFewDigits(s[..|s| - 1]); }
  }

  lemma {:induction false} KindIsGood(raw: string)
    requires '\n' !in raw
    ensures IsGoodKind(KindOf(raw))
  {
    var line := Trim(raw);
    TrimProperties(raw);
    if HeaderNo(line).Some? { NumberOfFewDigits(line[1..]); }
  }

  lemma {:induction false} ChompedHaveNoBreak(parts: seq<string>)
    requires forall i :: 0 <= i < |parts| ==> '\n' !in parts[i]
    ensures forall i :: 0 <= i < |parts| ==> '\n' !in ChompAllButLast(parts)[i]
  {
    if |parts| > 1 { ChompedHaveNoBreak(parts[1..]); }
  }

  lemma {:induction false} KindsAreGood(text: string)
    ensures forall i :: 0 <= i < |KindsOf(LinesOf(text))| ==> IsGoodKind(KindsOf(LinesOf(text))[i])
  {
    var lines := LinesOf(text);
    ChompedHaveNoBreak(Split(text, '\n'));
    forall i | 0 <= i < |lines| ensures IsGoodKind(KindsOf(lines)[i]) { KindIsGood(lines[i]); }
  }

  /** Every block a scan yields has a number up to 999 and body lines only. */
  lemma {:induction false} ScanYieldsPrintable(kinds: seq<LineKind>, st: Scanner)
    requires forall i :: 0 <= i < |kinds| ==> IsGoodKind(kinds[i])
    requires forall i :: 0 <= i < |Close(st)| ==> Printable(Close(st)[i])
    ensures forall i :: 0 <= i < |Scan(kinds, st)| ==> Printable(Scan(kinds, st)[i])
    decreases |kinds|
  {
    if kinds != [] {
      assert IsGoodKind(kinds[0]);
      if st.current.Some? { assert Close(st)[|st.closed|] == st.current.value; }
      assert forall i :: 0 <= i < |st.closed| ==> st.closed[i] == Close(st)[i];
      ScanYieldsPrintable(kinds[1..], ScanLine(st, kinds[0]));
    }
  }

  lemma {:induction false} FinishAt(ds: seq<Draft>, i: nat)
    requires i < |ds|
    ensures FinishAll(ds)[i] == Finish(ds[i])
  {
    if i < |ds| - 1 { FinishAt(ds[..|ds| - 1], i); }
  }

  // ------------------------------------------------------------ the exact condition

  /** The block of a proxy with its own number and text. */
  function Delivered(hs: seq<Handover>): (r: seq<ProxyBlock>)
    ensures |r| == |hs|
    ensures forall i :: 0 <= i < |r| ==> r[i] == ProxyBlock(hs[i].line, hs[i].text, CompactOf(hs[i].text))
  {
    seq(|hs|, i requires 0 <= i < |hs| => ProxyBlock(hs[i].line, hs[i].text, CompactOf(hs[i].text)))
  }

  /** The number has at most three digits, and the text is empty or consists of
      trimmed, non-blank lines none of which is a header. */
  predicate Splittable(h: Handover) { h.line <= 999 && (h.text == "" || AreBodyLines(Split(h.text, '\n'))) }

  function DraftOf(h: Handover): Draft { Draft(h.line, if h.text == "" then [] else Split(h.text, '\n')) }

  function DraftsOf(hs: seq<Handover>): (r: seq<Draft>)
    ensures |r| == |hs| && forall i :: 0 <= i < |r| ==> r[i] == DraftOf(hs[i])
  {
    seq(|hs|, i requires 0 <= i < |hs| => DraftOf(hs[i]))
  }

  lemma {:induction false} DraftsGiveTexts(hs: seq<Handover>)
    ensures Texts(DraftsOf(hs)) == hs && FinishAll(DraftsOf(hs)) == Delivered(hs)
  {
    var ds := DraftsOf(hs);
    forall i | 0 <= i < |hs| ensures Texts(ds)[i] == hs[i] && FinishAll(ds)[i] == Delivered(hs)[i] {
      JoinSplit(hs[i].text, '\n');
      FinishAt(ds, i);
    }
  }

  lemma {:induction false} JoinedBodyIsSplittable(d: Draft)
    requires Printable(d)
    ensures Splittable(Handover(d.line, Join(d.body, "\n")))
  {
    if d.body != [] { SplitJoin(d.body, '\n'); }
  }

  /** Whatever text is split, each of its blocks is splittable. */
  lemma {:induction false} BlocksAreSplittable(text: string, i: nat, h: Handover)
    requires Blocks(text).Some? && i < |Blocks(text).value|
    requires Blocks(text).value[i].line == h.line && Blocks(text).value[i].text == h.text
    ensures Splittable(h)
  {
    var kinds := KindsOf(LinesOf(text));
    var ds := Scan(kinds, START);
    KindsAreGood(text);
    ScanYieldsPrintable(kinds, START);
    FinishAt(ds, i);
    JoinedBodyIsSplittable(ds[i]);
  }

  /** The proxies of the order that have a text. */
  function Handed(hs: seq<Handover>): seq<Handover> {
    if hs == [] then [] else (if hs[0].text != "" then [hs[0]] else []) + Handed(hs[1..])
  }

  /** `compose_delivered_data`: the bare text of an order of one proxy, and headed
      blocks for an order of more, even if one of them alone has a text yet. */
  function Compose(hs: seq<Handover>): Option<string> {
    var texts := Handed(hs);
    if texts == [] then None
    else if |hs| == 1 then Some(texts[0].text)
    else Some(Labelled(texts))
  }

  /** Splitting what the backend composed for an order returns the proxies that
      have a text, with their numbers and texts and in their order, if and only if
      there are two or more and each of them is splittable. */
  lemma {:induction false} ComposedTextSplits(hs: seq<Handover>)
    ensures BlocksShown(Compose(hs)) == Some(Delivered(Handed(hs))) <==>
      |Handed(hs)| >= 2 && forall i :: 0 <= i < |Handed(hs)| ==> Splittable(Handed(hs)[i])
  {
    if |hs| == 1 { assert Handed(hs[1..]) == []; }
    LabelledTextSplits(Handed(hs));
  }

  lemma {:induction false} LabelledTextSplits(hs: seq<Handover>)
    ensures Blocks(Labelled(hs)) == Some(Delivered(hs)) <==>
      |hs| >= 2 && forall i :: 0 <= i < |hs| ==> Splittable(hs[i])
  {
    if Blocks(Labelled(hs)) == Some(Delivered(hs)) {
      forall i | 0 <= i < |hs| ensures Splittable(hs[i]) { BlocksAreSplittable(Labelled(hs), i, hs[i]); }
    }
    if |hs| >= 2 && forall i :: 0 <= i < |hs| ==> Splittable(hs[i]) { SplittableTextsSplit(hs); }
  }

  lemma {:induction false} SplittableTextsSplit(hs: seq<Handover>)
    requires |hs| >= 2 && forall i :: 0 <= i < |hs| ==> Splittable(hs[i])
    ensures Blocks(Labelled(hs)) == Some(Delivered(hs))
  {
    DraftsGiveTexts(hs);
    PrintedDraftsSplit(DraftsOf(hs));
  }

  // ----------------------------------------------------------------- the credentials

  lemma {:induction false} ColonAtFirst(key: string, value: string)
    requires ':' !in key
    ensures ColonAt(key + ":" + value) == |key|
  {
    var s := key + ":" + value;
    if key != "" {
      assert s[1..] == key[1..] + ":" + value;
      ColonAtFirst(key[1..], value);
    }
  }

  /** The line `Key: value`. */
  function FieldText(key: string, value: string): string { key + ":" + (" " + value) }

  predicate IsValue(v: string) { v != "" && IsTrimmed(v) && '\n' !in v }

  /** Such a line is read as the field of that name. */
  lemma {:induction false} ReadFieldText(key: string, name: string, value: string)
    requires ':' !in key && '\n' !in key && IsTrimmed(key) && IsValue(value) && ToLower(key) == name
    ensures ReadField(FieldText(key, value)) == FieldLine(Some(name), Some(value)) && IsPlain(FieldText(key, value))
  {
    var raw := FieldText(key, value);
    ColonAtFirst(key, " " + value);
    assert raw[..|key|] == key && raw[|key| + 1..] == " " + value;
    TrimProperties(key);
    TrimAfterSpace(value);
    assert raw[|raw| - 1] == value[|value| - 1];
  }

  lemma {:induction false} ReadHost(value: string)
    requires IsValue(value)
    ensures ReadField(FieldText("Host", value)) == FieldLine(Some("host"), Some(value)) &&
      IsPlain(FieldText("Host", value))
  {
    ReadFieldText("Host", "host", value);
  }

  lemma {:induction false} ReadPort(value: string)
    requires IsValue(value)
    ensures ReadField(FieldText("Port", value)) == FieldLine(Some("port"), Some(value)) &&
      IsPlain(FieldText("Port", value))
  {
    ReadFieldText("Port", "port", value);
  }

  lemma {:induction false} ReadUsername(value: string)
    requires IsValue(value)
    ensures ReadField(FieldText("Username", value)) == FieldLine(Some("username"), Some(value)) &&
      IsPlain(FieldText("Username", value))
  {
    ReadFieldText("Username", "username", value);
  }

  lemma {:induction false} ReadPassword(value: string)
    requires IsValue(value)
    ensures ReadField(FieldText("Password", value)) == FieldLine(Some("password"), Some(value)) &&
      IsPlain(FieldText("Password", value))
  {
    ReadFieldText("Password", "password", value);
  }

  lemma {:induction false} ReadNames(host: string, port: string, user: string, pass: string)
    requires IsValue(host) && IsValue(port) && IsValue(user) && IsValue(pass)
    ensures MapSeq(ReadField, Credentials(host, port, user, pass)) == FourFields(host, port, user, pass)
  {
    var raw, fields := Credentials(host, port, user, pass), FourFields(host, port, user, pass);
    assert ReadField(raw[0]) == fields[0] by { ReadHost(host); }
    assert ReadField(raw[1]) == fields[1] by { ReadPort(port); }
    assert ReadField(raw[2]) == fields[2] by { ReadUsername(user); }
    assert ReadField(raw[3]) == fields[3] by { ReadPassword(pass); }
    ReadFour(ReadField, raw, fields);
  }

  lemma {:induction false} CredentialsArePlain(host: string, port: string, user: string, pass: string)
    requires IsValue(host) && IsValue(port) && IsValue(user) && IsValue(pass)
    ensures forall i :: 0 <= i < 4 ==> IsPlain(Credentials(host, port, user, pass)[i])
  {
    assert IsPlain(FieldText("Host", host)) by { ReadHost(host); }
    assert IsPlain(FieldText("Port", port)) by { ReadPort(port); }
    assert IsPlain(FieldText("Username", user)) by { ReadUsername(user); }
    assert IsPlain(FieldText("Password", pass)) by { ReadPassword(pass); }
  }

  /** The four lines of a proxy's credentials. */
  function Credentials(host: string, port: string, user: string, pass: string): seq<string> {
    [FieldText("Host", host), FieldText("Port", port), FieldText("Username", user), FieldText("Password", pass)]
  }

  /** The import line of a proxy handed over with its four fields, whatever lines
      follow; colons inside a value stay in it. */
  lemma {:induction false} CompactOfCredentials(
      host: string, port: string, user: string, pass: string, extra: seq<string>)
    requires IsValue(host) && IsValue(port) && IsValue(user) && IsValue(pass)
    requires forall i :: 0 <= i < |extra| ==> IsPlain(extra[i])
    ensures CompactOf(Join(Credentials(host, port, user, pass) + extra, "\n"))
      == host + ":" + port + ":" + user + ":" + pass
  {
    var lines := Credentials(host, port, user, pass) + extra;
    ReadNames(host, port, user, pass);
    CredentialsArePlain(host, port, user, pass);
    LinesOfJoined(lines);
    MapAppend(ReadField, Credentials(host, port, user, pass), extra);
    CompactOfFour(host, port, user, pass, ReadFields(extra), Trim(lines[0]));
  }

  /** So every proxy handed over with its four fields reaches the buyer under its
      own number with its own import line. */
  lemma {:induction false} ImportLinesComeBack(
      hs: seq<Handover>, i: nat, host: string, port: string, user: string, pass: string, extra: seq<string>)
    requires |Handed(hs)| >= 2 && i < |Handed(hs)|
    requires forall k :: 0 <= k < |Handed(hs)| ==> Splittable(Handed(hs)[k])
    requires IsValue(host) && IsValue(port) && IsValue(user) && IsValue(pass)
    requires forall k :: 0 <= k < |extra| ==> IsPlain(extra[k])
    requires Handed(hs)[i].text == Join(Credentials(host, port, user, pass) + extra, "\n")
    ensures var r, h := BlocksShown(Compose(hs)), Handed(hs)[i];
      && r.Some? && |r.value| == |Handed(hs)|
      && r.value[i] == ProxyBlock(h.line, h.text, host + ":" + port + ":" + user + ":" + pass)
  {
    ComposedTextSplits(hs);
    CompactOfCredentials(host, port, user, pass, extra);
    assert Delivered(Handed(hs))[i].compact == CompactOf(Handed(hs)[i].text);
  }

  function FourFields(host: string, port: string, user: string, pass: string): seq<FieldLine> {
    [FieldLine(Some("host"), Some(host)), FieldLine(Some("port"), Some(port)),
     FieldLine(Some("username"), Some(user)), FieldLine(Some("password"), Some(pass))]
  }

  lemma {:induction false} ReadFour(read: string -> FieldLine, raw: seq<string>, fields: seq<FieldLine>)
    requires |raw| == 4 && |fields| == 4
    requires read(raw[0]) == fields[0] && read(raw[1]) == fields[1] && read(raw[2]) == fields[2] &&
      read(raw[3]) == fields[3]
    ensures MapSeq(read, raw) == fields
  {
  }

  lemma {:induction false} CompactOfFour(
      host: string, port: string, user: string, pass: string, more: seq<FieldLine>, first: string)
    ensures CompactOfFields(FourFields(host, port, user, pass) + more, first) ==
      host + ":" + port + ":" + user + ":" + pass
  {
    var fields := FourFields(host, port, user, pass) + more;
    assert "host"[0] != "port"[0] && "host"[0] != "username"[0] && "host"[0] != "password"[0];
    assert "port"[1] != "password"[1] && "port"[0] != "username"[0] && "username"[0] != "password"[0];
    FieldAt(fields, "host", 0);
    FieldAt(fields, "port", 1);
    FieldAt(fields, "username", 2);
    FieldAt(fields, "password", 3);
  }

  lemma {:induction false} FieldAt(fields: seq<FieldLine>, name: string, i: nat)
    requires i < |fields| && fields[i].name == Some(name)
    requires forall j :: 0 <= j < i ==> fields[j].name != Some(name)
    ensures FieldIn(fields, name) == fields[i].value
  {
    if i > 0 { FieldAt(fields[1..], name, i - 1); }
  }
}
