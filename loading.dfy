/** The loading screen: a terminal that prints one of fifteen fixed lines
    per line tick, a progress counter that climbs by 4 per progress tick
    and stops at 100, the zero-padded line numbers, and the cursor on the
    last printed line. The two intervals (150 ms and 50 ms) and the
    2-second completion timer are modelled as tick counts. */
module Loading {

  const CodeLines: seq<string> := [
    "> INITIALIZING SYSTEM...",
    "> LOADING USER PROFILE: JONAH_ORTEGA",
    "> CONNECTING TO NETWORK...",
    "> VERIFYING CREDENTIALS...",
    "> LOADING PORTFOLIO DATA...",
    "> RENDERING INTERFACE...",
    "> SYSTEM READY",
    "",
    "> システム起動中...",
    "> ユーザープロファイル読み込み中...",
    "> ネットワーク接続中...",
    "> 認証確認中...",
    "> ポートフォリオデータ読み込み中...",
    "> インターフェース描画中...",
    "> システム準備完了"
  ]

  const LineIntervalMs := 150
  const ProgressIntervalMs := 50
  const CompleteAfterMs := 2000

  /** The printed lines, the closure counter `lineIndex`, the progress, and
      whether each interval is still running. */
  datatype LoadingState = LoadingState(lines: seq<string>, lineIndex: nat, lineTimer: bool,
                                       progress: int, progressTimer: bool)

  const Start := LoadingState([], 0, true, 0, true)

  /** One firing of the line interval: print the next line, or clear the
      interval once all are printed. */
  function LineTick(st: LoadingState): LoadingState {
    if !st.lineTimer then st
    else if st.lineIndex < |CodeLines| then
      st.(lines := st.lines + [CodeLines[st.lineIndex]], lineIndex := st.lineIndex + 1)
    else st.(lineTimer := false)
  }

  /** One firing of the progress interval: add 4 below 100; at 100 clear
      the interval and keep 100. */
  function ProgressTick(st: LoadingState): LoadingState {
    if !st.progressTimer then st
    else if st.progress >= 100 then st.(progress := 100, progressTimer := false)
    else st.(progress := st.progress + 4)
  }

  /** The lines printed are always the first `lineIndex` code lines; the
      progress is a multiple of 4 between 0 and 100; a stopped interval has
      finished its work. */
  predicate Valid(st: LoadingState) {
    st.lineIndex <= |CodeLines| && st.lines == CodeLines[..st.lineIndex]
    && 0 <= st.progress <= 100 && st.progress % 4 == 0
    && (!st.lineTimer ==> st.lineIndex == |CodeLines|)
    && (!st.progressTimer ==> st.progress == 100)
  }

  /** Both ticks keep the state valid; progress never decreases and, once
      at 100, stays there; lines are only ever appended. */
  lemma TicksKeepValid(st: LoadingState)
    requires Valid(st)
    ensures Valid(LineTick(st)) && Valid(ProgressTick(st))
    ensures st.progress <= ProgressTick(st).progress
    ensures st.progress == 100 ==> ProgressTick(st).progress == 100
    ensures |st.lines| <= |LineTick(st).lines| && LineTick(st).lines[..|st.lines|] == st.lines
  {
    if st.lineTimer && st.lineIndex < |CodeLines| {
      assert CodeLines[..st.lineIndex + 1] == CodeLines[..st.lineIndex] + [CodeLines[st.lineIndex]];
    }
  }

  lemma StartValid()
    ensures Valid(Start)
  {
  }

  function LineTicks(st: LoadingState, n: nat): LoadingState
    decreases n
  {
    if n == 0 then st else LineTicks(LineTick(st), n - 1)
  }

  function ProgressTicks(st: LoadingState, n: nat): LoadingState
    decreases n
  {
    if n == 0 then st else ProgressTicks(ProgressTick(st), n - 1)
  }

  function Min(a: int, b: int): int {
    if a <= b then a else b
  }

  /** After `n` line ticks the first min(lineIndex + n, 15) lines are
      printed. */
  lemma {:induction false} LinesAfterTicks(st: LoadingState, n: nat)
    requires Valid(st)
    ensures Valid(LineTicks(st, n))
    ensures LineTicks(st, n).lineIndex == Min(st.lineIndex + n, |CodeLines|)
    decreases n
  {
    if n > 0 {
      TicksKeepValid(st);
      LinesAfterTicks(LineTick(st), n - 1);
    }
  }

  /** After `n` progress ticks the progress is min(progress + 4n, 100). */
  lemma {:induction false} ProgressAfterTicks(st: LoadingState, n: nat)
    requires Valid(st)
    ensures Valid(ProgressTicks(st, n))
    ensures ProgressTicks(st, n).progress == Min(st.progress + 4 * n, 100)
    decreases n
  {
    if n > 0 {
      TicksKeepValid(st);
      ProgressAfterTicks(ProgressTick(st), n - 1);
    }
  }

  /** When the completion timer fires at 2000 ms the progress interval has
      fired 40 times and shows 100, but the line interval has fired only 13
      times: the last two code lines are not yet printed. */
  lemma StateAtCompletion()
    ensures ProgressTicks(Start, CompleteAfterMs / ProgressIntervalMs).progress == 100
    ensures LineTicks(Start, CompleteAfterMs / LineIntervalMs).lines == CodeLines[..13]
  {
    ProgressAfterTicks(Start, CompleteAfterMs / ProgressIntervalMs);
    LinesAfterTicks(Start, CompleteAfterMs / LineIntervalMs);
  }

  /** The component's state cells and interval flags. */
  class LoadingScreen {
    var lines: seq<string>
    var lineIndex: nat
    var lineTimer: bool
    var progress: int
    var progressTimer: bool

    function State(): LoadingState
      reads this
    {
      LoadingState(lines, lineIndex, lineTimer, progress, progressTimer)
    }

    constructor ()
      ensures State() == Start && Valid(State())
    {
      lines := [];
      lineIndex := 0;
      lineTimer := true;
      progress := 0;
      progressTimer := true;
    }

    /** The line interval's callback. */
    method OnLineTick()
      requires Valid(State())
      modifies this
      ensures State() == LineTick(old(State())) && Valid(State())
    {
      TicksKeepValid(State());
      if lineTimer {
        if lineIndex < |CodeLines| {
          lines := lines + [CodeLines[lineIndex]];
          lineIndex := lineIndex + 1;
        } else {
          lineTimer := false;
        }
      }
    }

    /** The progress interval's callback. */
    method OnProgressTick()
      requires Valid(State())
      modifies this
      ensures State() == ProgressTick(old(State())) && Valid(State())
    {
      TicksKeepValid(State());
      if progressTimer {
        if progress >= 100 {
          progressTimer := false;
          progress := 100;
        } else {
          progress := progress + 4;
        }
      }
    }
  }

  // ---- line numbers and cursor ----

  predicate IsDigit(c: char) {
    '0' <= c <= '9'
  }

  predicate AllDigits(s: string) {
    forall k :: 0 <= k < |s| ==> IsDigit(s[k])
  }

  function DigitChar(d: int): (c: char)
    requires 0 <= d < 10
    ensures IsDigit(c)
  {
    ('0' as int + d) as char
  }

  function DigitValue(c: char): (d: nat)
    requires IsDigit(c)
    ensures d < 10
  {
    c as int - '0' as int
  }

  /** `String(n)` for a natural number. */
  function NatToDecimal(n: nat): (r: string)
    ensures |r| >= 1 && forall k :: 0 <= k < |r| ==> IsDigit(r[k])
    ensures n < 10 ==> |r| == 1
    ensures n < 100 ==> |r| <= 2
    ensures n < 1000 ==> |r| <= 3
    decreases n
  {
    if n < 10 then [DigitChar(n)] else NatToDecimal(n / 10) + [DigitChar(n % 10)]
  }

  /** `s.padStart(width, c)` for a one-character pad. */
  function PadStart(s: string, width: nat, c: char): (r: string)
    ensures |r| == if |s| >= width then |s| else width
    ensures r[|r| - |s|..] == s
    ensures forall k :: 0 <= k < |r| - |s| ==> r[k] == c
  {
    if |s| >= width then s else seq(width - |s|, _ => c) + s
  }

  /** The number shown beside line `index`. */
  function LineLabel(index: nat): string {
    PadStart(NatToDecimal(index + 1), 3, '0')
  }

  /** The value of a string of decimal digits. */
  function ParseDecimal(s: string): nat
    requires forall k :: 0 <= k < |s| ==> IsDigit(s[k])
    decreases |s|
  {
    if s == [] then 0 else 10 * ParseDecimal(s[..|s| - 1]) + DigitValue(s[|s| - 1])
  }

  lemma {:induction false} ParseNatToDecimal(n: nat)
    ensures ParseDecimal(NatToDecimal(n)) == n
    decreases n
  {
    var r := NatToDecimal(n);
    if n < 10 {
      assert r[..0] == [];
    } else {
      ParseNatToDecimal(n / 10);
      assert r[..|r| - 1] == NatToDecimal(n / 10);
    }
  }

  /** Leading zeros do not change the value. */
  lemma {:induction false} ParseIgnoresLeadingZeros(zeros: string, s: string)
    requires forall k :: 0 <= k < |zeros| ==> zeros[k] == '0'
    requires forall k :: 0 <= k < |s| ==> IsDigit(s[k])
    ensures forall k :: 0 <= k < |zeros + s| ==> IsDigit((zeros + s)[k])
    ensures ParseDecimal(zeros + s) == ParseDecimal(s)
    decreases |zeros| + |s|
  {
    if s == [] {
      assert zeros + s == zeros;
      if zeros != [] {
        ParseIgnoresLeadingZeros(zeros[..|zeros| - 1], []);
        assert zeros[..|zeros| - 1] + [] == zeros[..|zeros| - 1];
      }
    } else {
      ParseIgnoresLeadingZeros(zeros, s[..|s| - 1]);
      assert (zeros + s)[..|zeros + s| - 1] == zeros + s[..|s| - 1];
    }
  }

  /** The label reads back as the line's 1-based number, and for the first
      999 lines it is exactly three digits. */
  lemma LineLabelRoundTrip(index: nat)
    ensures forall k :: 0 <= k < |LineLabel(index)| ==> IsDigit(LineLabel(index)[k])
    ensures ParseDecimal(LineLabel(index)) == index + 1
    ensures index < 999 ==> |LineLabel(index)| == 3
  {
    var d := NatToDecimal(index + 1);
    var shown := LineLabel(index);
    ParseNatToDecimal(index + 1);
    if |d| < 3 {
      var zeros := shown[..3 - |d|];
      assert shown == zeros + d;
      ParseIgnoresLeadingZeros(zeros, d);
    }
  }

  /** The first and the last of the fifteen labels. */
  lemma LineLabelExamples()
    ensures LineLabel(0) == "001" && LineLabel(|CodeLines| - 1) == "015"
  {
    assert NatToDecimal(1) == "1";
    assert NatToDecimal(15) == NatToDecimal(1) + "5";
  }

  /** One rendered terminal row: its number, its text, and whether the
      blinking cursor follows it. */
  datatype RenderedLine = RenderedLine(number: string, content: string, cursor: bool)

  /** `lines.map((line, index) => …)`: each line with its padded number,
      and the cursor after the row whose index is `lines.length - 1`. */
  function Render(lines: seq<string>): (r: seq<RenderedLine>)
    ensures |r| == |lines|
    ensures forall i :: 0 <= i < |r| ==> r[i].content == lines[i] && r[i].number == LineLabel(i)
  {
    seq(|lines|, i requires 0 <= i < |lines| => RenderedLine(LineLabel(i), lines[i], i == |lines| - 1))
  }

  /** No row carries the cursor while nothing is printed; otherwise exactly
      one does, the last. */
  lemma CursorOnLastLineOnly(lines: seq<string>)
    ensures lines == [] ==> Render(lines) == []
    ensures lines != [] ==> Render(lines)[|lines| - 1].cursor
    ensures forall i, j :: 0 <= i < j < |lines| ==> !(Render(lines)[i].cursor && Render(lines)[j].cursor)
    ensures forall i :: 0 <= i < |lines| - 1 ==> !Render(lines)[i].cursor
  {
  }

  /** On the loading screen the cursor sits on the code line printed last,
      numbered with the count of lines printed so far; each line tick that
      prints moves it to the new line. */
  lemma CursorFollowsPrinting(st: LoadingState)
    requires Valid(st) && st.lineIndex > 0
    ensures |Render(st.lines)| == st.lineIndex
    ensures Render(st.lines)[st.lineIndex - 1].cursor
    ensures Render(st.lines)[st.lineIndex - 1].content == CodeLines[st.lineIndex - 1]
    ensures Render(st.lines)[st.lineIndex - 1].number == LineLabel(st.lineIndex - 1)
    ensures AllDigits(LineLabel(st.lineIndex - 1))
    ensures ParseDecimal(LineLabel(st.lineIndex - 1)) == st.lineIndex
    ensures st.lineTimer && st.lineIndex < |CodeLines| ==>
              && Render(LineTick(st).lines)[st.lineIndex].cursor
              && Render(LineTick(st).lines)[st.lineIndex].content == CodeLines[st.lineIndex]
              && !Render(LineTick(st).lines)[st.lineIndex - 1].cursor
  {
    LineLabelRoundTrip(st.lineIndex - 1);
  }
}
