// The transcript shown to the room assistant: whole when it fits the budget, else as
// many whole messages as fit from the start and from the end, the middle elided.
module Transcript {

  const CHAR_BUDGET := 40_000
  const HEAD_BUDGET := CHAR_BUDGET / 2
  const TAIL_BUDGET := CHAR_BUDGET - HEAD_BUDGET
  const CUT_AFTER := "\n...[message truncated]"
  const CUT_BEFORE := "...[message truncated]\n"

  // Two equal halves of forty thousand characters.
  lemma Budgets()
    ensures CHAR_BUDGET == 40_000 && HEAD_BUDGET == 20_000 && TAIL_BUDGET == 20_000
  {
  }

  // Each line costs its length and one newline.
  function Cost(lines: seq<string>): nat {
    if lines == [] then 0 else Cost(lines[..|lines| - 1]) + |lines[|lines| - 1]| + 1
  }

  function Join(lines: seq<string>): string {
    if lines == [] then ""
    else if |lines| == 1 then lines[0]
    else Join(lines[..|lines| - 1]) + "\n" + lines[|lines| - 1]
  }

  predicate Oversized(line: string, budget: nat) {
    |line| + 1 > budget
  }

  // ---------- What each end should hold ----------

  // The longest run of first messages within the budget; a lone one if the first
  // message is oversized.
  predicate FitsFromStart(lines: seq<string>, budget: nat, count: nat) {
    && count <= |lines|
    && if lines != [] && Oversized(lines[0], budget) then count == 1
       else Cost(lines[..count]) <= budget && (count < |lines| ==> Cost(lines[..count + 1]) > budget)
  }

  // The message text kept at the start, and the lines that show it.
  function StartKept(lines: seq<string>, budget: nat, count: nat): (kept: seq<string>)
    requires FitsFromStart(lines, budget, count)
    ensures |kept| == count
  {
    if lines != [] && Oversized(lines[0], budget) then [lines[0][..budget]] else lines[..count]
  }

  function StartLines(lines: seq<string>, budget: nat, count: nat): seq<string>
    requires FitsFromStart(lines, budget, count)
  {
    var kept := StartKept(lines, budget, count);
    if lines != [] && Oversized(lines[0], budget) then [kept[0] + CUT_AFTER] else kept
  }

  predicate FitsFromEnd(lines: seq<string>, budget: nat, count: nat) {
    && count <= |lines|
    && if lines != [] && Oversized(lines[|lines| - 1], budget) then count == 1
       else Cost(LastOnes(lines, count)) <= budget && (count < |lines| ==> Cost(LastOnes(lines, count + 1)) > budget)
  }

  function LastOnes(lines: seq<string>, k: nat): seq<string>
    requires k <= |lines|
  {
    lines[|lines| - k..]
  }

  // The last `budget` characters; a slice from minus zero is the whole line.
  function Ending(line: string, budget: nat): string
    requires budget <= |line|
  {
    if budget == 0 then line else line[|line| - budget..]
  }

  function EndKept(lines: seq<string>, budget: nat, count: nat): (kept: seq<string>)
    requires FitsFromEnd(lines, budget, count)
    ensures |kept| == count
  {
    if lines != [] && Oversized(lines[|lines| - 1], budget) then [Ending(lines[|lines| - 1], budget)]
    else LastOnes(lines, count)
  }

  function EndLines(lines: seq<string>, budget: nat, count: nat): seq<string>
    requires FitsFromEnd(lines, budget, count)
  {
    var kept := EndKept(lines, budget, count);
    if lines != [] && Oversized(lines[|lines| - 1], budget) then [CUT_BEFORE + kept[0]] else kept
  }

  // ---------- Costs ----------

  lemma CostSnoc(lines: seq<string>, line: string)
    ensures Cost(lines + [line]) == Cost(lines) + |line| + 1
  {
    assert (lines + [line])[..|lines|] == lines;
  }

  lemma {:induction false} CostAppend(a: seq<string>, b: seq<string>)
    ensures Cost(a + b) == Cost(a) + Cost(b)
  {
    if b == [] {
      assert a + b == a;
    } else {
      var rest := b[..|b| - 1];
      assert a + b == (a + rest) + [b[|b| - 1]] && b == rest + [b[|b| - 1]];
      CostAppend(a, rest);
      CostSnoc(a + rest, b[|b| - 1]);
      CostSnoc(rest, b[|b| - 1]);
    }
  }

  lemma CostCons(line: string, lines: seq<string>)
    ensures Cost([line] + lines) == |line| + 1 + Cost(lines)
  {
    CostAppend([line], lines);
    CostSnoc([], line);
    assert [] + [line] == [line];
  }

  lemma CostOfPart(lines: seq<string>, i: nat, j: nat)
    requires i <= j <= |lines|
    ensures Cost(lines[..i]) <= Cost(lines[..j])
    ensures Cost(lines[j..]) <= Cost(lines[i..])
  {
    assert lines[..j] == lines[..i] + lines[i..j] && lines[i..] == lines[i..j] + lines[j..];
    CostAppend(lines[..i], lines[i..j]);
    CostAppend(lines[i..j], lines[j..]);
  }

  lemma CostSplit(lines: seq<string>, i: nat)
    requires i <= |lines|
    ensures Cost(lines) == Cost(lines[..i]) + Cost(lines[i..])
  {
    assert lines == lines[..i] + lines[i..];
    CostAppend(lines[..i], lines[i..]);
  }

  // There is only one right count at each end.
  lemma StartCountUnique(lines: seq<string>, budget: nat, a: nat, b: nat)
    requires FitsFromStart(lines, budget, a) && FitsFromStart(lines, budget, b)
    ensures a == b
  {
    if a < b { CostOfPart(lines, a + 1, b); }
    if b < a { CostOfPart(lines, b + 1, a); }
  }

  lemma EndCountUnique(lines: seq<string>, budget: nat, a: nat, b: nat)
    requires FitsFromEnd(lines, budget, a) && FitsFromEnd(lines, budget, b)
    ensures a == b
  {
    EndCountMaximal(lines, budget, a, b);
    EndCountMaximal(lines, budget, b, a);
  }

  lemma EndCountMaximal(lines: seq<string>, budget: nat, a: nat, b: nat)
    requires FitsFromEnd(lines, budget, a) && FitsFromEnd(lines, budget, b)
    ensures b <= a
  {
    if a < b {
      LastOnesCost(lines, a + 1, b);
    }
  }

  lemma LastOnesCost(lines: seq<string>, a: nat, b: nat)
    requires a <= b <= |lines|
    ensures Cost(LastOnes(lines, a)) <= Cost(LastOnes(lines, b))
  {
    CostOfPart(lines, |lines| - b, |lines| - a);
  }

  // ---------- The loops ----------

  lemma StartIsCut(messages: seq<string>, budget: nat)
    requires messages != [] && Oversized(messages[0], budget)
    ensures FitsFromStart(messages, budget, 1)
    ensures StartLines(messages, budget, 1) == [messages[0][..budget] + CUT_AFTER]
  {
  }

  method TakeWholeMessagesFromStart(messages: seq<string>, budget: nat) returns (lines: seq<string>, count: nat)
    ensures FitsFromStart(messages, budget, count) && lines == StartLines(messages, budget, count)
  {
    lines, count := [], 0;
    var total := 0;
    while count < |messages|
      invariant count <= |messages| && lines == messages[..count]
      invariant total == Cost(lines) <= budget
      invariant count > 0 ==> !Oversized(messages[0], budget)
    {
      var line := messages[count];
      var added := |line| + 1;
      if count == 0 && added > budget {
        StartIsCut(messages, budget);
        return [line[..budget] + CUT_AFTER], 1;
      }
      PrefixCost(messages, count);
      if total + added > budget { break; }
      lines := lines + [line];
      total := total + added;
      count := count + 1;
    }
  }

  lemma PrefixCost(messages: seq<string>, count: nat)
    requires count < |messages|
    ensures messages[..count + 1] == messages[..count] + [messages[count]]
    ensures Cost(messages[..count + 1]) == Cost(messages[..count]) + |messages[count]| + 1
  {
    assert messages[..count + 1] == messages[..count] + [messages[count]];
    CostSnoc(messages[..count], messages[count]);
  }

  method TakeWholeMessagesFromEnd(messages: seq<string>, budget: nat) returns (lines: seq<string>, count: nat)
    ensures FitsFromEnd(messages, budget, count) && lines == EndLines(messages, budget, count)
  {
    lines, count := [], 0;
    var total := 0;
    while count < |messages|
      invariant count <= |messages| && lines == LastOnes(messages, count)
      invariant total == Cost(lines) <= budget
      invariant count > 0 ==> !Oversized(messages[|messages| - 1], budget)
    {
      var line := messages[|messages| - count - 1];
      var added := |line| + 1;
      if count == 0 && added > budget {
        return [CUT_BEFORE + Ending(line, budget)], 1;
      }
      CostCons(line, lines);
      assert LastOnes(messages, count + 1) == [line] + lines;
      if total + added > budget { break; }
      lines := [line] + lines;
      total := total + added;
      count := count + 1;
    }
  }

  // ---------- The whole transcript ----------

  datatype Formatted = Formatted(text: string, truncated: bool, head: nat, tail: nat, omitted: nat, total: nat)

  function Decimal(n: nat): string {
    var digit := [('0' as int + n % 10) as char];
    if n < 10 then digit else Decimal(n / 10) + digit
  }

  function Middle(omitted: nat): seq<string> {
    if omitted > 0 then ["[... " + Decimal(omitted) + " messages omitted ...]"] else []
  }

  // Head and tail are the right ones and everything else is counted as omitted.
  predicate WellTruncated(lines: seq<string>, f: Formatted) {
    && f.head + f.omitted + f.tail == |lines|
    && FitsFromStart(lines, HEAD_BUDGET, f.head)
    && FitsFromEnd(lines[f.head..], TAIL_BUDGET, f.tail)
    && f.text == Join(StartLines(lines, HEAD_BUDGET, f.head) + Middle(f.omitted)
                      + EndLines(lines[f.head..], TAIL_BUDGET, f.tail))
  }

  method FormatTranscriptForPrompt(lines: seq<string>) returns (f: Formatted)
    ensures f.total == |lines|
    ensures f.truncated <==> Cost(lines) > 40_000
    ensures !f.truncated ==> f.text == Join(lines) && f.head == |lines| && f.tail == f.omitted == 0
    ensures f.truncated ==> WellTruncated(lines, f)
  {
    if lines == [] { return Formatted("", false, 0, 0, 0, 0); }
    if Cost(lines) <= CHAR_BUDGET {
      return Formatted(Join(lines), false, |lines|, 0, 0, |lines|);
    }
    var headLines, head := TakeWholeMessagesFromStart(lines, HEAD_BUDGET);
    var tailLines, tail := TakeWholeMessagesFromEnd(lines[head..], TAIL_BUDGET);
    var omitted := |lines| - head - tail;
    f := Formatted(Join(headLines + Middle(omitted) + tailLines), true, head, tail, omitted, |lines|);
  }

  // ---------- What the truncated form guarantees ----------

  // Unless its own message is cut, each end shows its messages unchanged: the first
  // `head`, the last `tail`, no message twice.
  lemma EndsAreWholeMessages(lines: seq<string>, f: Formatted)
    requires WellTruncated(lines, f)
    ensures lines != [] && !Oversized(lines[0], HEAD_BUDGET) ==>
              StartLines(lines, HEAD_BUDGET, f.head) == lines[..f.head]
    ensures f.head < |lines| && !Oversized(lines[|lines| - 1], TAIL_BUDGET) ==>
              EndLines(lines[f.head..], TAIL_BUDGET, f.tail) == lines[|lines| - f.tail..]
    ensures f.head <= |lines| - f.tail
    ensures lines != [] ==> f.head >= 1
    ensures f.head < |lines| ==> f.tail >= 1
  {
    EndsOf(lines, f.head, f.tail);
  }

  lemma EndsOf(lines: seq<string>, head: nat, tail: nat)
    requires FitsFromStart(lines, HEAD_BUDGET, head) && FitsFromEnd(lines[head..], TAIL_BUDGET, tail)
    ensures lines != [] && !Oversized(lines[0], HEAD_BUDGET) ==> StartLines(lines, HEAD_BUDGET, head) == lines[..head]
    ensures head < |lines| && !Oversized(lines[|lines| - 1], TAIL_BUDGET) ==>
              EndLines(lines[head..], TAIL_BUDGET, tail) == lines[|lines| - tail..]
    ensures (lines != [] ==> head >= 1) && (head < |lines| ==> tail >= 1)
  {
    StartIsWhole(lines, HEAD_BUDGET, head);
    EndIsWhole(lines, head, TAIL_BUDGET, tail);
  }

  lemma StartIsWhole(lines: seq<string>, budget: nat, count: nat)
    requires FitsFromStart(lines, budget, count)
    ensures lines != [] ==> count >= 1
    ensures lines != [] && !Oversized(lines[0], budget) ==> StartLines(lines, budget, count) == lines[..count]
  {
    if lines != [] { CostOfOne(lines, 0); }
  }

  lemma EndIsWhole(lines: seq<string>, from: nat, budget: nat, count: nat)
    requires from <= |lines| && FitsFromEnd(lines[from..], budget, count)
    ensures from < |lines| ==> count >= 1
    ensures from < |lines| && !Oversized(lines[|lines| - 1], budget) ==>
              EndLines(lines[from..], budget, count) == lines[|lines| - count..]
  {
    var rest := lines[from..];
    if from < |lines| {
      assert rest[|rest| - 1] == lines[|lines| - 1] && LastOnes(rest, count) == lines[|lines| - count..];
      CostOfOne(rest, |rest| - 1);
    }
  }

  lemma CostOfOne(lines: seq<string>, i: nat)
    requires i < |lines|
    ensures Cost(lines[i..i + 1]) == |lines[i]| + 1
    ensures i == 0 ==> Cost(lines[..1]) == |lines[0]| + 1
    ensures i == |lines| - 1 ==> Cost(lines[i..]) == |lines[i]| + 1
  {
    CostSnoc([], lines[i]);
    assert [] + [lines[i]] == lines[i..i + 1];
    assert i == |lines| - 1 ==> lines[i..] == lines[i..i + 1];
  }

  // The message text the reader gets to see.
  function KeptTexts(lines: seq<string>, f: Formatted): seq<string>
    requires WellTruncated(lines, f)
  {
    StartKept(lines, HEAD_BUDGET, f.head) + EndKept(lines[f.head..], TAIL_BUDGET, f.tail)
  }

  // At either end the notice appears exactly when the message has at least the half
  // budget of characters, and text is lost exactly when it has more.
  lemma StartCutIff(lines: seq<string>, budget: nat, count: nat)
    requires FitsFromStart(lines, budget, count) && lines != []
    ensures StartLines(lines, budget, count) != StartKept(lines, budget, count) <==> budget <= |lines[0]|
    ensures StartKept(lines, budget, count) != lines[..count] <==> budget < |lines[0]|
  {
    StartLossIff(lines, budget, count);
    if budget <= |lines[0]| {
      var kept := lines[0][..budget];
      assert |kept + CUT_AFTER| > |kept|;
      assert StartLines(lines, budget, count)[0] == kept + CUT_AFTER;
    }
  }

  lemma StartLossIff(lines: seq<string>, budget: nat, count: nat)
    requires FitsFromStart(lines, budget, count) && lines != []
    ensures StartKept(lines, budget, count) != lines[..count] <==> budget < |lines[0]|
  {
    if budget <= |lines[0]| {
      assert lines[..1] == [lines[0]];
      assert |lines[0]| == budget ==> lines[0][..budget] == lines[0];
    }
  }

  lemma EndCutIff(lines: seq<string>, budget: nat, count: nat)
    requires FitsFromEnd(lines, budget, count) && lines != [] && 0 < budget
    ensures var last := lines[|lines| - 1];
            && (EndLines(lines, budget, count) != EndKept(lines, budget, count) <==> budget <= |last|)
            && (EndKept(lines, budget, count) != LastOnes(lines, count) <==> budget < |last|)
  {
    EndLossIff(lines, budget, count);
    var last := lines[|lines| - 1];
    if budget <= |last| {
      var kept := last[|last| - budget..];
      assert |CUT_BEFORE + kept| > |kept|;
      assert EndLines(lines, budget, count)[0] == CUT_BEFORE + kept;
    }
  }

  lemma EndLossIff(lines: seq<string>, budget: nat, count: nat)
    requires FitsFromEnd(lines, budget, count) && lines != [] && 0 < budget
    ensures EndKept(lines, budget, count) != LastOnes(lines, count) <==> budget < |lines[|lines| - 1]|
  {
    var last := lines[|lines| - 1];
    if budget <= |last| {
      assert LastOnes(lines, 1) == [last];
      assert |last| == budget ==> last[|last| - budget..] == last;
    }
  }

  // A truncated transcript that omits no message shows a notice at one end at least.
  lemma NothingOmittedMeansNotice(lines: seq<string>, f: Formatted)
    requires WellTruncated(lines, f) && Cost(lines) > CHAR_BUDGET && f.omitted == 0
    ensures lines != []
    ensures (f.head == 1 && HEAD_BUDGET <= |lines[0]|)
            || (f.tail == 1 && f.head < |lines| && TAIL_BUDGET <= |lines[|lines| - 1]|)
  {
    CostSplit(lines, f.head);
    var rest := lines[f.head..];
    assert f.tail == |rest| ==> LastOnes(rest, f.tail) == rest;
    if f.head < |lines| { assert rest[|rest| - 1] == lines[|lines| - 1]; }
  }

  // All text is kept exactly when no message is omitted and neither end message is
  // longer than its half.
  lemma AllKeptIff(lines: seq<string>, f: Formatted)
    requires WellTruncated(lines, f) && lines != []
    ensures KeptTexts(lines, f) == lines <==>
            f.omitted == 0 && |lines[0]| <= HEAD_BUDGET && (f.head < |lines| ==> |lines[|lines| - 1]| <= TAIL_BUDGET)
  {
    if f.omitted == 0 {
      AllKeptOfEnds(lines, f.head, f.tail);
    } else {
      assert |KeptTexts(lines, f)| < |lines|;
    }
  }

  lemma AllKeptOfEnds(lines: seq<string>, head: nat, tail: nat)
    requires FitsFromStart(lines, HEAD_BUDGET, head) && FitsFromEnd(lines[head..], TAIL_BUDGET, tail)
    requires lines != [] && head + tail == |lines|
    ensures StartKept(lines, HEAD_BUDGET, head) + EndKept(lines[head..], TAIL_BUDGET, tail) == lines <==>
            |lines[0]| <= HEAD_BUDGET && (head < |lines| ==> |lines[|lines| - 1]| <= TAIL_BUDGET)
  {
    var rest := lines[head..];
    StartLossIff(lines, HEAD_BUDGET, head);
    RestLossIff(lines, head, tail);
    KeptPrefix(lines, StartKept(lines, HEAD_BUDGET, head), EndKept(rest, TAIL_BUDGET, tail), head);
  }

  lemma RestLossIff(lines: seq<string>, head: nat, tail: nat)
    requires head + tail == |lines| && FitsFromEnd(lines[head..], TAIL_BUDGET, tail)
    ensures EndKept(lines[head..], TAIL_BUDGET, tail) == lines[head..] <==>
            (head < |lines| ==> |lines[|lines| - 1]| <= TAIL_BUDGET)
  {
    var rest := lines[head..];
    assert LastOnes(rest, tail) == rest;
    if rest != [] {
      EndLossIff(rest, TAIL_BUDGET, tail);
      assert rest[|rest| - 1] == lines[|lines| - 1];
    }
  }

  lemma KeptPrefix(lines: seq<string>, a: seq<string>, b: seq<string>, k: nat)
    requires k <= |lines| && |a| == k
    ensures a + b == lines <==> a == lines[..k] && b == lines[k..]
  {
    if a + b == lines {
      assert lines[..k] == a && lines[k..] == b;
    }
    assert lines[..k] + lines[k..] == lines;
  }

  // The inputs that are over the budget and yet fit: an end message of exactly its half,
  // and the others within the other half.
  predicate ExactFit(lines: seq<string>) {
    var n := |lines|;
    2 <= n &&
    ((|lines[0]| == HEAD_BUDGET && (Cost(lines[1..]) <= TAIL_BUDGET || (n == 2 && |lines[1]| == TAIL_BUDGET)))
     || (Cost(lines[..n - 1]) <= HEAD_BUDGET && |lines[n - 1]| == TAIL_BUDGET))
  }

  // So a truncated transcript is whole exactly on those inputs.
  lemma TruncatedYetWholeIff(lines: seq<string>, f: Formatted)
    requires WellTruncated(lines, f) && Cost(lines) > CHAR_BUDGET
    ensures KeptTexts(lines, f) == lines <==> ExactFit(lines)
  {
    assert lines != [];
    AllKeptIff(lines, f);
    if f.omitted == 0 && |lines[0]| <= HEAD_BUDGET && (f.head < |lines| ==> |lines[|lines| - 1]| <= TAIL_BUDGET) {
      WholeIsExactFit(lines, f);
    }
    if ExactFit(lines) {
      ExactFitIsWhole(lines, f);
    }
  }

  lemma WholeIsExactFit(lines: seq<string>, f: Formatted)
    requires WellTruncated(lines, f) && Cost(lines) > CHAR_BUDGET && lines != []
    requires f.omitted == 0 && |lines[0]| <= HEAD_BUDGET
    requires f.head < |lines| ==> |lines[|lines| - 1]| <= TAIL_BUDGET
    ensures ExactFit(lines)
  {
    WholeEnds(lines, f.head, f.tail);
    CostSplit(lines, f.head);
    CostSplit(lines, 1);
    CostOfOne(lines, 0);
  }

  // The tail holds all the rest: within its half, or one message of exactly that half.
  lemma WholeEnds(lines: seq<string>, head: nat, tail: nat)
    requires lines != [] && FitsFromStart(lines, HEAD_BUDGET, head) && FitsFromEnd(lines[head..], TAIL_BUDGET, tail)
    requires head + tail == |lines| && (head < |lines| ==> |lines[|lines| - 1]| <= TAIL_BUDGET)
    ensures Cost(lines[head..]) <= TAIL_BUDGET || (tail == 1 && |lines[|lines| - 1]| == TAIL_BUDGET)
    ensures head < |lines| && Cost(lines[head..]) > TAIL_BUDGET ==> head == |lines| - 1
  {
    if head < |lines| { assert lines[head..][tail - 1] == lines[|lines| - 1]; }
    WholeTail(lines[head..], tail);
  }

  lemma WholeTail(rest: seq<string>, tail: nat)
    requires FitsFromEnd(rest, TAIL_BUDGET, tail) && tail == |rest|
    ensures rest != [] && |rest[tail - 1]| <= TAIL_BUDGET ==>
              Cost(rest) <= TAIL_BUDGET || (tail == 1 && |rest[0]| == TAIL_BUDGET)
    ensures rest == [] ==> Cost(rest) == 0
  {
    assert LastOnes(rest, tail) == rest;
  }

  lemma ExactFitIsWhole(lines: seq<string>, f: Formatted)
    requires WellTruncated(lines, f) && Cost(lines) > CHAR_BUDGET && ExactFit(lines)
    ensures f.omitted == 0 && |lines[0]| <= HEAD_BUDGET && (f.head < |lines| ==> |lines[|lines| - 1]| <= TAIL_BUDGET)
  {
    if |lines[0]| == HEAD_BUDGET {
      FullHead(lines, f.tail);
    } else {
      FullTail(lines, f.head);
      assert lines[f.head..] == [lines[|lines| - 1]];
    }
  }

  lemma FullHead(lines: seq<string>, tail: nat)
    requires ExactFit(lines) && |lines[0]| == HEAD_BUDGET && FitsFromEnd(lines[1..], TAIL_BUDGET, tail)
    ensures tail == |lines| - 1 && |lines[|lines| - 1]| <= TAIL_BUDGET
  {
    var rest := lines[1..];
    LongLineCosts(lines[..|lines| - 1], 0);
    LongLineCosts(rest, |rest| - 1);
    assert LastOnes(rest, |rest|) == rest;
    if Cost(rest) <= TAIL_BUDGET {
      EndCountUnique(rest, TAIL_BUDGET, tail, |rest|);
    }
  }

  lemma FullTail(lines: seq<string>, head: nat)
    requires ExactFit(lines) && |lines[0]| != HEAD_BUDGET && Cost(lines) > CHAR_BUDGET
    requires FitsFromStart(lines, HEAD_BUDGET, head)
    ensures head == |lines| - 1 && |lines[0]| < HEAD_BUDGET && |lines[|lines| - 1]| == TAIL_BUDGET
  {
    var n := |lines|;
    LongLineCosts(lines[..n - 1], 0);
    assert lines[..n] == lines && lines[..n - 1][0] == lines[0];
    StartCountUnique(lines, HEAD_BUDGET, head, n - 1);
  }

  // Every line costs at least itself.
  lemma {:induction false} LongLineCosts(lines: seq<string>, i: nat)
    requires i < |lines|
    ensures |lines[i]| + 1 <= Cost(lines)
  {
    if i < |lines| - 1 { LongLineCosts(lines[..|lines| - 1], i); }
  }

  // Two messages of exactly half the budget each: reported truncated, nothing omitted,
  // a notice at both ends, and not a character missing.
  lemma TwoHalvesAreWhole(a: string, b: string)
    requires |a| == HEAD_BUDGET && |b| == TAIL_BUDGET
    ensures var f := Formatted(Join([a + CUT_AFTER, CUT_BEFORE + b]), true, 1, 1, 0, 2);
            Cost([a, b]) > CHAR_BUDGET && WellTruncated([a, b], f) && KeptTexts([a, b], f) == [a, b]
  {
    var lines := [a, b];
    HalfStart(lines);
    HalfEnd(b);
    TwoCosts(a, b);
    assert lines[1..] == [b] && Middle(0) == [];
    assert [a + CUT_AFTER] + [] + [CUT_BEFORE + b] == [a + CUT_AFTER, CUT_BEFORE + b];
  }

  lemma TwoCosts(a: string, b: string)
    ensures Cost([a, b]) == |a| + |b| + 2
  {
    CostSnoc([], a);
    CostSnoc([a], b);
    assert [] + [a] == [a] && [a] + [b] == [a, b];
  }

  lemma HalfStart(lines: seq<string>)
    requires lines != [] && |lines[0]| == HEAD_BUDGET
    ensures FitsFromStart(lines, HEAD_BUDGET, 1)
    ensures StartKept(lines, HEAD_BUDGET, 1) == [lines[0]] && StartLines(lines, HEAD_BUDGET, 1) == [lines[0] + CUT_AFTER]
  {
    assert lines[0][..HEAD_BUDGET] == lines[0];
  }

  lemma HalfEnd(b: string)
    requires |b| == TAIL_BUDGET
    ensures FitsFromEnd([b], TAIL_BUDGET, 1)
    ensures EndKept([b], TAIL_BUDGET, 1) == [b] && EndLines([b], TAIL_BUDGET, 1) == [CUT_BEFORE + b]
  {
    assert Ending(b, TAIL_BUDGET) == b;
  }

  // One message alone over the whole budget is cut to the head's half.
  lemma LoneOversizedIsCut(line: string, f: Formatted)
    requires WellTruncated([line], f) && Cost([line]) > CHAR_BUDGET
    ensures f.head == 1 && f.tail == 0 && f.omitted == 0 && f.text == line[..HEAD_BUDGET] + CUT_AFTER
  {
    CutCost([line]);
    LoneStart(line, f.head);
    EndOfNothing([line][f.head..], TAIL_BUDGET, f.tail);
    LoneText(line, StartLines([line], HEAD_BUDGET, f.head), Middle(f.omitted), EndLines([line][f.head..], TAIL_BUDGET, f.tail));
  }

  lemma LoneStart(line: string, head: nat)
    requires HEAD_BUDGET <= |line| && FitsFromStart([line], HEAD_BUDGET, head)
    ensures head == 1 && StartLines([line], HEAD_BUDGET, head) == [line[..HEAD_BUDGET] + CUT_AFTER]
  {
  }

  lemma EndOfNothing(lines: seq<string>, budget: nat, count: nat)
    requires lines == [] && FitsFromEnd(lines, budget, count)
    ensures count == 0 && EndLines(lines, budget, count) == []
  {
  }

  lemma LoneText(line: string, a: seq<string>, b: seq<string>, c: seq<string>)
    requires HEAD_BUDGET <= |line| && a == [line[..HEAD_BUDGET] + CUT_AFTER] && b == [] && c == []
    ensures Join(a + b + c) == line[..HEAD_BUDGET] + CUT_AFTER
  {
    assert a + b + c == a;
  }

  lemma {:induction false} JoinCost(lines: seq<string>)
    ensures lines != [] ==> |Join(lines)| + 1 == Cost(lines)
    ensures lines == [] ==> Join(lines) == ""
  {
    if |lines| == 1 {
      CostOfOne(lines, 0);
      assert lines[..1] == lines;
    } else if |lines| > 1 {
      JoinCost(lines[..|lines| - 1]);
    }
  }

  // Each end costs at most its half plus the marker.
  lemma StartCost(lines: seq<string>, budget: nat, count: nat)
    requires FitsFromStart(lines, budget, count)
    ensures Cost(StartLines(lines, budget, count)) <= budget + |CUT_AFTER| + 1
  {
    CutCost(StartLines(lines, budget, count));
  }

  lemma EndCost(lines: seq<string>, budget: nat, count: nat)
    requires FitsFromEnd(lines, budget, count) && 0 < budget
    ensures Cost(EndLines(lines, budget, count)) <= budget + |CUT_BEFORE| + 1
  {
    CutCost(EndLines(lines, budget, count));
  }

  // Each end stays within its half of the budget plus the marker.
  lemma EndsWithinBudget(lines: seq<string>, f: Formatted)
    requires WellTruncated(lines, f)
    ensures |Join(StartLines(lines, HEAD_BUDGET, f.head))| <= HEAD_BUDGET + |CUT_AFTER|
    ensures |Join(EndLines(lines[f.head..], TAIL_BUDGET, f.tail))| <= TAIL_BUDGET + |CUT_BEFORE|
  {
    JoinCost(StartLines(lines, HEAD_BUDGET, f.head));
    JoinCost(EndLines(lines[f.head..], TAIL_BUDGET, f.tail));
    StartCost(lines, HEAD_BUDGET, f.head);
    EndCost(lines[f.head..], TAIL_BUDGET, f.tail);
  }

  lemma CutCost(lines: seq<string>)
    ensures |lines| == 1 ==> Cost(lines) == |lines[0]| + 1
  {
    if |lines| == 1 { CostOfOne(lines, 0); assert lines[0..1] == lines; }
  }

  lemma JoinOfThree(a: seq<string>, b: seq<string>, c: seq<string>)
    ensures |Join(a + b + c)| <= Cost(a) + Cost(b) + Cost(c)
  {
    JoinCost(a + b + c);
    CostAppend(a + b, c);
    CostAppend(a, b);
  }

  // The whole prompt text stays within the budget plus the three markers.
  lemma TextWithinBudget(lines: seq<string>, f: Formatted)
    requires WellTruncated(lines, f)
    ensures |f.text| <= CHAR_BUDGET + |CUT_AFTER| + |CUT_BEFORE| + 2 + Cost(Middle(f.omitted))
  {
    var a, c := StartLines(lines, HEAD_BUDGET, f.head), EndLines(lines[f.head..], TAIL_BUDGET, f.tail);
    JoinOfThree(a, Middle(f.omitted), c);
    StartCost(lines, HEAD_BUDGET, f.head);
    EndCost(lines[f.head..], TAIL_BUDGET, f.tail);
  }

  // ---------- Where everything stands in the text ----------

  // The line stands at that position, at the start of the text or after a newline.
  predicate Shows(text: string, at: nat, line: string) {
    at + |line| <= |text| && text[at..at + |line|] == line && (at > 0 ==> text[at - 1] == '\n')
  }

  // Joined lines stand in order, one newline apart, and nothing else is there.
  lemma {:induction false} JoinShows(lines: seq<string>, i: nat)
    requires i < |lines|
    ensures Shows(Join(lines), Cost(lines[..i]), lines[i])
    ensures |Join(lines)| + 1 == Cost(lines)
    decreases |lines|
  {
    JoinCost(lines);
    var n := |lines| - 1;
    if n == 0 {
      assert lines[..0] == [];
    } else {
      var rest := lines[..n];
      JoinCost(rest);
      if i < n {
        JoinShows(rest, i);
        assert rest[..i] == lines[..i];
        ShowsLonger(Join(rest), "\n" + lines[n], Cost(lines[..i]), lines[i]);
        assert Join(rest) + ("\n" + lines[n]) == Join(lines);
      } else {
        LastShown(Join(rest), lines[n]);
      }
    }
  }

  lemma ShowsLonger(text: string, more: string, at: nat, line: string)
    requires Shows(text, at, line)
    ensures Shows(text + more, at, line)
  {
    assert (text + more)[at..at + |line|] == text[at..at + |line|];
  }

  lemma LastShown(text: string, line: string)
    ensures Shows(text + "\n" + line, |text| + 1, line)
  {
    assert (text + "\n" + line)[|text| + 1..] == line;
    assert (text + "\n" + line)[|text|] == '\n';
  }

  // A transcript that fits shows every message in order.
  lemma WholeShows(lines: seq<string>, text: string, i: nat)
    requires text == Join(lines) && i < |lines|
    ensures Shows(text, Cost(lines[..i]), lines[i])
  {
    JoinShows(lines, i);
  }

  lemma FirstShows(a: seq<string>, b: seq<string>, i: nat)
    requires i < |a|
    ensures Shows(Join(a + b), Cost(a[..i]), a[i])
  {
    JoinShows(a + b, i);
    assert (a + b)[..i] == a[..i];
  }

  lemma LaterShows(a: seq<string>, b: seq<string>, i: nat, at: nat)
    requires i < |b| && at == Cost(a)
    ensures Shows(Join(a + b), at + Cost(b[..i]), b[i])
  {
    assert (a + b)[..|a| + i] == a + b[..i];
    CostAppend(a, b[..i]);
    ShownAt(a + b, |a| + i, at + Cost(b[..i]), b[i]);
  }

  lemma ShownAt(lines: seq<string>, i: nat, at: nat, line: string)
    requires i < |lines| && at == Cost(lines[..i]) && line == lines[i]
    ensures Shows(Join(lines), at, line)
  {
    JoinShows(lines, i);
  }

  lemma MiddleShows(a: seq<string>, line: string, c: seq<string>)
    ensures Shows(Join(a + [line] + c), Cost(a), line)
  {
    assert a + [line] + c == a + ([line] + c) && ([line] + c)[..0] == [];
    LaterShows(a, [line] + c, 0, Cost(a));
  }

  lemma LastShows(a: seq<string>, b: seq<string>, c: seq<string>, j: nat)
    requires j < |c|
    ensures Shows(Join(a + b + c), Cost(a) + Cost(b) + Cost(c[..j]), c[j])
  {
    CostAppend(a, b);
    LaterShows(a + b, c, j, Cost(a) + Cost(b));
  }

  // How far the head and the notice reach.
  function HeadEnd(lines: seq<string>, f: Formatted): nat
    requires WellTruncated(lines, f)
  {
    Cost(StartLines(lines, HEAD_BUDGET, f.head))
  }

  function NoticeEnd(lines: seq<string>, f: Formatted): nat
    requires WellTruncated(lines, f)
  {
    HeadEnd(lines, f) + Cost(Middle(f.omitted))
  }

  // A truncated transcript begins with the head's lines in order, each where the ones
  // before it end.
  lemma HeadShown(lines: seq<string>, f: Formatted, head: seq<string>, i: nat)
    requires WellTruncated(lines, f) && head == StartLines(lines, HEAD_BUDGET, f.head) && i < |head|
    ensures Shows(f.text, Cost(head[..i]), head[i])
  {
    var rest := Middle(f.omitted) + EndLines(lines[f.head..], TAIL_BUDGET, f.tail);
    assert head + rest == head + Middle(f.omitted) + EndLines(lines[f.head..], TAIL_BUDGET, f.tail);
    FirstShows(head, rest, i);
  }

  // Then comes the notice naming how many messages are missing, if any are.
  lemma NoticeShown(lines: seq<string>, f: Formatted)
    requires WellTruncated(lines, f)
    ensures 0 < f.omitted ==> Shows(f.text, HeadEnd(lines, f), "[... " + Decimal(f.omitted) + " messages omitted ...]")
    ensures f.omitted == 0 ==> NoticeEnd(lines, f) == HeadEnd(lines, f)
  {
    var a, c := StartLines(lines, HEAD_BUDGET, f.head), EndLines(lines[f.head..], TAIL_BUDGET, f.tail);
    if 0 < f.omitted { MiddleShows(a, Middle(f.omitted)[0], c); }
  }

  // Then the tail's lines in order, to the end of the text.
  lemma TailShown(lines: seq<string>, f: Formatted, tail: seq<string>, j: nat)
    requires WellTruncated(lines, f) && tail == EndLines(lines[f.head..], TAIL_BUDGET, f.tail) && j < |tail|
    ensures Shows(f.text, NoticeEnd(lines, f) + Cost(tail[..j]), tail[j])
  {
    LastShows(StartLines(lines, HEAD_BUDGET, f.head), Middle(f.omitted), tail, j);
  }

  // Those lines are the first and last messages (`EndsAreWholeMessages`), unless the
  // message at that end is oversized: then it alone is there, cut.
  lemma CutEnds(lines: seq<string>, head: nat, tail: nat)
    requires FitsFromStart(lines, HEAD_BUDGET, head) && FitsFromEnd(lines[head..], TAIL_BUDGET, tail)
    ensures lines != [] && |lines[0]| >= 20_000 ==>
              head == 1 && StartLines(lines, HEAD_BUDGET, head) == [lines[0][..20_000] + CUT_AFTER]
    ensures head < |lines| && |lines[|lines| - 1]| >= 20_000 ==>
              && tail == 1
              && var last := lines[|lines| - 1];
                 EndLines(lines[head..], TAIL_BUDGET, tail) == [CUT_BEFORE + last[|last| - 20_000..]]
  {
    if head < |lines| { CutEnd(lines[head..], tail, lines[|lines| - 1]); }
  }

  lemma CutEnd(rest: seq<string>, tail: nat, last: string)
    requires FitsFromEnd(rest, TAIL_BUDGET, tail) && rest != [] && last == rest[|rest| - 1]
    ensures |last| >= 20_000 ==>
              tail == 1 && EndLines(rest, TAIL_BUDGET, tail) == [CUT_BEFORE + last[|last| - 20_000..]]
  {
  }

  // And that is the whole text.
  lemma TextLength(lines: seq<string>, f: Formatted)
    requires WellTruncated(lines, f) && lines != []
    ensures |f.text| + 1 == NoticeEnd(lines, f) + Cost(EndLines(lines[f.head..], TAIL_BUDGET, f.tail))
  {
    var a, b, c := StartLines(lines, HEAD_BUDGET, f.head), Middle(f.omitted), EndLines(lines[f.head..], TAIL_BUDGET, f.tail);
    StartIsWhole(lines, HEAD_BUDGET, f.head);
    assert |a| > 0;
    JoinCost(a + b + c);
    CostAppend(a + b, c);
    CostAppend(a, b);
  }

  // ---------- The number in the notice ----------

  predicate IsDigit(c: char) { '0' <= c <= '9' }

  // What a digit string denotes, most significant digit first.
  function Denotes(digits: string): nat
    requires forall i :: 0 <= i < |digits| ==> IsDigit(digits[i])
  {
    if digits == "" then 0
    else
      assert IsDigit(digits[|digits| - 1]);
      10 * Denotes(digits[..|digits| - 1]) + (digits[|digits| - 1] as int - '0' as int)
  }

  lemma {:induction false} DecimalDenotes(n: nat)
    ensures var d := Decimal(n);
            && d != "" && (forall i :: 0 <= i < |d| ==> IsDigit(d[i])) && Denotes(d) == n
            && (n > 0 ==> d[0] != '0')
  {
    var d := Decimal(n);
    if n < 10 {
      assert d[..0] == "";
    } else {
      DecimalDenotes(n / 10);
      assert d[..|d| - 1] == Decimal(n / 10);
    }
  }
}
