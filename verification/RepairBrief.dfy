/** The gate-repair brief: the rejection evidence of a plan, composed under a character budget. */
module RepairBrief {
  import opened Text

  const BRIEF_MAX_CHARS := 4000
  const MIN_OUTLINE_ITEM_CHARS := 120

  datatype BriefInput = BriefInput(
    gate: string,
    attempt: nat,
    maxAttempts: nat,
    machineGaps: seq<string>,
    contract: seq<string>,
    rationale: string,
    instruction: string,
    priorOutline: seq<string>)

  // ---- Sizes of rendered sections ----

  function Lines(lines: seq<string>): string {
    Join(lines, "\n")
  }

  /** Rendered size of a section with the newline that joins it onward. */
  function BlockLength(lines: seq<string>): nat {
    if |lines| == 0 then 0 else |Lines(lines)| + 1
  }

  lemma {:induction false} LinesAppend(a: seq<string>, b: seq<string>)
    requires a != [] && b != []
    ensures Lines(a + b) == Lines(a) + "\n" + Lines(b)
  {
    if |a| > 1 {
      LinesAppend(a[1..], b);
      assert (a + b)[1..] == a[1..] + b;
    } else {
      assert (a + b)[1..] == b;
    }
  }

  lemma BlockLengthAppend(a: seq<string>, b: seq<string>)
    ensures BlockLength(a + b) == BlockLength(a) + BlockLength(b)
  {
    if a == [] {
      assert a + b == b;
    } else if b == [] {
      assert a + b == a;
    } else {
      LinesAppend(a, b);
    }
  }

  lemma BlockLengthOne(line: string)
    ensures BlockLength([line]) == |line| + 1
  {
  }

  // ---- A bulleted section that shows what fits and counts the rest ----

  function Overflow(n: nat, what: string): string {
    "- \U{2026} and " + Decimal(n) + " more " + what
  }

  /** How many bullets are shown: the first always, then while they fit. */
  function Fitting(bullets: seq<string>, spend: int, used: int, shown: nat): (k: nat)
    requires shown <= |bullets|
    ensures shown <= k <= |bullets|
    ensures bullets != [] ==> k >= 1
    decreases |bullets| - shown
  {
    if shown == |bullets| then shown
    else if shown > 0 && used + |bullets[shown]| + 1 > spend then shown
    else Fitting(bullets, spend, used + |bullets[shown]| + 1, shown + 1)
  }

  function Spend(bullets: seq<string>, what: string, budget: int): int {
    budget - |Overflow(|bullets|, what)| - 1
  }

  function Shown(bullets: seq<string>, heading: string, what: string, budget: int): nat {
    Fitting(bullets, Spend(bullets, what, budget), BlockLength(["", heading]), 0)
  }

  function Tail(bullets: seq<string>, shown: nat, what: string): seq<string>
    requires shown <= |bullets|
  {
    if shown < |bullets| then [Overflow(|bullets| - shown, what)] else []
  }

  function Section(bullets: seq<string>, heading: string, what: string, budget: int): seq<string> {
    if bullets == [] then []
    else
      var shown := Shown(bullets, heading, what, budget);
      ["", heading] + bullets[..shown] + Tail(bullets, shown, what)
  }

  /** Room for the heading, the first bullet and the line counting all bullets. */
  predicate HasRoom(bullets: seq<string>, heading: string, what: string, budget: int) {
    bullets != [] ==> BlockLength(["", heading]) + |bullets[0]| + 1 <= Spend(bullets, what, budget)
  }

  lemma {:induction false} FittingStaysInside(bullets: seq<string>, spend: int, used: int, shown: nat)
    requires shown <= |bullets| && used <= spend
    requires shown == 0 && bullets != [] ==> used + |bullets[0]| + 1 <= spend
    ensures used + BlockLength(bullets[shown..Fitting(bullets, spend, used, shown)]) <= spend
    decreases |bullets| - shown
  {
    if shown < |bullets| && (shown == 0 || used + |bullets[shown]| + 1 <= spend) {
      FittingStaysInside(bullets, spend, used + |bullets[shown]| + 1, shown + 1);
      var k := Fitting(bullets, spend, used, shown);
      assert bullets[shown..k] == [bullets[shown]] + bullets[shown + 1..k];
      BlockLengthAppend([bullets[shown]], bullets[shown + 1..k]);
    }
  }

  /** With room for its first bullet a section keeps its budget: a smaller count never needs a wider line. */
  lemma SectionKeepsBudget(bullets: seq<string>, heading: string, what: string, budget: nat)
    requires HasRoom(bullets, heading, what, budget)
    ensures BlockLength(Section(bullets, heading, what, budget)) <= budget
  {
    if bullets != [] {
      var spend, used := Spend(bullets, what, budget), BlockLength(["", heading]);
      var shown := Fitting(bullets, spend, used, 0);
      FittingStaysInside(bullets, spend, used, 0);
      BlockLengthAppend(["", heading], bullets[..shown]);
      BlockLengthAppend(["", heading] + bullets[..shown], Tail(bullets, shown, what));
      DecimalWidthMonotone(|bullets| - shown, |bullets|);
    }
  }

  lemma {:induction false} FittingIsGreedy(bullets: seq<string>, spend: int, used: int, shown: nat)
    requires shown <= |bullets|
    ensures var k := Fitting(bullets, spend, used, shown);
            && (k < |bullets| ==> used + BlockLength(bullets[shown..k]) + |bullets[k]| + 1 > spend)
            && (k > shown && k > 1 ==> used + BlockLength(bullets[shown..k]) <= spend)
    decreases |bullets| - shown
  {
    var k := Fitting(bullets, spend, used, shown);
    if k > shown {
      FittingIsGreedy(bullets, spend, used + |bullets[shown]| + 1, shown + 1);
      assert bullets[shown..k] == [bullets[shown]] + bullets[shown + 1..k];
      BlockLengthAppend([bullets[shown]], bullets[shown + 1..k]);
    }
  }

  /** The section is greedy: one more bullet would not fit, and from the second on every shown bullet does. */
  lemma SectionIsGreedy(bullets: seq<string>, heading: string, what: string, budget: int)
    requires bullets != []
    ensures var k, front := Shown(bullets, heading, what, budget), ["", heading];
            && Section(bullets, heading, what, budget) == front + bullets[..k] + Tail(bullets, k, what)
            && (k < |bullets| ==> BlockLength(front + bullets[..k + 1]) > Spend(bullets, what, budget))
            && (k > 1 ==> BlockLength(front + bullets[..k]) <= Spend(bullets, what, budget))
  {
    hide Overflow, Fitting, BlockLength, Tail;
    var k, front := Shown(bullets, heading, what, budget), ["", heading];
    FittingIsGreedy(bullets, Spend(bullets, what, budget), BlockLength(front), 0);
    BlockLengthAppend(front, bullets[..k]);
    if k < |bullets| {
      BlockLengthOne(bullets[k]);
      BlockLengthAppend(front, bullets[..k + 1]);
      BlockLengthAppend(bullets[..k], [bullets[k]]);
      assert bullets[..k + 1] == bullets[..k] + [bullets[k]];
    }
  }

  function Bullets(items: seq<string>): (bullets: seq<string>)
    ensures |bullets| == |items| && forall i :: 0 <= i < |items| ==> bullets[i] == "- " + items[i]
  {
    seq(|items|, i requires 0 <= i < |items| => "- " + items[i])
  }

  method RenderList(items: seq<string>, heading: string, what: string, budget: int) returns (lines: seq<string>)
    ensures lines == Section(Bullets(items), heading, what, budget)
  {
    hide Overflow, BlockLength;
    if |items| == 0 { return []; }
    ghost var bullets := Bullets(items);
    lines := ["", heading];
    var spend := budget - |Overflow(|items|, what)| - 1;
    var used := BlockLength(lines);
    var shown := 0;
    while shown < |items|
      invariant 0 <= shown <= |items|
      invariant lines == ["", heading] + bullets[..shown]
      invariant Shown(bullets, heading, what, budget) == Fitting(bullets, spend, used, shown)
    {
      var line := "- " + items[shown];
      if shown > 0 && used + |line| + 1 > spend { break; }
      lines := lines + [line];
      assert bullets[..shown + 1] == bullets[..shown] + [bullets[shown]];
      used := used + |line| + 1;
      shown := shown + 1;
    }
    if shown < |items| { lines := lines + [Overflow(|items| - shown, what)]; }
  }

  // ---- The rejected outline: every entry shrinks before any is dropped ----

  const OUTLINE_HEADING := "## Your rejected attempt (revise this \U{2014} do not start over):"
  const OUTLINE_WHAT := "node(s)"

  function ClampTo(text: string, max: int): string {
    if max <= 0 then "" else Clamp(text, max)
  }

  function PerItem(n: nat, budget: int): int
    requires n > 0
  {
    var spend := budget - |Overflow(n, OUTLINE_WHAT)| - 1;
    var share := (spend - BlockLength(["", OUTLINE_HEADING])) / n - 3;
    if share < MIN_OUTLINE_ITEM_CHARS then MIN_OUTLINE_ITEM_CHARS else share
  }

  function OutlineBullets(items: seq<string>, budget: int): (bullets: seq<string>)
    ensures |bullets| == |items|
    ensures forall i :: 0 <= i < |items| ==> bullets[i] == "- " + ClampTo(items[i], PerItem(|items|, budget))
  {
    seq(|items|, i requires 0 <= i < |items| => "- " + ClampTo(items[i], PerItem(|items|, budget)))
  }

  method RenderOutline(items: seq<string>, budget: int) returns (lines: seq<string>)
    ensures lines == Section(OutlineBullets(items, budget), OUTLINE_HEADING, OUTLINE_WHAT, budget)
  {
    hide OUTLINE_HEADING, OUTLINE_WHAT, Overflow, PerItem, ClampTo, BlockLength;
    if |items| == 0 { return []; }
    ghost var bullets := OutlineBullets(items, budget);
    lines := ["", OUTLINE_HEADING];
    var spend := budget - |Overflow(|items|, OUTLINE_WHAT)| - 1;
    var perItem := PerItem(|items|, budget);
    var used := BlockLength(lines);
    var shown := 0;
    while shown < |items|
      invariant 0 <= shown <= |items|
      invariant lines == ["", OUTLINE_HEADING] + bullets[..shown]
      invariant Shown(bullets, OUTLINE_HEADING, OUTLINE_WHAT, budget) == Fitting(bullets, spend, used, shown)
    {
      var line := "- " + ClampTo(items[shown], perItem);
      if shown > 0 && used + |line| + 1 > spend { break; }
      lines := lines + [line];
      assert bullets[..shown + 1] == bullets[..shown] + [bullets[shown]];
      used := used + |line| + 1;
      shown := shown + 1;
    }
    if shown < |items| { lines := lines + [Overflow(|items| - shown, OUTLINE_WHAT)]; }
  }

  lemma OneShareLess(n: nat, share: nat)
    requires n > 0
    ensures n * share == share + (n - 1) * share && (n - 1) * share >= 0
  {
  }

  lemma {:induction false} AllFit(bullets: seq<string>, spend: int, used: int, shown: nat, share: int)
    requires shown <= |bullets| && used + (|bullets| - shown) * share <= spend
    requires forall i :: shown <= i < |bullets| ==> |bullets[i]| + 1 <= share
    ensures Fitting(bullets, spend, used, shown) == |bullets|
    decreases |bullets| - shown
  {
    if shown < |bullets| {
      assert |bullets[shown]| + 1 <= share;
      OneShareLess(|bullets| - shown, share);
      AllFit(bullets, spend, used + |bullets[shown]| + 1, shown + 1, share);
    }
  }

  /** An equal share for every entry, its bullet and its newline. */
  function OutlineShare(n: nat, budget: int): int
    requires n > 0
  {
    (budget - |Overflow(n, OUTLINE_WHAT)| - 1 - BlockLength(["", OUTLINE_HEADING])) / n
  }

  /** While an equal share leaves each entry its minimum, no entry is dropped, and each keeps a start of that minimum:
      long enough for its node id. */
  lemma OutlineKeepsEveryEntry(items: seq<string>, budget: int)
    requires items != [] && OutlineShare(|items|, budget) >= MIN_OUTLINE_ITEM_CHARS + 3
    ensures var bullets := OutlineBullets(items, budget);
            && Section(bullets, OUTLINE_HEADING, OUTLINE_WHAT, budget) == ["", OUTLINE_HEADING] + bullets
            && forall i :: 0 <= i < |items| ==>
                 "- " + items[i][..if |items[i]| < MIN_OUTLINE_ITEM_CHARS then |items[i]| else MIN_OUTLINE_ITEM_CHARS - 1] <= bullets[i]
  {
    hide OUTLINE_HEADING, OUTLINE_WHAT, Overflow, BlockLength;
    var bullets, share, n := OutlineBullets(items, budget), OutlineShare(|items|, budget), |items|;
    var spend, used := Spend(bullets, OUTLINE_WHAT, budget), BlockLength(["", OUTLINE_HEADING]);
    assert n * share <= spend - used by { QuotientBelow(spend - used, n); }
    assert PerItem(n, budget) == share - 3;
    AllFit(bullets, spend, used, 0, share);
    assert bullets[..n] == bullets;
    forall i | 0 <= i < n
      ensures "- " + items[i][..if |items[i]| < MIN_OUTLINE_ITEM_CHARS then |items[i]| else MIN_OUTLINE_ITEM_CHARS - 1] <= bullets[i]
    {
      ClampKeepsStart(items[i], share - 3);
    }
  }

  lemma QuotientBelow(x: int, n: nat)
    requires n > 0
    ensures n * (x / n) <= x
  {
  }

  lemma ClampKeepsStart(item: string, max: int)
    requires max >= MIN_OUTLINE_ITEM_CHARS
    ensures var kept := if |item| < MIN_OUTLINE_ITEM_CHARS then |item| else MIN_OUTLINE_ITEM_CHARS - 1;
            "- " + item[..kept] <= "- " + ClampTo(item, max)
  {
    var kept := if |item| < MIN_OUTLINE_ITEM_CHARS then |item| else MIN_OUTLINE_ITEM_CHARS - 1;
    if |item| > max {
      assert ClampTo(item, max)[..max - 1] == item[..max - 1];
      assert item[..kept] == item[..max - 1][..kept] == ClampTo(item, max)[..kept];
    }
  }

  // ---- Rationale ----

  const RATIONALE_HEADING := "## Gate rationale"

  function RationaleSection(rationale: string, budget: int): seq<string> {
    var text := OneLine(rationale);
    var lines := ["", RATIONALE_HEADING];
    var clamped := ClampTo(text, budget - BlockLength(lines));
    if text == "" || clamped == "" then [] else lines + [clamped]
  }

  /** One character over its budget at most: the newline after the last section is never written. */
  lemma RationaleKeepsBudget(rationale: string, budget: nat)
    ensures BlockLength(RationaleSection(rationale, budget)) <= budget + 1
  {
    var lines := ["", RATIONALE_HEADING];
    BlockLengthAppend(lines, [ClampTo(OneLine(rationale), budget - BlockLength(lines))]);
  }

  // ---- The brief ----

  const GAPS_HEADING := "## Machine-checked defects \U{2014} every one of these is verified automatically:"
  const GAPS_WHAT := "machine-checked defect(s)"
  const CONTRACT_HEADING := "## The contract the next attempt must keep, defect or not:"
  const CONTRACT_WHAT := "standing requirement(s)"

  function Header(input: BriefInput): seq<string> {
    ["REPAIR BRIEF \U{2014} the " + input.gate + " rejected your previous attempt.",
     "This is repair attempt " + Decimal(input.attempt) + " of " + Decimal(input.maxAttempts)
     + "; the launch fails if it is not fixed."]
  }

  const INSTRUCTION_HEADING := "## What the next attempt must do"

  function Instruction(input: BriefInput): seq<string> {
    ["", INSTRUCTION_HEADING, input.instruction]
  }

  lemma ThreeLines(a: string, b: string, c: string)
    ensures Lines([a, b, c]) == a + "\n" + b + "\n" + c
  {
    LinesAppend([b], [c]);
    LinesAppend([a], [b] + [c]);
    assert [a] + ([b] + [c]) == [a, b, c];
  }

  function NonNegative(n: int): nat {
    if n < 0 then 0 else n
  }

  function GapBudget(input: BriefInput): nat {
    NonNegative(BRIEF_MAX_CHARS - (BlockLength(Header(input)) + BlockLength(Instruction(input))))
  }

  function GapSection(input: BriefInput): seq<string> {
    Section(Bullets(input.machineGaps), GAPS_HEADING, GAPS_WHAT, GapBudget(input))
  }

  function ContractBudget(input: BriefInput): nat {
    NonNegative(BRIEF_MAX_CHARS - (BlockLength(Header(input)) + BlockLength(Instruction(input))) - BlockLength(GapSection(input)))
  }

  function ContractSection(input: BriefInput): seq<string> {
    Section(Bullets(input.contract), CONTRACT_HEADING, CONTRACT_WHAT, ContractBudget(input))
  }

  function Elastic(input: BriefInput): nat {
    NonNegative(BRIEF_MAX_CHARS - (BlockLength(Header(input)) + BlockLength(Instruction(input)))
                - BlockLength(GapSection(input)) - BlockLength(ContractSection(input)))
  }

  function OutlineSection(input: BriefInput): seq<string> {
    var budget := Elastic(input) / 2;
    Section(OutlineBullets(input.priorOutline, budget), OUTLINE_HEADING, OUTLINE_WHAT, budget)
  }

  /** The sections that may be dropped: contract, rationale, outline. */
  function ElasticSections(input: BriefInput): seq<string> {
    ContractSection(input)
    + RationaleSection(input.rationale, Elastic(input) - BlockLength(OutlineSection(input)))
    + OutlineSection(input)
  }

  function BriefWith(input: BriefInput, elastic: seq<string>): string {
    Lines(Header(input) + GapSection(input) + elastic + Instruction(input))
  }

  function Brief(input: BriefInput): string {
    var whole := BriefWith(input, ElasticSections(input));
    if |whole| <= BRIEF_MAX_CHARS then whole else BriefWith(input, [])
  }

  method BuildGateRepairBrief(input: BriefInput) returns (brief: string)
    ensures brief == Brief(input)
  {
    hide GAPS_HEADING, GAPS_WHAT, CONTRACT_HEADING, CONTRACT_WHAT, OUTLINE_HEADING, OUTLINE_WHAT;
    hide Header, Instruction, Section, BlockLength, Bullets, OutlineBullets, RationaleSection, Lines;
    var header, instruction := Header(input), Instruction(input);
    var mandatory := BlockLength(header) + BlockLength(instruction);
    var gaps := RenderList(input.machineGaps, GAPS_HEADING, GAPS_WHAT, NonNegative(BRIEF_MAX_CHARS - mandatory));
    var contract := RenderList(input.contract, CONTRACT_HEADING, CONTRACT_WHAT,
                               NonNegative(BRIEF_MAX_CHARS - mandatory - BlockLength(gaps)));
    var elastic := NonNegative(BRIEF_MAX_CHARS - mandatory - BlockLength(gaps) - BlockLength(contract));
    var outline := RenderOutline(input.priorOutline, elastic / 2);
    var rationale := RationaleSection(input.rationale, elastic - BlockLength(outline));
    brief := Lines(header + gaps + contract + rationale + outline + instruction);
    assert header + gaps + contract + rationale + outline + instruction
        == header + gaps + (contract + rationale + outline) + instruction;
    if |brief| <= BRIEF_MAX_CHARS { return brief; }
    brief := Lines(header + gaps + instruction);
    assert header + gaps + [] + instruction == header + gaps + instruction;
  }

  // ---- What every brief guarantees ----

  lemma BriefParts(input: BriefInput, elastic: seq<string>)
    ensures var brief := BriefWith(input, elastic);
            && |brief| == BlockLength(Header(input)) + BlockLength(GapSection(input)) + BlockLength(elastic)
                          + BlockLength(Instruction(input)) - 1
            && Lines(Header(input)) <= brief
            && |Lines(Instruction(input))| <= |brief|
            && brief[|brief| - |Lines(Instruction(input))|..] == Lines(Instruction(input))
  {
    var front := Header(input) + GapSection(input) + elastic;
    BlockLengthAppend(Header(input) + GapSection(input), elastic);
    BlockLengthAppend(Header(input), GapSection(input));
    LinesAppend(front, Instruction(input));
    if GapSection(input) + elastic != [] {
      LinesAppend(Header(input), GapSection(input) + elastic);
      assert front == Header(input) + (GapSection(input) + elastic);
    } else {
      assert front == Header(input);
    }
  }

  /** Every brief, however long its parts, opens with the whole header and closes with the whole instruction. */
  lemma BriefKeepsHeaderAndInstruction(input: BriefInput)
    ensures Lines(Header(input)) <= Brief(input)
    ensures var tail := "\n" + INSTRUCTION_HEADING + "\n" + input.instruction;
            |tail| <= |Brief(input)| && Brief(input)[|Brief(input)| - |tail|..] == tail
  {
    hide Header, GapSection, ElasticSections, INSTRUCTION_HEADING;
    BriefParts(input, ElasticSections(input));
    BriefParts(input, []);
    ThreeLines("", INSTRUCTION_HEADING, input.instruction);
    assert "" + "\n" + INSTRUCTION_HEADING == "\n" + INSTRUCTION_HEADING;
  }

  /** Every machine-checked defect is in the brief: verbatim, or counted in the line that ends the list. */
  lemma BriefAccountsForEveryGap(input: BriefInput)
    requires input.machineGaps != []
    ensures exists k, elastic ::
              && 1 <= k <= |input.machineGaps|
              && GapSection(input) == ["", GAPS_HEADING] + Bullets(input.machineGaps)[..k]
                                      + (if k < |input.machineGaps| then [Overflow(|input.machineGaps| - k, GAPS_WHAT)] else [])
              && Brief(input) == Lines(Header(input) + GapSection(input) + elastic + Instruction(input))
  {
    var k := Shown(Bullets(input.machineGaps), GAPS_HEADING, GAPS_WHAT, GapBudget(input));
    var whole := BriefWith(input, ElasticSections(input));
    var elastic := if |whole| <= BRIEF_MAX_CHARS then ElasticSections(input) else [];
    assert Brief(input) == Lines(Header(input) + GapSection(input) + elastic + Instruction(input));
    assert GapSection(input) == ["", GAPS_HEADING] + Bullets(input.machineGaps)[..k] + Tail(Bullets(input.machineGaps), k, GAPS_WHAT);
  }

  /** The mandatory half fits: header, instruction, gap heading, first gap and its overflow line. */
  predicate MandatoryFits(input: BriefInput) {
    && BlockLength(Header(input)) + BlockLength(Instruction(input)) <= BRIEF_MAX_CHARS
    && HasRoom(Bullets(input.machineGaps), GAPS_HEADING, GAPS_WHAT, GapBudget(input))
  }

  lemma BriefIsBounded(input: BriefInput)
    requires MandatoryFits(input)
    ensures |Brief(input)| <= BRIEF_MAX_CHARS
  {
    SectionKeepsBudget(Bullets(input.machineGaps), GAPS_HEADING, GAPS_WHAT, GapBudget(input));
    BriefParts(input, []);
  }

  /** Nothing is dropped once the contract and the outline have room for their first entries. */
  lemma NothingDroppedWhenElasticFits(input: BriefInput)
    requires MandatoryFits(input)
    requires HasRoom(Bullets(input.contract), CONTRACT_HEADING, CONTRACT_WHAT, ContractBudget(input))
    requires HasRoom(OutlineBullets(input.priorOutline, Elastic(input) / 2), OUTLINE_HEADING, OUTLINE_WHAT, Elastic(input) / 2)
    ensures Brief(input) == BriefWith(input, ElasticSections(input))
  {
    hide Section, Header, Instruction, RationaleSection, HasRoom;
    SectionKeepsBudget(Bullets(input.machineGaps), GAPS_HEADING, GAPS_WHAT, GapBudget(input));
    SectionKeepsBudget(Bullets(input.contract), CONTRACT_HEADING, CONTRACT_WHAT, ContractBudget(input));
    var budget := Elastic(input) / 2;
    SectionKeepsBudget(OutlineBullets(input.priorOutline, budget), OUTLINE_HEADING, OUTLINE_WHAT, budget);
    var rest := Elastic(input) - BlockLength(OutlineSection(input));
    RationaleKeepsBudget(input.rationale, rest);
    var rationale := RationaleSection(input.rationale, rest);
    BlockLengthAppend(ContractSection(input) + rationale, OutlineSection(input));
    BlockLengthAppend(ContractSection(input), rationale);
    BriefParts(input, ElasticSections(input));
  }
}
