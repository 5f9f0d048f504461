/** What reaches the planner in a repair brief, read off its text. */
module BriefContents {
  import opened Text
  import opened RepairBrief

  lemma LineOccurs(front: seq<string>, line: string, back: seq<string>)
    ensures Occurs(line, Lines(front + [line] + back))
  {
    var all := front + [line] + back;
    assert all[|front|] == line;
    PartsOccur(all, |front|, "\n");
  }

  lemma PartOfLineOccurs(lines: seq<string>, i: nat, before: string, part: string, after: string)
    requires i < |lines| && lines[i] == before + part + after
    ensures Occurs(part, Lines(lines))
  {
    PartOccurs(lines, i, "\n", before, part, after);
  }

  // ---- The header ----

  /** The planner is told which gate rejected it and which attempt of how many this is. */
  lemma BriefTellsTheAttempt(input: BriefInput)
    ensures Occurs(input.gate, Brief(input))
    ensures Occurs("attempt " + Decimal(input.attempt) + " of " + Decimal(input.maxAttempts), Brief(input))
  {
    BriefKeepsHeaderAndInstruction(input);
    HeaderTells(input);
    hide Brief, Header, Decimal;
    var header, brief := Lines(Header(input)), Brief(input);
    assert "" + header + brief[|header|..] == brief;
    OccursWithin("", header, brief[|header|..]);
    OccursIn(input.gate, header, brief);
    OccursIn("attempt " + Decimal(input.attempt) + " of " + Decimal(input.maxAttempts), header, brief);
  }

  lemma HeaderTells(input: BriefInput)
    ensures Occurs(input.gate, Lines(Header(input)))
    ensures Occurs("attempt " + Decimal(input.attempt) + " of " + Decimal(input.maxAttempts), Lines(Header(input)))
  {
    hide Decimal, Lines;
    var header := Header(input);
    assert header[0] == "REPAIR BRIEF \U{2014} the " + input.gate + " rejected your previous attempt.";
    PartOfLineOccurs(header, 0, "REPAIR BRIEF \U{2014} the ", input.gate, " rejected your previous attempt.");
    var told := "attempt " + Decimal(input.attempt) + " of " + Decimal(input.maxAttempts);
    assert header[1] == "This is repair " + told + "; the launch fails if it is not fixed.";
    PartOfLineOccurs(header, 1, "This is repair ", told, "; the launch fails if it is not fixed.");
  }

  // ---- Bulleted sections ----

  /** The first `k` items are there word for word, and the number of those that are not. */
  ghost predicate Lists(text: string, items: seq<string>, k: nat) {
    && k <= |items|
    && (forall i :: 0 <= i < k ==> Occurs(items[i], text))
    && (k < |items| ==> Occurs("and " + Decimal(|items| - k) + " more ", text))
  }

  lemma OverflowCounts(n: nat, what: string)
    ensures Overflow(n, what) == "- \U{2026} " + ("and " + Decimal(n) + " more ") + what
  {
  }

  lemma SectionIsListed(front: seq<string>, items: seq<string>, heading: string, what: string, budget: int, back: seq<string>)
    requires items != []
    ensures var k := Shown(Bullets(items), heading, what, budget);
            k >= 1 && Lists(Lines(front + Section(Bullets(items), heading, what, budget) + back), items, k)
  {
    hide Overflow, Lines, BlockLength, Decimal;
    var k, section := Shown(Bullets(items), heading, what, budget), Section(Bullets(items), heading, what, budget);
    var all := front + section + back;
    forall i | 0 <= i < k
      ensures Occurs(items[i], Lines(all))
    {
      assert all[|front| + 2 + i] == section[2 + i] == Bullets(items)[i] == "- " + items[i] + "";
      PartOfLineOccurs(all, |front| + 2 + i, "- ", items[i], "");
    }
    if k < |items| {
      assert all[|front| + 2 + k] == section[2 + k] == Overflow(|items| - k, what);
      OverflowCounts(|items| - k, what);
      PartOfLineOccurs(all, |front| + 2 + k, "- \U{2026} ", "and " + Decimal(|items| - k) + " more ", what);
    }
  }

  /** The room the mandatory lines and `used` more characters leave. */
  function Room(input: BriefInput, used: nat): int {
    BRIEF_MAX_CHARS - (BlockLength(Header(input)) + BlockLength(Instruction(input))) - used
  }

  /** With one more item, and the line that counts all of them, the section would not fit what is left. */
  predicate OneMoreOverruns(items: seq<string>, heading: string, what: string, k: nat, room: int) {
    k < |items| ==> BlockLength(["", heading] + Bullets(items)[..k + 1]) + |Overflow(|items|, what)| + 1 > room
  }

  /** Every brief lists machine gaps word for word, the first always and as many as fit beside header and instruction, and
      gives the number of the others. */
  lemma BriefListsGaps(input: BriefInput) returns (k: nat)
    requires input.machineGaps != []
    ensures 1 <= k && Lists(Brief(input), input.machineGaps, k)
    ensures MandatoryFits(input) ==> OneMoreOverruns(input.machineGaps, GAPS_HEADING, GAPS_WHAT, k, Room(input, 0))
  {
    hide Header, Instruction, GAPS_HEADING, GAPS_WHAT, Overflow, ElasticSections, BlockLength, Lines, Section;
    k := Shown(Bullets(input.machineGaps), GAPS_HEADING, GAPS_WHAT, GapBudget(input));
    SectionIsListed(Header(input), input.machineGaps, GAPS_HEADING, GAPS_WHAT, GapBudget(input),
                    ElasticSections(input) + Instruction(input));
    SectionIsListed(Header(input), input.machineGaps, GAPS_HEADING, GAPS_WHAT, GapBudget(input), [] + Instruction(input));
    SectionIsGreedy(Bullets(input.machineGaps), GAPS_HEADING, GAPS_WHAT, GapBudget(input));
    assert Header(input) + GapSection(input) + (ElasticSections(input) + Instruction(input))
        == Header(input) + GapSection(input) + ElasticSections(input) + Instruction(input);
    assert Header(input) + GapSection(input) + ([] + Instruction(input))
        == Header(input) + GapSection(input) + [] + Instruction(input);
    hide Lists, Shown;
  }

  /** All sections have room for their first entries, so none is dropped. */
  predicate ElasticFits(input: BriefInput) {
    && MandatoryFits(input)
    && HasRoom(Bullets(input.contract), CONTRACT_HEADING, CONTRACT_WHAT, ContractBudget(input))
    && HasRoom(OutlineBullets(input.priorOutline, Elastic(input) / 2), OUTLINE_HEADING, OUTLINE_WHAT, Elastic(input) / 2)
  }

  function Rationale(input: BriefInput): seq<string> {
    RationaleSection(input.rationale, Elastic(input) - BlockLength(OutlineSection(input)))
  }

  lemma WholeBrief(input: BriefInput)
    requires ElasticFits(input)
    ensures Brief(input) == Lines(Header(input) + GapSection(input) + ContractSection(input) + Rationale(input)
                                  + OutlineSection(input) + Instruction(input))
  {
    NothingDroppedWhenElasticFits(input);
    assert ElasticSections(input) == ContractSection(input) + Rationale(input) + OutlineSection(input);
    hide Header, Instruction, GapSection, ElasticSections, ContractSection, OutlineSection, Rationale, Lines, ElasticFits;
    Regroup(Header(input), GapSection(input), ContractSection(input), Rationale(input), OutlineSection(input), Instruction(input));
  }

  lemma Regroup(a: seq<string>, b: seq<string>, c: seq<string>, d: seq<string>, e: seq<string>, f: seq<string>)
    ensures a + b + (c + d + e) + f == a + b + c + d + e + f
    ensures (a + b) + c + (d + e + f) == a + b + c + d + e + f
    ensures (a + b + c) + d + (e + f) == a + b + c + d + e + f
  {
  }

  /** What of the contract fits beside the gaps is in the brief word for word, and the number of the rest. */
  lemma BriefListsContract(input: BriefInput) returns (k: nat)
    requires ElasticFits(input) && input.contract != []
    ensures 1 <= k && Lists(Brief(input), input.contract, k)
    ensures OneMoreOverruns(input.contract, CONTRACT_HEADING, CONTRACT_WHAT, k, Room(input, BlockLength(GapSection(input))))
  {
    hide *;
    k := Shown(Bullets(input.contract), CONTRACT_HEADING, CONTRACT_WHAT, ContractBudget(input));
    ContractIsSection(input);
    GreedyOverruns(input.contract, CONTRACT_HEADING, CONTRACT_WHAT, ContractBudget(input));
    WholeBrief(input);
    ContractRoom(input);
    var front, back := Header(input) + GapSection(input), Rationale(input) + OutlineSection(input) + Instruction(input);
    SectionIsListed(front, input.contract, CONTRACT_HEADING, CONTRACT_WHAT, ContractBudget(input), back);
    Regroup(Header(input), GapSection(input), ContractSection(input), Rationale(input), OutlineSection(input), Instruction(input));
  }

  lemma ContractIsSection(input: BriefInput)
    ensures ContractSection(input) == Section(Bullets(input.contract), CONTRACT_HEADING, CONTRACT_WHAT, ContractBudget(input))
  {
    hide Section, ContractBudget, CONTRACT_HEADING, CONTRACT_WHAT;
  }

  lemma GreedyOverruns(items: seq<string>, heading: string, what: string, budget: int)
    requires items != []
    ensures OneMoreOverruns(items, heading, what, Shown(Bullets(items), heading, what, budget), budget)
  {
    SectionIsGreedy(Bullets(items), heading, what, budget);
    hide Shown, Section, BlockLength, Overflow;
  }

  lemma ContractRoom(input: BriefInput)
    requires ElasticFits(input)
    ensures ContractBudget(input) == Room(input, BlockLength(GapSection(input)))
  {
    hide Header, Instruction, BlockLength, Section, Overflow, GAPS_HEADING, GAPS_WHAT;
    SectionKeepsBudget(Bullets(input.machineGaps), GAPS_HEADING, GAPS_WHAT, GapBudget(input));
  }

  /** What header, instruction, gaps and contract leave. */
  function Left(input: BriefInput): int {
    Room(input, BlockLength(GapSection(input)) + BlockLength(ContractSection(input)))
  }

  lemma ElasticIsLeft(input: BriefInput)
    requires ElasticFits(input)
    ensures Elastic(input) == Left(input) >= 0
  {
    ContractRoom(input);
    hide Header, Instruction, BlockLength, Section, Overflow, GAPS_HEADING, GAPS_WHAT, CONTRACT_HEADING, CONTRACT_WHAT, Bullets;
    hide GapSection, HasRoom, ContractBudget;
    SectionKeepsBudget(Bullets(input.contract), CONTRACT_HEADING, CONTRACT_WHAT, ContractBudget(input));
  }

  // ---- The rationale ----

  /** A rationale that fits its budget is rendered whole, on one line under its heading; a longer one is cut to it. */
  lemma RationaleIsShown(rationale: string, budget: nat)
    ensures var section, room := RationaleSection(rationale, budget), budget - BlockLength(["", RATIONALE_HEADING]);
            var text := OneLine(rationale);
            && (section != [] <==> text != "" && room > 0)
            && (section != [] ==> section == ["", RATIONALE_HEADING, section[2]] && |section[2]| <= room)
            && (section != [] && |text| <= room ==> section[2] == text)
            && (section != [] && |text| > room ==> |section[2]| == room && section[2][..room - 1] == text[..room - 1])
  {
    hide OneLine, BlockLength;
  }

  /** What gaps, contract and outline leave for the rationale, its heading taken off. */
  function RationaleRoom(input: BriefInput): int {
    Left(input) - BlockLength(OutlineSection(input)) - BlockLength(["", RATIONALE_HEADING])
  }

  /** The gate's rationale is in the brief whole, blanks aside, whenever what the lists leave is enough. */
  lemma BriefKeepsRationale(input: BriefInput)
    requires ElasticFits(input) && OneLine(input.rationale) != "" && |OneLine(input.rationale)| <= RationaleRoom(input)
    ensures Occurs(Join(Words(input.rationale), " "), Brief(input))
  {
    hide *;
    ElasticIsLeft(input);
    RationaleIsWhole(input);
    OneLineIsItsWords(input.rationale);
    WholeBrief(input);
    var front, back := Header(input) + GapSection(input) + ContractSection(input), OutlineSection(input) + Instruction(input);
    ThirdLineOccurs(front, Rationale(input), back);
    Regroup(Header(input), GapSection(input), ContractSection(input), Rationale(input), OutlineSection(input), Instruction(input));
  }

  lemma ThirdLineOccurs(front: seq<string>, section: seq<string>, back: seq<string>)
    requires |section| == 3
    ensures Occurs(section[2], Lines(front + section + back))
  {
    hide *;
    LineOccurs(front + section[..2], section[2], back);
    assert front + section[..2] + [section[2]] == front + section;
  }

  lemma RationaleIsWhole(input: BriefInput)
    requires OneLine(input.rationale) != "" && |OneLine(input.rationale)| <= RationaleRoom(input) && Elastic(input) == Left(input)
    ensures Rationale(input) == ["", RATIONALE_HEADING, OneLine(input.rationale)]
  {
    hide OneLine, RationaleSection, BlockLength, OutlineSection, Elastic, Left, RATIONALE_HEADING;
    RationaleIsShown(input.rationale, Elastic(input) - BlockLength(OutlineSection(input)));
  }

  // ---- The rejected outline ----

  /** As much of an entry as is kept however many entries there are. */
  function Start(item: string): string {
    item[..if |item| < MIN_OUTLINE_ITEM_CHARS then |item| else MIN_OUTLINE_ITEM_CHARS - 1]
  }

  /** An equal share of half of what is left leaves each entry its minimum. */
  predicate SharesSuffice(input: BriefInput) {
    input.priorOutline != [] && OutlineShare(|input.priorOutline|, Left(input) / 2) >= MIN_OUTLINE_ITEM_CHARS + 3
  }

  /** While equal shares suffice, every node of the rejected plan is named in the brief, and an entry that fits its share, with
      its bullet and its newline, is there whole. */
  lemma BriefKeepsOutline(input: BriefInput, i: nat)
    requires ElasticFits(input) && i < |input.priorOutline| && SharesSuffice(input)
    ensures Occurs(Start(input.priorOutline[i]), Brief(input))
    ensures |input.priorOutline[i]| + 3 <= OutlineShare(|input.priorOutline|, Left(input) / 2) ==>
              Occurs(input.priorOutline[i], Brief(input))
  {
    hide *;
    ElasticIsLeft(input);
    HasShares(input);
    var bullets := OutlineWhole(input, i);
    WholeBrief(input);
    var front := Header(input) + GapSection(input) + ContractSection(input) + Rationale(input);
    BulletOccurs(front, OutlineSection(input), Instruction(input), 2 + i, Start(input.priorOutline[i]));
    if |input.priorOutline[i]| + 3 <= OutlineShare(|input.priorOutline|, Left(input) / 2) {
      BulletOccurs(front, OutlineSection(input), Instruction(input), 2 + i, input.priorOutline[i]);
    }
  }

  lemma HasShares(input: BriefInput)
    requires SharesSuffice(input)
    ensures input.priorOutline != [] && OutlineShare(|input.priorOutline|, Left(input) / 2) >= MIN_OUTLINE_ITEM_CHARS + 3
  {
  }

  lemma BulletOccurs(front: seq<string>, section: seq<string>, back: seq<string>, i: nat, start: string)
    requires i < |section| && "- " + start <= section[i]
    ensures Occurs(start, Lines(front + section + back))
  {
    hide *;
    var all, rest := front + section + back, section[i][|"- " + start|..];
    assert all[|front| + i] == section[i] == "- " + start + rest;
    PartOfLineOccurs(all, |front| + i, "- ", start, rest);
  }

  lemma OutlineWhole(input: BriefInput, i: nat) returns (bullets: seq<string>)
    requires i < |input.priorOutline|
    requires OutlineShare(|input.priorOutline|, Elastic(input) / 2) >= MIN_OUTLINE_ITEM_CHARS + 3
    ensures OutlineSection(input) == ["", OUTLINE_HEADING] + bullets
    ensures |bullets| == |input.priorOutline| && "- " + Start(input.priorOutline[i]) <= bullets[i]
    ensures |input.priorOutline[i]| + 3 <= OutlineShare(|input.priorOutline|, Elastic(input) / 2) ==>
              "- " + input.priorOutline[i] <= bullets[i]
  {
    bullets := OutlineBullets(input.priorOutline, Elastic(input) / 2);
    OutlineKeepsEveryEntry(input.priorOutline, Elastic(input) / 2);
    ShareIsItem(|input.priorOutline|, Elastic(input) / 2);
    hide Section, OutlineShare, Elastic, OUTLINE_HEADING, OUTLINE_WHAT, PerItem;
  }

  lemma ShareIsItem(n: nat, budget: int)
    requires n > 0 && OutlineShare(n, budget) >= MIN_OUTLINE_ITEM_CHARS + 3
    ensures PerItem(n, budget) == OutlineShare(n, budget) - 3
  {
    hide Overflow, BlockLength, OUTLINE_HEADING;
  }
}
