/** Decimal rendering of natural numbers, as a JavaScript template literal writes them. */
module Text {

  predicate IsDigit(c: char) {
    '0' <= c <= '9'
  }

  function Decimal(n: nat): (s: string)
    ensures |s| >= 1
    ensures forall i :: 0 <= i < |s| ==> IsDigit(s[i])
  {
    if n < 10 then ["0123456789"[n]] else Decimal(n / 10) + ["0123456789"[n % 10]]
  }

  /** A larger number never renders shorter. */
  lemma {:induction false} DecimalWidthMonotone(m: nat, n: nat)
    requires m <= n
    ensures |Decimal(m)| <= |Decimal(n)|
  {
    if 10 <= m {
      DecimalWidthMonotone(m / 10, n / 10);
    }
  }

  function Join(parts: seq<string>, separator: string): string {
    if |parts| == 0 then ""
    else if |parts| == 1 then parts[0]
    else parts[0] + separator + Join(parts[1..], separator)
  }

  predicate IsSpace(c: char) {
    c == ' ' || c == '\t' || c == '\n' || c == '\r'
  }

  /** Every stretch of blanks becomes one space, and none is left at either end. */
  function OneLine(s: string): string {
    if s == [] then []
    else if IsSpace(s[0]) then OneLine(s[1..])
    else if |s| > 1 && IsSpace(s[1]) && OneLine(s[1..]) != [] then [s[0], ' '] + OneLine(s[1..])
    else [s[0]] + OneLine(s[1..])
  }

  /** Text cut to `max` characters, an ellipsis standing for what was cut. */
  function Clamp(text: string, max: nat): (r: string)
    ensures |r| <= max
    ensures |text| <= max ==> r == text
    ensures |text| > max > 0 ==> |r| == max && r[..max - 1] == text[..max - 1] && r[max - 1] == '\U{2026}'
  {
    if max == 0 then "" else if |text| <= max then text else text[..max - 1] + "\U{2026}"
  }

  // ---- What rendered text says ----

  function Digit(c: char): nat
    requires IsDigit(c)
  {
    c as nat - '0' as nat
  }

  /** The number a run of digits stands for. */
  function Value(digits: string): nat
    requires forall i :: 0 <= i < |digits| ==> IsDigit(digits[i])
  {
    if digits == "" then 0 else 10 * Value(digits[..|digits| - 1]) + Digit(digits[|digits| - 1])
  }

  /** A rendered number reads back as itself and has no leading zero, so different numbers render differently. */
  lemma {:induction false} DecimalReadsBack(n: nat)
    ensures Value(Decimal(n)) == n
    ensures |Decimal(n)| > 1 ==> Decimal(n)[0] != '0'
  {
    var last := "0123456789"[n % 10];
    assert Digit(last) == n % 10;
    if n >= 10 {
      DecimalReadsBack(n / 10);
      assert Decimal(n)[..|Decimal(n)| - 1] == Decimal(n / 10);
      assert n / 10 < 10 ==> Decimal(n / 10)[0] == "0123456789"[n / 10];
    } else {
      assert Decimal(n)[..0] == "";
    }
  }

  /** The first word of a text, up to the next blank. */
  function Word(s: string): (w: string)
    ensures |w| <= |s|
    ensures s != "" && !IsSpace(s[0]) ==> w != ""
  {
    if s == "" || IsSpace(s[0]) then "" else [s[0]] + Word(s[1..])
  }

  /** The words of a text, in order. */
  function Words(s: string): seq<string>
    decreases |s|
  {
    if s == "" then []
    else if IsSpace(s[0]) then Words(s[1..])
    else [Word(s)] + Words(s[|Word(s)|..])
  }

  lemma {:induction false} WordThenRest(s: string)
    requires s != "" && !IsSpace(s[0])
    ensures Words(s) == if |s| > 1 && !IsSpace(s[1]) then [[s[0]] + Words(s[1..])[0]] + Words(s[1..])[1..]
                        else [[s[0]]] + Words(s[1..])
    ensures |s| > 1 && !IsSpace(s[1]) ==> Words(s[1..]) != []
  {
    var rest := s[1..];
    if |s| > 1 && !IsSpace(s[1]) {
      assert Word(s) == [s[0]] + Word(rest);
      assert s[|Word(s)|..] == rest[|Word(rest)|..];
    } else {
      assert Word(s) == [s[0]] + Word(rest) == [s[0]];
    }
  }

  /** Text put on one line is its words, one blank between any two. */
  lemma {:induction false} OneLineIsItsWords(s: string)
    ensures OneLine(s) == Join(Words(s), " ")
    ensures OneLine(s) == "" <==> Words(s) == []
  {
    if s != "" {
      OneLineIsItsWords(s[1..]);
      if !IsSpace(s[0]) {
        WordThenRest(s);
        var rest := Words(s[1..]);
        if |s| > 1 && !IsSpace(s[1]) {
          assert Join([[s[0]] + rest[0]] + rest[1..], " ") == [s[0]] + Join(rest, " ");
        } else {
          assert rest != [] ==> Join([[s[0]]] + rest, " ") == [s[0]] + " " + Join(rest, " ");
        }
      }
    }
  }

  predicate OccursAt(part: string, whole: string, at: nat) {
    at + |part| <= |whole| && whole[at..at + |part|] == part
  }

  /** The whole text holds the part, word for word. */
  predicate Occurs(part: string, whole: string) {
    exists at :: 0 <= at <= |whole| && OccursAt(part, whole, at)
  }

  lemma OccursWithin(before: string, part: string, after: string)
    ensures Occurs(part, before + part + after)
  {
    assert OccursAt(part, before + part + after, |before|);
  }

  lemma OccursIn(part: string, middle: string, whole: string)
    requires Occurs(part, middle) && Occurs(middle, whole)
    ensures Occurs(part, whole)
  {
    var a :| 0 <= a <= |middle| && OccursAt(part, middle, a);
    var b :| 0 <= b <= |whole| && OccursAt(middle, whole, b);
    assert forall i :: 0 <= i < |middle| ==> whole[b + i] == middle[i];
    assert forall i :: 0 <= i < |part| ==> middle[a + i] == part[i];
    assert OccursAt(part, whole, b + a);
  }

  /** Every joined part is there. */
  lemma {:induction false} PartsOccur(parts: seq<string>, i: nat, separator: string)
    requires i < |parts|
    ensures Occurs(parts[i], Join(parts, separator))
  {
    if |parts| == 1 {
      OccursWithin("", parts[0], "");
      assert "" + parts[0] + "" == parts[0];
    } else if i == 0 {
      OccursWithin("", parts[0], separator + Join(parts[1..], separator));
      assert "" + parts[0] + (separator + Join(parts[1..], separator)) == parts[0] + separator + Join(parts[1..], separator);
    } else {
      PartsOccur(parts[1..], i - 1, separator);
      var rest := Join(parts[1..], separator);
      OccursWithin(parts[0] + separator, rest, "");
      assert parts[0] + separator + rest + "" == parts[0] + separator + rest;
      OccursIn(parts[i], rest, Join(parts, separator));
    }
  }

  /** ...and so is every piece of one. */
  lemma PartOccurs(parts: seq<string>, i: nat, separator: string, before: string, part: string, after: string)
    requires i < |parts| && parts[i] == before + part + after
    ensures Occurs(part, Join(parts, separator))
  {
    hide Occurs, Join;
    OccursWithin(before, part, after);
    PartsOccur(parts, i, separator);
    OccursIn(part, parts[i], Join(parts, separator));
  }
}
