/** Rendering of the recipe text fields into display lines: the intro
    banner, the bulleted ingredient list and the numbered instruction list.
    Lines stand for the `<text>` elements the card draws; layout is not
    modelled. */
module Format {
  import opened Wrappers
  import opened Lines
  import Decimal

  const Newline: char := '\n'

  /** The intro area: a banner holding the intro text, or an empty stack. */
  datatype IntroPanel = NoBanner | Banner(text: string)

  /** The text a reader sees in the intro area. */
  function IntroText(p: IntroPanel): string
  {
    match p
    case NoBanner => ""
    case Banner(t) => t
  }

  /** `formatIntro`: a banner exactly when there is intro text, and the
      banner shows that text, so the intro can be read back off the panel. */
  function FormatIntro(intro: string): (p: IntroPanel)
    ensures p.Banner? <==> intro != ""
    ensures IntroText(p) == intro
  {
    if intro != "" then Banner(intro) else NoBanner
  }

  // ---------------------------------------------------------------- ingredients

  const BulletMark: string := "- "

  function BulletAll(lines: seq<string>): (r: seq<string>)
    ensures |r| == |lines|
    ensures forall k :: 0 <= k < |r| ==> r[k] == BulletMark + lines[k]
  {
    if |lines| == 0 then []
    else [BulletMark + lines[0]] + BulletAll(lines[1..])
  }

  /** `formatIngredients`: one bulleted line per newline-separated segment,
      in input order, empty segments included. */
  function FormatIngredients(ingredients: string): (r: seq<string>)
    ensures |r| == Count(ingredients, Newline) + 1
    ensures forall k :: 0 <= k < |r| ==> r[k] == BulletMark + Split(ingredients, Newline)[k]
  {
    BulletAll(Split(ingredients, Newline))
  }

  /** The text of a bulleted line, if it is one. */
  function StripBullet(line: string): (r: Option<string>)
    ensures r.Some? ==> line == BulletMark + r.value
  {
    if |line| >= 2 && line[..2] == BulletMark then Some(line[2..]) else None
  }

  /** The segments behind a bulleted list, if every line is bulleted. */
  function Unbullet(lines: seq<string>): Option<seq<string>>
  {
    if |lines| == 0 then Some([])
    else
      match (StripBullet(lines[0]), Unbullet(lines[1..]))
      case (Some(t), Some(ts)) => Some([t] + ts)
      case _ => None
  }

  lemma {:induction false} UnbulletBulletAll(lines: seq<string>)
    ensures Unbullet(BulletAll(lines)) == Some(lines)
  {
    if |lines| > 0 {
      var b := BulletAll(lines);
      assert StripBullet(b[0]) == Some(lines[0]) by {
        assert b[0][..2] == BulletMark;
        assert b[0][2..] == lines[0];
      }
      assert b[1..] == BulletAll(lines[1..]);
      UnbulletBulletAll(lines[1..]);
      assert [lines[0]] + lines[1..] == lines;
    }
  }

  /** The ingredient text is recoverable from its rendering: strip the
      bullets and join the lines with newlines. */
  lemma IngredientsRoundTrip(ingredients: string)
    ensures Unbullet(FormatIngredients(ingredients)).Some?
    ensures Join(Unbullet(FormatIngredients(ingredients)).value, Newline) == ingredients
  {
    UnbulletBulletAll(Split(ingredients, Newline));
    JoinSplit(ingredients, Newline);
  }

  // --------------------------------------------------------------- instructions

  /** The line for step `n`: its number, ". ", then the text. */
  function StepLine(n: nat, text: string): string
  {
    Decimal.FromNat(n) + ". " + text
  }

  /** Numbers `steps` consecutively starting at `first`. */
  function NumberFrom(first: nat, steps: seq<string>): (r: seq<string>)
    ensures |r| == |steps|
    ensures forall k :: 0 <= k < |r| ==> r[k] == StepLine(first + k, steps[k])
    decreases |steps|
  {
    if |steps| == 0 then []
    else [StepLine(first, steps[0])] + NumberFrom(first + 1, steps[1..])
  }

  /** `formatInstructions`: line k (from 0) of the list is step k + 1 and
      carries segment k of the text; the numbering is 1-based, contiguous
      and in input order. */
  function FormatInstructions(instructions: string): (r: seq<string>)
    ensures |r| == Count(instructions, Newline) + 1
    ensures forall k :: 0 <= k < |r| ==> r[k] == StepLine(k + 1, Split(instructions, Newline)[k])
  {
    NumberFrom(1, Split(instructions, Newline))
  }

  /** Reads a step line back into its number and text. */
  function ParseStep(line: string): Option<(nat, string)>
  {
    var d := Decimal.LeadingDigits(line);
    var rest := line[|d|..];
    if |d| > 0 && |rest| >= 2 && rest[..2] == ". " then Some((Decimal.ToNat(d), rest[2..]))
    else None
  }

  /** A step line reads back as the number and text it was made from. */
  lemma StepLineParses(n: nat, text: string)
    ensures ParseStep(StepLine(n, text)) == Some((n, text))
  {
    var d := Decimal.FromNat(n);
    var line := StepLine(n, text);
    assert line == d + (". " + text);
    Decimal.LeadingDigitsOfNumeral(d, ". " + text);
    assert line[|d|..] == ". " + text;
    Decimal.ToNatFromNat(n);
  }

  /** The texts of a list of step lines, if every line parses. */
  function StepTexts(lines: seq<string>): Option<seq<string>>
  {
    if |lines| == 0 then Some([])
    else
      match (ParseStep(lines[0]), StepTexts(lines[1..]))
      case (Some(p), Some(ts)) => Some([p.1] + ts)
      case _ => None
  }

  lemma {:induction false} StepTextsNumberFrom(first: nat, steps: seq<string>)
    ensures StepTexts(NumberFrom(first, steps)) == Some(steps)
    decreases |steps|
  {
    if |steps| > 0 {
      var r := NumberFrom(first, steps);
      StepLineParses(first, steps[0]);
      assert r[1..] == NumberFrom(first + 1, steps[1..]);
      StepTextsNumberFrom(first + 1, steps[1..]);
      assert [steps[0]] + steps[1..] == steps;
    }
  }

  /** Every rendered instruction line reads back as its 1-based position and
      its segment, and the instruction text is recoverable from the list. */
  lemma InstructionsRoundTrip(instructions: string)
    ensures var r := FormatInstructions(instructions);
      forall k :: 0 <= k < |r| ==> ParseStep(r[k]) == Some(((k + 1) as nat, Split(instructions, Newline)[k]))
    ensures StepTexts(FormatInstructions(instructions)).Some?
    ensures Join(StepTexts(FormatInstructions(instructions)).value, Newline) == instructions
  {
    var r := FormatInstructions(instructions);
    var parts := Split(instructions, Newline);
    forall k | 0 <= k < |r|
      ensures ParseStep(r[k]) == Some(((k + 1) as nat, parts[k]))
    {
      StepLineParses(k + 1, parts[k]);
    }
    StepTextsNumberFrom(1, parts);
    JoinSplit(instructions, Newline);
  }
}
