/** The colour mapping of `updateColorScheme`: split on one space, `parseInt`
    the first three fields, write `rgb(r, g, b)` and toggle `custom-color`. */
module ColorScheme {
  import opened Options
  import opened Strings

  const CustomColorClass: string := "custom-color"

  /** The three parsed channels; None stands for NaN. */
  datatype Rgb = Rgb(r: Option<nat>, g: Option<nat>, b: Option<nat>)

  /** `parseInt(fields[i])`; a missing field (`undefined`) also gives NaN. */
  function Field(fields: seq<string>, i: nat): Option<nat>
  {
    if i < |fields| then ParseInt(fields[i]) else None
  }

  function ParseColor(colorString: string): Rgb
  {
    var fields := Split(colorString, ' ');
    Rgb(Field(fields, 0), Field(fields, 1), Field(fields, 2))
  }

  /** Template-literal text of a parsed number: its digits, or "NaN". */
  function NumberText(v: Option<nat>): string
  {
    match v
    case None => "NaN"
    case Some(n) => NatToString(n)
  }

  /** Reads a number's text back: "NaN" is NaN, anything else goes through `parseInt`. */
  function ReadNumber(t: string): Option<nat>
  {
    if t == "NaN" then None else ParseInt(t)
  }

  /** The value written to `--custom-color`. */
  function RgbText(c: Rgb): string
  {
    "rgb(" + NumberText(c.r) + ", " + NumberText(c.g) + ", " + NumberText(c.b) + ")"
  }

  /** "Some channel is not 255"; NaN is never equal to 255. */
  predicate IsCustom(c: Rgb)
  {
    c.r != Some(255) || c.g != Some(255) || c.b != Some(255)
  }

  /** The class set after the toggle. */
  function ColorClassesAfter(classes: set<string>, c: Rgb): set<string>
  {
    if IsCustom(c) then classes + {CustomColorClass} else classes - {CustomColorClass}
  }

  /** Writing a number and reading it back gives the number, NaN included. */
  lemma ReadNumberText(v: Option<nat>)
    ensures ReadNumber(NumberText(v)) == v
  {
    match v
    case None =>
    case Some(n) =>
      ParseNatToString(n);
      assert NatToString(n) != "NaN" by {
        assert IsDigit(NatToString(n)[0]);
      }
  }

  lemma NumberTextHasNoComma(v: Option<nat>)
    ensures ',' !in NumberText(v) && ',' !in " " + NumberText(v)
  {
    if v.Some? {
      DigitsHaveNoSeparator(NatToString(v.value), ',');
    }
  }

  /** The shape of the colour text for any three channel texts. */
  lemma RgbShape(x: string, y: string, z: string)
    ensures var t := "rgb(" + x + ", " + y + ", " + z + ")";
      && |t| >= 5 && t[..4] == "rgb(" && t[|t| - 1] == ')'
      && t[4..|t| - 1] == x + [','] + (" " + y) + [','] + (" " + z)
  {
    var t := "rgb(" + x + ", " + y + ", " + z + ")";
    var inner := x + [','] + (" " + y) + [','] + (" " + z);
    assert t == "rgb(" + inner + ")";
  }

  /** The colour text is `rgb(` then the three number texts joined by ',' (each
      after the first preceded by a space), then `)`; the values are written
      exactly as parsed, without clamping to 0..255. */
  lemma RgbTextFields(c: Rgb)
    ensures var t := RgbText(c);
      && |t| >= 5 && t[..4] == "rgb(" && t[|t| - 1] == ')'
      && Split(t[4..|t| - 1], ',') == [NumberText(c.r), " " + NumberText(c.g), " " + NumberText(c.b)]
  {
    var x, y, z := NumberText(c.r), NumberText(c.g), NumberText(c.b);
    RgbShape(x, y, z);
    NumberTextHasNoComma(c.r);
    NumberTextHasNoComma(c.g);
    NumberTextHasNoComma(c.b);
    SplitThree(x, " " + y, " " + z, ',');
  }

  /** A well-formed input "R G B" of decimal numbers parses to exactly those numbers. */
  lemma ParseColorOfDecimals(r: nat, g: nat, b: nat)
    ensures ParseColor(NatToString(r) + " " + NatToString(g) + " " + NatToString(b))
         == Rgb(Some(r), Some(g), Some(b))
  {
    var x, y, z := NatToString(r), NatToString(g), NatToString(b);
    var s := x + " " + y + " " + z;
    assert Split(s, ' ') == [x, y, z] by {
      DigitsHaveNoSeparator(x, ' ');
      DigitsHaveNoSeparator(y, ' ');
      DigitsHaveNoSeparator(z, ' ');
      Join3(x, y, z, ' ');
      SplitJoin([x, y, z], ' ');
    }
    ParseNatToString(r);
    ParseNatToString(g);
    ParseNatToString(b);
  }

  /** `custom-color` is present afterwards iff some channel is not 255, and no
      other class changes. */
  lemma CustomClassIff(classes: set<string>, c: Rgb)
    ensures CustomColorClass in ColorClassesAfter(classes, c) <==> IsCustom(c)
    ensures forall k | k != CustomColorClass :: k in ColorClassesAfter(classes, c) <==> k in classes
  {
  }

  lemma DecimalTexts()
    ensures NatToString(255) == "255"
    ensures NatToString(10) == "10" && NatToString(20) == "20" && NatToString(30) == "30"
  {
    assert DigitChar(0) == '0' && DigitChar(1) == '1' && DigitChar(2) == '2';
    assert DigitChar(3) == '3' && DigitChar(5) == '5';
    assert NatToString(25) == "25";
  }

  lemma ParseWhite()
    ensures ParseColor("255 255 255") == Rgb(Some(255), Some(255), Some(255))
  {
    DecimalTexts();
    var w := NatToString(255);
    ParseColorOfDecimals(255, 255, 255);
    assert w + " " + w + " " + w == "255 255 255";
  }

  lemma ParseDark()
    ensures ParseColor("10 20 30") == Rgb(Some(10), Some(20), Some(30))
  {
    DecimalTexts();
    ParseColorOfDecimals(10, 20, 30);
    assert NatToString(10) + " " + NatToString(20) + " " + NatToString(30) == "10 20 30";
  }

  lemma WhiteText()
    ensures RgbText(Rgb(Some(255), Some(255), Some(255))) == "rgb(255, 255, 255)"
  {
    DecimalTexts();
  }

  lemma DarkText()
    ensures RgbText(Rgb(Some(10), Some(20), Some(30))) == "rgb(10, 20, 30)"
  {
    DecimalTexts();
  }

  /** Pure white "255 255 255" writes rgb(255, 255, 255) and removes the class. */
  lemma WhiteIsNotCustom(classes: set<string>)
    ensures var c := ParseColor("255 255 255");
      && !IsCustom(c)
      && RgbText(c) == "rgb(255, 255, 255)"
      && CustomColorClass !in ColorClassesAfter(classes, c)
  {
    ParseWhite();
    WhiteText();
  }

  /** "10 20 30" writes rgb(10, 20, 30) and adds the class. */
  lemma DarkIsCustom(classes: set<string>)
    ensures var c := ParseColor("10 20 30");
      && IsCustom(c)
      && RgbText(c) == "rgb(10, 20, 30)"
      && CustomColorClass in ColorClassesAfter(classes, c)
  {
    ParseDark();
    DarkText();
  }

  /** With `parseInt` modelled as a decimal digit prefix: when the input does
      not start with a digit (empty, a letter, a sign or a leading space that
      leaves an empty first field), the red channel is NaN, and NaN counts as
      custom. */
  lemma NonNumericIsCustom(s: string)
    requires s == [] || !IsDigit(s[0])
    ensures ParseColor(s).r == None && IsCustom(ParseColor(s))
  {
    var first := Split(s, ' ')[0];
    if s == [] {
      assert first == "";
    } else if s[0] == ' ' {
      assert first == "";
    } else {
      assert first[0] == s[0];
    }
  }
}
