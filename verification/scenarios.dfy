/**
 Worked documents: the step lemmas of the extractor chained over concrete
 lines, showing row order and sub-state resets end to end.
 */
module Scenarios {
  import opened Maybe
  import opened Text
  import opened Swatch
  import opened PaletteModel
  import opened Extractor

  lemma Unfold(s: Scan, lines: seq<string>)
    requires |lines| > 0
    ensures Run(s, lines) == Run(Step(s, lines[0]), lines[1..])
  {
  }

  lemma MediumLabel()
    ensures SubLabel("<sub>Medium</sub>") == Some("Medium")
    ensures ContrastOf("Medium") == Some(Medium)
  {
    assert Lower("<sub>") == "<sub>";
    assert Lower("</sub>") == "</sub>";
    assert "<sub>" + "Medium" + "</sub>" == "<sub>Medium</sub>";
    SubLabelOfTags("<sub>", "Medium", "</sub>");
    assert Lower("Medium") == "medium";
  }

  lemma TwoSwatchLine()
    ensures ExtractHexes("![#2D353B]![#343F44]") == ["#2D353B", "#343F44"]
    ensures !IsControl("![#2D353B]![#343F44]")
  {
    SecondSwatch();
    ExtractLeadingSwatch("2D353B", "![#343F44]");
    assert "![#" + "2D353B" + "]" + "![#343F44]" == "![#2D353B]![#343F44]";
    assert NormalizeHex("2D353B") == "#2D353B";
    TitlesNotPrefix("![#2D353B]![#343F44]");
  }

  lemma SecondSwatch()
    ensures ExtractHexes("![#343F44]") == ["#343F44"]
  {
    ExtractLeadingSwatch("343F44", "");
    assert "![#" + "343F44" + "]" + "" == "![#343F44]";
    assert NormalizeHex("343F44") == "#343F44";
  }

  lemma OneSwatchLine()
    ensures ExtractHexes("![#3d484d]") == ["#3D484D"]
    ensures !IsControl("![#3d484d]")
  {
    ExtractLeadingSwatch("3d484d", "");
    assert "![#" + "3d484d" + "]" + "" == "![#3d484d]";
    assert NormalizeHex("3d484d") == "#3D484D";
    TitlesNotPrefix("![#3d484d]");
  }

  /** A line starting with `!` is neither a heading nor a label. */
  lemma TitlesNotPrefix(line: string)
    requires |line| > 0 && line[0] == '!'
    ensures !IsControl(line)
  {
    if StartsWith(line, HighlightsTitle) {
      PrefixChar(line, HighlightsTitle, 0);
    }
    forall v | StartsWith(line, VariantTitle(v))
      ensures false
    {
      PrefixChar(line, VariantTitle(v), 0);
    }
    forall sec | StartsWith(line, SectionTitle(sec))
      ensures false
    {
      PrefixChar(line, SectionTitle(sec), 0);
    }
  }

  const MediumScope := ScanState(Some(Dark), Some(BackgroundSection), Some(Medium), None)

  /** The three scope lines select dark, background and medium, and collect nothing. */
  lemma ScopeLines(rest: seq<string>)
    ensures Run(Start(), ["### Dark", "#### Background Colors (palette1)", "<sub>Medium</sub>"] + rest)
            == Run(Scan(MediumScope, EmptyPalette(), false), rest)
  {
    var lines := ["### Dark", "#### Background Colors (palette1)", "<sub>Medium</sub>"] + rest;
    var s0 := Start();
    TrimUnchanged(lines[0]);
    VariantHeadingStep(s0, lines[0], Dark);
    var s1 := Step(s0, lines[0]);
    TrimUnchanged(lines[1]);
    SectionHeadingStep(s1, lines[1], BackgroundSection);
    var s2 := Step(s1, lines[1]);
    TrimUnchanged(lines[2]);
    MediumLabel();
    ContrastLabelStep(s2, lines[2], "Medium");
    assert Step(s2, lines[2]) == Scan(MediumScope, EmptyPalette(), false);
    Unfold(s0, lines);
    Unfold(s1, lines[1..]);
    Unfold(s2, lines[2..]);
    assert lines[1..][1..] == lines[2..];
    assert lines[2..][1..] == rest;
  }

  lemma MediumRowLine(p: EverforestPalette, line: string, row: seq<string>)
    requires Trim(line) == line && !IsControl(line)
    requires ExtractHexes(line) == row && row != []
    ensures var t := Step(Scan(MediumScope, p, false), line);
      t.state == MediumScope && !t.halted && RowsAt(t.palette, Dark, Medium) == RowsAt(p, Dark, Medium) + [row]
  {
    BackgroundRowStep(Scan(MediumScope, p, false), line, Dark, Medium);
  }

  /** Two colour lines under the medium scope append two rows, in order. */
  lemma MediumColorLines(p: EverforestPalette)
    ensures RowsAt(Run(Scan(MediumScope, p, false), ["![#2D353B]![#343F44]", "![#3d484d]"]).palette, Dark, Medium)
            == RowsAt(p, Dark, Medium) + [["#2D353B", "#343F44"], ["#3D484D"]]
  {
    var lines := ["![#2D353B]![#343F44]", "![#3d484d]"];
    var s3 := Scan(MediumScope, p, false);
    TrimUnchanged(lines[0]);
    TwoSwatchLine();
    MediumRowLine(p, lines[0], ["#2D353B", "#343F44"]);
    var s4 := Step(s3, lines[0]);
    TrimUnchanged(lines[1]);
    OneSwatchLine();
    MediumRowLine(s4.palette, lines[1], ["#3D484D"]);
    Unfold(s3, lines);
    Unfold(s4, lines[1..]);
    assert lines[1..][1..] == [];
  }

  /**
   Background lines under the medium label become two rows, in document order,
   each keeping its colours in order, lower-case digits canonicalised.
   */
  lemma MediumRowsInOrder()
    ensures RowsAt(Parse(["### Dark", "#### Background Colors (palette1)", "<sub>Medium</sub>",
                          "![#2D353B]![#343F44]", "![#3d484d]"]), Dark, Medium)
            == [["#2D353B", "#343F44"], ["#3D484D"]]
  {
    var colorLines := ["![#2D353B]![#343F44]", "![#3d484d]"];
    ScopeLines(colorLines);
    assert ["### Dark", "#### Background Colors (palette1)", "<sub>Medium</sub>"] + colorLines
        == ["### Dark", "#### Background Colors (palette1)", "<sub>Medium</sub>",
            "![#2D353B]![#343F44]", "![#3d484d]"];
    MediumColorLines(EmptyPalette());
  }
}
