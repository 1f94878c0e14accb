/**
 The line scanner inside `getEverforestPalette` (lib/palette.ts): one forward
 pass over the lines of the palette document, with four optional pieces of scan
 state and an ordered, first-match-wins rule table. The loop is a fold of `Step`
 over the lines; the `break` on the Highlights heading is the `halted` flag,
 after which `Step` changes nothing.
 */
module Extractor {
  import opened Maybe
  import opened Text
  import opened Swatch
  import opened PaletteModel

  /** `currentSection`: "palette1" is the background section, "palette2" the foreground one. */
  datatype Section = BackgroundSection | ForegroundSection

  /** The four pieces of scan state, each unset or one of a closed set of values. */
  datatype ScanState = ScanState(variant: Option<Variant>, section: Option<Section>, contrast: Option<Contrast>, group: Option<Group>)

  /** Scan state, the palette collected so far, and whether the scan has stopped. */
  datatype Scan = Scan(state: ScanState, palette: EverforestPalette, halted: bool)

  const Unset := ScanState(None, None, None, None)

  const HighlightsTitle := "## Highlights"

  function VariantTitle(v: Variant): string {
    match v
    case Dark => "### Dark"
    case Light => "### Light"
  }

  function SectionTitle(sec: Section): string {
    match sec
    case BackgroundSection => "#### Background Colors (palette1)"
    case ForegroundSection => "#### Foreground Colors (palette2)"
  }

  predicate NoAngle(s: string) {
    forall i :: 0 <= i < |s| ==> s[i] != '<'
  }

  /**
   The whole-line label `/^<sub>([^<]+)<\/sub>$/i`: the tags in any letter case,
   between them at least one character and no `<`.
   */
  function SubLabel(line: string): (r: Option<string>)
    ensures r.Some? ==> && |line| >= 12
                        && Lower(line[..5]) == "<sub>" && Lower(line[|line| - 6..]) == "</sub>"
                        && line == line[..5] + r.value + line[|line| - 6..]
                        && |r.value| > 0 && NoAngle(r.value)
    ensures r.Some? ==> line[0] == '<'
  {
    if && |line| >= 12
       && Lower(line[..5]) == "<sub>"
       && Lower(line[|line| - 6..]) == "</sub>"
       && NoAngle(line[5..|line| - 6])
    then
      assert LowerChar(line[0]) == Lower(line[..5])[0];
      Some(line[5..|line| - 6])
    else None
  }

  /** Conversely, any label without `<` between tags spelt in any letter case is recognised. */
  lemma SubLabelOfTags(open: string, tag: string, close: string)
    requires Lower(open) == "<sub>" && Lower(close) == "</sub>"
    requires |tag| > 0 && NoAngle(tag)
    ensures SubLabel(open + tag + close) == Some(tag)
  {
    var line := open + tag + close;
    assert line[..5] == open;
    assert line[|line| - 6..] == close;
    assert line[5..|line| - 6] == tag;
  }

  function ContrastName(c: Contrast): string {
    match c
    case Hard => "hard"
    case Medium => "medium"
    case Soft => "soft"
  }

  function GroupName(g: Group): string {
    match g
    case Default => "default"
    case Accents => "accents"
    case Greys => "greys"
    case Statusline => "statusline"
  }

  /** The contrast level a label names, compared after lower-casing; `None` for any other label. */
  function ContrastOf(tag: string): (r: Option<Contrast>)
    ensures forall c :: r == Some(c) <==> Lower(tag) == ContrastName(c)
  {
    var value := Lower(tag);
    if value == "hard" then Some(Hard)
    else if value == "medium" then Some(Medium)
    else if value == "soft" then Some(Soft)
    else None
  }

  /** The foreground group a label names, compared after lower-casing; `None` for any other label. */
  function GroupOf(tag: string): (r: Option<Group>)
    ensures forall g :: r == Some(g) <==> Lower(tag) == GroupName(g)
  {
    var value := Lower(tag);
    if value == "default" then Some(Default)
    else if value == "accents" then Some(Accents)
    else if value == "greys" then Some(Greys)
    else if value == "statusline" then Some(Statusline)
    else None
  }

  datatype LineKind = Halt | VariantHeading(v: Variant) | SectionHeading(sec: Section) | Label(tag: string) | Content

  /** A line that one of the first seven rules may claim: a heading or a `<sub>` label. */
  predicate IsControl(line: string) {
    || StartsWith(line, HighlightsTitle)
    || (exists v :: StartsWith(line, VariantTitle(v)))
    || (exists sec :: StartsWith(line, SectionTitle(sec)))
    || SubLabel(line).Some?
  }

  lemma PrefixChar(line: string, prefix: string, i: nat)
    requires StartsWith(line, prefix) && i < |prefix|
    ensures line[i] == prefix[i]
  {
    assert line[..|prefix|][i] == line[i];
  }

  /** The heading prefixes tell each other apart by one character, and a label begins with `<`. */
  lemma TitlesExclusive(line: string)
    ensures StartsWith(line, HighlightsTitle) ==>
      && (forall v :: !StartsWith(line, VariantTitle(v)))
      && (forall sec :: !StartsWith(line, SectionTitle(sec)))
      && SubLabel(line).None?
    ensures forall v, v' :: StartsWith(line, VariantTitle(v)) && StartsWith(line, VariantTitle(v')) ==> v == v'
    ensures forall v, sec :: !(StartsWith(line, VariantTitle(v)) && StartsWith(line, SectionTitle(sec)))
    ensures forall v :: StartsWith(line, VariantTitle(v)) ==> SubLabel(line).None?
    ensures forall sec, sec' :: StartsWith(line, SectionTitle(sec)) && StartsWith(line, SectionTitle(sec')) ==> sec == sec'
    ensures forall sec :: StartsWith(line, SectionTitle(sec)) ==> SubLabel(line).None?
  {
    if StartsWith(line, HighlightsTitle) {
      PrefixChar(line, HighlightsTitle, 0);
      PrefixChar(line, HighlightsTitle, 2);
    }
    forall v | StartsWith(line, VariantTitle(v))
      ensures line[0] == '#' && line[2] == '#' && line[3] == ' '
      ensures line[4] == (if v == Dark then 'D' else 'L')
    {
      PrefixChar(line, VariantTitle(v), 0);
      PrefixChar(line, VariantTitle(v), 2);
      PrefixChar(line, VariantTitle(v), 3);
      PrefixChar(line, VariantTitle(v), 4);
    }
    forall sec | StartsWith(line, SectionTitle(sec))
      ensures line[0] == '#' && line[3] == '#'
      ensures line[5] == (if sec == BackgroundSection then 'B' else 'F')
    {
      PrefixChar(line, SectionTitle(sec), 0);
      PrefixChar(line, SectionTitle(sec), 3);
      PrefixChar(line, SectionTitle(sec), 5);
    }
  }

  /**
   The rule table, tried top to bottom. The five heading prefixes and the label
   pairwise exclude each other, so each kind is chosen exactly when its own test
   holds, whatever the order.
   */
  function Classify(line: string): (k: LineKind)
    ensures StartsWith(line, HighlightsTitle) ==> k == Halt
    ensures forall v :: StartsWith(line, VariantTitle(v)) ==> k == VariantHeading(v)
    ensures forall sec :: StartsWith(line, SectionTitle(sec)) ==> k == SectionHeading(sec)
    ensures SubLabel(line).Some? ==> k == Label(SubLabel(line).value)
    ensures k == Content <==> !IsControl(line)
  {
    TitlesExclusive(line);
    if StartsWith(line, HighlightsTitle) then Halt
    else if StartsWith(line, VariantTitle(Dark)) then VariantHeading(Dark)
    else if StartsWith(line, VariantTitle(Light)) then VariantHeading(Light)
    else if StartsWith(line, SectionTitle(BackgroundSection)) then SectionHeading(BackgroundSection)
    else if StartsWith(line, SectionTitle(ForegroundSection)) then SectionHeading(ForegroundSection)
    else if SubLabel(line).Some? then Label(SubLabel(line).value)
    else Content
  }

  /**
   The last rule, for every other line: a line carrying swatches adds them to the
   slot the scan state selects, or is skipped when a needed piece of state is
   unset or no colour is found. A background line adds one whole row; a
   foreground line extends its group.
   */
  function AddColors(s: Scan, line: string): (t: Scan)
    ensures t.state == s.state && t.halted == s.halted
    ensures Extends(s.palette, t.palette)
    ensures WellFormed(s.palette) ==> WellFormed(t.palette)
  {
    var st := s.state;
    if st.variant.None? || st.section.None? then s
    else if !Contains(line, Opener) then s
    else
      var hexes := ExtractHexes(line);
      if |hexes| == 0 then s
      else match st.section.value
        case BackgroundSection =>
          if st.contrast.None? then s
          else s.(palette := AppendRow(s.palette, st.variant.value, st.contrast.value, hexes))
        case ForegroundSection =>
          if st.group.None? then s
          else s.(palette := ExtendGroup(s.palette, st.variant.value, st.group.value, hexes))
  }

  /** One iteration of the scan loop on an untrimmed line. */
  function Step(s: Scan, raw: string): (t: Scan)
    ensures s.halted ==> t == s
    ensures t.palette == s.palette || t == AddColors(s, Trim(raw))
  {
    if s.halted then s
    else
      var line := Trim(raw);
      var st := s.state;
      match Classify(line)
      case Halt => s.(halted := true)
      case VariantHeading(v) => s.(state := ScanState(Some(v), None, None, None))
      case SectionHeading(sec) => s.(state := st.(section := Some(sec), contrast := None, group := None))
      case Label(x) =>
        if st.variant.Some? && st.section == Some(BackgroundSection) then
          s.(state := st.(contrast := if ContrastOf(x).Some? then ContrastOf(x) else st.contrast))
        else if st.variant.Some? && st.section == Some(ForegroundSection) then
          s.(state := st.(group := if GroupOf(x).Some? then GroupOf(x) else st.group))
        else AddColors(s, line)
      case Content => AddColors(s, line)
  }

  /** A step only appends canonical colours to the palette. */
  lemma StepExtends(s: Scan, raw: string)
    ensures Extends(s.palette, Step(s, raw).palette)
    ensures WellFormed(s.palette) ==> WellFormed(Step(s, raw).palette)
  {
    if Step(s, raw).palette == s.palette {
      ExtendsReflexive(s.palette);
    }
  }

  /** The scan loop from `s` over `lines`; once halted nothing changes. */
  function Run(s: Scan, lines: seq<string>): (r: Scan)
    ensures s.halted ==> r == s
    ensures Extends(s.palette, r.palette)
    ensures WellFormed(s.palette) ==> WellFormed(r.palette)
    decreases |lines|
  {
    if |lines| == 0 then ExtendsReflexive(s.palette); s
    else
      var r := Run(Step(s, lines[0]), lines[1..]);
      StepExtends(s, lines[0]);
      ExtendsTransitive(s.palette, Step(s, lines[0]).palette, r.palette);
      r
  }

  /** The scan before the first line: nothing selected, every slot empty, not stopped. */
  function Start(): (s: Scan)
    ensures !s.halted
    ensures s.state.variant.None? && s.state.section.None? && s.state.contrast.None? && s.state.group.None?
    ensures forall v, c :: RowsAt(s.palette, v, c) == []
    ensures forall v, g :: ColorsAt(s.palette, v, g) == []
  {
    Scan(Unset, EmptyPalette(), false)
  }

  /** The palette read from the lines of a document: every colour in it is canonical. */
  function Parse(lines: seq<string>): (p: EverforestPalette)
    ensures WellFormed(p)
    ensures lines == [] ==> forall v, c :: RowsAt(p, v, c) == []
    ensures lines == [] ==> forall v, g :: ColorsAt(p, v, g) == []
  {
    Run(Start(), lines).palette
  }

  /** Scanning two stretches one after the other is scanning them joined. */
  lemma {:induction false} RunAppend(s: Scan, a: seq<string>, b: seq<string>)
    ensures Run(s, a + b) == Run(Run(s, a), b)
    decreases |a|
  {
    if |a| == 0 {
      assert a + b == b;
    } else {
      assert (a + b)[0] == a[0];
      assert (a + b)[1..] == a[1..] + b;
      RunAppend(Step(s, a[0]), a[1..], b);
    }
  }

  /** Nothing after the first Highlights heading is read. */
  lemma ParseStopsAtHighlights(before: seq<string>, h: string, after: seq<string>)
    requires StartsWith(Trim(h), HighlightsTitle)
    ensures Parse(before + [h] + after) == Parse(before)
  {
    var mid := Run(Start(), before);
    RunAppend(Start(), before, [h] + after);
    assert before + [h] + after == before + ([h] + after);
    assert ([h] + after)[1..] == after;
    assert Step(mid, h).palette == mid.palette;
  }

  /** Reading more lines keeps every row and colour already read, in order. */
  lemma ParseOnlyExtends(before: seq<string>, after: seq<string>)
    ensures Extends(Parse(before), Parse(before + after))
  {
    RunAppend(Start(), before, after);
  }

  /** `### Dark` / `### Light` (as a prefix) selects the variant and unsets everything below it. */
  lemma VariantHeadingStep(s: Scan, raw: string, v: Variant)
    requires !s.halted && StartsWith(Trim(raw), VariantTitle(v))
    ensures Step(s, raw) == Scan(ScanState(Some(v), None, None, None), s.palette, false)
  {
  }

  /** A section heading selects the section, unsets contrast and group, and keeps the variant. */
  lemma SectionHeadingStep(s: Scan, raw: string, sec: Section)
    requires !s.halted && StartsWith(Trim(raw), SectionTitle(sec))
    ensures Step(s, raw) == Scan(ScanState(s.state.variant, Some(sec), None, None), s.palette, false)
  {
  }

  /**
   Under a variant, in the background section, a label names the contrast level
   when it lower-cases to one; any other label keeps the previous level.
   */
  lemma ContrastLabelStep(s: Scan, raw: string, x: string)
    requires !s.halted && SubLabel(Trim(raw)) == Some(x)
    requires s.state.variant.Some? && s.state.section == Some(BackgroundSection)
    ensures var t := Step(s, raw);
      && !t.halted && t.palette == s.palette
      && t.state.variant == s.state.variant && t.state.section == s.state.section && t.state.group == s.state.group
      && (forall c :: Lower(x) == ContrastName(c) ==> t.state.contrast == Some(c))
      && ((forall c :: Lower(x) != ContrastName(c)) ==> t.state.contrast == s.state.contrast)
  {
  }

  /** The same for foreground groups in the foreground section. */
  lemma GroupLabelStep(s: Scan, raw: string, x: string)
    requires !s.halted && SubLabel(Trim(raw)) == Some(x)
    requires s.state.variant.Some? && s.state.section == Some(ForegroundSection)
    ensures var t := Step(s, raw);
      && !t.halted && t.palette == s.palette
      && t.state.variant == s.state.variant && t.state.section == s.state.section && t.state.contrast == s.state.contrast
      && (forall g :: Lower(x) == GroupName(g) ==> t.state.group == Some(g))
      && ((forall g :: Lower(x) != GroupName(g)) ==> t.state.group == s.state.group)
  {
  }

  /** No line ever changes the palette when no slot is selected or the line has no colour. */
  lemma InertLineStep(s: Scan, raw: string)
    requires
      || s.state.variant.None? || s.state.section.None?
      || !Contains(Trim(raw), Opener)
      || ExtractHexes(Trim(raw)) == []
      || (s.state.section == Some(BackgroundSection) && s.state.contrast.None?)
      || (s.state.section == Some(ForegroundSection) && s.state.group.None?)
    ensures Step(s, raw).palette == s.palette
  {
    NoOpenerNoHexes(Trim(raw));
  }

  /**
   A line that is neither a heading nor a label never touches the scan state:
   a label read before blank lines or prose still applies to the colour lines after them.
   */
  lemma ContentLineKeepsState(s: Scan, raw: string)
    requires !IsControl(Trim(raw))
    ensures Step(s, raw).state == s.state && Step(s, raw).halted == s.halted
  {
    assert Classify(Trim(raw)) == Content;
  }

  /** A label read before a variant and a section are both selected is skipped entirely. */
  lemma UnscopedLabelKeepsState(s: Scan, raw: string)
    requires SubLabel(Trim(raw)).Some?
    requires s.state.variant.None? || s.state.section.None?
    ensures Step(s, raw) == s
  {
    TitlesExclusive(Trim(raw));
  }

  /** A background colour line under a contrast level appends its colours as one row, and nothing else changes. */
  lemma BackgroundRowStep(s: Scan, raw: string, v: Variant, c: Contrast)
    requires !s.halted && !IsControl(Trim(raw)) && ExtractHexes(Trim(raw)) != []
    requires s.state.variant == Some(v) && s.state.section == Some(BackgroundSection) && s.state.contrast == Some(c)
    ensures var t := Step(s, raw);
      && t.state == s.state && !t.halted
      && RowsAt(t.palette, v, c) == RowsAt(s.palette, v, c) + [ExtractHexes(Trim(raw))]
      && (forall v', c' :: (v', c') != (v, c) ==> RowsAt(t.palette, v', c') == RowsAt(s.palette, v', c'))
      && (forall v', g :: ColorsAt(t.palette, v', g) == ColorsAt(s.palette, v', g))
  {
    NoOpenerNoHexes(Trim(raw));
  }

  /** A foreground colour line under a group extends that group by its colours, and nothing else changes. */
  lemma ForegroundColorsStep(s: Scan, raw: string, v: Variant, g: Group)
    requires !s.halted && !IsControl(Trim(raw)) && ExtractHexes(Trim(raw)) != []
    requires s.state.variant == Some(v) && s.state.section == Some(ForegroundSection) && s.state.group == Some(g)
    ensures var t := Step(s, raw);
      && t.state == s.state && !t.halted
      && ColorsAt(t.palette, v, g) == ColorsAt(s.palette, v, g) + ExtractHexes(Trim(raw))
      && (forall v', g' :: (v', g') != (v, g) ==> ColorsAt(t.palette, v', g') == ColorsAt(s.palette, v', g'))
      && (forall v', c :: RowsAt(t.palette, v', c) == RowsAt(s.palette, v', c))
  {
    NoOpenerNoHexes(Trim(raw));
  }

  /** The scan loop as written: stop at the Highlights heading, otherwise step and continue. */
  method GetPalette(lines: seq<string>) returns (palette: EverforestPalette)
    ensures palette == Parse(lines)
    ensures WellFormed(palette)
  {
    var scan := Start();
    var i := 0;
    assert lines[i..] == lines;
    while i < |lines|
      invariant 0 <= i <= |lines|
      invariant !scan.halted
      invariant Run(scan, lines[i..]) == Run(Start(), lines)
    {
      var next := Step(scan, lines[i]);
      assert lines[i..][1..] == lines[i + 1..];
      if next.halted {
        return next.palette;
      }
      scan := next;
      i := i + 1;
    }
    palette := scan.palette;
  }
}
