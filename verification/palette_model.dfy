/**
 The result types of lib/palette.ts: a palette per variant, each holding
 background rows per contrast level (`palette1`) and foreground colours per
 group (`palette2`). Every key set is closed, so each level is a record with
 one field per key, read and written through a key.
 */
module PaletteModel {
  import opened Swatch

  datatype Variant = Dark | Light
  datatype Contrast = Hard | Medium | Soft
  datatype Group = Default | Accents | Greys | Statusline

  /** One background row: colours shown together, in document order. */
  type Row = seq<string>

  /** `Palette1Rows`: the rows of each contrast level. */
  datatype Palette1 = Palette1(hard: seq<Row>, medium: seq<Row>, soft: seq<Row>)
  {
    function Rows(c: Contrast): seq<Row> {
      match c
      case Hard => hard
      case Medium => medium
      case Soft => soft
    }

    /** Replaces the rows of `c`; the other levels are untouched. */
    function WithRows(c: Contrast, rows: seq<Row>): (r: Palette1)
      ensures r.Rows(c) == rows
      ensures forall c' :: c' != c ==> r.Rows(c') == Rows(c')
    {
      match c
      case Hard => this.(hard := rows)
      case Medium => this.(medium := rows)
      case Soft => this.(soft := rows)
    }
  }

  /** `Palette2Groups`: the colours of each foreground group. */
  datatype Palette2 = Palette2(default: seq<string>, accents: seq<string>, greys: seq<string>, statusline: seq<string>)
  {
    function Colors(g: Group): seq<string> {
      match g
      case Default => default
      case Accents => accents
      case Greys => greys
      case Statusline => statusline
    }

    /** Replaces the colours of `g`; the other groups are untouched. */
    function WithColors(g: Group, colors: seq<string>): (r: Palette2)
      ensures r.Colors(g) == colors
      ensures forall g' :: g' != g ==> r.Colors(g') == Colors(g')
    {
      match g
      case Default => this.(default := colors)
      case Accents => this.(accents := colors)
      case Greys => this.(greys := colors)
      case Statusline => this.(statusline := colors)
    }
  }

  datatype VariantPalette = VariantPalette(palette1: Palette1, palette2: Palette2)

  /** `EverforestPalette`: one palette per variant. */
  datatype EverforestPalette = EverforestPalette(dark: VariantPalette, light: VariantPalette)
  {
    function Get(v: Variant): VariantPalette {
      match v
      case Dark => dark
      case Light => light
    }

    /** Replaces the palette of `v`; the other variant is untouched. */
    function With(v: Variant, vp: VariantPalette): (r: EverforestPalette)
      ensures r.Get(v) == vp
      ensures forall v' :: v' != v ==> r.Get(v') == Get(v')
    {
      match v
      case Dark => this.(dark := vp)
      case Light => this.(light := vp)
    }
  }

  /** The rows of one variant and contrast level. */
  function RowsAt(p: EverforestPalette, v: Variant, c: Contrast): seq<Row> {
    p.Get(v).palette1.Rows(c)
  }

  /** The colours of one variant and foreground group. */
  function ColorsAt(p: EverforestPalette, v: Variant, g: Group): seq<string> {
    p.Get(v).palette2.Colors(g)
  }

  /** `emptyVariantPalette`: no rows at any level, no colours in any group. */
  function EmptyVariantPalette(): (vp: VariantPalette)
    ensures forall c :: vp.palette1.Rows(c) == []
    ensures forall g :: vp.palette2.Colors(g) == []
  {
    VariantPalette(Palette1([], [], []), Palette2([], [], [], []))
  }

  /** The palette the scan starts from. */
  function EmptyPalette(): (p: EverforestPalette)
    ensures forall v, c :: RowsAt(p, v, c) == []
    ensures forall v, g :: ColorsAt(p, v, g) == []
  {
    EverforestPalette(EmptyVariantPalette(), EmptyVariantPalette())
  }

  /** Appends one row to one (variant, contrast) slot; every other slot is unchanged. */
  function AppendRow(p: EverforestPalette, v: Variant, c: Contrast, row: Row): (r: EverforestPalette)
    ensures forall v', c' :: RowsAt(r, v', c') == if v' == v && c' == c then RowsAt(p, v', c') + [row] else RowsAt(p, v', c')
    ensures forall v', g :: ColorsAt(r, v', g) == ColorsAt(p, v', g)
  {
    var vp := p.Get(v);
    p.With(v, vp.(palette1 := vp.palette1.WithRows(c, vp.palette1.Rows(c) + [row])))
  }

  /** Extends one (variant, group) slot by `colors`; every other slot is unchanged. */
  function ExtendGroup(p: EverforestPalette, v: Variant, g: Group, colors: seq<string>): (r: EverforestPalette)
    ensures forall v', c :: RowsAt(r, v', c) == RowsAt(p, v', c)
    ensures forall v', g' :: ColorsAt(r, v', g') == if v' == v && g' == g then ColorsAt(p, v', g') + colors else ColorsAt(p, v', g')
  {
    var vp := p.Get(v);
    p.With(v, vp.(palette2 := vp.palette2.WithColors(g, vp.palette2.Colors(g) + colors)))
  }

  /** Every colour anywhere in the palette is canonical `#HHHHHH`. */
  ghost predicate WellFormed(p: EverforestPalette) {
    && (forall v, c, i :: 0 <= i < |RowsAt(p, v, c)| ==> AllColors(RowsAt(p, v, c)[i]))
    && (forall v, g :: AllColors(ColorsAt(p, v, g)))
  }

  /** `q` keeps everything `p` holds, in the same order, possibly with more at the end of each slot. */
  ghost predicate Extends(p: EverforestPalette, q: EverforestPalette) {
    && (forall v, c :: RowsAt(p, v, c) <= RowsAt(q, v, c))
    && (forall v, g :: ColorsAt(p, v, g) <= ColorsAt(q, v, g))
  }

  lemma ExtendsReflexive(p: EverforestPalette)
    ensures Extends(p, p)
  {
  }

  lemma ExtendsTransitive(p: EverforestPalette, q: EverforestPalette, r: EverforestPalette)
    requires Extends(p, q) && Extends(q, r)
    ensures Extends(p, r)
  {
  }
}
