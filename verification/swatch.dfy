/**
 The swatch scanner of lib/palette.ts: `HEX_SWATCH_RE`, `normalizeHex` and
 `extractHexes`. A swatch marker is the ten characters `![#hhhhhh]` with six
 hexadecimal digits; every marker on a line yields one canonical colour
 `#HHHHHH`, left to right.
 */
module Swatch {
  import opened Text

  /** The opener `line.includes` looks for before extraction is attempted. */
  const Opener := "![#"

  /** `#` followed by exactly six characters from `0-9A-F`: the form of every colour in a parsed palette. */
  predicate IsColor(s: string) {
    |s| == 7 && s[0] == '#' && forall k :: 1 <= k < 7 ==> IsUpperHexDigit(s[k])
  }

  predicate AllColors(colors: seq<string>) {
    forall k :: 0 <= k < |colors| ==> IsColor(colors[k])
  }

  /** `normalizeHex`: prefix `#` and upper-case. Only the letter case of the digits changes. */
  function NormalizeHex(hex: string): (r: string)
    ensures |r| == |hex| + 1 && r[0] == '#'
    ensures Lower(r[1..]) == Lower(hex)
    ensures |hex| == 6 && AllHex(hex) ==> IsColor(r)
  {
    var r := "#" + Upper(hex);
    assert forall k :: 0 <= k < |hex| ==> r[1..][k] == UpperChar(hex[k]);
    forall k | 0 <= k < |hex| && IsHexDigit(hex[k]) {
      UpperHexDigit(hex[k]);
    }
    r
  }

  /** `HEX_SWATCH_RE` matches at the very start of `s`. */
  predicate StartsWithSwatch(s: string) {
    && |s| >= 10
    && s[0] == '!' && s[1] == '[' && s[2] == '#'
    && AllHex(s[3..9])
    && s[9] == ']'
  }

  /**
   `extractHexes`: the global regular-expression scan. At each position either a
   marker starts there (emit it and resume after it) or the scan moves on by one.
   The output is canonical and, since markers never overlap, holds at most one
   colour per ten characters.
   */
  function ExtractHexes(line: string): (r: seq<string>)
    ensures AllColors(r)
    ensures |r| <= |line| / 10
    decreases |line|
  {
    if |line| < 10 then []
    else if StartsWithSwatch(line) then [NormalizeHex(line[3..9])] + ExtractHexes(line[10..])
    else ExtractHexes(line[1..])
  }

  /**
   Reference definition: the colour of every position at which the pattern occurs,
   tried position by position without skipping anything.
   */
  ghost function EverySwatch(s: string): seq<string>
    decreases |s|
  {
    if |s| == 0 then []
    else (if StartsWithSwatch(s) then [NormalizeHex(s[3..9])] else []) + EverySwatch(s[1..])
  }

  lemma {:induction false} EverySwatchShort(s: string)
    requires |s| < 10
    ensures EverySwatch(s) == []
    decreases |s|
  {
    if |s| > 0 {
      EverySwatchShort(s[1..]);
    }
  }

  /** A stretch without `!` holds no marker start. */
  lemma {:induction false} EverySwatchSkip(s: string, n: nat)
    requires n <= |s|
    requires forall j :: 0 <= j < n ==> s[j] != '!'
    ensures EverySwatch(s) == EverySwatch(s[n..])
    decreases n
  {
    if n > 0 {
      assert s[1..][n - 1..] == s[n..];
      EverySwatchSkip(s[1..], n - 1);
    }
  }

  /**
   The scan finds every marker of the line, in order: no marker is hidden by the
   one before it, because a marker contains no `!` after its first character.
   */
  lemma {:induction false} ExtractHexesFindsEverySwatch(line: string)
    ensures ExtractHexes(line) == EverySwatch(line)
    decreases |line|
  {
    if |line| < 10 {
      EverySwatchShort(line);
    } else if StartsWithSwatch(line) {
      var tail := line[1..];
      assert forall j :: 0 <= j < 9 ==> tail[j] == line[j + 1];
      assert forall j :: 0 <= j < 6 ==> line[3..9][j] == tail[j + 2];
      EverySwatchSkip(tail, 9);
      assert tail[9..] == line[10..];
      ExtractHexesFindsEverySwatch(line[10..]);
    } else {
      ExtractHexesFindsEverySwatch(line[1..]);
    }
  }

  lemma ContainsTail(s: string, needle: string)
    requires |s| > 0 && Contains(s[1..], needle)
    ensures Contains(s, needle)
  {
    var i :| 0 <= i <= |s[1..]| - |needle| && OccursAt(s[1..], needle, i);
    assert s[i + 1..i + 1 + |needle|] == s[1..][i..i + |needle|];
    assert OccursAt(s, needle, i + 1);
  }

  /** A line without the opener `![#` yields no colour, so the source's `includes` test only saves work. */
  lemma {:induction false} NoOpenerNoHexes(line: string)
    ensures !Contains(line, Opener) ==> ExtractHexes(line) == []
    decreases |line|
  {
    if |line| < 10 {
    } else if StartsWithSwatch(line) {
      assert OccursAt(line, Opener, 0);
    } else {
      NoOpenerNoHexes(line[1..]);
      if Contains(line[1..], Opener) {
        ContainsTail(line, Opener);
      }
    }
  }

  /** One marker with any-case digits in front of `rest` contributes its canonical colour, then `rest` is scanned. */
  lemma ExtractLeadingSwatch(digits: string, rest: string)
    requires |digits| == 6 && AllHex(digits)
    ensures ExtractHexes("![#" + digits + "]" + rest) == [NormalizeHex(digits)] + ExtractHexes(rest)
  {
    var line := "![#" + digits + "]" + rest;
    assert line[3..9] == digits;
    assert line[10..] == rest;
    assert StartsWithSwatch(line);
  }

  /** Markup for a row of colours, one `![#HHHHHH]` marker per colour. */
  function SwatchMarkup(colors: seq<string>): string
  {
    if colors == [] then "" else "![" + colors[0] + "]" + SwatchMarkup(colors[1..])
  }

  lemma NormalizeCanonical(c: string)
    requires IsColor(c)
    ensures NormalizeHex(c[1..]) == c
  {
    var r := NormalizeHex(c[1..]);
    forall k | 1 <= k < 7
      ensures r[k] == c[k]
    {
      assert r[k] == UpperChar(c[k]);
    }
  }

  /** Round trip: scanning the markup of canonical colours gives back exactly those colours. */
  lemma {:induction false} ExtractHexesOfMarkup(colors: seq<string>)
    requires AllColors(colors)
    ensures ExtractHexes(SwatchMarkup(colors)) == colors
    decreases |colors|
  {
    if colors != [] {
      var c := colors[0];
      var digits := c[1..];
      assert forall k :: 0 <= k < 6 ==> digits[k] == c[k + 1];
      assert "![" + c + "]" == "![#" + digits + "]";
      ExtractLeadingSwatch(digits, SwatchMarkup(colors[1..]));
      assert "![" + c + "]" + SwatchMarkup(colors[1..]) == "![#" + digits + "]" + SwatchMarkup(colors[1..]);
      NormalizeCanonical(c);
      ExtractHexesOfMarkup(colors[1..]);
    }
  }
}
