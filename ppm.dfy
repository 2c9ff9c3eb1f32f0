/** The plain-PPM ("P3") image writer (src/ppm.rs). The writer builds the whole
    text in memory and then writes it to a file; the text is modelled, the file
    write is not. */
module Ppm {
  import opened Outcomes
  import opened Decimal

  /** A colour as the PPM image stores it: three integer channels. */
  datatype Rgb = Rgb(r: nat, g: nat, b: nat)

  /** `format!("{} {} {}\n", width, height, 255)` */
  function DimensionsLine(width: nat, height: nat): string {
    NatToString(width) + " " + NatToString(height) + " " + NatToString(255) + "\n"
  }

  /** `format!("{} {} {}\n", r, g, b)` */
  function PixelLine(c: Rgb): string {
    NatToString(c.r) + " " + NatToString(c.g) + " " + NatToString(c.b) + "\n"
  }

  /** The lines of the items of xs, one after the other, in order. */
  function Lines<T>(xs: seq<T>, line: T -> string): string {
    if xs == [] then "" else line(xs[0]) + Lines(xs[1..], line)
  }

  /** One line per colour, in order. */
  function PixelLines(cs: seq<Rgb>): string {
    Lines(cs, PixelLine)
  }

  /** The text `write` produces: the magic line, the dimensions line, then the
      first width * height colours. */
  function PlainPpm(width: nat, height: nat, colors: seq<Rgb>): string
    requires |colors| >= width * height
  {
    "P3\n" + DimensionsLine(width, height) + PixelLines(colors[..width * height])
  }

  class PpmImage {
    const width: nat
    const height: nat
    var colors: array<Rgb>

    /** `PPMImage::new`: width * height black colours. */
    constructor (width: nat, height: nat)
      ensures this.width == width && this.height == height && fresh(colors)
      ensures colors.Length == width * height
      ensures forall i :: 0 <= i < colors.Length ==> colors[i] == Rgb(0, 0, 0)
    {
      this.width := width;
      this.height := height;
      colors := new Rgb[width * height](_ => Rgb(0, 0, 0));
    }

    /** The text that `write` sends to the file, built line by line. Indexing
        past the end of `colors` would panic, so the buffer must hold at least
        width * height colours. */
    method Write() returns (text: string)
      requires colors.Length >= width * height
      ensures text == PlainPpm(width, height, colors[..])
    {
      var n := width * height;
      ghost var all := colors[..n];
      text := "P3\n" + DimensionsLine(width, height);
      ghost var head := text;
      for i := 0 to n
        invariant text == head + PixelLines(all[..i])
      {
        var c := PixelLine(colors[i]);
        assert c == PixelLine(all[i]);
        PixelLinesSnoc(all, i);
        text := text + c;
      }
      assert all[..n] == all;
    }

    /** `set(x, y, c)`: store c at the row-major index x + y * width; nothing
        else changes. */
    method Set(x: nat, y: nat, c: Rgb)
      requires x + y * width < colors.Length
      modifies colors
      ensures colors[..] == old(colors[..])[x + y * width := c]
    {
      colors[x + y * width] := c;
    }
  }

  /** The lines of two runs are the lines of the first run followed by those
      of the second. */
  lemma {:induction false} LinesAppend<T>(xs: seq<T>, ys: seq<T>, line: T -> string)
    ensures Lines(xs + ys, line) == Lines(xs, line) + Lines(ys, line)
  {
    if xs != [] {
      assert (xs + ys)[1..] == xs[1..] + ys;
      LinesAppend(xs[1..], ys, line);
    } else {
      assert xs + ys == ys;
    }
  }

  /** Line i is the line of item i: the lines before it are those of the
      items before it, and the lines after it those of the items after. */
  lemma LinesAt<T>(xs: seq<T>, i: nat, line: T -> string)
    requires i < |xs|
    ensures Lines(xs, line) == Lines(xs[..i], line) + line(xs[i]) + Lines(xs[i + 1..], line)
  {
    var before, rest, after := xs[..i], xs[i..], xs[i + 1..];
    assert xs == before + rest;
    LinesAppend(before, rest, line);
    assert Lines(rest, line) == line(xs[i]) + Lines(after, line) by {
      assert rest[0] == xs[i] && rest[1..] == after;
    }
  }

  /** Writing one more colour appends its line to the body. */
  lemma PixelLinesSnoc(cs: seq<Rgb>, i: nat)
    requires i < |cs|
    ensures PixelLines(cs[..i + 1]) == PixelLines(cs[..i]) + PixelLine(cs[i])
  {
    var xs := cs[..i + 1];
    LinesAt(xs, i, PixelLine);
    assert xs[..i] == cs[..i] && xs[i] == cs[i];
    assert xs[i + 1..] == [];
  }

  /** In the body of the text, line i is "r g b\n" for colour i. */
  lemma PixelLinesAt(cs: seq<Rgb>, i: nat)
    requires i < |cs|
    ensures PixelLines(cs) == PixelLines(cs[..i]) + PixelLine(cs[i]) + PixelLines(cs[i + 1..])
  {
    LinesAt(cs, i, PixelLine);
  }

  /** The text opens with the magic line "P3\n", followed by the line
      "<width> <height> 255\n". */
  lemma PlainPpmHeader(width: nat, height: nat, colors: seq<Rgb>)
    requires |colors| >= width * height
    ensures PlainPpm(width, height, colors)[..3] == "P3\n"
    ensures var dims := NatToString(width) + " " + NatToString(height) + " 255\n";
      PlainPpm(width, height, colors)[3..3 + |dims|] == dims
  {
    var dims := NatToString(width) + " " + NatToString(height) + " 255\n";
    assert DimensionsLine(width, height) == dims by {
      MaxvalNumeral();
    }
    Slices("P3\n", dims, PixelLines(colors[..width * height]));
  }

  /** The maximum colour value is written as "255". */
  lemma MaxvalNumeral()
    ensures NatToString(255) == "255"
  {
    assert NatToString(255) == NatToString(25) + ['5'];
    assert NatToString(25) == NatToString(2) + ['5'];
  }

  /** Where the parts of a concatenation of three sit in it. */
  lemma Slices<T>(a: seq<T>, b: seq<T>, c: seq<T>)
    ensures (a + b + c)[..|a|] == a
    ensures (a + b + c)[|a|..|a| + |b|] == b
    ensures (a + b + c)[|a|..] == b + c
  {
  }

  /** Distinct pixel positions of a row-major image have distinct indices, so
      `set` writes the one entry of its pixel. */
  lemma RowMajorIndexInjective(width: nat, x: nat, y: nat, x': nat, y': nat)
    requires x < width && x' < width
    requires x + y * width == x' + y' * width
    ensures x == x' && y == y'
  {
    if y < y' {
      RowStep(width, y, y');
    } else if y > y' {
      RowStep(width, y', y);
    }
  }

  /** A later row starts at least one full row further on. */
  lemma RowStep(width: nat, y: nat, y': nat)
    requires y < y'
    ensures y * width + width <= y' * width
  {
    var d := y' - y;
    assert y' * width == y * width + d * width;
    assert d * width >= width by {
      assert d * width == width + (d - 1) * width;
    }
  }

  // A reader of exactly the text the writer produces. It is not part of the
  // source; it serves to show that the text determines the image.

  /** A numeral followed by the separator `sep`. */
  function ParseField(s: string, sep: char): Option<(nat, string)> {
    match ParseNat(s)
    case None => None
    case Some((n, rest)) => if rest != [] && rest[0] == sep then Some((n, rest[1..])) else None
  }

  /** One line "r g b\n". */
  function ParseLine(s: string): Option<(Rgb, string)> {
    match ParseField(s, ' ')
    case None => None
    case Some((r, s1)) =>
      match ParseField(s1, ' ')
      case None => None
      case Some((g, s2)) =>
        match ParseField(s2, '\n')
        case None => None
        case Some((b, s3)) => Some((Rgb(r, g, b), s3))
  }

  /** Exactly n colour lines and nothing after them. */
  function ParseLines(s: string, n: nat): Option<seq<Rgb>>
    decreases n
  {
    if n == 0 then
      if s == [] then Some([]) else None
    else
      match ParseLine(s)
      case None => None
      case Some((c, rest)) =>
        match ParseLines(rest, n - 1)
        case None => None
        case Some(cs) => Some([c] + cs)
  }

  /** A whole plain-PPM text: magic, width, height, a maximum value of 255,
      then width * height colour lines. */
  function ParsePlainPpm(text: string): Option<(nat, nat, seq<Rgb>)> {
    if |text| < 3 || text[..3] != "P3\n" then None
    else
      match ParseField(text[3..], ' ')
      case None => None
      case Some((w, s1)) =>
        match ParseField(s1, ' ')
        case None => None
        case Some((h, s2)) =>
          match ParseField(s2, '\n')
          case None => None
          case Some((maxval, s3)) =>
            if maxval != 255 then None
            else
              match ParseLines(s3, w * h)
              case None => None
              case Some(cs) => Some((w, h, cs))
  }

  lemma ParseFieldOf(n: nat, sep: char, rest: string)
    requires !IsDigit(sep)
    ensures ParseField(NatToString(n) + [sep] + rest, sep) == Some((n, rest))
  {
    assert NatToString(n) + [sep] + rest == NatToString(n) + ([sep] + rest);
    ParseNatOfNatToString(n, [sep] + rest);
  }

  /** How ParseLine reads a line whose three fields it has read. */
  lemma ParseLineSteps(s: string, r: nat, s1: string, g: nat, s2: string, b: nat, s3: string)
    requires ParseField(s, ' ') == Some((r, s1))
    requires ParseField(s1, ' ') == Some((g, s2))
    requires ParseField(s2, '\n') == Some((b, s3))
    ensures ParseLine(s) == Some((Rgb(r, g, b), s3))
  {
  }

  lemma ParseLineOf(c: Rgb, rest: string)
    ensures ParseLine(PixelLine(c) + rest) == Some((c, rest))
  {
    var sr, sg, sb := NatToString(c.r), NatToString(c.g), NatToString(c.b);
    var s2 := sb + ['\n'] + rest;
    var s1 := sg + [' '] + s2;
    var s := sr + [' '] + s1;
    assert PixelLine(c) + rest == s;
    ParseFieldOf(c.r, ' ', s1);
    ParseFieldOf(c.g, ' ', s2);
    ParseFieldOf(c.b, '\n', rest);
    ParseLineSteps(s, c.r, s1, c.g, s2, c.b, rest);
  }

  /** How ParseLines reads a first line and then the others. */
  lemma ParseLinesStep(s: string, n: nat, c: Rgb, rest: string, cs: seq<Rgb>)
    requires n > 0
    requires ParseLine(s) == Some((c, rest))
    requires ParseLines(rest, n - 1) == Some(cs)
    ensures ParseLines(s, n) == Some([c] + cs)
  {
  }

  lemma {:induction false} ParseLinesOf(cs: seq<Rgb>)
    ensures ParseLines(PixelLines(cs), |cs|) == Some(cs)
  {
    if cs != [] {
      var line, rest := PixelLine(cs[0]), PixelLines(cs[1..]);
      assert PixelLines(cs) == line + rest by {
        LinesAt(cs, 0, PixelLine);
        assert cs[..0] == [];
      }
      assert ParseLine(line + rest) == Some((cs[0], rest)) by {
        ParseLineOf(cs[0], rest);
      }
      assert ParseLines(rest, |cs| - 1) == Some(cs[1..]) by {
        ParseLinesOf(cs[1..]);
      }
      ParseLinesStep(line + rest, |cs|, cs[0], rest, cs[1..]);
      assert [cs[0]] + cs[1..] == cs;
    }
  }

  /** How ParsePlainPpm reads a text whose header fields and body it has read. */
  lemma ParsePlainPpmSteps(text: string, w: nat, s1: string, h: nat, s2: string, s3: string, cs: seq<Rgb>)
    requires |text| >= 3 && text[..3] == "P3\n"
    requires ParseField(text[3..], ' ') == Some((w, s1))
    requires ParseField(s1, ' ') == Some((h, s2))
    requires ParseField(s2, '\n') == Some((255, s3))
    requires ParseLines(s3, w * h) == Some(cs)
    ensures ParsePlainPpm(text) == Some((w, h, cs))
  {
  }

  /** The written text reads back as the width, the height and exactly the
      first width * height colours, in index order: nothing is skipped,
      repeated or reordered. */
  lemma PlainPpmRoundTrip(width: nat, height: nat, colors: seq<Rgb>)
    requires |colors| >= width * height
    ensures ParsePlainPpm(PlainPpm(width, height, colors)) == Some((width, height, colors[..width * height]))
  {
    var cs := colors[..width * height];
    var body := PixelLines(cs);
    var s2 := NatToString(255) + ['\n'] + body;
    var s1 := NatToString(height) + [' '] + s2;
    var rest := NatToString(width) + [' '] + s1;
    var text := PlainPpm(width, height, colors);
    assert text[..3] == "P3\n" && text[3..] == rest by {
      assert DimensionsLine(width, height) + body == rest;
      Slices("P3\n", DimensionsLine(width, height), body);
    }
    ParseFieldOf(width, ' ', s1);
    ParseFieldOf(height, ' ', s2);
    ParseFieldOf(255, '\n', body);
    ParseLinesOf(cs);
    ParsePlainPpmSteps(text, width, s1, height, s2, body, cs);
  }
}
