/**
 * The paint-bucket tool: a scanline flood fill over the canvas's RGBA bytes,
 * with exact colour matching. Pixel (x, y) of a `width`-wide image occupies
 * bytes 4 * (y * width + x) .. 4 * (y * width + x) + 3, in the order red,
 * green, blue, alpha. The image is also read as a grid of colours, row by
 * row, and the proofs about the fill are stated over that grid.
 */
module FloodFill {
  import opened Bytes

  datatype Rgba = Rgba(r: byte, g: byte, b: byte, a: byte)

  datatype Point = Point(x: int, y: int)

  // ---------------------------------------------------------------------------
  // Bytes and pixels

  lemma IndexBound(width: nat, height: nat, x: int, y: int)
    requires 0 <= x < width && 0 <= y < height
    ensures 0 <= y * width + x < width * height
    ensures 4 * (y * width + x) + 3 < width * height * 4
  {
    MulMono(y, height - 1, width);
    assert (height - 1) * width == height * width - width;
  }

  lemma MulMono(a: int, b: int, c: nat)
    requires 0 <= a <= b
    ensures a * c <= b * c
  {
  }

  /** Distinct pixels of one image have distinct indices. */
  lemma IndexInjective(width: nat, x1: int, y1: int, x2: int, y2: int)
    requires 0 <= x1 < width && 0 <= x2 < width && 0 <= y1 && 0 <= y2
    requires y1 * width + x1 == y2 * width + x2
    ensures x1 == x2 && y1 == y2
  {
    if y1 < y2 {
      MulMono(y1 + 1, y2, width);
    } else if y2 < y1 {
      MulMono(y2 + 1, y1, width);
    }
  }

  function PixelAt(d: seq<byte>, p: nat): Rgba
    requires 4 * p + 3 < |d|
  {
    Rgba(d[4 * p], d[4 * p + 1], d[4 * p + 2], d[4 * p + 3])
  }

  /** The bytes read as rows of pixels. */
  ghost function Grid(d: seq<byte>, width: nat, height: nat): (g: seq<seq<Rgba>>)
    requires |d| == width * height * 4
    ensures |g| == height && forall y :: 0 <= y < height ==> |g[y]| == width
  {
    seq(height, y requires 0 <= y < height =>
      seq(width, x requires 0 <= x < width =>
        IndexBound(width, height, x, y); PixelAt(d, y * width + x)))
  }

  /** Writing one pixel's four bytes changes that one cell of the grid. */
  lemma GridAfterPaint(d: seq<byte>, width: nat, height: nat, x: int, y: int, c: Rgba)
    requires |d| == width * height * 4 && 0 <= x < width && 0 <= y < height
    ensures 4 * (y * width + x) + 3 < |d|
    ensures var i := 4 * (y * width + x);
            var d' := d[i := c.r][i + 1 := c.g][i + 2 := c.b][i + 3 := c.a];
            Grid(d', width, height) == Grid(d, width, height)[y := Grid(d, width, height)[y][x := c]]
  {
    IndexBound(width, height, x, y);
    var i := 4 * (y * width + x);
    var d' := d[i := c.r][i + 1 := c.g][i + 2 := c.b][i + 3 := c.a];
    var g, g' := Grid(d, width, height), Grid(d', width, height);
    var h := g[y := g[y][x := c]];
    forall y' | 0 <= y' < height ensures g'[y'] == h[y'] {
      forall x' | 0 <= x' < width ensures g'[y'][x'] == h[y'][x'] {
        IndexBound(width, height, x', y');
        if x' != x || y' != y {
          if y' * width + x' == y * width + x {
            IndexInjective(width, x', y', x, y);
          }
        }
      }
    }
  }

  /** Equal grids come from equal bytes. */
  lemma GridInjective(d: seq<byte>, e: seq<byte>, width: nat, height: nat)
    requires |d| == width * height * 4 && |e| == width * height * 4
    requires Grid(d, width, height) == Grid(e, width, height)
    ensures d == e
  {
    forall i | 0 <= i < |d| ensures d[i] == e[i] {
      var x, y := PixelOf(width, height, i);
      assert Grid(d, width, height)[y][x] == Grid(e, width, height)[y][x];
    }
  }

  /** The pixel whose bytes include byte `i`. */
  lemma PixelOf(width: nat, height: nat, i: int) returns (x: int, y: int)
    requires 0 <= i < width * height * 4
    ensures 0 <= x < width && 0 <= y < height
    ensures 4 * (y * width + x) <= i <= 4 * (y * width + x) + 3
  {
    var p := i / 4;
    assert 4 * p <= i <= 4 * p + 3;
    assert p < width * height;
    y, x := p / width, p % width;
    assert p == y * width + x;
    if y >= height {
      MulMono(height, y, width);
    }
  }

  // ---------------------------------------------------------------------------
  // Fill colours

  /** The value of a hexadecimal digit, if it is one. */
  function HexDigit(c: char): (v: int)
    ensures -1 <= v < 16
  {
    if '0' <= c <= '9' then c as int - '0' as int
    else if 'a' <= c <= 'f' then c as int - 'a' as int + 10
    else if 'A' <= c <= 'F' then c as int - 'A' as int + 10
    else -1
  }

  /** The longest prefix of hexadecimal digits. */
  function DigitPrefix(s: string): (r: string)
    ensures r <= s
    ensures forall i :: 0 <= i < |r| ==> HexDigit(r[i]) >= 0
    ensures |r| < |s| ==> HexDigit(s[|r|]) < 0
  {
    if s == [] || HexDigit(s[0]) < 0 then [] else [s[0]] + DigitPrefix(s[1..])
  }

  /** The number a string of hexadecimal digits denotes. */
  function DigitsValue(s: string): (v: nat)
    requires forall i :: 0 <= i < |s| ==> HexDigit(s[i]) >= 0
  {
    if s == [] then 0 else DigitsValue(s[..|s| - 1]) * 16 + HexDigit(s[|s| - 1])
  }

  /** What `parseInt` yields: a number, or NaN. */
  datatype Parsed = NaN | Num(value: int)

  /**
   * `parseInt(s, 16)` for a string with no leading white space: an optional
   * sign, an optional `0x`, then the longest run of hexadecimal digits; no
   * digit at all gives NaN.
   */
  function ParseHex(s: string): Parsed {
    var signed := |s| > 0 && (s[0] == '-' || s[0] == '+');
    var rest := if signed then s[1..] else s;
    var body := if |rest| >= 2 && rest[0] == '0' && (rest[1] == 'x' || rest[1] == 'X') then rest[2..] else rest;
    var digits := DigitPrefix(body);
    if digits == [] then NaN
    else
      var v: int := DigitsValue(digits);
      Num(if signed && s[0] == '-' then -v else v)
  }

  /** ToInt32 read back as its 32 bits: NaN is 0, anything else is taken modulo 2^32. */
  function Bits32(v: Parsed): (w: int)
    ensures 0 <= w < 0x1_0000_0000
  {
    match v
    case NaN => 0
    case Num(n) => n % 0x1_0000_0000
  }

  /**
   * `hexToRgba`: the digits after the first character as one number, whose
   * bits 16..23, 8..15 and 0..7 are red, green and blue; alpha is opaque.
   */
  function HexToRgba(hex: string): (c: Rgba)
    ensures c.a == 255
  {
    var w := Bits32(ParseHex(if |hex| >= 1 then hex[1..] else ""));
    Rgba(((w / 0x1_0000) % 256) as byte, ((w / 0x100) % 256) as byte, (w % 256) as byte, 255)
  }

  /** The two lower-case digits of a byte. */
  function HexPair(b: byte): (s: string)
    ensures |s| == 2 && HexDigit(s[0]) == b as int / 16 && HexDigit(s[1]) == b as int % 16
  {
    var digits := "0123456789abcdef";
    [digits[b / 16], digits[b % 16]]
  }

  lemma {:induction false} DigitsValueAppend(s: string, t: string)
    requires forall i :: 0 <= i < |s| ==> HexDigit(s[i]) >= 0
    requires forall i :: 0 <= i < |t| ==> HexDigit(t[i]) >= 0
    ensures forall i :: 0 <= i < |s + t| ==> HexDigit((s + t)[i]) >= 0
    ensures DigitsValue(s + t) == DigitsValue(s) * Pow16(|t|) + DigitsValue(t)
    decreases |t|
  {
    if t != [] {
      var t' := t[..|t| - 1];
      assert (s + t)[..|s + t| - 1] == s + t';
      assert (s + t)[|s + t| - 1] == t[|t| - 1];
      DigitsValueAppend(s, t');
      Distribute(DigitsValue(s), Pow16(|t'|), DigitsValue(t'), HexDigit(t[|t| - 1]));
    } else {
      assert s + t == s;
    }
  }

  lemma Distribute(a: int, p: int, b: int, d: int)
    ensures (a * p + b) * 16 + d == a * (16 * p) + (b * 16 + d)
  {
    calc {
      (a * p + b) * 16 + d;
      (a * p) * 16 + b * 16 + d;
      a * (p * 16) + b * 16 + d;
    }
  }

  function Pow16(n: nat): nat {
    if n == 0 then 1 else 16 * Pow16(n - 1)
  }

  /** A `#rrggbb` colour as the colour picker writes it. */
  function HexColor(c: Rgba): string {
    "#" + HexPair(c.r) + HexPair(c.g) + HexPair(c.b)
  }

  /** Reading back a `#rrggbb` colour gives its channels, fully opaque. */
  lemma HexRoundTrip(c: Rgba)
    ensures HexToRgba(HexColor(c)) == c.(a := 255)
  {
    var digits := HexPair(c.r) + HexPair(c.g) + HexPair(c.b);
    assert HexColor(c)[1..] == digits;
    var w := ColorDigitsValue(c);
    ParseDigits(digits);
    ChannelsOf(c.r as int, c.g as int, c.b as int, w);
    SmallBits(w);
    assert Bits32(ParseHex(HexColor(c)[1..])) == w;
    assert HexToRgba(HexColor(c)) == Rgba(((w / 0x1_0000) % 256) as byte, ((w / 0x100) % 256) as byte, (w % 256) as byte, 255);
  }

  lemma SmallBits(w: int)
    requires 0 <= w < 0x1_0000_0000
    ensures Bits32(Num(w)) == w
  {
  }

  /** A plain run of digits parses to its value. */
  lemma ParseDigits(digits: string)
    requires |digits| > 0 && forall i :: 0 <= i < |digits| ==> HexDigit(digits[i]) >= 0
    ensures ParseHex(digits) == Num(DigitsValue(digits))
  {
    assert HexDigit('-') < 0 && HexDigit('+') < 0 && HexDigit('x') < 0 && HexDigit('X') < 0;
    assert HexDigit(digits[0]) >= 0;
    assert digits[0] != '-' && digits[0] != '+';
    assert |digits| >= 2 ==> HexDigit(digits[1]) >= 0 && digits[1] != 'x' && digits[1] != 'X';
    DigitPrefixAll(digits);
    assert DigitPrefix(digits) == digits;
  }

  lemma ColorDigitsValue(c: Rgba) returns (w: nat)
    ensures var digits := HexPair(c.r) + HexPair(c.g) + HexPair(c.b);
            && |digits| == 6
            && (forall i :: 0 <= i < |digits| ==> HexDigit(digits[i]) >= 0)
            && w == DigitsValue(digits)
            && w == c.r as int * 65536 + c.g as int * 256 + c.b as int
  {
    var r, g, b := HexPair(c.r), HexPair(c.g), HexPair(c.b);
    PairValue(c.r);
    PairValue(c.g);
    PairValue(c.b);
    assert Pow16(2) == 256;
    DigitsValueAppend(r, g);
    assert DigitsValue(r + g) == c.r as int * 256 + c.g as int;
    DigitsValueAppend(r + g, b);
    assert DigitsValue(r + g + b) == (c.r as int * 256 + c.g as int) * 256 + c.b as int;
    w := DigitsValue(r + g + b);
  }

  lemma PairValue(b: byte)
    ensures DigitsValue(HexPair(b)) == b as int
  {
    var s := HexPair(b);
    assert s[..1][..0] == [];
    assert DigitsValue(s[..1]) == HexDigit(s[0]);
    assert DigitsValue(s) == DigitsValue(s[..1]) * 16 + HexDigit(s[1]);
  }

  lemma DigitPrefixAll(s: string)
    requires forall i :: 0 <= i < |s| ==> HexDigit(s[i]) >= 0
    ensures DigitPrefix(s) == s
  {
    if s != [] {
      DigitPrefixAll(s[1..]);
    }
  }

  lemma ChannelsOf(r: int, g: int, b: int, w: int)
    requires 0 <= r < 256 && 0 <= g < 256 && 0 <= b < 256
    requires w == r * 65536 + g * 256 + b
    ensures w < 0x1_0000_0000 && (w / 0x1_0000) % 256 == r && (w / 0x100) % 256 == g && w % 256 == b
  {
    assert w == (r * 256 + g) * 256 + b;
    assert w / 256 == r * 256 + g;
    assert w == r * 65536 + (g * 256 + b);
    assert w / 65536 == r;
  }

  // ---------------------------------------------------------------------------
  // The fill, on the grid

  function Min(a: int, b: int): int { if a <= b then a else b }
  function Max(a: int, b: int): int { if a <= b then b else a }

  predicate InBounds(width: int, height: int, x: int, y: int) {
    0 <= x < width && 0 <= y < height
  }

  /** A grid of `height` rows of `width` pixels. */
  ghost predicate Rect(g: seq<seq<Rgba>>, width: nat, height: nat) {
    |g| == height && forall y :: 0 <= y < height ==> |g[y]| == width
  }

  /** Pixel (x, y) exists and has colour `c`. */
  ghost predicate At(g: seq<seq<Rgba>>, x: int, y: int, c: Rgba) {
    0 <= y < |g| && 0 <= x < |g[y]| && g[y][x] == c
  }

  /** The pixel was of the target colour and now has the fill colour. */
  ghost predicate Filled(orig: seq<seq<Rgba>>, g: seq<seq<Rgba>>, x: int, y: int, t: Rgba, f: Rgba) {
    At(orig, x, y, t) && At(g, x, y, f)
  }

  /** Every pixel still holds its first colour, or held the target and now holds the fill. */
  ghost predicate Sound(orig: seq<seq<Rgba>>, g: seq<seq<Rgba>>, width: nat, height: nat, t: Rgba, f: Rgba) {
    Rect(orig, width, height) && Rect(g, width, height) &&
    forall y, x :: 0 <= y < height && 0 <= x < width ==> g[y][x] == orig[y][x] || (orig[y][x] == t && g[y][x] == f)
  }

  /** Row `y` holds colour `t` from column `a` through column `b`. */
  ghost predicate Run(g: seq<seq<Rgba>>, y: int, a: int, b: int, t: Rgba) {
    0 <= y < |g| && 0 <= a && b < |g[y]| && forall i :: a <= i <= b ==> g[y][i] == t
  }

  /**
   * A scan started at `e` reaches `n`: they share a row and the pixels from
   * one to the other, both included, have the target colour.
   */
  ghost predicate Covers(g: seq<seq<Rgba>>, e: Point, n: Point, t: Rgba) {
    e.y == n.y && Run(g, n.y, Min(e.x, n.x), Max(e.x, n.x), t)
  }

  ghost predicate Covered(g: seq<seq<Rgba>>, seeds: seq<Point>, n: Point, t: Rgba) {
    exists i :: 0 <= i < |seeds| && Covers(g, seeds[i], n, t)
  }

  /** The fill has to reach `n`: it is the start, or it touches a filled pixel. */
  ghost predicate Needed(orig: seq<seq<Rgba>>, g: seq<seq<Rgba>>, start: Point, n: Point, t: Rgba, f: Rgba) {
    || n == start
    || Filled(orig, g, n.x - 1, n.y, t, f)
    || Filled(orig, g, n.x + 1, n.y, t, f)
    || Filled(orig, g, n.x, n.y - 1, t, f)
    || Filled(orig, g, n.x, n.y + 1, t, f)
  }

  /** A target pixel the fill has to reach is reachable from one of the seeds. */
  ghost predicate Owed(orig: seq<seq<Rgba>>, g: seq<seq<Rgba>>, seeds: seq<Point>, start: Point, t: Rgba, f: Rgba, x: int, y: int) {
    At(g, x, y, t) && Needed(orig, g, start, Point(x, y), t, f) ==> Covered(g, seeds, Point(x, y), t)
  }

  ghost predicate AllOwed(orig: seq<seq<Rgba>>, g: seq<seq<Rgba>>, seeds: seq<Point>, start: Point, t: Rgba, f: Rgba) {
    forall x, y :: Owed(orig, g, seeds, start, t, f, x, y)
  }

  ghost predicate SeedsInBounds(seeds: seq<Point>, width: nat, height: nat) {
    forall i :: 0 <= i < |seeds| ==> InBounds(width, height, seeds[i].x, seeds[i].y)
  }

  /** What holds between two scans of the stack: `stack` holds the seeds still to scan. */
  ghost predicate Between(orig: seq<seq<Rgba>>, g: seq<seq<Rgba>>, width: nat, height: nat,
                          stack: seq<Point>, start: Point, t: Rgba, f: Rgba)
  {
    && Sound(orig, g, width, height, t, f)
    && t != f
    && InBounds(width, height, start.x, start.y) && orig[start.y][start.x] == t
    && SeedsInBounds(stack, width, height)
    && AllOwed(orig, g, stack, start, t, f)
  }

  /**
   * What holds while row `y` is being filled from column `left`, now at
   * column `x`: the scan position works as one more seed, the pixels behind
   * it are filled, and a set span flag means the pixel above (below) the last
   * filled one has the target colour.
   */
  ghost predicate Scanning(orig: seq<seq<Rgba>>, g: seq<seq<Rgba>>, width: nat, height: nat,
                           stack: seq<Point>, start: Point, t: Rgba, f: Rgba,
                           x: int, y: int, left: int, spanAbove: bool, spanBelow: bool)
  {
    && Sound(orig, g, width, height, t, f)
    && t != f
    && InBounds(width, height, start.x, start.y) && orig[start.y][start.x] == t
    && SeedsInBounds(stack, width, height)
    && 0 <= y < height && 0 <= left <= x <= width
    && (x == 0 || g[y][x - 1] != t)
    && (forall i :: left <= i < x ==> Filled(orig, g, i, y, t, f))
    && (spanAbove ==> 0 < y && left < x && g[y - 1][x - 1] == t)
    && (spanBelow ==> y < height - 1 && left < x && g[y + 1][x - 1] == t)
    && AllOwed(orig, g, stack + [Point(x, y)], start, t, f)
  }

  // ---------------------------------------------------------------------------
  // How the scan keeps these

  lemma CoveredExtend(g: seq<seq<Rgba>>, seeds: seq<Point>, more: seq<Point>, n: Point, t: Rgba)
    requires Covered(g, seeds, n, t)
    ensures Covered(g, seeds + more, n, t)
  {
    var i :| 0 <= i < |seeds| && Covers(g, seeds[i], n, t);
    assert (seeds + more)[i] == seeds[i];
  }

  lemma CoveredBy(g: seq<seq<Rgba>>, seeds: seq<Point>, i: int, n: Point, t: Rgba)
    requires 0 <= i < |seeds| && Covers(g, seeds[i], n, t)
    ensures Covered(g, seeds, n, t)
  {
  }

  /** A seed whose scan cannot start covers nothing and can be dropped. */
  lemma CoveredDrop(g: seq<seq<Rgba>>, seeds: seq<Point>, e: Point, n: Point, t: Rgba)
    requires Covered(g, seeds + [e], n, t)
    requires !At(g, e.x, e.y, t)
    ensures Covered(g, seeds, n, t)
  {
    var i :| 0 <= i < |seeds + [e]| && Covers(g, (seeds + [e])[i], n, t);
    SeedOfCover(g, e, n, t);
    assert (seeds + [e])[|seeds|] == e;
    assert i < |seeds|;
    assert (seeds + [e])[i] == seeds[i];
  }

  /** A seed covers something only when its own pixel has the target colour. */
  lemma SeedOfCover(g: seq<seq<Rgba>>, e: Point, n: Point, t: Rgba)
    ensures Covers(g, e, n, t) ==> At(g, e.x, e.y, t)
  {
  }

  /** The target pixel next to a covered one in the same row is covered by the same seed. */
  lemma CoversNext(g: seq<seq<Rgba>>, e: Point, n: Point, t: Rgba)
    requires Covers(g, e, n, t) && At(g, n.x + 1, n.y, t)
    ensures Covers(g, e, Point(n.x + 1, n.y), t)
  {
  }

  lemma StartBetween(orig: seq<seq<Rgba>>, width: nat, height: nat, start: Point, t: Rgba, f: Rgba)
    requires Rect(orig, width, height) && InBounds(width, height, start.x, start.y)
    requires orig[start.y][start.x] == t && t != f
    ensures Between(orig, orig, width, height, [start], start, t, f)
  {
    forall x, y ensures Owed(orig, orig, [start], start, t, f, x, y) {
      if At(orig, x, y, t) && Needed(orig, orig, start, Point(x, y), t, f) {
        assert Point(x, y) == start;
        CoveredBy(orig, [start], 0, start, t);
      }
    }
  }

  /** When the scan stops, its position covers nothing and only the stack is left. */
  lemma EndScan(orig: seq<seq<Rgba>>, g: seq<seq<Rgba>>, width: nat, height: nat,
                stack: seq<Point>, start: Point, t: Rgba, f: Rgba,
                x: int, y: int, left: int, spanAbove: bool, spanBelow: bool)
    requires Scanning(orig, g, width, height, stack, start, t, f, x, y, left, spanAbove, spanBelow)
    requires x == width || g[y][x] != t
    ensures Between(orig, g, width, height, stack, start, t, f)
  {
    forall x', y' ensures Owed(orig, g, stack, start, t, f, x', y') {
      if At(g, x', y', t) && Needed(orig, g, start, Point(x', y'), t, f) {
        assert Owed(orig, g, stack + [Point(x, y)], start, t, f, x', y');
        CoveredDrop(g, stack, Point(x, y), Point(x', y'), t);
      }
    }
  }

  /**
   * Popping seed `e` and moving left to the first column of its target run:
   * what `e` covered, the scan position now covers.
   */
  lemma StartScan(orig: seq<seq<Rgba>>, g: seq<seq<Rgba>>, width: nat, height: nat,
                  stack: seq<Point>, e: Point, start: Point, t: Rgba, f: Rgba, left: int)
    requires Between(orig, g, width, height, stack + [e], start, t, f)
    requires InBounds(width, height, e.x, e.y)
    requires 0 <= left <= e.x
    requires forall i :: left <= i < e.x ==> g[e.y][i] == t
    requires left == 0 || g[e.y][left - 1] != t
    ensures Scanning(orig, g, width, height, stack, start, t, f, left, e.y, left, false, false)
  {
    assert SeedsInBounds(stack, width, height) by {
      forall i | 0 <= i < |stack| ensures InBounds(width, height, stack[i].x, stack[i].y) {
        assert (stack + [e])[i] == stack[i];
      }
    }
    var c := Point(left, e.y);
    forall x', y' ensures Owed(orig, g, stack + [c], start, t, f, x', y') {
      var n := Point(x', y');
      if At(g, x', y', t) && Needed(orig, g, start, n, t, f) {
        assert Owed(orig, g, stack + [e], start, t, f, x', y');
        var i :| 0 <= i < |stack + [e]| && Covers(g, (stack + [e])[i], n, t);
        if i < |stack| {
          assert (stack + [e])[i] == stack[i];
          CoveredBy(g, stack + [c], i, n, t);
        } else {
          assert Covers(g, e, n, t);
          assert g[e.y][e.x] == t;
          assert Covers(g, c, n, t);
          CoveredBy(g, stack + [c], |stack|, n, t);
        }
      }
    }
  }

  /** The stack after filling pixel (x, y): the seeds the span flags call for, above first. */
  function Pushed(stack: seq<Point>, x: int, y: int, above: bool, spanAbove: bool, below: bool, spanBelow: bool): seq<Point> {
    stack + (if above && !spanAbove then [Point(x, y - 1)] else []) + (if below && !spanBelow then [Point(x, y + 1)] else [])
  }

  /** Painting one pixel leaves every other pixel's colour as it was. */
  ghost function Painted(g: seq<seq<Rgba>>, x: int, y: int, f: Rgba): seq<seq<Rgba>>
    requires 0 <= y < |g| && 0 <= x < |g[y]|
  {
    g[y := g[y][x := f]]
  }

  /** A cover whose run does not pass the painted pixel survives the paint. */
  lemma CoversUntouched(g: seq<seq<Rgba>>, x: int, y: int, f: Rgba, e: Point, n: Point, t: Rgba)
    requires 0 <= y < |g| && 0 <= x < |g[y]|
    requires Covers(g, e, n, t)
    requires e.y != y || x < Min(e.x, n.x) || Max(e.x, n.x) < x
    ensures Covers(Painted(g, x, y, f), e, n, t)
  {
  }

  /**
   * A target pixel the filling scan was bound to reach, through a run passing
   * the painted pixel, lies to its right, so the next scan position reaches it.
   */
  lemma CoversPassOn(g: seq<seq<Rgba>>, x: int, y: int, t: Rgba, f: Rgba, e: Point, n: Point)
    requires 0 <= y < |g| && 0 <= x < |g[y]| && g[y][x] == t && t != f
    requires x == 0 || g[y][x - 1] != t
    requires Covers(g, e, n, t) && e.y == y && Min(e.x, n.x) <= x <= Max(e.x, n.x)
    requires At(Painted(g, x, y, f), n.x, n.y, t)
    ensures x < n.x && Covers(Painted(g, x, y, f), Point(x + 1, y), n, t)
  {
    assert n.x != x;
    assert x - 1 < Min(e.x, n.x) || x == 0;
  }

  /** A target pixel that was owed before the paint is still covered after it. */
  lemma OwedBefore(orig: seq<seq<Rgba>>, g: seq<seq<Rgba>>, width: nat, height: nat,
                   stack: seq<Point>, start: Point, t: Rgba, f: Rgba,
                   x: int, y: int, left: int, spanAbove: bool, spanBelow: bool,
                   more: seq<Point>, n: Point)
    requires Scanning(orig, g, width, height, stack, start, t, f, x, y, left, spanAbove, spanBelow)
    requires x < width && g[y][x] == t
    requires At(Painted(g, x, y, f), n.x, n.y, t) && Needed(orig, g, start, n, t, f)
    ensures Covered(Painted(g, x, y, f), stack + more + [Point(x + 1, y)], n, t)
  {
    var g' := Painted(g, x, y, f);
    assert At(g, n.x, n.y, t);
    assert Owed(orig, g, stack + [Point(x, y)], start, t, f, n.x, n.y);
    var i :| 0 <= i < |stack + [Point(x, y)]| && Covers(g, (stack + [Point(x, y)])[i], n, t);
    var e := (stack + [Point(x, y)])[i];
    if e.y == y && Min(e.x, n.x) <= x <= Max(e.x, n.x) {
      CoversPassOn(g, x, y, t, f, e, n);
      CoveredBy(g', stack + more + [Point(x + 1, y)], |stack + more|, n, t);
    } else {
      CoversUntouched(g, x, y, f, e, n, t);
      assert i < |stack|;
      assert e == stack[i] == (stack + more + [Point(x + 1, y)])[i];
      CoveredBy(g', stack + more + [Point(x + 1, y)], i, n, t);
    }
  }

  lemma SeedKept(stack: seq<Point>, more: seq<Point>, c: Point, i: int)
    requires 0 <= i < |stack|
    ensures (stack + more + [c])[i] == stack[i]
  {
  }

  /**
   * The pixel above a freshly filled one, if it has the target colour, is
   * covered: by the seed just pushed, or, when the span flag held the push
   * back, by the seed that covers the pixel above the previous one.
   */
  lemma OwedAbove(orig: seq<seq<Rgba>>, g: seq<seq<Rgba>>, width: nat, height: nat,
                  stack: seq<Point>, start: Point, t: Rgba, f: Rgba,
                  x: int, y: int, left: int, spanAbove: bool, spanBelow: bool, below: bool)
    requires Scanning(orig, g, width, height, stack, start, t, f, x, y, left, spanAbove, spanBelow)
    requires x < width && g[y][x] == t && 0 < y && g[y - 1][x] == t
    ensures Covered(Painted(g, x, y, f), Pushed(stack, x, y, true, spanAbove, below, spanBelow) + [Point(x + 1, y)], Point(x, y - 1), t)
  {
    var g' := Painted(g, x, y, f);
    var n := Point(x, y - 1);
    var more := (if !spanAbove then [Point(x, y - 1)] else []) + (if below && !spanBelow then [Point(x, y + 1)] else []);
    var seeds := stack + more + [Point(x + 1, y)];
    assert Pushed(stack, x, y, true, spanAbove, below, spanBelow) + [Point(x + 1, y)] == seeds;
    if !spanAbove {
      assert seeds[|stack|] == n;
      CoveredBy(g', seeds, |stack|, n, t);
    } else {
      var p := Point(x - 1, y - 1);
      assert Filled(orig, g, x - 1, y, t, f);
      assert Owed(orig, g, stack + [Point(x, y)], start, t, f, p.x, p.y);
      var i :| 0 <= i < |stack + [Point(x, y)]| && Covers(g, (stack + [Point(x, y)])[i], p, t);
      assert i < |stack|;
      var e := stack[i];
      CoversNext(g, e, p, t);
      CoversUntouched(g, x, y, f, e, n, t);
      SeedKept(stack, more, Point(x + 1, y), i);
      CoveredBy(g', seeds, i, n, t);
    }
  }

  /** The same for the pixel below. */
  lemma OwedBelow(orig: seq<seq<Rgba>>, g: seq<seq<Rgba>>, width: nat, height: nat,
                  stack: seq<Point>, start: Point, t: Rgba, f: Rgba,
                  x: int, y: int, left: int, spanAbove: bool, spanBelow: bool, above: bool)
    requires Scanning(orig, g, width, height, stack, start, t, f, x, y, left, spanAbove, spanBelow)
    requires x < width && g[y][x] == t && y < height - 1 && g[y + 1][x] == t
    ensures Covered(Painted(g, x, y, f), Pushed(stack, x, y, above, spanAbove, true, spanBelow) + [Point(x + 1, y)], Point(x, y + 1), t)
  {
    var g' := Painted(g, x, y, f);
    var n := Point(x, y + 1);
    var pushedAbove := if above && !spanAbove then [Point(x, y - 1)] else [];
    var more := pushedAbove + (if !spanBelow then [Point(x, y + 1)] else []);
    var seeds := stack + more + [Point(x + 1, y)];
    assert Pushed(stack, x, y, above, spanAbove, true, spanBelow) + [Point(x + 1, y)] == seeds;
    if !spanBelow {
      assert seeds[|stack| + |pushedAbove|] == n;
      CoveredBy(g', seeds, |stack| + |pushedAbove|, n, t);
    } else {
      var p := Point(x - 1, y + 1);
      assert Filled(orig, g, x - 1, y, t, f);
      assert Owed(orig, g, stack + [Point(x, y)], start, t, f, p.x, p.y);
      var i :| 0 <= i < |stack + [Point(x, y)]| && Covers(g, (stack + [Point(x, y)])[i], p, t);
      assert i < |stack|;
      var e := stack[i];
      CoversNext(g, e, p, t);
      CoversUntouched(g, x, y, f, e, n, t);
      SeedKept(stack, more, Point(x + 1, y), i);
      CoveredBy(g', seeds, i, n, t);
    }
  }

  /** Filling the pixel under the scan position and pushing the seeds the span flags call for keeps the scan's invariant. */
  lemma PaintStep(orig: seq<seq<Rgba>>, g: seq<seq<Rgba>>, width: nat, height: nat,
                  stack: seq<Point>, start: Point, t: Rgba, f: Rgba,
                  x: int, y: int, left: int, spanAbove: bool, spanBelow: bool)
    requires Scanning(orig, g, width, height, stack, start, t, f, x, y, left, spanAbove, spanBelow)
    requires x < width && g[y][x] == t
    ensures var above := 0 < y && g[y - 1][x] == t;
            var below := y < height - 1 && g[y + 1][x] == t;
            Scanning(orig, Painted(g, x, y, f), width, height, Pushed(stack, x, y, above, spanAbove, below, spanBelow),
                     start, t, f, x + 1, y, left, above, below)
  {
    var above := 0 < y && g[y - 1][x] == t;
    var below := y < height - 1 && g[y + 1][x] == t;
    var g' := Painted(g, x, y, f);
    var stack' := Pushed(stack, x, y, above, spanAbove, below, spanBelow);
    assert SeedsInBounds(stack', width, height) by {
      forall i | 0 <= i < |stack'| ensures InBounds(width, height, stack'[i].x, stack'[i].y) {
        if i < |stack| {
          assert stack'[i] == stack[i];
        }
      }
    }
    assert Sound(orig, g', width, height, t, f);
    PaintFilled(orig, g, width, height, stack, start, t, f, x, y, left, spanAbove, spanBelow);
    PaintOwed(orig, g, width, height, stack, start, t, f, x, y, left, spanAbove, spanBelow);
  }

  lemma PaintFilled(orig: seq<seq<Rgba>>, g: seq<seq<Rgba>>, width: nat, height: nat,
                    stack: seq<Point>, start: Point, t: Rgba, f: Rgba,
                    x: int, y: int, left: int, spanAbove: bool, spanBelow: bool)
    requires Scanning(orig, g, width, height, stack, start, t, f, x, y, left, spanAbove, spanBelow)
    requires x < width && g[y][x] == t
    ensures forall i :: left <= i < x + 1 ==> Filled(orig, Painted(g, x, y, f), i, y, t, f)
  {
    forall i | left <= i < x + 1 ensures Filled(orig, Painted(g, x, y, f), i, y, t, f) {
      if i < x {
        assert Filled(orig, g, i, y, t, f);
      }
    }
  }

  lemma PaintOwed(orig: seq<seq<Rgba>>, g: seq<seq<Rgba>>, width: nat, height: nat,
                  stack: seq<Point>, start: Point, t: Rgba, f: Rgba,
                  x: int, y: int, left: int, spanAbove: bool, spanBelow: bool)
    requires Scanning(orig, g, width, height, stack, start, t, f, x, y, left, spanAbove, spanBelow)
    requires x < width && g[y][x] == t
    ensures var above := 0 < y && g[y - 1][x] == t;
            var below := y < height - 1 && g[y + 1][x] == t;
            AllOwed(orig, Painted(g, x, y, f), Pushed(stack, x, y, above, spanAbove, below, spanBelow) + [Point(x + 1, y)], start, t, f)
  {
    var above := 0 < y && g[y - 1][x] == t;
    var below := y < height - 1 && g[y + 1][x] == t;
    var g' := Painted(g, x, y, f);
    var stack' := Pushed(stack, x, y, above, spanAbove, below, spanBelow);
    var more := (if above && !spanAbove then [Point(x, y - 1)] else []) + (if below && !spanBelow then [Point(x, y + 1)] else []);
    assert stack' == stack + more;
    var c' := Point(x + 1, y);
    forall x', y' ensures Owed(orig, g', stack' + [c'], start, t, f, x', y') {
      if At(g', x', y', t) && Needed(orig, g', start, Point(x', y'), t, f) {
        PaintOwedAt(orig, g, width, height, stack, start, t, f, x, y, left, spanAbove, spanBelow, more, Point(x', y'));
      }
    }
  }

  /** One pixel of `PaintOwed`. */
  lemma PaintOwedAt(orig: seq<seq<Rgba>>, g: seq<seq<Rgba>>, width: nat, height: nat,
                    stack: seq<Point>, start: Point, t: Rgba, f: Rgba,
                    x: int, y: int, left: int, spanAbove: bool, spanBelow: bool, more: seq<Point>, n: Point)
    requires Scanning(orig, g, width, height, stack, start, t, f, x, y, left, spanAbove, spanBelow)
    requires x < width && g[y][x] == t
    requires var above := 0 < y && g[y - 1][x] == t;
             var below := y < height - 1 && g[y + 1][x] == t;
             more == (if above && !spanAbove then [Point(x, y - 1)] else []) + (if below && !spanBelow then [Point(x, y + 1)] else [])
    requires At(Painted(g, x, y, f), n.x, n.y, t) && Needed(orig, Painted(g, x, y, f), start, n, t, f)
    ensures Covered(Painted(g, x, y, f), stack + more + [Point(x + 1, y)], n, t)
  {
    var above := 0 < y && g[y - 1][x] == t;
    var below := y < height - 1 && g[y + 1][x] == t;
    var g' := Painted(g, x, y, f);
    var seeds := stack + more + [Point(x + 1, y)];
    assert Pushed(stack, x, y, above, spanAbove, below, spanBelow) + [Point(x + 1, y)] == seeds;
    if Needed(orig, g, start, n, t, f) {
      OwedBefore(orig, g, width, height, stack, start, t, f, x, y, left, spanAbove, spanBelow, more, n);
    } else {
      NewlyNeeded(orig, g, width, height, start, t, f, x, y, n);
      if n == Point(x + 1, y) {
        CoveredBy(g', seeds, |seeds| - 1, n, t);
      } else if n == Point(x, y - 1) {
        OwedAbove(orig, g, width, height, stack, start, t, f, x, y, left, spanAbove, spanBelow, below);
      } else {
        OwedBelow(orig, g, width, height, stack, start, t, f, x, y, left, spanAbove, spanBelow, above);
      }
    }
  }

  /** A target pixel the paint makes needed is a neighbour of the painted pixel other than the one to its left. */
  lemma NewlyNeeded(orig: seq<seq<Rgba>>, g: seq<seq<Rgba>>, width: nat, height: nat, start: Point, t: Rgba, f: Rgba,
                    x: int, y: int, n: Point)
    requires Sound(orig, g, width, height, t, f) && t != f
    requires 0 <= x < width && 0 <= y < height && g[y][x] == t
    requires x == 0 || g[y][x - 1] != t
    requires At(Painted(g, x, y, f), n.x, n.y, t) && Needed(orig, Painted(g, x, y, f), start, n, t, f)
    requires !Needed(orig, g, start, n, t, f)
    ensures n == Point(x + 1, y) || n == Point(x, y - 1) || n == Point(x, y + 1)
  {
  }

  // ---------------------------------------------------------------------------
  // What a finished fill gives

  /** No filled pixel has a neighbour still of the target colour. */
  ghost predicate Closed(orig: seq<seq<Rgba>>, g: seq<seq<Rgba>>, t: Rgba, f: Rgba) {
    forall x, y :: Filled(orig, g, x, y, t, f) ==>
      !At(g, x - 1, y, t) && !At(g, x + 1, y, t) && !At(g, x, y - 1, t) && !At(g, x, y + 1, t)
  }

  /** With the stack empty nothing is owed any more: the start is filled and the filled region is closed. */
  lemma Finished(orig: seq<seq<Rgba>>, g: seq<seq<Rgba>>, width: nat, height: nat, start: Point, t: Rgba, f: Rgba)
    requires Between(orig, g, width, height, [], start, t, f)
    ensures g[start.y][start.x] == f
    ensures Closed(orig, g, t, f)
  {
    assert Owed(orig, g, [], start, t, f, start.x, start.y);
    forall x, y | Filled(orig, g, x, y, t, f)
      ensures !At(g, x - 1, y, t) && !At(g, x + 1, y, t) && !At(g, x, y - 1, t) && !At(g, x, y + 1, t)
    {
      assert Owed(orig, g, [], start, t, f, x - 1, y);
      assert Owed(orig, g, [], start, t, f, x + 1, y);
      assert Owed(orig, g, [], start, t, f, x, y - 1);
      assert Owed(orig, g, [], start, t, f, x, y + 1);
    }
  }

  /** 4-connectivity. */
  predicate Adjacent(p: Point, q: Point) {
    || (p.x == q.x && (p.y - q.y == 1 || q.y - p.y == 1))
    || (p.y == q.y && (p.x - q.x == 1 || q.x - p.x == 1))
  }

  /** A walk from `start` through target-coloured pixels of the original image. */
  ghost predicate TargetPath(orig: seq<seq<Rgba>>, path: seq<Point>, start: Point, t: Rgba) {
    && |path| > 0 && path[0] == start
    && (forall i :: 0 <= i < |path| ==> At(orig, path[i].x, path[i].y, t))
    && (forall i :: 0 <= i < |path| - 1 ==> Adjacent(path[i], path[i + 1]))
  }

  /**
   * A closed fill that reached the start reached every pixel connected to the
   * start through pixels of the target colour.
   */
  lemma {:induction false} ConnectedFilled(orig: seq<seq<Rgba>>, g: seq<seq<Rgba>>, width: nat, height: nat,
                                           start: Point, t: Rgba, f: Rgba, path: seq<Point>)
    requires Sound(orig, g, width, height, t, f) && t != f
    requires At(g, start.x, start.y, f) && Closed(orig, g, t, f)
    requires TargetPath(orig, path, start, t)
    ensures forall i :: 0 <= i < |path| ==> At(g, path[i].x, path[i].y, f)
  {
    if |path| > 1 {
      var prefix := path[..|path| - 1];
      assert TargetPath(orig, prefix, start, t) by {
        forall i | 0 <= i < |prefix| - 1 ensures Adjacent(prefix[i], prefix[i + 1]) {
          assert prefix[i] == path[i] && prefix[i + 1] == path[i + 1];
        }
      }
      ConnectedFilled(orig, g, width, height, start, t, f, prefix);
      var p, q := path[|path| - 2], path[|path| - 1];
      assert At(g, p.x, p.y, f) by {
        assert prefix[|path| - 2] == p;
      }
      assert Filled(orig, g, p.x, p.y, t, f);
      assert Adjacent(p, q);
      assert At(orig, q.x, q.y, t);
      assert forall i :: 0 <= i < |path| - 1 ==> path[i] == prefix[i];
    }
  }

  /** Pixel `n` is reached from `start` by a walk through pixels of the target colour in the original image. */
  ghost predicate Connected(orig: seq<seq<Rgba>>, start: Point, n: Point, t: Rgba) {
    exists path :: TargetPath(orig, path, start, t) && path[|path| - 1] == n
  }

  lemma ConnectedStart(orig: seq<seq<Rgba>>, start: Point, t: Rgba)
    requires At(orig, start.x, start.y, t)
    ensures Connected(orig, start, start, t)
  {
    assert TargetPath(orig, [start], start, t);
  }

  /** A target pixel next to a connected one is connected. */
  lemma ConnectedStep(orig: seq<seq<Rgba>>, start: Point, n: Point, m: Point, t: Rgba)
    requires Connected(orig, start, n, t) && Adjacent(n, m) && At(orig, m.x, m.y, t)
    ensures Connected(orig, start, m, t)
  {
    var path :| TargetPath(orig, path, start, t) && path[|path| - 1] == n;
    var path' := path + [m];
    assert TargetPath(orig, path', start, t) by {
      forall i | 0 <= i < |path'| ensures At(orig, path'[i].x, path'[i].y, t) {
        if i < |path| {
          assert path'[i] == path[i];
        }
      }
      forall i | 0 <= i < |path'| - 1 ensures Adjacent(path'[i], path'[i + 1]) {
        if i < |path| - 1 {
          assert path'[i] == path[i] && path'[i + 1] == path[i + 1];
        }
      }
    }
    assert path'[|path'| - 1] == m;
  }

  /** Moving left from a connected pixel over pixels of the target colour stays connected. */
  lemma {:induction false} ConnectedLeft(orig: seq<seq<Rgba>>, g: seq<seq<Rgba>>, width: nat, height: nat,
                                         start: Point, t: Rgba, f: Rgba, y: int, a: int, b: int)
    requires Sound(orig, g, width, height, t, f) && t != f
    requires 0 <= y < height && 0 <= a <= b < width
    requires Connected(orig, start, Point(b, y), t)
    requires forall i :: a <= i < b ==> g[y][i] == t
    ensures Connected(orig, start, Point(a, y), t)
    decreases b - a
  {
    if a < b {
      ConnectedLeft(orig, g, width, height, start, t, f, y, a + 1, b);
      assert g[y][a] == t;
      ConnectedStep(orig, start, Point(a + 1, y), Point(a, y), t);
    }
  }

  /** Every seed is connected to the start. */
  ghost predicate SeedsReached(orig: seq<seq<Rgba>>, seeds: seq<Point>, start: Point, t: Rgba) {
    forall i {:trigger Connected(orig, start, seeds[i], t)} :: 0 <= i < |seeds| ==> Connected(orig, start, seeds[i], t)
  }

  /** Every seed on the stack and every filled pixel is connected to the start. */
  ghost predicate Reached(orig: seq<seq<Rgba>>, g: seq<seq<Rgba>>, stack: seq<Point>, start: Point, t: Rgba, f: Rgba) {
    && SeedsReached(orig, stack, start, t)
    && (forall x, y {:trigger Connected(orig, start, Point(x, y), t)} :: Filled(orig, g, x, y, t, f) ==> Connected(orig, start, Point(x, y), t))
  }

  lemma StartReached(orig: seq<seq<Rgba>>, start: Point, t: Rgba, f: Rgba)
    requires At(orig, start.x, start.y, t) && t != f
    ensures Reached(orig, orig, [start], start, t, f)
  {
    ConnectedStart(orig, start, t);
  }

  /** Dropping seed `e` from the top of the stack keeps the rest connected. */
  lemma PopReached(orig: seq<seq<Rgba>>, g: seq<seq<Rgba>>, stack: seq<Point>, e: Point, start: Point, t: Rgba, f: Rgba)
    requires Reached(orig, g, stack + [e], start, t, f)
    ensures Reached(orig, g, stack, start, t, f)
  {
    forall i | 0 <= i < |stack| ensures Connected(orig, start, stack[i], t) {
      assert (stack + [e])[i] == stack[i];
      assert Connected(orig, start, (stack + [e])[i], t);
    }
  }

  /**
   * Popping seed `e` and moving left over target pixels to column `left`:
   * the rest of the stack and the run's first pixel are connected.
   */
  lemma ScanReached(orig: seq<seq<Rgba>>, g: seq<seq<Rgba>>, width: nat, height: nat,
                    stack: seq<Point>, e: Point, start: Point, t: Rgba, f: Rgba, left: int)
    requires Sound(orig, g, width, height, t, f) && t != f
    requires Reached(orig, g, stack + [e], start, t, f)
    requires InBounds(width, height, e.x, e.y) && 0 <= left <= e.x
    requires forall i :: left <= i < e.x ==> g[e.y][i] == t
    ensures Reached(orig, g, stack, start, t, f) && SeedsReached(orig, [Point(left, e.y)], start, t)
  {
    var s := stack + [e];
    assert s[|stack|] == e;
    assert Connected(orig, start, s[|stack|], t);
    ConnectedLeft(orig, g, width, height, start, t, f, e.y, left, e.x);
    PopReached(orig, g, stack, e, start, t, f);
    assert [Point(left, e.y)][0] == Point(left, e.y);
  }

  /**
   * Painting the pixel under the scan position, which is the left end of the
   * run or right of a filled pixel, and pushing its target neighbours above
   * and below keeps every seed and every filled pixel connected to the start.
   */
  lemma PaintReached(orig: seq<seq<Rgba>>, g: seq<seq<Rgba>>, width: nat, height: nat,
                     stack: seq<Point>, start: Point, t: Rgba, f: Rgba,
                     x: int, y: int, left: int, spanAbove: bool, spanBelow: bool)
    requires Sound(orig, g, width, height, t, f) && t != f
    requires 0 <= y < height && 0 <= left <= x < width && g[y][x] == t
    requires x != left ==> Filled(orig, g, x - 1, y, t, f)
    requires Reached(orig, g, stack, start, t, f) && SeedsReached(orig, [Point(left, y)], start, t)
    ensures var above := 0 < y && g[y - 1][x] == t;
            var below := y < height - 1 && g[y + 1][x] == t;
            Reached(orig, Painted(g, x, y, f), Pushed(stack, x, y, above, spanAbove, below, spanBelow), start, t, f)
  {
    var above := 0 < y && g[y - 1][x] == t;
    var below := y < height - 1 && g[y + 1][x] == t;
    var g' := Painted(g, x, y, f);
    var p := Point(x, y);
    assert Connected(orig, start, [Point(left, y)][0], t);
    if x != left {
      assert Filled(orig, g, x - 1, y, t, f);
      ConnectedStep(orig, start, Point(x - 1, y), p, t);
    }
    assert Connected(orig, start, p, t);
    var s' := Pushed(stack, x, y, above, spanAbove, below, spanBelow);
    forall i | 0 <= i < |s'| ensures Connected(orig, start, s'[i], t) {
      if i < |stack| {
        assert s'[i] == stack[i];
        assert Connected(orig, start, stack[i], t);
      } else {
        var q := s'[i];
        assert q == Point(x, y - 1) || q == Point(x, y + 1);
        assert g[q.y][q.x] == t;
        ConnectedStep(orig, start, p, q, t);
      }
    }
    forall x', y' | Filled(orig, g', x', y', t, f) ensures Connected(orig, start, Point(x', y'), t) {
      if (x', y') != (x, y) {
        assert Filled(orig, g, x', y', t, f);
      }
    }
  }

  /**
   * A finished fill that only painted connected pixels painted exactly the
   * pixels connected to the start, and changed no other pixel.
   */
  lemma FilledIffConnected(orig: seq<seq<Rgba>>, g: seq<seq<Rgba>>, width: nat, height: nat, start: Point, t: Rgba, f: Rgba)
    requires Sound(orig, g, width, height, t, f) && t != f
    requires At(g, start.x, start.y, f) && Closed(orig, g, t, f)
    requires Reached(orig, g, [], start, t, f)
    ensures forall x, y :: Filled(orig, g, x, y, t, f) <==> Connected(orig, start, Point(x, y), t)
    ensures forall x, y :: 0 <= y < height && 0 <= x < width && g[y][x] != orig[y][x] ==> Connected(orig, start, Point(x, y), t)
  {
    forall x, y | Connected(orig, start, Point(x, y), t) ensures Filled(orig, g, x, y, t, f) {
      var path :| TargetPath(orig, path, start, t) && path[|path| - 1] == Point(x, y);
      ConnectedFilled(orig, g, width, height, start, t, f, path);
    }
    forall x, y | 0 <= y < height && 0 <= x < width && g[y][x] != orig[y][x] ensures Connected(orig, start, Point(x, y), t) {
      assert Filled(orig, g, x, y, t, f);
    }
  }

  // ---------------------------------------------------------------------------
  // The fill, on the bytes

  /** The four bytes at `idx` spell colour `c`. */
  predicate MatchesTarget(data: array<byte>, idx: int, c: Rgba)
    reads data
    requires 0 <= idx && idx + 3 < data.Length
  {
    data[idx] == c.r && data[idx + 1] == c.g && data[idx + 2] == c.b && data[idx + 3] == c.a
  }

  /** Where pixel (x, y)'s bytes start. */
  function ByteIndex(width: nat, height: nat, x: int, y: int): (i: int)
    requires InBounds(width, height, x, y)
    ensures i == (y * width + x) * 4
    ensures 0 <= i && i + 3 < width * height * 4
  {
    IndexBound(width, height, x, y);
    (y * width + x) * 4
  }

  lemma MatchesCell(data: array<byte>, width: nat, height: nat, x: int, y: int, c: Rgba)
    requires data.Length == width * height * 4 && InBounds(width, height, x, y)
    ensures 0 <= (y * width + x) * 4 && (y * width + x) * 4 + 3 < data.Length
    ensures MatchesTarget(data, (y * width + x) * 4, c) <==> Grid(data[..], width, height)[y][x] == c
  {
    IndexBound(width, height, x, y);
  }

  ghost function VisitedAt(visited: seq<bool>, width: nat, height: nat, x: int, y: int): bool
    requires |visited| == width * height && InBounds(width, height, x, y)
  {
    IndexBound(width, height, x, y);
    visited[y * width + x]
  }

  /** Only filled pixels are marked visited. */
  ghost predicate VisitedOk(visited: seq<bool>, g: seq<seq<Rgba>>, width: nat, height: nat, f: Rgba) {
    |visited| == width * height && Rect(g, width, height) &&
    forall x, y :: InBounds(width, height, x, y) && VisitedAt(visited, width, height, x, y) ==> g[y][x] == f
  }

  lemma NoneVisited(visited: seq<bool>, g: seq<seq<Rgba>>, width: nat, height: nat, f: Rgba)
    requires |visited| == width * height && Rect(g, width, height)
    requires forall i :: 0 <= i < |visited| ==> !visited[i]
    ensures VisitedOk(visited, g, width, height, f)
  {
    forall x, y | InBounds(width, height, x, y) ensures !VisitedAt(visited, width, height, x, y) {
      IndexBound(width, height, x, y);
    }
  }

  lemma VisitStep(visited: seq<bool>, g: seq<seq<Rgba>>, width: nat, height: nat, f: Rgba, x: int, y: int)
    requires VisitedOk(visited, g, width, height, f) && InBounds(width, height, x, y)
    ensures 0 <= y * width + x < |visited|
    ensures VisitedOk(visited[y * width + x := true], Painted(g, x, y, f), width, height, f)
  {
    IndexBound(width, height, x, y);
    var v := visited[y * width + x := true];
    forall x', y' | InBounds(width, height, x', y') && VisitedAt(v, width, height, x', y')
      ensures Painted(g, x, y, f)[y'][x'] == f
    {
      IndexBound(width, height, x', y');
      if y' * width + x' == y * width + x {
        IndexInjective(width, x', y', x, y);
      } else {
        assert VisitedAt(visited, width, height, x', y');
      }
    }
  }

  /** The pixels still of the target colour; each paint takes one away. */
  ghost function Remaining(g: seq<seq<Rgba>>, width: nat, height: nat, t: Rgba): set<Point>
    requires Rect(g, width, height)
  {
    set y, x | 0 <= y < height && 0 <= x < width && g[y][x] == t :: Point(x, y)
  }

  lemma RemainingAfterPaint(g: seq<seq<Rgba>>, width: nat, height: nat, t: Rgba, f: Rgba, x: int, y: int)
    requires Rect(g, width, height) && InBounds(width, height, x, y) && g[y][x] == t && t != f
    ensures Rect(Painted(g, x, y, f), width, height)
    ensures |Remaining(Painted(g, x, y, f), width, height, t)| < |Remaining(g, width, height, t)|
  {
    var g' := Painted(g, x, y, f);
    assert Remaining(g', width, height, t) == Remaining(g, width, height, t) - {Point(x, y)};
    assert Point(x, y) in Remaining(g, width, height, t);
  }

  /**
   * `floodFill`: fills, with the colour `hexToRgba(fillColor)`, the region of
   * pixels of the start pixel's colour 4-connected to the start. A start
   * outside the image, or a start pixel already of the fill colour, leaves
   * the image untouched.
   */
  method Fill(data: array<byte>, width: nat, height: nat, startX: int, startY: int, fillColor: string)
    requires data.Length == width * height * 4
    modifies data
    ensures !InBounds(width, height, startX, startY) ==> data[..] == old(data[..])
    ensures InBounds(width, height, startX, startY) ==>
              var orig := Grid(old(data[..]), width, height);
              var g := Grid(data[..], width, height);
              var t, f := orig[startY][startX], HexToRgba(fillColor);
              && (t == f ==> data[..] == old(data[..]))
              && Sound(orig, g, width, height, t, f)
              && (t != f ==> g[startY][startX] == f && Closed(orig, g, t, f))
              && (t != f ==> forall x, y :: Filled(orig, g, x, y, t, f) <==> Connected(orig, Point(startX, startY), Point(x, y), t))
              && (forall x, y :: 0 <= y < height && 0 <= x < width && g[y][x] != orig[y][x] ==>
                    Connected(orig, Point(startX, startY), Point(x, y), t))
  {
    if startX < 0 || startX >= width || startY < 0 || startY >= height {
      return;
    }
    var targetIdx := ByteIndex(width, height, startX, startY);
    var target := Rgba(data[targetIdx], data[targetIdx + 1], data[targetIdx + 2], data[targetIdx + 3]);
    var fill := HexToRgba(fillColor);
    ghost var orig := Grid(data[..], width, height);
    MatchesCell(data, width, height, startX, startY, target);
    assert MatchesTarget(data, targetIdx, target);
    if target == fill {
      return;
    }
    var start := Point(startX, startY);
    var stack := [start];
    var visited := new bool[width * height](_ => false);
    NoneVisited(visited[..], orig, width, height, fill);
    StartBetween(orig, width, height, start, target, fill);
    StartReached(orig, start, target, fill);
    while |stack| > 0
      invariant Between(orig, Grid(data[..], width, height), width, height, stack, start, target, fill)
      invariant Reached(orig, Grid(data[..], width, height), stack, start, target, fill)
      invariant VisitedOk(visited[..], Grid(data[..], width, height), width, height, fill)
      decreases |Remaining(Grid(data[..], width, height), width, height, target)|, |stack|
    {
      var seed := stack[|stack| - 1];
      assert stack == stack[..|stack| - 1] + [seed];
      assert InBounds(width, height, seed.x, seed.y);
      stack := ScanSpan(data, visited, width, height, orig, stack[..|stack| - 1], seed, start, target, fill);
    }
    Finished(orig, Grid(data[..], width, height), width, height, start, target, fill);
    FilledIffConnected(orig, Grid(data[..], width, height), width, height, start, target, fill);
  }

  /**
   * One pass of the outer loop for a popped `seed`: move left to the start of
   * its run, then fill the run rightwards, pushing seeds above and below.
   */
  method ScanSpan(data: array<byte>, visited: array<bool>, width: nat, height: nat, ghost orig: seq<seq<Rgba>>,
                  stack: seq<Point>, seed: Point, start: Point, target: Rgba, fill: Rgba)
    returns (stack': seq<Point>)
    requires data.Length == width * height * 4 && InBounds(width, height, seed.x, seed.y)
    requires Between(orig, Grid(data[..], width, height), width, height, stack + [seed], start, target, fill)
    requires VisitedOk(visited[..], Grid(data[..], width, height), width, height, fill)
    requires Reached(orig, Grid(data[..], width, height), stack + [seed], start, target, fill)
    modifies data, visited
    ensures Between(orig, Grid(data[..], width, height), width, height, stack', start, target, fill)
    ensures VisitedOk(visited[..], Grid(data[..], width, height), width, height, fill)
    ensures Reached(orig, Grid(data[..], width, height), stack', start, target, fill)
    ensures || (Grid(data[..], width, height) == Grid(old(data[..]), width, height) && stack' == stack)
            || |Remaining(Grid(data[..], width, height), width, height, target)| <
               |Remaining(Grid(old(data[..]), width, height), width, height, target)|
  {
    ghost var before := Grid(data[..], width, height);
    var x := RunStart(data, width, height, seed.x, seed.y, target);
    assert data[..] == old(data[..]);
    StartScan(orig, before, width, height, stack, seed, start, target, fill, x);
    ScanReached(orig, before, width, height, stack, seed, start, target, fill, x);
    stack' := FillRun(data, visited, width, height, orig, stack, start, target, fill, x, seed.y);
  }

  /** The left-move loop: the first column of the target run through (x0, y). */
  method RunStart(data: array<byte>, width: nat, height: nat, x0: int, y: int, target: Rgba) returns (x: int)
    requires data.Length == width * height * 4 && InBounds(width, height, x0, y)
    ensures 0 <= x <= x0
    ensures forall i :: x <= i < x0 ==> Grid(data[..], width, height)[y][i] == target
    ensures x == 0 || Grid(data[..], width, height)[y][x - 1] != target
  {
    x := x0;
    while x > 0 && MatchesTarget(data, ByteIndex(width, height, x - 1, y), target)
      invariant 0 <= x <= x0
      invariant forall i :: x <= i < x0 ==> Grid(data[..], width, height)[y][i] == target
      decreases x
    {
      MatchesCell(data, width, height, x - 1, y, target);
      x := x - 1;
    }
    if x > 0 {
      MatchesCell(data, width, height, x - 1, y, target);
    }
  }

  /** The rightward loop over one run from column `left`: fill each pixel, pushing seeds above and below. */
  method FillRun(data: array<byte>, visited: array<bool>, width: nat, height: nat, ghost orig: seq<seq<Rgba>>,
                 stack: seq<Point>, start: Point, target: Rgba, fill: Rgba, left: int, y: int)
    returns (stack': seq<Point>)
    requires data.Length == width * height * 4
    requires Scanning(orig, Grid(data[..], width, height), width, height, stack, start, target, fill, left, y, left, false, false)
    requires VisitedOk(visited[..], Grid(data[..], width, height), width, height, fill)
    requires Reached(orig, Grid(data[..], width, height), stack, start, target, fill)
    requires SeedsReached(orig, [Point(left, y)], start, target)
    modifies data, visited
    ensures Between(orig, Grid(data[..], width, height), width, height, stack', start, target, fill)
    ensures VisitedOk(visited[..], Grid(data[..], width, height), width, height, fill)
    ensures Reached(orig, Grid(data[..], width, height), stack', start, target, fill)
    ensures || (Grid(data[..], width, height) == Grid(old(data[..]), width, height) && stack' == stack)
            || |Remaining(Grid(data[..], width, height), width, height, target)| <
               |Remaining(Grid(old(data[..]), width, height), width, height, target)|
  {
    ghost var before := Grid(data[..], width, height);
    var x := left;
    stack' := stack;
    var spanAbove, spanBelow := false, false;
    ghost var painted := false;
    while x < width && MatchesTarget(data, ByteIndex(width, height, x, y), target)
      invariant Scanning(orig, Grid(data[..], width, height), width, height, stack', start, target, fill, x, y, left, spanAbove, spanBelow)
      invariant VisitedOk(visited[..], Grid(data[..], width, height), width, height, fill)
      invariant Reached(orig, Grid(data[..], width, height), stack', start, target, fill)
      invariant !painted ==> Grid(data[..], width, height) == before && stack' == stack
      invariant painted ==> |Remaining(Grid(data[..], width, height), width, height, target)| < |Remaining(before, width, height, target)|
      decreases width - x
    {
      MatchesCell(data, width, height, x, y, target);
      ghost var g := Grid(data[..], width, height);
      RemainingAfterPaint(g, width, height, target, fill, x, y);
      stack', spanAbove, spanBelow := FillPixel(data, visited, width, height, orig, stack', start, target, fill, x, y, left, spanAbove, spanBelow);
      painted := true;
      x := x + 1;
    }
    if x < width {
      MatchesCell(data, width, height, x, y, target);
    }
    EndScan(orig, Grid(data[..], width, height), width, height, stack', start, target, fill, x, y, left, spanAbove, spanBelow);
  }

  /** The inner loop's body: paint pixel (x, y), mark it visited, and push the seeds above and below it that the span flags call for. */
  method FillPixel(data: array<byte>, visited: array<bool>, width: nat, height: nat, ghost orig: seq<seq<Rgba>>,
                   stack: seq<Point>, start: Point, target: Rgba, fill: Rgba,
                   x: int, y: int, ghost left: int, spanAbove: bool, spanBelow: bool)
    returns (stack': seq<Point>, spanAbove': bool, spanBelow': bool)
    requires data.Length == width * height * 4
    requires Scanning(orig, Grid(data[..], width, height), width, height, stack, start, target, fill, x, y, left, spanAbove, spanBelow)
    requires VisitedOk(visited[..], Grid(data[..], width, height), width, height, fill)
    requires x < width && Grid(data[..], width, height)[y][x] == target
    requires Reached(orig, Grid(data[..], width, height), stack, start, target, fill)
    requires SeedsReached(orig, [Point(left, y)], start, target)
    modifies data, visited
    ensures Grid(data[..], width, height) == Painted(Grid(old(data[..]), width, height), x, y, fill)
    ensures Scanning(orig, Grid(data[..], width, height), width, height, stack', start, target, fill, x + 1, y, left, spanAbove', spanBelow')
    ensures VisitedOk(visited[..], Grid(data[..], width, height), width, height, fill)
    ensures Reached(orig, Grid(data[..], width, height), stack', start, target, fill)
  {
    ghost var g := Grid(data[..], width, height);
    PaintPixel(data, width, height, x, y, fill);
    VisitStep(visited[..], g, width, height, fill, x, y);
    visited[y * width + x] := true;
    ghost var above := 0 < y && g[y - 1][x] == target;
    ghost var below := y < height - 1 && g[y + 1][x] == target;
    stack', spanAbove', spanBelow' := stack, spanAbove, spanBelow;
    assert Grid(data[..], width, height) == Painted(g, x, y, fill);
    if y > 0 {
      stack', spanAbove' := Neighbour(data, visited, width, height, x, y - 1, target, fill, stack', spanAbove);
    }
    if y < height - 1 {
      stack', spanBelow' := Neighbour(data, visited, width, height, x, y + 1, target, fill, stack', spanBelow);
    }
    assert stack' == Pushed(stack, x, y, above, spanAbove, below, spanBelow);
    PaintStep(orig, g, width, height, stack, start, target, fill, x, y, left, spanAbove, spanBelow);
    assert x != left ==> Filled(orig, g, x - 1, y, target, fill);
    PaintReached(orig, g, width, height, stack, start, target, fill, x, y, left, spanAbove, spanBelow);
  }

  /**
   * The span-flag test for the neighbour (x, ny) of a freshly filled pixel:
   * a target pixel is pushed unless the flag says the run it belongs to
   * already has a seed, and the flag then says whether it has the target colour.
   */
  method Neighbour(data: array<byte>, visited: array<bool>, width: nat, height: nat, x: int, ny: int,
                   target: Rgba, fill: Rgba, stack: seq<Point>, span: bool)
    returns (stack': seq<Point>, span': bool)
    requires data.Length == width * height * 4 && InBounds(width, height, x, ny) && target != fill
    requires VisitedOk(visited[..], Grid(data[..], width, height), width, height, fill)
    ensures var m := Grid(data[..], width, height)[ny][x] == target;
            stack' == stack + (if m && !span then [Point(x, ny)] else []) && span' == m
  {
    MatchesCell(data, width, height, x, ny, target);
    var matches := MatchesTarget(data, ByteIndex(width, height, x, ny), target);
    assert matches ==> !visited[ny * width + x] by {
      assert visited[ny * width + x] == VisitedAt(visited[..], width, height, x, ny);
    }
    stack', span' := stack, span;
    if matches && !span && !visited[ny * width + x] {
      stack' := stack + [Point(x, ny)];
      span' := true;
    } else if !matches {
      span' := false;
    }
  }

  /** Writes colour `c` into the four bytes of pixel (x, y). */
  method PaintPixel(data: array<byte>, width: nat, height: nat, x: int, y: int, c: Rgba)
    requires data.Length == width * height * 4 && InBounds(width, height, x, y)
    modifies data
    ensures Grid(data[..], width, height) == Painted(Grid(old(data[..]), width, height), x, y, c)
  {
    IndexBound(width, height, x, y);
    ghost var d := data[..];
    var idx := (y * width + x) * 4;
    data[idx] := c.r;
    data[idx + 1] := c.g;
    data[idx + 2] := c.b;
    data[idx + 3] := c.a;
    assert data[..] == d[idx := c.r][idx + 1 := c.g][idx + 2 := c.b][idx + 3 := c.a];
    GridAfterPaint(d, width, height, x, y, c);
  }
}
