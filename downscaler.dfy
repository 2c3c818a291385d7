/**
 * createShrunkenImage: the output size, the nearest-neighbour sampling loop
 * writing into a TYPE_INT_RGB buffer, and the outcome handed back to the batch.
 * The image codec is outside the model: the decoded grid (or its absence) and
 * whether the encoder succeeded are inputs.
 */
module Downscaler {
  import opened Wrappers
  import opened FileTypes

  /** A pixel as java.awt.image.BufferedImage.getRGB returns it: 0xAARRGGBB, read as unsigned. */
  newtype Argb = x: int | 0 <= x < 0x1_0000_0000

  function Alpha(p: Argb): int { p as int / 0x100_0000 }
  function Red(p: Argb): int { p as int / 0x1_0000 % 0x100 }
  function Green(p: Argb): int { p as int / 0x100 % 0x100 }
  function Blue(p: Argb): int { p as int % 0x100 }

  /** What a TYPE_INT_RGB image keeps of a pixel given to setRGB: the colour without its alpha. */
  function OpaqueRgb(p: Argb): Argb
  {
    p % 0x100_0000
  }

  /** Storing a pixel in the output keeps its three colour channels and clears the alpha channel. */
  lemma OpaqueRgbChannels(p: Argb)
    ensures Alpha(OpaqueRgb(p)) == 0
    ensures Red(OpaqueRgb(p)) == Red(p) && Green(OpaqueRgb(p)) == Green(p) && Blue(OpaqueRgb(p)) == Blue(p)
  {
    var q := p as int / 0x100_0000;
    var r := p as int % 0x100_0000;
    assert p as int == q * 0x100_0000 + r;
    assert (OpaqueRgb(p) as int) == r;
    assert p as int / 0x1_0000 == q * 0x100 + r / 0x1_0000;
    assert p as int / 0x100 == q * 0x1_0000 + r / 0x100;
  }

  /**
   * (int) Math.ceil(n / f) for a whole factor f: the least whole number of
   * strides of length f that covers n.
   */
  function CeilDiv(n: nat, f: nat): (r: nat)
    requires f >= 1
    ensures n <= r * f < n + f
  {
    (n + f - 1) / f
  }

  /** Multiplying by a natural number keeps the order. */
  lemma MulMonotone(a: int, b: int, f: nat)
    ensures a <= b ==> a * f <= b * f
  {
  }

  /** A strict order between multiples of a positive number is one between the multipliers. */
  lemma MulCancelLt(a: int, b: int, f: nat)
    requires f >= 1 && a * f < b * f
    ensures a < b
  {
    MulMonotone(b, a, f);
  }

  /** A side of at least one pixel shrinks to at least one pixel, and never grows. */
  lemma CeilDivBounds(n: nat, f: nat)
    requires f >= 1 && n >= 1
    ensures 1 <= CeilDiv(n, f) <= n
  {
    var r := CeilDiv(n, f);
    MulMonotone(1, f, n);
    assert (n + 1) * f == n * f + f >= n + f;
    MulCancelLt(r, n + 1, f);
  }

  /**
   * The stride loop `for (i = 0; i < n; i += f)` runs once for each k with k * f < n,
   * and those are exactly the k below CeilDiv(n, f).
   */
  lemma StrideSteps(n: nat, f: nat, k: nat)
    requires f >= 1
    ensures k * f < n <==> k < CeilDiv(n, f)
  {
    var r := CeilDiv(n, f);
    MulMonotone(k, r - 1, f);
    assert (r - 1) * f == r * f - f;
    MulMonotone(r, k, f);
  }

  /** The (x, y) cells of a width-by-height grid in the order the sampling loop visits them: column by column. */
  function Cells(width: nat, height: nat): seq<(nat, nat)>
  {
    if width == 0 then [] else Cells(width - 1, height) + Column(width - 1, height)
  }

  /** The first `height` cells of column x, top to bottom. */
  function Column(x: nat, height: nat): seq<(nat, nat)>
  {
    seq(height, y requires 0 <= y < height => (x, y))
  }

  /** The visiting order lists every cell of the grid, once each and nothing else. */
  lemma {:induction false} CellsExactlyOnce(width: nat, height: nat)
    ensures |Cells(width, height)| == width * height
    ensures forall c: (nat, nat) :: c in Cells(width, height) <==> c.0 < width && c.1 < height
    ensures forall i, j :: 0 <= i < j < |Cells(width, height)| ==> Cells(width, height)[i] != Cells(width, height)[j]
  {
    if width > 0 {
      CellsExactlyOnce(width - 1, height);
      var prev, col := Cells(width - 1, height), Column(width - 1, height);
      var all := prev + col;
      assert |all| == (width - 1) * height + height == width * height;
      forall c: (nat, nat) ensures c in all <==> c.0 < width && c.1 < height {
        if c.0 == width - 1 && c.1 < height {
          assert col[c.1] == c;
        }
      }
      forall i, j | 0 <= i < j < |all| ensures all[i] != all[j] {
        if j >= |prev| && i < |prev| {
          assert all[i] in prev;
        }
      }
    }
  }

  /**
   * `output` is the nearest-neighbour reduction of `input` by `f`: its size is
   * the ceiling of the input's over f on each side, and each cell holds the
   * input pixel at f times its coordinates, without alpha.
   */
  ghost predicate Sampled(input: array2<Argb>, output: array2<Argb>, f: nat)
    reads input, output
  {
    f >= 1
    && output.Length0 == CeilDiv(input.Length0, f)
    && output.Length1 == CeilDiv(input.Length1, f)
    && forall ox, oy :: 0 <= ox < output.Length0 && 0 <= oy < output.Length1 ==>
         ox * f < input.Length0 && oy * f < input.Length1
         && output[ox, oy] == OpaqueRgb(input[ox * f, oy * f])
  }

  /**
   * The sampling loop: walk the input with stride f along both axes, writing
   * each sampled pixel to the cell named by the outputX/outputY counters.
   * `writes` is the sequence of cells written, in order.
   */
  method Downscale(input: array2<Argb>, f: nat) returns (output: array2<Argb>, ghost writes: seq<(nat, nat)>)
    requires f >= 1
    ensures Sampled(input, output, f)
    ensures writes == Cells(output.Length0, output.Length1)
  {
    var width, height := input.Length0, input.Length1;
    var newWidth := CeilDiv(width, f);
    var newHeight := CeilDiv(height, f);
    output := new Argb[newWidth, newHeight];
    writes := [];
    var outputX := 0;
    var inputX := 0;
    while inputX < width
      invariant 0 <= outputX <= newWidth && inputX == outputX * f
      invariant writes == Cells(outputX, newHeight)
      invariant forall ox, oy :: 0 <= ox < outputX && 0 <= oy < newHeight ==>
                  ox * f < width && oy * f < height && output[ox, oy] == OpaqueRgb(input[ox * f, oy * f])
    {
      StrideSteps(width, f, outputX);
      ghost var column := SampleColumn(input, output, outputX, inputX, f);
      writes := writes + column;
      assert inputX + f == (outputX + 1) * f;
      outputX := outputX + 1;
      inputX := inputX + f;
    }
    StrideSteps(width, f, outputX);
  }

  /**
   * The inner loop of the sampling: column inputX of the input, every f-th
   * row, goes to column outputX of the output; the other columns are untouched.
   */
  method SampleColumn(input: array2<Argb>, output: array2<Argb>, outputX: nat, inputX: nat, f: nat)
    returns (ghost column: seq<(nat, nat)>)
    requires f >= 1 && input != output
    requires outputX < output.Length0 && output.Length1 == CeilDiv(input.Length1, f)
    requires inputX == outputX * f && inputX < input.Length0
    modifies output
    ensures forall ox, oy :: 0 <= ox < output.Length0 && 0 <= oy < output.Length1 && ox != outputX ==>
              output[ox, oy] == old(output[ox, oy])
    ensures forall oy :: 0 <= oy < output.Length1 ==>
              oy * f < input.Length1 && output[outputX, oy] == OpaqueRgb(input[inputX, oy * f])
    ensures column == Column(outputX, output.Length1)
  {
    var height, newHeight := input.Length1, output.Length1;
    column := [];
    var outputY := 0;
    var inputY := 0;
    while inputY < height
      invariant 0 <= outputY <= newHeight && inputY == outputY * f
      invariant column == Column(outputX, outputY)
      invariant forall ox, oy :: 0 <= ox < output.Length0 && 0 <= oy < newHeight && ox != outputX ==>
                  output[ox, oy] == old(output[ox, oy])
      invariant forall oy :: 0 <= oy < outputY ==>
                  oy * f < height && output[outputX, oy] == OpaqueRgb(input[inputX, oy * f])
    {
      StrideSteps(height, f, outputY);
      output[outputX, outputY] := OpaqueRgb(input[inputX, inputY]);
      column := column + [(outputX, outputY)];
      assert inputY + f == (outputY + 1) * f;
      outputY := outputY + 1;
      inputY := inputY + f;
    }
    StrideSteps(height, f, outputY);
  }

  /** The pair createShrunkenImage returns: whether it shrank the file, and the line to report. */
  datatype Outcome = Outcome(success: bool, text: string)

  /**
   * The outcome for one file: success exactly when the name passes the type
   * gate and the codec managed to read and write it; the same line, a newline
   * and the file's display name, in both cases.
   */
  function ShrinkOutcome(fileName: string, codecOk: bool, displayName: string): (r: Outcome)
    ensures r.text == "\n" + displayName
    ensures r.success <==> IsKnownType(fileName) && codecOk
  {
    if IsKnownType(fileName) && codecOk then Outcome(true, "\n" + displayName)
    else Outcome(false, "\n" + displayName)
  }

  /** A file of unknown type fails whatever the codec would have done: it is never read. */
  lemma UnknownTypeNotRead(fileName: string, codecOk: bool, displayName: string)
    requires !IsKnownType(fileName)
    ensures ShrinkOutcome(fileName, codecOk, displayName) == ShrinkOutcome(fileName, !codecOk, displayName)
    ensures !ShrinkOutcome(fileName, codecOk, displayName).success
  {
  }

  /** What createShrunkenImage hands to ImageIO.write: the destination, the format name, the pixels. */
  datatype Encoded = Encoded(path: string, format: string, pixels: array2<Argb>)

  /**
   * createShrunkenImage for one file. `decoded` is what ImageIO.read produced
   * (None when it failed), `encoderOk` whether ImageIO.write succeeded, and
   * `displayName` the file's name without its directory. `written` is the
   * request passed to the encoder, if one was made.
   */
  method CreateShrunkenImage(fileName: string, reductionFactor: nat, decoded: Option<array2<Argb>>,
                             encoderOk: bool, displayName: string)
    returns (outcome: Outcome, written: Option<Encoded>)
    requires reductionFactor >= 1
    ensures outcome == ShrinkOutcome(fileName, decoded.Some? && encoderOk, displayName)
    ensures outcome.success <==> IsKnownType(fileName) && decoded.Some? && encoderOk
    ensures outcome.text == "\n" + displayName
    ensures written.Some? <==> IsKnownType(fileName) && decoded.Some?
    ensures written.Some? ==>
              && '.' in fileName
              && written.value.path == SmallerPath(fileName)
              && written.value.format == "jpg"
              && Sampled(decoded.value, written.value.pixels, reductionFactor)
  {
    if IsKnownType(fileName) {
      var toFile := SmallerPath(fileName);
      if decoded.Some? {
        var outputImage, _ := Downscale(decoded.value, reductionFactor);
        written := Some(Encoded(toFile, "jpg", outputImage));
        if encoderOk {
          return Outcome(true, "\n" + displayName), written;
        }
      } else {
        written := None;
      }
    } else {
      written := None;
    }
    outcome := Outcome(false, "\n" + displayName);
  }
}
