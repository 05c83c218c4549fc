/** Round trips of the two formats whose size stands at a fixed place (PNG, second edition, section 11.2.2; WebP, RFC
    9649, section 2.7), and which markers open a JPEG frame (ITU-T T.81, table B.1). */
module ImageHeaders {
  import opened Options
  import opened JpegScan

  /** Baseline, extended, progressive and lossless frames, differential or not, Huffman or arithmetic; not DHT, JPG or
      DAC, which lie between them. */
  lemma FrameMarkersOfT81(m: Byte)
    ensures FrameMarker(m) <==>
      m in {0xC0, 0xC1, 0xC2, 0xC3, 0xC5, 0xC6, 0xC7, 0xC9, 0xCA, 0xCB, 0xCD, 0xCE, 0xCF}
  {
  }

  // ----- numbers

  function Limit(count: nat): (n: nat)
    ensures 1 <= n
  {
    if count == 0 then 1 else 256 * Limit(count - 1)
  }

  lemma {:induction false} DigitsAreRead(n: nat, count: nat)
    requires n < Limit(count)
    ensures BigEndian(Digits(n, count)) == n
  {
    if count > 0 {
      DigitsAreRead(n / 256, count - 1);
      var s := Digits(n, count);
      assert s[..|s| - 1] == Digits(n / 256, count - 1);
    }
  }

  /** A number in `count` bytes, least significant first. */
  function LittleDigits(n: nat, count: nat): (s: seq<Byte>)
    ensures |s| == count
  {
    if count == 0 then [] else [n % 256] + LittleDigits(n / 256, count - 1)
  }

  lemma {:induction false} LittleDigitsAreRead(n: nat, count: nat)
    requires n < Limit(count)
    ensures LittleEndian(LittleDigits(n, count)) == n
  {
    if count > 0 {
      LittleDigitsAreRead(n / 256, count - 1);
      assert LittleDigits(n, count)[1..] == LittleDigits(n / 256, count - 1);
    }
  }

  // ----- files

  /** What stands in the head of a file stands in the file, as long as it fits. */
  lemma PartOfHead(before: seq<Byte>, part: seq<Byte>, after: seq<Byte>)
    requires |before + part| <= HEAD
    ensures var head := Head(before + part + after);
      |before + part| <= |head| && head[|before|..|before| + |part|] == part
  {
    var file := before + part + after;
    assert file[|before|..|before| + |part|] == part;
  }

  lemma OpensWith(part: seq<Byte>, after: seq<Byte>)
    requires |part| <= HEAD
    ensures StartsWith(Head(part + after), part)
  {
    assert [] + part + after == part + after;
    PartOfHead([], part, after);
  }

  /** The signature, an IHDR chunk with its length and type, then width and height in four bytes each, most significant
      first: that width and that height, whatever follows. */
  lemma PngRoundTrip(lengthAndType: seq<Byte>, width: nat, height: nat, rest: seq<Byte>)
    requires |lengthAndType| == 8 && width < Limit(4) && height < Limit(4)
    ensures Dimensions(PNG + lengthAndType + Digits(width, 4) + Digits(height, 4) + rest) == Some(Size(width, height))
  {
    var front, w, h := PNG + lengthAndType, Digits(width, 4), Digits(height, 4);
    var file := front + w + h + rest;
    assert StartsWith(Head(file), PNG) by {
      assert file == PNG + (lengthAndType + w + h + rest);
      OpensWith(PNG, lengthAndType + w + h + rest);
    }
    assert Head(file)[16..20] == w by {
      assert file == front + w + (h + rest);
      PartOfHead(front, w, h + rest);
    }
    assert 24 <= |Head(file)| && Head(file)[20..24] == h by {
      PartOfHead(front + w, h, rest);
    }
    DigitsAreRead(width, 4);
    DigitsAreRead(height, 4);
    PngSizeIsRead(file);
  }

  lemma PngSizeIsRead(file: seq<Byte>)
    requires StartsWith(Head(file), PNG) && 24 <= |Head(file)|
    ensures Dimensions(file) == Some(Size(BigEndian(Head(file)[16..20]), BigEndian(Head(file)[20..24])))
  {
  }

  /** RIFF and its size, WEBP, VP8X, the chunk's size and flags. */
  function WebpFront(riffSize: seq<Byte>, sizeAndFlags: seq<Byte>): seq<Byte> {
    RIFF + riffSize + WEBP + VP8X + sizeAndFlags
  }

  lemma WebpIsRecognised(data: seq<Byte>, riffSize: seq<Byte>, sizeAndFlags: seq<Byte>)
    requires |riffSize| == 4 && |sizeAndFlags| == 8
    requires 30 <= |data| && data[..24] == WebpFront(riffSize, sizeAndFlags)
    ensures StartsWith(data, RIFF) && data[8..12] == WEBP && data[12..16] == VP8X && !StartsWith(data, PNG)
  {
    var front := data[..24];
    assert front[..4] == RIFF && front[8..12] == WEBP && front[12..16] == VP8X;
    assert front[..4] == data[..4] && front[8..12] == data[8..12] && front[12..16] == data[12..16];
    assert data[0] == data[..4][0] == 0x52;
  }

  lemma WebpSizeIsRead(file: seq<Byte>)
    requires var data := Head(file);
      && 30 <= |data| && StartsWith(data, RIFF) && data[8..12] == WEBP && data[12..16] == VP8X && !StartsWith(data, PNG)
    ensures Dimensions(file)
         == Some(Size(1 + LittleEndian(Head(file)[24..27]), 1 + LittleEndian(Head(file)[27..30])))
  {
  }

  /** Behind them stand width and height less one, in three bytes each, least significant first: that width and that
      height, whatever follows. */
  lemma WebpRoundTrip(riffSize: seq<Byte>, sizeAndFlags: seq<Byte>, width: nat, height: nat, rest: seq<Byte>)
    requires |riffSize| == 4 && |sizeAndFlags| == 8 && 1 <= width <= Limit(3) && 1 <= height <= Limit(3)
    ensures var canvas := LittleDigits(width - 1, 3) + LittleDigits(height - 1, 3);
      Dimensions(WebpFront(riffSize, sizeAndFlags) + canvas + rest) == Some(Size(width, height))
  {
    var front, w, h := WebpFront(riffSize, sizeAndFlags), LittleDigits(width - 1, 3), LittleDigits(height - 1, 3);
    var file := front + (w + h) + rest;
    assert |front| == 24;
    assert Head(file)[..24] == front by {
      assert file == [] + front + (w + h + rest);
      PartOfHead([], front, w + h + rest);
    }
    assert Head(file)[24..27] == w by {
      assert file == front + w + (h + rest);
      PartOfHead(front, w, h + rest);
    }
    assert 30 <= |Head(file)| && Head(file)[27..30] == h by {
      assert file == front + w + h + rest;
      PartOfHead(front + w, h, rest);
    }
    WebpIsRecognised(Head(file), riffSize, sizeAndFlags);
    WebpSizeIsRead(file);
    LittleDigitsAreRead(width - 1, 3);
    LittleDigitsAreRead(height - 1, 3);
  }

  /** Only files that open with one of the three signatures have a size. */
  lemma SizedFilesAreKnown(file: seq<Byte>)
    requires Dimensions(file) != None
    ensures StartsWith(file, PNG) || StartsWith(file, SOI)
      || (StartsWith(file, RIFF) && 30 <= |file| && file[8..16] == WEBP + VP8X)
  {
    var data := Head(file);
    assert forall n: nat :: n <= 30 <= |data| ==> data[..n] == file[..n];
    if StartsWith(data, RIFF) && 30 <= |data| && data[8..12] == WEBP && data[12..16] == VP8X {
      assert data[8..16] == data[8..12] + data[12..16];
    }
    assert StartsWith(data, PNG) ==> StartsWith(file, PNG);
    assert StartsWith(data, RIFF) ==> StartsWith(file, RIFF);
    assert StartsWith(data, SOI) ==> StartsWith(file, SOI);
  }
}
