/**
 Bytes of a page.  Memory is kept in 64-bit words because page tables are; user code and the
 image loader see it in bytes, eight to a word, least significant first.
 */
module Bytes {

  /** Byte r of a word. */
  function Digit(w: nat, r: nat): (b: nat)
    ensures b < 256
  {
    if r == 0 then w % 256 else Digit(w / 256, r - 1)
  }

  lemma {:induction false} ZeroDigit(r: nat)
    ensures Digit(0, r) == 0
  {
    if r > 0 {
      ZeroDigit(r - 1);
    }
  }

  /** The word with byte r replaced. */
  function SetDigit(w: nat, r: nat, b: nat): nat
    requires b < 256
  {
    if r == 0 then w - w % 256 + b else w % 256 + 256 * SetDigit(w / 256, r - 1, b)
  }

  lemma {:induction false} SetDigitGet(w: nat, r: nat, b: nat, q: nat)
    requires b < 256
    ensures Digit(SetDigit(w, r, b), q) == if q == r then b else Digit(w, q)
  {
    if r == 0 {
      assert (w - w % 256 + b) / 256 == w / 256;
    } else {
      assert (w % 256 + 256 * SetDigit(w / 256, r - 1, b)) / 256 == SetDigit(w / 256, r - 1, b);
      if q > 0 {
        SetDigitGet(w / 256, r - 1, b, q - 1);
      }
    }
  }

  function ByteAt(page: seq<nat>, k: nat): (b: nat)
    ensures b < 256
  {
    if k / 8 < |page| then Digit(page[k / 8], k % 8) else 0
  }

  function SetByte(page: seq<nat>, k: nat, b: nat): (r: seq<nat>)
    requires b < 256
    ensures |r| == |page|
  {
    if k / 8 < |page| then page[k / 8 := SetDigit(page[k / 8], k % 8, b)] else page
  }

  /** A byte store changes that byte and no other. */
  lemma SetByteGet(page: seq<nat>, k: nat, b: nat, q: nat)
    requires b < 256 && k / 8 < |page|
    ensures ByteAt(SetByte(page, k, b), q) == if q == k then b else ByteAt(page, q)
  {
    if q / 8 == k / 8 {
      SetDigitGet(page[k / 8], k % 8, b, q % 8);
    }
  }

  // --- copying a program image into a page ---

  /** Byte n of an image, or the zero the allocator left behind past its end. */
  function ImageByte(image: seq<nat>, n: nat): nat
  {
    if n < |image| then image[n] else 0
  }

  function PackWord(image: seq<nat>, off: nat, n: nat): nat
    decreases n
  {
    if n == 0 then 0 else ImageByte(image, off) + 256 * PackWord(image, off + 1, n - 1)
  }

  /** The next n words of the image. */
  function ImageWords(image: seq<nat>, off: nat, n: nat): (r: seq<nat>)
    ensures |r| == n
    decreases n
  {
    if n == 0 then [] else [PackWord(image, off, 8)] + ImageWords(image, off + 8, n - 1)
  }

  /** The zeroed page with the next (up to) 4096 bytes of the image copied in. */
  function ImagePage(image: seq<nat>, off: nat): (page: seq<nat>)
    ensures |page| == 512
  {
    ImageWords(image, off, 512)
  }

  lemma {:induction false} ImageWordsGet(image: seq<nat>, off: nat, n: nat, w: nat)
    requires w < n
    ensures ImageWords(image, off, n)[w] == PackWord(image, off + 8 * w, 8)
    decreases n
  {
    if w > 0 {
      ImageWordsGet(image, off + 8, n - 1, w - 1);
    }
  }

  lemma {:induction false} PackWordGet(image: seq<nat>, off: nat, n: nat, r: nat)
    requires r < n && forall k :: 0 <= k < |image| ==> image[k] < 256
    ensures Digit(PackWord(image, off, n), r) == ImageByte(image, off + r)
    decreases n
  {
    var rest := PackWord(image, off + 1, n - 1);
    assert (ImageByte(image, off) + 256 * rest) / 256 == rest;
    if r > 0 {
      PackWordGet(image, off + 1, n - 1, r - 1);
    }
  }

  /** Every byte of the page is the image's byte, and zero past the image. */
  lemma ImagePageGet(image: seq<nat>, off: nat, k: nat)
    requires k < 4096 && forall j :: 0 <= j < |image| ==> image[j] < 256
    ensures ByteAt(ImagePage(image, off), k) == ImageByte(image, off + k)
  {
    ImageWordsGet(image, off, 512, k / 8);
    PackWordGet(image, off + 8 * (k / 8), 8, k % 8);
  }
}
