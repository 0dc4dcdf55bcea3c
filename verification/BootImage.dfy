// The header in front of every boot image: a magic word, the size of the text and the size of
// the data.  An image may only be loaded below the frame buffer.
module BootImage {

  import opened Bytes

  const MAGIC := 0x5244_444D
  const HEADER_SIZE := 12
  const LOAD_ADDR := 0x8000_0000
  const LOAD_LIMIT := 0x8700_0000

  datatype Parsed = Parsed(text: nat, data: nat) | BadMagic | BadRange

  // boot_image_parse_header
  function ParseHeader(header: seq<Byte>, dst: nat): Parsed
    requires |header| >= HEADER_SIZE
  {
    if Le32(header, 0) != MAGIC then BadMagic
    else if dst < LOAD_ADDR || dst >= LOAD_LIMIT then BadRange
    else
      var text, data, available := Le32(header, 4), Le32(header, 8), LOAD_LIMIT - dst;
      if text > available || data > available - text then BadRange
      else Parsed(text, data)
  }

  // A header is accepted exactly when its image fits between dst and the limit, and then none
  // of the 32-bit sums formed from it wraps.
  lemma AcceptedFits(header: seq<Byte>, dst: nat)
    requires |header| >= HEADER_SIZE
    ensures ParseHeader(header, dst).Parsed? <==>
              && Le32(header, 0) == MAGIC && LOAD_ADDR <= dst < LOAD_LIMIT
              && dst + Le32(header, 4) + Le32(header, 8) <= LOAD_LIMIT
    ensures var p := ParseHeader(header, dst);
            p.Parsed? ==>
              && p.text == Le32(header, 4) && p.data == Le32(header, 8)
              && HEADER_SIZE + p.text + p.data < 0x1_0000_0000
  {
  }

  function Header(text: nat, data: nat): (h: seq<Byte>)
    requires text < 0x1_0000_0000 && data < 0x1_0000_0000
    ensures |h| == HEADER_SIZE
  {
    ToLe32(MAGIC) + ToLe32(text) + ToLe32(data)
  }

  lemma HeaderRoundTrip(text: nat, data: nat, rest: seq<Byte>, dst: nat)
    requires LOAD_ADDR <= dst < LOAD_LIMIT && dst + text + data <= LOAD_LIMIT
    ensures ParseHeader(Header(text, data) + rest, dst) == Parsed(text, data)
  {
    var h := Header(text, data) + rest;
    assert h[0..4] == ToLe32(MAGIC) && h[4..8] == ToLe32(text) && h[8..12] == ToLe32(data);
    SameWord(h, 0, ToLe32(MAGIC));
    SameWord(h, 4, ToLe32(text));
    SameWord(h, 8, ToLe32(data));
  }

  lemma SameWord(s: seq<Byte>, i: nat, w: seq<Byte>)
    requires i + 4 <= |s| && |w| == 4 && s[i..i + 4] == w
    ensures Le32(s, i) == Le32(w, 0)
  {
    assert forall k :: 0 <= k < 4 ==> s[i + k] == w[k];
  }

  // boot_image_validate_file_size, with the 32-bit subtractions of the original.
  function ValidFileSize(fileSize: nat, text: nat, data: nat): bool
    requires fileSize < 0x1_0000_0000 && text < 0x1_0000_0000 && data < 0x1_0000_0000
  {
    if fileSize < HEADER_SIZE then false
    else
      var payload := fileSize - HEADER_SIZE;
      if text > payload then false else data == payload - text
  }

  // A file is accepted exactly when it is the header and the declared sizes, without wrapping.
  lemma ValidFileSizeExact(fileSize: nat, text: nat, data: nat)
    requires fileSize < 0x1_0000_0000 && text < 0x1_0000_0000 && data < 0x1_0000_0000
    ensures ValidFileSize(fileSize, text, data) <==> fileSize == HEADER_SIZE + text + data
  {
  }

  // The image starting with the header in s.
  predicate HasImage(s: seq<Byte>, dst: nat) {
    |s| >= HEADER_SIZE && ParseHeader(s, dst).Parsed?
  }

  function ImageSize(s: seq<Byte>, dst: nat): (n: nat)
    requires HasImage(s, dst)
    ensures HEADER_SIZE <= n && dst + n - HEADER_SIZE <= LOAD_LIMIT
  {
    HEADER_SIZE + ParseHeader(s, dst).text + ParseHeader(s, dst).data
  }

  lemma ImageOfPrefix(s: seq<Byte>, t: seq<Byte>, dst: nat)
    requires |s| >= HEADER_SIZE && |t| >= HEADER_SIZE && s[..HEADER_SIZE] == t[..HEADER_SIZE]
    ensures HasImage(s, dst) == HasImage(t, dst)
    ensures HasImage(s, dst) ==> ImageSize(s, dst) == ImageSize(t, dst)
  {
    assert forall i :: 0 <= i < HEADER_SIZE ==> s[i] == s[..HEADER_SIZE][i] && t[i] == t[..HEADER_SIZE][i];
  }
}
