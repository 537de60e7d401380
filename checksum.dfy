/**
 * `_adler32`: read a file in chunks, fold each chunk into a running Adler-32
 * value with zlib starting from 1, and render the result as text. The file
 * is given as its content; opening and reading it are not modelled.
 */
module Checksum {
  import opened Adler
  import opened ChecksumHex

  /** The size `_read_chunk` asks for on each read: 1 MiB. */
  const CHUNK_SIZE: nat := 1048576

  function Concat(chunks: seq<seq<Byte>>): seq<Byte>
  {
    if chunks == [] then [] else chunks[0] + Concat(chunks[1..])
  }

  /**
   * The chunks `_read_chunk` yields from a file holding `file`: reads of
   * `size` bytes until a read comes back empty, so every chunk is non-empty
   * and only the last may be short.
   */
  function ReadChunks(file: seq<Byte>, size: nat): (chunks: seq<seq<Byte>>)
    requires size > 0
    ensures forall c :: c in chunks ==> 0 < |c| <= size
    decreases |file|
  {
    if file == [] then []
    else if |file| <= size then [file]
    else [file[..size]] + ReadChunks(file[size..], size)
  }

  /** Reading in chunks loses nothing, adds nothing and keeps the order. */
  lemma {:induction false} ReadChunksSpec(file: seq<Byte>, size: nat)
    requires size > 0
    ensures Concat(ReadChunks(file, size)) == file
    decreases |file|
  {
    if file != [] && |file| > size {
      var rest := ReadChunks(file[size..], size);
      ReadChunksSpec(file[size..], size);
      assert ([file[..size]] + rest)[1..] == rest;
      assert file[..size] + file[size..] == file;
    }
  }

  lemma {:induction false} ConcatSnoc(chunks: seq<seq<Byte>>, c: seq<Byte>)
    ensures Concat(chunks + [c]) == Concat(chunks) + c
    decreases |chunks|
  {
    if chunks == [] {
      assert [] + [c] == [c];
      assert [c][1..] == [];
    } else {
      assert (chunks + [c])[1..] == chunks[1..] + [c];
      ConcatSnoc(chunks[1..], c);
    }
  }

  /**
   * The loop of `_adler32`: starting from 1, each chunk in file order is
   * folded in with zlib's resumable update. Whatever the chunks, the result
   * is the Adler-32 checksum of their concatenation.
   */
  method FoldChunks(chunks: seq<seq<Byte>>) returns (value: nat)
    ensures IsChecksum(value)
    ensures value == Adler32(Concat(chunks))
  {
    UpdateFromOne([]);
    value := 1;
    var i := 0;
    while i < |chunks|
      invariant 0 <= i <= |chunks|
      invariant IsChecksum(value)
      invariant value == Update(Concat(chunks[..i]), 1)
    {
      UpdateChain(Concat(chunks[..i]), chunks[i], 1);
      value := Update(chunks[i], value);
      ConcatSnoc(chunks[..i], chunks[i]);
      assert chunks[..i + 1] == chunks[..i] + [chunks[i]];
      i := i + 1;
    }
    assert chunks[..i] == chunks;
    UpdateFromOne(Concat(chunks));
  }

  /**
   * `_adler32` on a file holding `file`: the text is the rendering of the
   * file's Adler-32 checksum, so it reads back as that checksum.
   */
  method Adler32Hex(file: seq<Byte>) returns (hex: string)
    ensures hex == Render(Adler32(file))
    ensures AllHexDigits(hex) && HexValue(hex) == Adler32(file)
  {
    var chunks := ReadChunks(file, CHUNK_SIZE);
    ReadChunksSpec(file, CHUNK_SIZE);
    var value := FoldChunks(chunks);
    hex := Render(value);
    RenderSpec(value);
    DivModUnique(value, WORD, 0, value);
  }

  /** The checksum text of an empty file is "000001", six characters. */
  lemma EmptyFile()
    ensures Render(Adler32([])) == "000001"
  {
    assert Adler32([]) == 1;
    RenderOne();
  }
}
