/** The cover download filter: bytes arrive in chunks, the first twelve decide whether it is an image. */
module ImageCheck {
  import opened Common

  type Bytes = seq<bv8>

  const COVER_DOWNLOAD_MAX_BYTES := 10 * 1024 * 1024
  const MAGIC_BYTES := 12

  predicate HasSupportedImageMagic(m: Bytes)
    requires |m| == MAGIC_BYTES
  {
    || (m[0] == 0x89 && m[1] == 0x50 && m[2] == 0x4E && m[3] == 0x47)  // PNG
    || (m[0] == 0xFF && m[1] == 0xD8 && m[2] == 0xFF)  // JPG
    || (m[0] == 0x42 && m[1] == 0x4D)  // BMP
    || (m[0] == 0x52 && m[1] == 0x49 && m[2] == 0x46 && m[3] == 0x46 &&  // "RIFF", then "WEBP"
        m[8] == 0x57 && m[9] == 0x45 && m[10] == 0x42 && m[11] == 0x50)
    || (m[0] == 0x00 && m[1] == 0x00 && m[2] == 0x01 && m[3] == 0x00)  // ICO
  }

  /** The first bytes of PNG, JPEG, BMP and icon files. */
  const SIGNATURES: seq<Bytes> := [[137, 80, 78, 71], [255, 216, 255], [66, 77], [0, 0, 1, 0]]

  /** The letters RIFF and WEBP, with the size of the file between them. */
  predicate IsWebp(m: Bytes) {
    |m| >= 12 && m[..4] == [82, 73, 70, 70] && m[8..12] == [87, 69, 66, 80]
  }

  /** Exactly these kinds of image are known. */
  lemma SupportedIff(m: Bytes)
    requires |m| == MAGIC_BYTES
    ensures HasSupportedImageMagic(m) <==> (exists i :: 0 <= i < |SIGNATURES| && SIGNATURES[i] <= m) || IsWebp(m)
  {
    assert SIGNATURES[0] <= m <==> m[0] == 137 && m[1] == 80 && m[2] == 78 && m[3] == 71;
    assert SIGNATURES[1] <= m <==> m[0] == 255 && m[1] == 216 && m[2] == 255;
    assert SIGNATURES[2] <= m <==> m[0] == 66 && m[1] == 77;
    assert SIGNATURES[3] <= m <==> m[0] == 0 && m[1] == 0 && m[2] == 1 && m[3] == 0;
    assert m[..4] == [82, 73, 70, 70] <==> m[0] == 82 && m[1] == 73 && m[2] == 70 && m[3] == 70;
    assert m[8..12] == [87, 69, 66, 80] <==> m[8] == 87 && m[9] == 69 && m[10] == 66 && m[11] == 80;
  }

  /** `file` is what has been written, once the file is open. */
  datatype Check = Check(buffer: Bytes, received: nat, checked: bool, valid: bool, file: Option<Bytes>)

  /** A chunk, and whether the file can be opened and written when the callback tries. */
  datatype Chunk = Chunk(data: Bytes, openOk: bool, writeOk: bool)

  const FRESH := Check([], 0, false, false, None)

  /** `ok` when curl is told that everything was taken. */
  datatype Outcome = Outcome(check: Check, ok: bool)

  function Write(c: Check, data: Bytes, writeOk: bool): Outcome {
    if data == [] then Outcome(c, true)
    else if c.file.Some? && writeOk then Outcome(c.(file := Some(c.file.value + data)), true)
    else Outcome(c, false)
  }

  function Judge(c: Check, chunk: Chunk): Outcome
    requires |c.buffer| == MAGIC_BYTES
  {
    var judged := c.(checked := true, valid := HasSupportedImageMagic(c.buffer));
    if !judged.valid || !chunk.openOk then Outcome(judged, false)
    else Write(judged.(file := Some([])), c.buffer, chunk.writeOk)
  }

  function Take(c: Check, chunk: Chunk): Outcome {
    var size := |chunk.data|;
    if size == 0 then Outcome(c, true)
    else if c.received + size > COVER_DOWNLOAD_MAX_BYTES then Outcome(c, false)
    else
      var counted := c.(received := c.received + size);
      if c.checked then
        if c.valid && c.file.Some? then Write(counted, chunk.data, chunk.writeOk) else Outcome(counted, false)
      else
        var n := if |c.buffer| < MAGIC_BYTES then Min(MAGIC_BYTES - |c.buffer|, size) else 0;
        var filled := counted.(buffer := c.buffer + chunk.data[..n]);
        if |filled.buffer| != MAGIC_BYTES then Outcome(filled, true)
        else
          var judged := Judge(filled, chunk);
          if judged.ok then Write(judged.check, chunk.data[n..], chunk.writeOk) else judged
  }

  /** curl stops at the first chunk that was not taken whole. */
  function Transfer(chunks: seq<Chunk>): Outcome {
    if chunks == [] then Outcome(FRESH, true)
    else
      var before := Transfer(chunks[..|chunks| - 1]);
      if before.ok then Take(before.check, chunks[|chunks| - 1]) else before
  }

  /** The decision after the transfer. */
  predicate Accepts(chunks: seq<Chunk>, httpOk: bool, closeOk: bool) {
    var end := Transfer(chunks);
    end.ok && httpOk && end.check.checked && end.check.valid && closeOk
  }

  class ImageCheckContext {
    const buffer: array<bv8>
    var bufferLen: nat
    var received: nat
    var checked: bool
    var valid: bool
    var file: Option<Bytes>

    ghost predicate Valid()
      reads this
    {
      buffer.Length == MAGIC_BYTES && bufferLen <= MAGIC_BYTES && received <= COVER_DOWNLOAD_MAX_BYTES &&
      (!checked ==> bufferLen < MAGIC_BYTES && file.None?)
    }

    ghost function State(): Check
      reads this, buffer
      requires Valid()
    {
      Check(buffer[..bufferLen], received, checked, valid, file)
    }

    constructor ()
      ensures Valid() && State() == FRESH && fresh(buffer)
    {
      buffer := new bv8[MAGIC_BYTES];
      bufferLen, received, checked, valid, file := 0, 0, false, false, None;
    }

    method WriteImageData(data: Bytes, writeOk: bool) returns (ok: bool)
      requires Valid() && checked && (data != [] ==> file.Some?)
      modifies this`file
      ensures Valid() && Outcome(State(), ok) == Write(old(State()), data, writeOk)
    {
      if |data| == 0 {
        return true;
      }
      if !writeOk {
        return false;
      }
      file := Some(file.value + data);
      return true;
    }

    /** Copies what is still missing of the first bytes. */
    method FillBuffer(data: Bytes) returns (copied: nat)
      requires Valid() && !checked && data != []
      modifies this`bufferLen, buffer
      ensures buffer.Length == MAGIC_BYTES && bufferLen <= MAGIC_BYTES
      ensures copied == Min(MAGIC_BYTES - old(bufferLen), |data|)
      ensures buffer[..bufferLen] == old(buffer[..bufferLen]) + data[..copied]
    {
      var needed := MAGIC_BYTES - bufferLen;
      copied := Min(needed, |data|);
      for i := 0 to copied
        invariant bufferLen == old(bufferLen) && buffer[..bufferLen] == old(buffer[..bufferLen])
        invariant buffer[bufferLen..bufferLen + i] == data[..i]
      {
        buffer[bufferLen + i] := data[i];
      }
      bufferLen := bufferLen + copied;
    }

    /** image_write_callback: returns how many bytes were taken; curl goes on if that is all of them. */
    method Callback(chunk: Chunk) returns (taken: nat)
      requires Valid()
      modifies this, buffer
      ensures Valid()
      ensures Outcome(State(), taken == |chunk.data|) == Take(old(State()), chunk)
    {
      ghost var before := State();
      var data := chunk.data;
      if |data| == 0 {
        return 0;
      }
      if received > COVER_DOWNLOAD_MAX_BYTES || |data| > COVER_DOWNLOAD_MAX_BYTES - received {
        return 0;
      }
      received := received + |data|;
      if checked {
        if !valid || file.None? {
          return 0;
        }
        var written := WriteImageData(data, chunk.writeOk);
        return if written then |data| else 0;
      }
      var copied := FillBuffer(data);
      if bufferLen == MAGIC_BYTES {
        assert buffer[..] == buffer[..bufferLen] == before.buffer + data[..copied];
        checked := true;
        valid := HasSupportedImageMagic(buffer[..]);
        if !valid {
          return 0;
        }
        if !chunk.openOk {
          return 0;
        }
        file := Some([]);
        var flushed := WriteImageData(buffer[..], chunk.writeOk);
        if !flushed {
          return 0;
        }
        if |data| > copied {
          var written := WriteImageData(data[copied..], chunk.writeOk);
          if !written {
            return 0;
          }
        }
      }
      return |data|;
    }
  }

  // ---------------------------------------------------------------- chunking does not matter

  ghost function Stream(chunks: seq<Chunk>): Bytes {
    if chunks == [] then [] else Stream(chunks[..|chunks| - 1]) + chunks[|chunks| - 1].data
  }

  /** The test on the whole stream. */
  ghost predicate IsImage(s: Bytes) {
    MAGIC_BYTES <= |s| <= COVER_DOWNLOAD_MAX_BYTES && HasSupportedImageMagic(s[..MAGIC_BYTES])
  }

  /** In numbers and letters. */
  lemma IsImageIff(s: Bytes)
    ensures IsImage(s) <==>
              12 <= |s| <= 10485760 && ((exists i :: 0 <= i < |SIGNATURES| && SIGNATURES[i] <= s) || IsWebp(s))
  {
    if |s| >= 12 {
      var head := s[..12];
      SupportedIff(head);
      forall i | 0 <= i < |SIGNATURES| ensures SIGNATURES[i] <= s <==> SIGNATURES[i] <= head {
        assert |SIGNATURES[i]| <= 4;
      }
      assert head[..4] == s[..4] && head[8..12] == s[8..12];
    }
  }

  ghost predicate DiskObliges(chunks: seq<Chunk>) {
    forall i :: 0 <= i < |chunks| ==> chunks[i].openOk && chunks[i].writeOk
  }

  /** Where the filter stands after taking all of this. */
  ghost predicate Tracks(c: Check, s: Bytes) {
    && c.received == |s| <= COVER_DOWNLOAD_MAX_BYTES
    && (if |s| < MAGIC_BYTES then c == Check(s, |s|, false, false, None)
        else c == Check(s[..MAGIC_BYTES], |s|, true, true, Some(s)) && HasSupportedImageMagic(s[..MAGIC_BYTES]))
  }

  /** No image of allowed size starts like this. */
  ghost predicate Hopeless(s: Bytes) {
    |s| > COVER_DOWNLOAD_MAX_BYTES || (|s| >= MAGIC_BYTES && !HasSupportedImageMagic(s[..MAGIC_BYTES]))
  }

  ghost predicate Follows(o: Outcome, s: Bytes, chunk: Chunk) {
    (o.ok ==> Tracks(o.check, s)) && (!o.ok && chunk.openOk && chunk.writeOk ==> Hopeless(s))
  }

  lemma TakeAfterCheck(c: Check, s: Bytes, chunk: Chunk)
    requires Tracks(c, s) && |s| >= MAGIC_BYTES
    ensures Follows(Take(c, chunk), s + chunk.data, chunk)
  {
    assert (s + chunk.data)[..MAGIC_BYTES] == s[..MAGIC_BYTES];
    assert chunk.data == [] ==> s + chunk.data == s;
  }

  lemma TakeBeforeCheck(c: Check, s: Bytes, chunk: Chunk)
    requires Tracks(c, s) && |s| + |chunk.data| < MAGIC_BYTES
    ensures Follows(Take(c, chunk), s + chunk.data, chunk)
  {
    assert chunk.data[..|chunk.data|] == chunk.data;
    assert chunk.data == [] ==> s + chunk.data == s;
  }

  lemma JudgedHead(head: Bytes, received: nat, chunk: Chunk)
    requires |head| == MAGIC_BYTES
    ensures var o := Judge(Check(head, received, false, false, None), chunk);
      && (o.ok ==> o.check == Check(head, received, true, true, Some(head)) && HasSupportedImageMagic(head))
      && (!o.ok && chunk.openOk && chunk.writeOk ==> !HasSupportedImageMagic(head))
  {
    assert [] + head == head;
  }

  /** The chunk that fills the buffer: its first bytes complete it, the rest is written behind. */
  lemma TakeSplits(c: Check, s: Bytes, chunk: Chunk, head: Bytes, tail: Bytes)
    requires Tracks(c, s) && |s| < MAGIC_BYTES <= |s| + |chunk.data| <= COVER_DOWNLOAD_MAX_BYTES
    requires head == s + chunk.data[..MAGIC_BYTES - |s|] && tail == chunk.data[MAGIC_BYTES - |s|..]
    ensures var judged := Judge(Check(head, |s| + |chunk.data|, false, false, None), chunk);
      Take(c, chunk) == if judged.ok then Write(judged.check, tail, chunk.writeOk) else judged
  {
  }

  lemma TakeAtCheck(c: Check, s: Bytes, chunk: Chunk)
    requires Tracks(c, s) && |s| < MAGIC_BYTES <= |s| + |chunk.data|
    ensures Follows(Take(c, chunk), s + chunk.data, chunk)
  {
    var whole := s + chunk.data;
    var head, tail := s + chunk.data[..MAGIC_BYTES - |s|], chunk.data[MAGIC_BYTES - |s|..];
    assert whole[..MAGIC_BYTES] == head && head + tail == whole;
    assert tail == [] ==> head == whole;
    if |whole| <= COVER_DOWNLOAD_MAX_BYTES {
      TakeSplits(c, s, chunk, head, tail);
      JudgedHead(head, |whole|, chunk);
    }
  }

  lemma TakeTracks(c: Check, s: Bytes, chunk: Chunk)
    requires Tracks(c, s)
    ensures Follows(Take(c, chunk), s + chunk.data, chunk)
  {
    if |s| >= MAGIC_BYTES {
      TakeAfterCheck(c, s, chunk);
    } else if |s| + |chunk.data| < MAGIC_BYTES {
      TakeBeforeCheck(c, s, chunk);
    } else {
      TakeAtCheck(c, s, chunk);
    }
  }

  lemma {:induction false} TransferTracks(chunks: seq<Chunk>)
    ensures Transfer(chunks).ok ==> Tracks(Transfer(chunks).check, Stream(chunks))
  {
    if chunks == [] {
    } else {
      var earlier := chunks[..|chunks| - 1];
      TransferTracks(earlier);
      if Transfer(earlier).ok {
        TakeTracks(Transfer(earlier).check, Stream(earlier), chunks[|chunks| - 1]);
      }
    }
  }

  /** If the disk obliges, the transfer only stops early for a stream no continuation of which is an
      image of allowed size. */
  lemma {:induction false} StopIsDeserved(chunks: seq<Chunk>)
    requires DiskObliges(chunks)
    ensures !Transfer(chunks).ok ==> !IsImage(Stream(chunks)) && |Stream(chunks)| >= MAGIC_BYTES
  {
    if chunks == [] {
    } else {
      var earlier, last := chunks[..|chunks| - 1], chunks[|chunks| - 1];
      StopIsDeserved(earlier);
      TransferTracks(earlier);
      var s := Stream(earlier);
      if Transfer(earlier).ok {
        TakeTracks(Transfer(earlier).check, s, last);
      } else {
        assert (s + last.data)[..MAGIC_BYTES] == s[..MAGIC_BYTES];
      }
    }
  }

  /** Every way of cutting a stream into chunks gives the same verdict, that of the test on the whole
      stream: at least twelve bytes, a known signature in the first twelve, at most 10 MiB. */
  lemma ChunkingDoesNotMatter(chunks: seq<Chunk>)
    requires DiskObliges(chunks)
    ensures Accepts(chunks, true, true) <==> IsImage(Stream(chunks))
  {
    TransferTracks(chunks);
    StopIsDeserved(chunks);
  }

  /** And whatever the disk does, what is accepted is an image and was written whole. */
  lemma AcceptedMeansWholeImage(chunks: seq<Chunk>, httpOk: bool, closeOk: bool)
    requires Accepts(chunks, httpOk, closeOk)
    ensures IsImage(Stream(chunks)) && httpOk && closeOk
    ensures Transfer(chunks).check.file == Some(Stream(chunks))
  {
    TransferTracks(chunks);
  }
}
