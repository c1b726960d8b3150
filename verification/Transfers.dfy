/**
  Bodies and files that arrive in pieces: the bounded body reader of `transport.ts`, and the part
  arithmetic and completeness check of a video upload in `addons.rs`.
*/
module Transfers {
  import opened Common

  // ---------------------------------------------------------------- a bounded body

  datatype BodyError = TooLarge

  function Joined(chunks: seq<seq<Byte>>): seq<Byte>
    decreases |chunks|
  {
    if chunks == [] then [] else Joined(chunks[..|chunks| - 1]) + chunks[|chunks| - 1]
  }

  lemma {:induction false} JoinedGrows(chunks: seq<seq<Byte>>, i: nat)
    requires i <= |chunks|
    ensures |Joined(chunks[..i])| <= |Joined(chunks)|
    decreases |chunks|
  {
    if i == |chunks| {
      assert chunks[..i] == chunks;
    } else {
      assert chunks[..|chunks| - 1][..i] == chunks[..i];
      JoinedGrows(chunks[..|chunks| - 1], i);
    }
  }

  /** Copy a chunk into the buffer. */
  method SetAt(bytes: array<Byte>, part: seq<Byte>, offset: nat)
    requires offset + |part| <= bytes.Length
    modifies bytes
    ensures bytes[..offset + |part|] == old(bytes[..offset]) + part
    ensures bytes[offset + |part|..] == old(bytes[offset + |part|..])
  {
    forall j | 0 <= j < |part| {
      bytes[offset + j] := part[j];
    }
  }

  /** The whole body when neither the declared length nor the received bytes pass the limit. However
      the body is cut into chunks, the answer is the same. `declared` is none when the header is
      absent or not a number. */
  method ReadLimitedBody(declared: Option<real>, chunks: seq<seq<Byte>>, maxBytes: nat)
    returns (r: Result<seq<Byte>, BodyError>)
    ensures r == if (declared.Some? && declared.value > maxBytes as real) || |Joined(chunks)| > maxBytes
                 then Err(TooLarge) else Ok(Joined(chunks))
  {
    if declared.Some? && declared.value > maxBytes as real {
      return Err(TooLarge);
    }
    var parts: seq<seq<Byte>> := [];
    var size := 0;
    var i := 0;
    while i < |chunks|
      invariant 0 <= i <= |chunks| && parts == chunks[..i]
      invariant size == |Joined(parts)| <= maxBytes
    {
      assert chunks[..i + 1][..i] == chunks[..i];
      size := size + |chunks[i]|;
      i := i + 1;
      if size > maxBytes {
        JoinedGrows(chunks, i);
        return Err(TooLarge);
      }
      parts := parts + [chunks[i - 1]];
    }
    assert parts == chunks;
    var bytes := new Byte[size];
    var offset := 0;
    var k := 0;
    while k < |parts|
      invariant 0 <= k <= |parts| && offset == |Joined(parts[..k])| <= size == bytes.Length
      invariant bytes[..offset] == Joined(parts[..k])
    {
      assert parts[..k + 1][..k] == parts[..k];
      JoinedGrows(parts, k + 1);
      var part := parts[k];
      SetAt(bytes, part, offset);
      offset := offset + |part|;
      k := k + 1;
    }
    assert parts[..k] == parts && bytes[..] == bytes[..offset];
    r := Ok(bytes[..]);
  }

  // ---------------------------------------------------------------- the parts of a video

  const VIDEO_PART := 16 * 1024 * 1024

  function VideoParts(size: nat): nat { (size + VIDEO_PART - 1) / VIDEO_PART }

  function VideoPartLen(size: nat, n: nat): int {
    if size - (n - 1) * VIDEO_PART < VIDEO_PART then size - (n - 1) * VIDEO_PART else VIDEO_PART
  }

  datatype Part = Part(number: int, size: int)

  predicate Expected(size: nat, parts: seq<Part>, i: nat)
    requires i < |parts|
  {
    parts[i].number == i + 1 && parts[i].size == VideoPartLen(size, i + 1)
  }

  predicate Complete(size: nat, parts: seq<Part>) {
    |parts| == VideoParts(size) && forall i :: 0 <= i < |parts| ==> Expected(size, parts, i)
  }

  /** The check before an upload is completed, on the stored parts by number. */
  method VideoComplete(size: nat, parts: seq<Part>) returns (complete: bool)
    ensures complete == Complete(size, parts)
  {
    complete := |parts| == VideoParts(size);
    var i := 0;
    while complete && i < |parts|
      invariant 0 <= i <= |parts|
      invariant complete <==> |parts| == VideoParts(size) && forall k :: 0 <= k < i ==> Expected(size, parts, k)
    {
      complete := Expected(size, parts, i);
      i := i + 1;
    }
  }

  function Bytes(parts: seq<Part>): int
    decreases |parts|
  {
    if parts == [] then 0 else Bytes(parts[..|parts| - 1]) + parts[|parts| - 1].size
  }

  /** Numbered from one without a gap, all full but the last, and that one not empty. */
  predicate Cut(parts: seq<Part>) {
    && (forall i :: 0 <= i < |parts| ==> parts[i].number == i + 1)
    && (forall i :: 0 <= i < |parts| - 1 ==> parts[i].size == 16_777_216)
    && (parts != [] ==> 1 <= parts[|parts| - 1].size <= 16_777_216)
  }

  lemma {:induction false} FullBytes(parts: seq<Part>)
    requires forall i :: 0 <= i < |parts| ==> parts[i].size == VIDEO_PART
    ensures Bytes(parts) == |parts| * VIDEO_PART
    decreases |parts|
  {
    if parts != [] {
      FullBytes(parts[..|parts| - 1]);
    }
  }

  /** The stored parts are taken exactly when they are a cut of a file of the declared size: nothing
      missing, nothing twice, not a byte more or less. */
  lemma {:induction false} CompleteExactlyWhen(size: nat, parts: seq<Part>)
    requires size >= 1
    ensures Complete(size, parts) <==> Cut(parts) && Bytes(parts) == size
  {
    var n := |parts|;
    if n == 0 {
      assert VideoParts(size) != 0;
    } else {
      if Complete(size, parts) {
        forall i | 0 <= i < n - 1 ensures parts[i].size == VIDEO_PART {
          assert Expected(size, parts, i);
        }
        assert Expected(size, parts, n - 1);
        assert forall i :: 0 <= i < n && Expected(size, parts, i) ==> parts[i].number == i + 1;
        LastAndFull(parts);
      }
      if Cut(parts) && Bytes(parts) == size {
        LastAndFull(parts);
      }
    }
  }

  lemma {:induction false} LastAndFull(parts: seq<Part>)
    requires parts != [] && forall i :: 0 <= i < |parts| - 1 ==> parts[i].size == VIDEO_PART
    ensures Bytes(parts) == (|parts| - 1) * VIDEO_PART + parts[|parts| - 1].size
  {
    FullBytes(parts[..|parts| - 1]);
  }

}
