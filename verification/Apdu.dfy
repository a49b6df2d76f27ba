/** The host's side of signing: a derivation path as bytes, and a message cut into APDU chunks. */
module Apdu {
  import opened Powers
  import opened PathText

  type Byte = x: int | 0 <= x < 256
  type U32 = x: int | 0 <= x < 0x1_0000_0000

  const HARDENED_BIT: nat := 0x8000_0000
  const MAX_APDU_DATA: nat := 255
  const P1_FIRST: Byte := 0x00
  const P1_CONTINUATION: Byte := 0x80
  const P2_LAST: Byte := 0x00
  const P2_MORE: Byte := 0x80

  datatype Chunk = Chunk(p1: Byte, p2: Byte, data: seq<Byte>)

  /** The index with its hardened bit, within 32 bits. */
  function Hardened(index: int): (h: U32)
    ensures HARDENED_BIT <= h
  {
    HARDENED_BIT + index % HARDENED_BIT
  }

  /** A 32-bit word, most significant byte first. */
  function Word(n: U32): (bytes: seq<Byte>)
    ensures |bytes| == 4
  {
    [n / 0x100_0000, n / 0x1_0000 % 0x100, n / 0x100 % 0x100, n % 0x100]
  }

  function Words(path: seq<U32>): (bytes: seq<Byte>)
    ensures |bytes| == 4 * |path|
  {
    if path == [] then [] else Words(path[..|path| - 1]) + Word(path[|path| - 1])
  }

  function PathOf(components: seq<Component>): (path: seq<U32>)
    ensures |path| == |components| && forall i :: 0 <= i < |path| ==> HARDENED_BIT <= path[i]
  {
    seq(|components|, i requires 0 <= i < |components| => Hardened(components[i].index))
  }

  /** A count, wrapped to a byte, and every component as a word. */
  function PathBytes(components: seq<Component>): seq<Byte> {
    [|components| % 256] + Words(PathOf(components))
  }

  datatype Encoded = Encoded(bytes: seq<Byte>) | NotHardened(component: nat)

  /** Read a path, and fill the buffer word by word once every component is known to be hardened. */
  method EncodeDerivationPath(path: string) returns (r: Encoded)
    ensures var components := ComponentsOf(path);
      && (r.Encoded? <==> forall c :: c in components ==> c.marked)
      && (r.Encoded? ==> r.bytes == PathBytes(components))
      && (r.NotHardened? ==> r.component < |components| && !components[r.component].marked)
      && (r.NotHardened? ==> forall i :: 0 <= i < r.component ==> components[i].marked)
  {
    hide ComponentsOf, PathBytes;
    var components := ComponentsOf(path);
    for i := 0 to |components|
      invariant forall j :: 0 <= j < i ==> components[j].marked
    {
      if !components[i].marked {
        return NotHardened(i);
      }
    }
    var bytes := FillPath(components);
    r := Encoded(bytes);
  }

  method FillPath(components: seq<Component>) returns (bytes: seq<Byte>)
    ensures bytes == PathBytes(components)
  {
    hide Word, Hardened, Words;
    NoWords();
    var buffer := new Byte[1 + |components| * 4](_ => 0);
    buffer[0] := |components| % 256;
    ghost var words := PathOf(components);
    for i := 0 to |components|
      invariant buffer[0] == |components| % 256
      invariant buffer[1..1 + 4 * i] == Words(words[..i])
    {
      var word := Word(Hardened(components[i].index));
      SetWord(buffer, 1 + 4 * i, word);
      WordsNext(words, i);
      assert buffer[1..1 + 4 * (i + 1)] == buffer[1..1 + 4 * i] + buffer[1 + 4 * i..1 + 4 * (i + 1)];
    }
    assert words[..|components|] == words;
    assert buffer[..] == [buffer[0]] + buffer[1..1 + 4 * |components|];
    bytes := buffer[..];
  }

  lemma NoWords()
    ensures Words([]) == []
  {
  }

  lemma WordsNext(path: seq<U32>, i: nat)
    requires i < |path|
    ensures Words(path[..i + 1]) == Words(path[..i]) + Word(path[i])
  {
    assert path[..i + 1][..i] == path[..i];
  }

  method SetWord(buffer: array<Byte>, at: nat, word: seq<Byte>)
    requires |word| == 4 && at + 4 <= buffer.Length
    modifies buffer
    ensures buffer[at..at + 4] == word
    ensures forall j :: 0 <= j < buffer.Length && !(at <= j < at + 4) ==> buffer[j] == old(buffer[j])
  {
    buffer[at], buffer[at + 1], buffer[at + 2], buffer[at + 3] := word[0], word[1], word[2], word[3];
  }

  // ---------------------------------------------------------------- chunks

  function Min(a: int, b: int): int {
    if a < b then a else b
  }

  /** The continuation chunks from an offset on. */
  function ChunksFrom(message: seq<Byte>, offset: nat): seq<Chunk>
    decreases |message| - offset
  {
    if offset >= |message| then []
    else
      var end := Min(offset + MAX_APDU_DATA, |message|);
      [Chunk(P1_CONTINUATION, if end >= |message| then P2_LAST else P2_MORE, message[offset..end])] + ChunksFrom(message, end)
  }

  /** The path and as much of the message as fits, then the rest. */
  function ChunksOf(pathBytes: seq<Byte>, message: seq<Byte>): seq<Chunk>
    requires |pathBytes| <= MAX_APDU_DATA
  {
    var first := Min(MAX_APDU_DATA - |pathBytes|, |message|);
    [Chunk(P1_FIRST, if first >= |message| then P2_LAST else P2_MORE, pathBytes + message[..first])] + ChunksFrom(message, MAX_APDU_DATA - |pathBytes|)
  }

  /** A part of a byte array between two offsets, negative ones counted from its end. */
  function Slice(bytes: seq<Byte>, start: int, end: int): (r: seq<Byte>)
    ensures 0 <= start <= end <= |bytes| ==> r == bytes[start..end]
    ensures |r| <= |bytes|
  {
    var a, b := Offset(|bytes|, start), Offset(|bytes|, end);
    if a < b then bytes[a..b] else []
  }

  function Offset(size: nat, at: int): (offset: nat)
    ensures offset <= size
  {
    if at >= 0 then Min(at, size) else if size + at >= 0 then size + at else 0
  }

  /** The chunks, unless the encoder never comes to an end. */
  datatype Chunked = Cut(chunks: seq<Chunk>) | NeverEnds

  /** What follows some chunks already cut. */
  function Joined(chunks: seq<Chunk>, rest: Chunked): Chunked {
    if rest.Cut? then Cut(chunks + rest.chunks) else NeverEnds
  }

  /** What the loop makes of a message from an offset on, which is negative when the path left no room. An empty
      slice leaves the offset where it was, so it is taken again and again. */
  function LoopFrom(message: seq<Byte>, offset: int): Chunked
    decreases |message| - offset
  {
    if offset >= |message| then Cut([])
    else
      var slice := Slice(message, offset, offset + MAX_APDU_DATA);
      if slice == [] then NeverEnds
      else
        var next := offset + |slice|;
        Joined([Chunk(P1_CONTINUATION, if next >= |message| then P2_LAST else P2_MORE, slice)], LoopFrom(message, next))
  }

  function FirstOf(pathBytes: seq<Byte>, message: seq<Byte>): Chunk {
    var first := Slice(message, 0, MAX_APDU_DATA - |pathBytes|);
    Chunk(P1_FIRST, if |first| >= |message| then P2_LAST else P2_MORE, pathBytes + first)
  }

  /** All that the encoder makes of path bytes and a message, of whatever lengths. */
  function EncodingOf(pathBytes: seq<Byte>, message: seq<Byte>): Chunked {
    Joined([FirstOf(pathBytes, message)], LoopFrom(message, MAX_APDU_DATA - |pathBytes|))
  }

  /** Whether the encoder comes to an end: it does when the path leaves room, or is no longer than an APDU with
      as much again and the message is short but not empty; past that, when the message is longer than the excess
      and not just some power of two times what it has beyond it. */
  ghost predicate Ends(pathSize: nat, messageSize: nat) {
    || pathSize <= MAX_APDU_DATA
    || (0 < messageSize < MAX_APDU_DATA && EndsPast(pathSize - 2 * MAX_APDU_DATA, messageSize))
  }

  ghost predicate EndsPast(excess: int, messageSize: nat) {
    excess < 0 || (excess < messageSize && !PowerTimes(messageSize - excess, messageSize))
  }

  /** Whether doubling `part` again and again comes to `whole`. */
  ghost predicate PowerTimes(part: nat, whole: nat) {
    exists k: nat :: whole == Pow2(k) * part
  }

  method EncodeSignMessageChunks(pathBytes: seq<Byte>, message: seq<Byte>) returns (r: Chunked)
    ensures r == EncodingOf(pathBytes, message)
    ensures r.Cut? <==> Ends(|pathBytes|, |message|)
    ensures |pathBytes| <= MAX_APDU_DATA ==> r == Cut(ChunksOf(pathBytes, message))
    ensures r.Cut? ==> (WellCut(r.chunks) <==> |pathBytes| <= MAX_APDU_DATA && pathBytes + message != [])
  {
    hide Slice, Ends, WellCut, ChunksOf;
    var capacity := MAX_APDU_DATA - |pathBytes|;
    var first := Slice(message, 0, capacity);
    var isOnly := |first| >= |message|;
    var chunks := [Chunk(P1_FIRST, if isOnly then P2_LAST else P2_MORE, pathBytes + first)];
    EndsIff(pathBytes, message);
    WellCutIff(pathBytes, message);
    var offset := capacity;
    while offset < |message|
      invariant Joined(chunks, LoopFrom(message, offset)) == EncodingOf(pathBytes, message)
      decreases |message| - offset
    {
      var slice := Slice(message, offset, offset + MAX_APDU_DATA);
      if slice == [] {
        return NeverEnds;
      }
      offset := offset + |slice|;
      var isFinal := offset >= |message|;
      var chunk := Chunk(P1_CONTINUATION, if isFinal then P2_LAST else P2_MORE, slice);
      JoinedNext(chunks, chunk, LoopFrom(message, offset));
      chunks := chunks + [chunk];
    }
    r := Cut(chunks);
  }

  lemma JoinedNext(chunks: seq<Chunk>, chunk: Chunk, rest: Chunked)
    ensures Joined(chunks, Joined([chunk], rest)) == Joined(chunks + [chunk], rest)
  {
    if rest.Cut? {
      assert chunks + ([chunk] + rest.chunks) == chunks + [chunk] + rest.chunks;
    }
  }

  // ---------------------------------------------------------------- path bytes that leave room

  lemma {:induction false} LoopCuts(message: seq<Byte>, offset: nat)
    ensures LoopFrom(message, offset) == Cut(ChunksFrom(message, offset))
    decreases |message| - offset
  {
    if offset < |message| {
      var end := Min(offset + MAX_APDU_DATA, |message|);
      assert Slice(message, offset, offset + MAX_APDU_DATA) == message[offset..end];
      LoopCuts(message, end);
    }
  }

  lemma EncodingFits(pathBytes: seq<Byte>, message: seq<Byte>)
    requires |pathBytes| <= MAX_APDU_DATA
    ensures EncodingOf(pathBytes, message) == Cut(ChunksOf(pathBytes, message))
  {
    LoopCuts(message, MAX_APDU_DATA - |pathBytes|);
  }

  // ---------------------------------------------------------------- path bytes that leave none

  /** The same from an offset: a negative one is where in the message's own end the loop stands. */
  ghost predicate EndsFrom(offset: int, messageSize: nat) {
    offset >= 0 || (0 < messageSize < MAX_APDU_DATA && EndsPast(-(offset + MAX_APDU_DATA), messageSize))
  }

  lemma Doubled(part: nat, whole: nat)
    requires 0 < part < whole
    ensures PowerTimes(part, whole) <==> 2 * part <= whole && PowerTimes(2 * part, whole)
  {
    hide Pow2;
    if k: nat :| whole == Pow2(k) * part {
      Halved(part, whole, k);
    }
    if k: nat :| whole == Pow2(k) * (2 * part) {
      PowerNext(k, part);
    }
  }

  lemma Halved(part: nat, whole: nat, k: nat)
    requires 0 < part < whole && whole == Pow2(k) * part
    ensures 2 * part <= whole && PowerTimes(2 * part, whole)
  {
    PowerNext(k - 1, part);
    Scales(Pow2(k - 1), 2 * part);
  }

  lemma PowerNext(k: nat, part: nat)
    ensures Pow2(k + 1) * part == Pow2(k) * (2 * part)
  {
  }

  lemma Scales(times: nat, part: nat)
    requires times > 0
    ensures times * part >= part
  {
  }

  /** What one slice from a negative offset is: short of an APDU's length from the end of the message, all of it
      that the offset has not passed; further out, what the message has beyond the excess, while it has any. */
  lemma SliceFrom(message: seq<Byte>, offset: int)
    requires offset < 0
    ensures var n, excess, slice := |message|, -(offset + MAX_APDU_DATA), Slice(message, offset, offset + MAX_APDU_DATA);
      && (n == 0 || (n >= MAX_APDU_DATA && excess <= 0) || excess >= n || excess == 0 ==> slice == [])
      && (0 < n < MAX_APDU_DATA && excess < 0 ==> slice != [])
      && (excess > 0 ==> offset + |slice| < 0)
      && (0 < n < MAX_APDU_DATA && 0 < excess < n ==> |slice| == n - excess)
  {
  }

  /** One turn of the loop keeps whether it ends. */
  lemma EndsNext(message: seq<Byte>, offset: int)
    requires offset < 0
    ensures var slice := Slice(message, offset, offset + MAX_APDU_DATA);
      if slice == [] then !EndsFrom(offset, |message|) else EndsFrom(offset + |slice|, |message|) == EndsFrom(offset, |message|)
  {
    hide Slice, PowerTimes;
    var n, excess, slice := |message|, -(offset + MAX_APDU_DATA), Slice(message, offset, offset + MAX_APDU_DATA);
    SliceFrom(message, offset);
    if 0 < n < MAX_APDU_DATA && 0 < excess < n {
      Doubled(n - excess, n);
      assert -(offset + |slice| + MAX_APDU_DATA) == 2 * excess - n;
      if 2 * excess >= n {
        assert n - (2 * excess - n) == 2 * (n - excess);
        if 2 * excess == n {
          Whole(n);
        }
      }
    } else if excess == 0 {
      Whole(n);
    }
  }

  lemma Whole(n: nat)
    ensures PowerTimes(n, n)
  {
    assert n == Pow2(0) * n;
  }

  lemma {:induction false} LoopEndsIff(message: seq<Byte>, offset: int)
    ensures LoopFrom(message, offset).Cut? <==> EndsFrom(offset, |message|)
    decreases |message| - offset
  {
    hide Slice, EndsPast;
    if offset >= 0 {
      LoopCuts(message, offset);
    } else {
      var slice := Slice(message, offset, offset + MAX_APDU_DATA);
      EndsNext(message, offset);
      if slice != [] {
        LoopEndsIff(message, offset + |slice|);
      }
    }
  }

  /** Exactly when the encoder ends, for path bytes and messages of every length. */
  lemma EndsIff(pathBytes: seq<Byte>, message: seq<Byte>)
    ensures EncodingOf(pathBytes, message).Cut? <==> Ends(|pathBytes|, |message|)
  {
    hide EndsPast;
    LoopEndsIff(message, MAX_APDU_DATA - |pathBytes|);
  }

  // ---------------------------------------------------------------- chunks as an APDU takes them

  /** Every chunk holds something and fits an APDU, and only the last says there is no more. */
  predicate WellCut(chunks: seq<Chunk>) {
    && chunks != []
    && (forall i :: 0 <= i < |chunks| ==> 1 <= |chunks[i].data| <= MAX_APDU_DATA)
    && (forall i :: 0 <= i < |chunks| ==> (chunks[i].p2 == P2_LAST <==> i == |chunks| - 1))
    && (forall i :: 0 <= i < |chunks| ==> (chunks[i].p1 == P1_FIRST <==> i == 0))
  }

  lemma {:induction false} RestWellCut(message: seq<Byte>, offset: nat)
    ensures var rest := ChunksFrom(message, offset);
      && (rest == [] <==> offset >= |message|)
      && (forall i :: 0 <= i < |rest| ==> 1 <= |rest[i].data| <= MAX_APDU_DATA && rest[i].p1 == P1_CONTINUATION)
      && (forall i :: 0 <= i < |rest| ==> (rest[i].p2 == P2_LAST <==> i == |rest| - 1))
    decreases |message| - offset
  {
    if offset < |message| {
      RestWellCut(message, Min(offset + MAX_APDU_DATA, |message|));
    }
  }

  lemma ChunksWellCut(pathBytes: seq<Byte>, message: seq<Byte>)
    requires |pathBytes| <= MAX_APDU_DATA
    ensures WellCut(ChunksOf(pathBytes, message)) <==> pathBytes + message != []
  {
    RestWellCut(message, MAX_APDU_DATA - |pathBytes|);
    assert ChunksOf(pathBytes, message)[0].data == pathBytes + message[..Min(MAX_APDU_DATA - |pathBytes|, |message|)];
  }

  /** What the encoder ends with is well cut exactly when the path leaves room and there is something to send. */
  lemma WellCutIff(pathBytes: seq<Byte>, message: seq<Byte>)
    ensures |pathBytes| <= MAX_APDU_DATA ==> EncodingOf(pathBytes, message) == Cut(ChunksOf(pathBytes, message))
    ensures var r := EncodingOf(pathBytes, message);
      r.Cut? ==> (WellCut(r.chunks) <==> |pathBytes| <= MAX_APDU_DATA && pathBytes + message != [])
  {
    hide LoopFrom, Slice, ChunksOf;
    if |pathBytes| <= MAX_APDU_DATA {
      EncodingFits(pathBytes, message);
      ChunksWellCut(pathBytes, message);
    } else if EncodingOf(pathBytes, message).Cut? {
      assert |EncodingOf(pathBytes, message).chunks[0].data| > MAX_APDU_DATA;
    }
  }

  /** A path of sixty-four components or more sends the encoder round for ever on an empty message and on any that
      fills an APDU. */
  lemma LongPathSpins(components: seq<Component>, message: seq<Byte>)
    requires 64 <= |components| && (message == [] || |message| >= MAX_APDU_DATA)
    ensures EncodingOf(PathBytes(components), message) == NeverEnds
  {
    EndsIff(PathBytes(components), message);
  }
}
