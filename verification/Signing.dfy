/** Both sides of signing: what the host cuts up, the device puts back together. */
module Signing {
  import opened PathText
  import opened Apdu
  import opened Device

  /** The context after each chunk in turn, with what was answered to the last. */
  function Fed(c: Context, chunks: seq<Chunk>): (r: Context)
    requires Fits(c)
    ensures Fits(r)
  {
    if chunks == [] then c else Step(Fed(c, chunks[..|chunks| - 1]), chunks[|chunks| - 1]).0
  }

  function Step(c: Context, chunk: Chunk): (r: (Context, Response))
    requires Fits(c)
    ensures Fits(r.0)
  {
    Handled(c, chunk)
  }

  /** What the device answers to one chunk of several. */
  function Answer(c: Context, chunks: seq<Chunk>, i: nat): Response
    requires Fits(c) && i < |chunks|
  {
    Step(Fed(c, chunks[..i]), chunks[i]).1
  }

  // ---------------------------------------------------------------- paths

  lemma WordBack(n: U32, data: seq<Byte>, at: nat)
    requires at + 4 <= |data| && data[at..at + 4] == Word(n)
    ensures WordAt(data, at) == n
  {
    var w := data[at..at + 4];
    assert data[at] == w[0] && data[at + 1] == w[1] && data[at + 2] == w[2] && data[at + 3] == w[3];
    Digits(n);
  }

  lemma Digits(n: nat)
    ensures n / 0x100_0000 * 0x100_0000 + n / 0x1_0000 % 0x100 * 0x1_0000 + n / 0x100 % 0x100 * 0x100 + n % 0x100 == n
  {
    assert n / 0x1_0000 == n / 0x100_0000 * 0x100 + n / 0x1_0000 % 0x100;
    assert n / 0x100 == n / 0x1_0000 * 0x100 + n / 0x100 % 0x100;
  }

  lemma {:induction false} WordsAt(path: seq<U32>, i: nat)
    requires i < |path|
    ensures Words(path)[4 * i..4 * i + 4] == Word(path[i])
  {
    var n := |path| - 1;
    if i < n {
      WordsAt(path[..n], i);
      assert Words(path)[4 * i..4 * i + 4] == Words(path[..n])[4 * i..4 * i + 4];
    }
  }

  /** The device reads back each component the host wrote. */
  lemma {:induction false} ComponentRead(components: seq<Component>, rest: seq<Byte>, i: nat)
    requires i < |components|
    ensures var data := PathBytes(components) + rest;
      1 + 4 * i + 4 <= |data| && WordAt(data, 1 + 4 * i) == Hardened(components[i].index)
  {
    var words := Words(PathOf(components));
    var data := PathBytes(components) + rest;
    WordsAt(PathOf(components), i);
    assert data[1 + 4 * i..1 + 4 * i + 4] == words[4 * i..4 * i + 4];
    WordBack(PathOf(components)[i], data, 1 + 4 * i);
  }

  lemma {:induction false} PathRead(components: seq<Component>, rest: seq<Byte>)
    requires 1 <= |components| <= MAX_BIP32_PATH_LEN && |PathBytes(components) + rest| <= MAX_APDU_DATA
    ensures var data := PathBytes(components) + rest;
      PathSize(data) == |PathBytes(components)| && data[0] == |components| && AllHardened(data, |components|)
  {
    var data := PathBytes(components) + rest;
    forall i | 0 <= i < |components| ensures WordAt(data, 1 + 4 * i) >= HARDENED_BIT {
      ComponentRead(components, rest, i);
    }
  }

  lemma {:induction false} PathKept(components: seq<Component>, rest: seq<Byte>, path: seq<U32>, n: nat)
    requires 1 <= |components| <= MAX_BIP32_PATH_LEN && |PathBytes(components) + rest| <= MAX_APDU_DATA
    requires |path| == MAX_BIP32_PATH_LEN && n <= |components|
    ensures var data := PathBytes(components) + rest;
      PathSize(data) >= 0 && data[0] == |components| && PathWritten(data, path, n)[..n] == PathOf(components)[..n]
  {
    hide PathBytes;
    PathRead(components, rest);
    if n > 0 {
      PathKept(components, rest, path, n - 1);
      ComponentRead(components, rest, n - 1);
      var data := PathBytes(components) + rest;
      var before := PathWritten(data, path, n - 1);
      assert PathWritten(data, path, n)[..n] == before[..n - 1] + [WordAt(data, 1 + 4 * (n - 1))];
      assert PathOf(components)[..n] == PathOf(components)[..n - 1] + [PathOf(components)[n - 1]];
    }
  }

  // ---------------------------------------------------------------- whole messages

  /** The device has this path and this much of the message. */
  predicate Holds(c: Context, components: seq<Component>, message: seq<Byte>) {
    Fits(c) && c.request == SignMessage && PathIn(c) == PathOf(components) && c.message == message
  }

  lemma {:induction false} FirstHeld(c: Context, components: seq<Component>, message: seq<Byte>)
    requires Fits(c) && 1 <= |components| <= MAX_BIP32_PATH_LEN
    ensures var pathBytes := PathBytes(components);
      var chunk := ChunksOf(pathBytes, message)[0];
      && |pathBytes| <= 21
      && Holds(Step(c, chunk).0, components, message[..Min(MAX_APDU_DATA - |pathBytes|, |message|)])
      && Step(c, chunk).1 == if chunk.p2 == P2_MORE then Ok else Review
  {
    hide PathWritten, AllHardened, PathBytes, PathOf;
    BytesOf(components);
    var pathBytes := PathBytes(components);
    var slice := message[..Min(MAX_APDU_DATA - |pathBytes|, |message|)];
    PathRead(components, slice);
    PathKept(components, slice, c.path, |components|);
    var data := pathBytes + slice;
    assert data[|pathBytes|..|pathBytes| + |slice|] == slice;
    assert PathOf(components)[..|components|] == PathOf(components);
  }

  lemma BytesOf(components: seq<Component>)
    ensures |PathBytes(components)| == 1 + 4 * |components|
  {
  }

  lemma {:induction false} RestHeld(c: Context, components: seq<Component>, message: seq<Byte>, offset: nat)
    requires offset <= |message| <= MAX_MESSAGE_SIZE && Holds(c, components, message[..offset])
    ensures Holds(Fed(c, ChunksFrom(message, offset)), components, message)
    ensures forall i :: 0 <= i < |ChunksFrom(message, offset)| ==>
      Answer(c, ChunksFrom(message, offset), i) == if i == |ChunksFrom(message, offset)| - 1 then Review else Ok
    decreases |message| - offset
  {
    hide PathOf;
    if offset == |message| {
      assert message[..offset] == message;
    } else {
      var end := Min(offset + MAX_APDU_DATA, |message|);
      var chunk, rest := ChunksFrom(message, offset)[0], ChunksFrom(message, end);
      var next := Step(c, chunk).0;
      assert message[..offset] + message[offset..end] == message[..end];
      RestHeld(next, components, message, end);
      RestWellCut(message, end);
      FedFirst(c, chunk, rest);
      forall i | 0 <= i < |rest| ensures Answer(c, [chunk] + rest, i + 1) == Answer(next, rest, i) {
        AnswerLater(c, chunk, rest, i);
      }
      AnswerFirst(c, chunk, rest);
      forall i | 0 < i < |rest| + 1 ensures Answer(c, [chunk] + rest, i) == if i == |rest| then Review else Ok {
        assert Answer(c, [chunk] + rest, i - 1 + 1) == Answer(next, rest, i - 1);
      }
    }
  }

  lemma {:induction false} FedFirst(c: Context, chunk: Chunk, rest: seq<Chunk>)
    requires Fits(c)
    ensures Fed(c, [chunk] + rest) == Fed(Step(c, chunk).0, rest)
  {
    hide Step;
    if rest == [] {
      assert [chunk] + rest == [chunk];
      assert [chunk][..0] == [];
    } else {
      assert ([chunk] + rest)[..|rest|] == [chunk] + rest[..|rest| - 1];
      FedFirst(c, chunk, rest[..|rest| - 1]);
    }
  }

  lemma {:induction false} AnswerLater(c: Context, chunk: Chunk, rest: seq<Chunk>, i: nat)
    requires Fits(c) && i < |rest|
    ensures Answer(c, [chunk] + rest, i + 1) == Answer(Step(c, chunk).0, rest, i)
  {
    hide Step;
    assert ([chunk] + rest)[..i + 1] == [chunk] + rest[..i];
    FedFirst(c, chunk, rest[..i]);
  }

  lemma AnswerFirst(c: Context, chunk: Chunk, rest: seq<Chunk>)
    requires Fits(c)
    ensures Answer(c, [chunk] + rest, 0) == Step(c, chunk).1
  {
    hide Step;
    assert ([chunk] + rest)[..0] == [];
  }

  /** Round trip: fed the chunks of a hardened path and a message that fits, the device holds exactly that path
      and that message, whatever it held before; it asks for review at the last chunk and not before. */
  lemma {:induction false} RoundTrip(c: Context, components: seq<Component>, message: seq<Byte>)
    requires Fits(c) && 1 <= |components| <= MAX_BIP32_PATH_LEN && |message| <= MAX_MESSAGE_SIZE
    ensures |PathBytes(components)| <= MAX_APDU_DATA
    ensures var chunks := ChunksOf(PathBytes(components), message);
      && WellCut(chunks)
      && Holds(Fed(c, chunks), components, message)
      && (forall i :: 0 <= i < |chunks| ==> Answer(c, chunks, i) == if i == |chunks| - 1 then Review else Ok)
  {
    hide PathOf, PathBytes, Holds, Step, Fed;
    BytesOf(components);
    var pathBytes := PathBytes(components);
    var chunks := ChunksOf(pathBytes, message);
    ChunksWellCut(pathBytes, message);
    FirstHeld(c, components, message);
    var capacity := MAX_APDU_DATA - |pathBytes|;
    var chunk, rest := chunks[0], ChunksFrom(message, capacity);
    assert chunks == [chunk] + rest;
    FedFirst(c, chunk, rest);
    AnswerFirst(c, chunk, rest);
    var next := Step(c, chunk).0;
    if capacity >= |message| {
      assert message[..|message|] == message;
      NothingFed(next);
    } else {
      RestHeld(next, components, message, capacity);
      forall i | 0 < i < |chunks| ensures Answer(c, chunks, i) == if i == |chunks| - 1 then Review else Ok {
        AnswerLater(c, chunk, rest, i - 1);
      }
    }
  }

  /** The same from the path as it is written: hardened indices below 2^31 in decimal reach the device as those. */
  lemma {:induction false} WrittenRoundTrip(c: Context, indices: seq<nat>, message: seq<Byte>)
    requires Fits(c) && 1 <= |indices| <= MAX_BIP32_PATH_LEN && |message| <= MAX_MESSAGE_SIZE
    requires forall i :: 0 <= i < |indices| ==> indices[i] < HARDENED_BIT
    ensures var components := ComponentsOf("m/" + Written(indices));
      && (forall component :: component in components ==> component.marked)
      && |PathBytes(components)| <= MAX_APDU_DATA
      && var device := Fed(c, ChunksOf(PathBytes(components), message));
      && Fits(device) && device.message == message && |PathIn(device)| == |indices|
      && (forall i :: 0 <= i < |indices| ==> PathIn(device)[i] == HARDENED_BIT + indices[i])
  {
    hide ComponentsOf, Written, PathBytes, Fed, ChunksOf, WellCut, Answer, PathIn;
    ReadsBack(indices);
    RoundTrip(c, ComponentsOf("m/" + Written(indices)), message);
  }

  /** Chunks that continue nothing are all refused. */
  lemma {:induction false} StraysRefused(c: Context, chunks: seq<Chunk>)
    requires Fits(c) && c.request != SignMessage && forall i :: 0 <= i < |chunks| ==> chunks[i].p1 == P1_CONTINUATION
    ensures Fed(c, chunks) == c && forall i :: 0 <= i < |chunks| ==> Answer(c, chunks, i) == InvalidData
  {
    forall i | 0 <= i < |chunks| ensures Answer(c, chunks, i) == InvalidData {
      StraysChangeNothing(c, chunks, i);
    }
    StraysChangeNothing(c, chunks, |chunks|);
    assert chunks[..|chunks|] == chunks;
  }

  lemma {:induction false} StraysChangeNothing(c: Context, chunks: seq<Chunk>, i: nat)
    requires Fits(c) && c.request != SignMessage && forall j :: 0 <= j < |chunks| ==> chunks[j].p1 == P1_CONTINUATION
    requires i <= |chunks|
    ensures Fed(c, chunks[..i]) == c
  {
    if i > 0 {
      assert chunks[..i][..i - 1] == chunks[..i - 1];
      StraysChangeNothing(c, chunks, i - 1);
    }
  }

  lemma {:induction false} RestRefused(c: Context, components: seq<Component>, message: seq<Byte>, offset: nat)
    requires offset <= |message| && offset <= MAX_MESSAGE_SIZE < |message| && Holds(c, components, message[..offset])
    ensures forall i :: 0 <= i < |ChunksFrom(message, offset)| ==> Answer(c, ChunksFrom(message, offset), i) != Review
    decreases |message| - offset
  {
    hide PathOf, Fed;
    var end := Min(offset + MAX_APDU_DATA, |message|);
    var chunk, rest := ChunksFrom(message, offset)[0], ChunksFrom(message, end);
    var next := Step(c, chunk).0;
    RestWellCut(message, end);
    AnswerFirst(c, chunk, rest);
    if end > MAX_MESSAGE_SIZE {
      StraysRefused(next, rest);
    } else {
      assert message[..offset] + message[offset..end] == message[..end];
      RestRefused(next, components, message, end);
    }
    forall i | 0 < i < |rest| + 1 ensures Answer(c, [chunk] + rest, i) != Review {
      AnswerLater(c, chunk, rest, i - 1);
    }
  }

  /** A message too long for the device is never put to review. */
  lemma {:induction false} TooLongNeverReviewed(c: Context, components: seq<Component>, message: seq<Byte>)
    requires Fits(c) && 1 <= |components| <= MAX_BIP32_PATH_LEN && |message| > MAX_MESSAGE_SIZE
    ensures |PathBytes(components)| <= MAX_APDU_DATA
    ensures var chunks := ChunksOf(PathBytes(components), message);
      forall i :: 0 <= i < |chunks| ==> Answer(c, chunks, i) != Review
  {
    hide PathOf, PathBytes, Holds, Step, Fed;
    BytesOf(components);
    var pathBytes := PathBytes(components);
    var chunks := ChunksOf(pathBytes, message);
    FirstHeld(c, components, message);
    var capacity := MAX_APDU_DATA - |pathBytes|;
    var chunk, rest := chunks[0], ChunksFrom(message, capacity);
    assert chunks == [chunk] + rest;
    AnswerFirst(c, chunk, rest);
    var next := Step(c, chunk).0;
    RestRefused(next, components, message, capacity);
    forall i | 0 < i < |chunks| ensures Answer(c, chunks, i) != Review {
      AnswerLater(c, chunk, rest, i - 1);
    }
  }

  lemma NothingFed(c: Context)
    requires Fits(c)
    ensures Fed(c, []) == c
  {
  }

  // ---------------------------------------------------------------- any sequence of commands

  /** What can happen to the context: a signing chunk, the end of a review, or another command, which may start
      its own request and overwrite the path. */
  datatype Command = Sign(chunk: Chunk) | Approve(derives: bool) | Reject | Other(request: Request, path: seq<U32>, pathLen: nat)

  function After(c: Context, command: Command): (r: Context)
    requires Fits(c)
    ensures Fits(r)
  {
    match command
    case Sign(chunk) => Step(c, chunk).0
    case Approve(derives) => if derives then c.(request := NoRequest, message := []) else c.(request := NoRequest)
    case Reject => c.(request := NoRequest, message := [])
    case Other(request, path, pathLen) =>
      if |path| == MAX_BIP32_PATH_LEN && pathLen <= MAX_BIP32_PATH_LEN then c.(request := request, path := path, pathLen := pathLen) else c
  }

  function AfterAll(c: Context, commands: seq<Command>): (r: Context)
    requires Fits(c)
    ensures Fits(r)
  {
    if commands == [] then c else After(AfterAll(c, commands[..|commands| - 1]), commands[|commands| - 1])
  }

  /** Whatever is sent, the message never outgrows its buffer. */
  lemma {:induction false} NeverOverruns(c: Context, commands: seq<Command>)
    requires Fits(c)
    ensures |AfterAll(c, commands).message| <= MAX_MESSAGE_SIZE && AfterAll(c, commands).pathLen <= MAX_BIP32_PATH_LEN
  {
  }
}
