/** The device's side of signing: chunks accumulated into one context, reviewed when the last arrives. */
module Device {
  import opened Apdu

  const MAX_BIP32_PATH_LEN: nat := 5
  const MAX_MESSAGE_SIZE: nat := 8192

  datatype Request = NoRequest | GetPublicKey | SignMessage | Ecdh

  /** What the device answers, a review standing for the answer its outcome will give. */
  datatype Response = Ok | InvalidData | InternalError | UserRejected | Review | Signature(path: seq<U32>, message: seq<Byte>)

  /** The context as a value: the request under way, the path buffer and how much of it counts, and the
      message so far. */
  datatype Context = Context(request: Request, path: seq<U32>, pathLen: nat, message: seq<Byte>)

  predicate Fits(c: Context) {
    |c.path| == MAX_BIP32_PATH_LEN && c.pathLen <= MAX_BIP32_PATH_LEN && |c.message| <= MAX_MESSAGE_SIZE
  }

  function PathIn(c: Context): seq<U32>
    requires Fits(c)
  {
    c.path[..c.pathLen]
  }

  // ---------------------------------------------------------------- parsing a path

  function WordAt(data: seq<Byte>, at: nat): U32
    requires at + 4 <= |data|
  {
    (data[at] as int) * 0x100_0000 + (data[at + 1] as int) * 0x1_0000 + (data[at + 2] as int) * 0x100 + data[at + 3] as int
  }

  /** How many bytes a path takes, when its count is in range and its bytes are there. The length reaches the
      parser as one byte. */
  function PathSize(data: seq<Byte>): (size: int)
    ensures size < 0 || (5 <= size <= |data| && size == 1 + 4 * (data[0] as int) && data[0] <= MAX_BIP32_PATH_LEN)
  {
    var length := |data| % 256;
    if length < 1 || data[0] == 0 || data[0] > MAX_BIP32_PATH_LEN || length < 1 + 4 * (data[0] as int) then -1
    else 1 + 4 * (data[0] as int)
  }

  /** What is left of a first chunk after its path, counted in sixteen bits. */
  function FirstSize(data: seq<Byte>): (size: nat)
    requires PathSize(data) >= 0
    ensures size <= |data| - PathSize(data)
  {
    (|data| - PathSize(data)) % 0x1_0000
  }

  /** The buffer once the first `n` components are written, stopping at one that is not hardened. */
  function PathWritten(data: seq<Byte>, path: seq<U32>, n: nat): (r: seq<U32>)
    requires PathSize(data) >= 0 && n <= data[0] && |path| == MAX_BIP32_PATH_LEN
    ensures |r| == MAX_BIP32_PATH_LEN
  {
    if n == 0 then path
    else
      var before := PathWritten(data, path, n - 1);
      if AllHardened(data, n) then before[n - 1 := WordAt(data, 1 + 4 * (n - 1))] else before
  }

  /** Whether the first `n` components are all hardened. */
  predicate AllHardened(data: seq<Byte>, n: nat)
    requires PathSize(data) >= 0 && n <= data[0]
  {
    forall i :: 0 <= i < n ==> WordAt(data, 1 + 4 * i) >= HARDENED_BIT
  }

  /** Bytes consumed, or none when the path is refused; a refused path may leave components behind. */
  method ParseBip32Path(data: seq<Byte>, path: array<U32>) returns (consumed: int, pathLen: nat)
    requires path.Length == MAX_BIP32_PATH_LEN
    modifies path
    ensures PathSize(data) < 0 ==> consumed == -1 && path[..] == old(path[..])
    ensures PathSize(data) >= 0 ==> path[..] == PathWritten(data, old(path[..]), data[0])
    ensures PathSize(data) >= 0 ==> consumed == if AllHardened(data, data[0]) then PathSize(data) else -1
    ensures consumed >= 0 ==> pathLen == data[0]
  {
    pathLen := 0;
    var length := |data| % 256;
    if length < 1 {
      return -1, pathLen;
    }
    var count := data[0];
    if count == 0 || count > MAX_BIP32_PATH_LEN {
      return -1, pathLen;
    }
    var required := 1 + 4 * (count as int);
    if length < required {
      return -1, pathLen;
    }
    for i := 0 to count
      invariant AllHardened(data, i) && path[..] == PathWritten(data, old(path[..]), i)
    {
      var component := WordAt(data, 1 + 4 * i);
      if component < HARDENED_BIT {
        StopsThere(data, old(path[..]), i + 1, count);
        return -1, pathLen;
      }
      path[i] := component;
    }
    return required, count;
  }

  lemma {:induction false} StopsThere(data: seq<Byte>, path: seq<U32>, n: nat, count: nat)
    requires PathSize(data) >= 0 && 0 < n <= count <= data[0] && |path| == MAX_BIP32_PATH_LEN && !AllHardened(data, n)
    ensures !AllHardened(data, count) && PathWritten(data, path, count) == PathWritten(data, path, n - 1)
  {
    if n < count {
      StopsThere(data, path, n, count - 1);
    }
  }

  // ---------------------------------------------------------------- one command

  function Aborted(c: Context): Context {
    c.(request := NoRequest)
  }

  /** The first chunk: a path, then the start of a message. */
  function FirstChunk(c: Context, data: seq<Byte>, p2: Byte): (Context, Response)
    requires Fits(c)
  {
    var begun := c.(request := SignMessage, message := []);
    if PathSize(data) < 0 then (Aborted(begun), InvalidData)
    else
      var written := begun.(path := PathWritten(data, c.path, data[0]));
      if !AllHardened(data, data[0]) then (Aborted(written), InvalidData)
      else if FirstSize(data) > MAX_MESSAGE_SIZE then (Aborted(written.(pathLen := data[0])), InvalidData)
      else
        (written.(pathLen := data[0], message := data[PathSize(data)..PathSize(data) + FirstSize(data)]),
         if p2 == P2_MORE then Ok else Review)
  }

  /** A later chunk: more of the message under way. */
  function Continuation(c: Context, data: seq<Byte>, p2: Byte): (Context, Response) {
    if c.request != SignMessage then (c, InvalidData)
    else if |c.message| + |data| > MAX_MESSAGE_SIZE then (Aborted(c), InvalidData)
    else (c.(message := c.message + data), if p2 == P2_MORE then Ok else Review)
  }

  function Handled(c: Context, chunk: Chunk): (Context, Response)
    requires Fits(c)
  {
    if chunk.p1 == P1_FIRST then FirstChunk(c, chunk.data, chunk.p2)
    else if chunk.p1 == P1_CONTINUATION then Continuation(c, chunk.data, chunk.p2)
    else (Aborted(c), InvalidData)
  }

  class SigningDevice {
    var request: Request
    const path: array<U32>
    var pathLen: nat
    const message: array<Byte>
    var messageLen: nat

    ghost predicate Valid()
      reads this
    {
      path.Length == MAX_BIP32_PATH_LEN && message.Length == MAX_MESSAGE_SIZE && pathLen <= MAX_BIP32_PATH_LEN && messageLen <= MAX_MESSAGE_SIZE
    }

    ghost function State(): (c: Context)
      requires Valid()
      reads this, path, message
      ensures Fits(c)
    {
      Context(request, path[..], pathLen, message[..messageLen])
    }

    constructor ()
      ensures Valid() && fresh(path) && fresh(message) && request == NoRequest && messageLen == 0 && pathLen == 0
    {
      request, pathLen, messageLen := NoRequest, 0, 0;
      path := new U32[MAX_BIP32_PATH_LEN](_ => 0);
      message := new Byte[MAX_MESSAGE_SIZE](_ => 0);
    }

    /** Copy bytes into the message buffer. */
    method Move(at: nat, data: seq<Byte>)
      requires Valid() && at + |data| <= MAX_MESSAGE_SIZE
      modifies message
      ensures message[..at] == old(message[..at]) && message[at..at + |data|] == data
    {
      for i := 0 to |data|
        invariant message[..at] == old(message[..at]) && message[at..at + i] == data[..i]
      {
        message[at + i] := data[i];
        assert message[at..at + i + 1] == message[at..at + i] + [data[i]];
      }
      assert data[..|data|] == data;
    }

    method HandleFirst(data: seq<Byte>, p2: Byte) returns (r: Response)
      requires Valid()
      modifies this, path, message
      ensures Valid() && (State(), r) == FirstChunk(old(State()), data, p2)
    {
      hide PathWritten, AllHardened;
      request := SignMessage;
      messageLen := 0;
      var consumed, count := ParseBip32Path(data, path);
      if consumed < 0 {
        request := NoRequest;
        return InvalidData;
      }
      pathLen := count;
      var size := (|data| - consumed) % 0x1_0000;
      if size > MAX_MESSAGE_SIZE {
        request := NoRequest;
        return InvalidData;
      }
      if size > 0 {
        Move(0, data[consumed..consumed + size]);
        messageLen := size;
      }
      assert message[..messageLen] == data[consumed..consumed + size];
      r := if p2 != P2_MORE then Review else Ok;
    }

    method HandleContinuation(data: seq<Byte>, p2: Byte) returns (r: Response)
      requires Valid()
      modifies this, message
      ensures Valid() && (State(), r) == Continuation(old(State()), data, p2)
    {
      if request != SignMessage {
        return InvalidData;
      }
      if messageLen + |data| > MAX_MESSAGE_SIZE {
        request := NoRequest;
        return InvalidData;
      }
      Move(messageLen, data);
      assert message[..messageLen + |data|] == message[..messageLen] + message[messageLen..messageLen + |data|];
      messageLen := messageLen + |data|;
      r := if p2 == P2_MORE then Ok else Review;
    }

    method HandleSignMessage(data: seq<Byte>, p1: Byte, p2: Byte) returns (r: Response)
      requires Valid()
      modifies this, path, message
      ensures Valid() && (State(), r) == Handled(old(State()), Chunk(p1, p2, data))
    {
      hide FirstChunk, Continuation;
      if p1 == P1_FIRST {
        r := HandleFirst(data, p2);
      } else if p1 == P1_CONTINUATION {
        r := HandleContinuation(data, p2);
      } else {
        request := NoRequest;
        r := InvalidData;
      }
    }

    method Zero()
      requires Valid()
      modifies message
      ensures forall i :: 0 <= i < message.Length ==> message[i] == 0
    {
      for i := 0 to message.Length
        invariant forall j :: 0 <= j < i ==> message[j] == 0
      {
        message[i] := 0;
      }
    }

    /** The review was approved: sign, if keys derive and the signature can be made. Either way the request is
        over, and once signing was tried the message is gone. */
    method SignApproved(derives: bool, signs: bool) returns (r: Response)
      requires Valid()
      modifies this, message
      ensures Valid() && request == NoRequest && pathLen == old(pathLen)
      ensures derives ==> messageLen == 0 && forall i :: 0 <= i < message.Length ==> message[i] == 0
      ensures !derives ==> State().message == old(State()).message
      ensures r == if derives && signs then Signature(PathIn(old(State())), old(State()).message) else InternalError
    {
      request := NoRequest;
      if !derives {
        return InternalError;
      }
      var signature := Signature(path[..pathLen], message[..messageLen]);
      Zero();
      messageLen := 0;
      r := if signs then signature else InternalError;
    }

    /** The review was rejected: the message is gone. */
    method SignRejected() returns (r: Response)
      requires Valid()
      modifies this, message
      ensures Valid() && request == NoRequest && pathLen == old(pathLen) && r == UserRejected
      ensures messageLen == 0 && forall i :: 0 <= i < message.Length ==> message[i] == 0
    {
      request := NoRequest;
      Zero();
      messageLen := 0;
      r := UserRejected;
    }
  }
}
