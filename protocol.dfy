/**
 * The LAN message protocol: message records, their JSON form (as a
 * structured value; the text is not modelled), and the framing that
 * carries them over a stream socket — a 4-byte big-endian length followed
 * by that many payload bytes.
 */
module Protocol {
  import opened Wrappers
  import opened Json

  type Byte = b: int | 0 <= b < 256

  /** One more than the largest length a 4-byte prefix can hold. */
  const PrefixLimit: int := 0x1_0000_0000

  /** Largest number of bytes requested from the socket at a time. */
  const ChunkSize: int := 4096

  function Min(a: int, b: int): int
  {
    if a <= b then a else b
  }

  // ---------------------------------------------------------------------
  // Messages

  datatype MessageType = Connect | Connected | Input | StateUpdate | LineClear | GameOver | Disconnect | Ping | Pong

  /** The enum values as they appear on the wire. */
  function WireName(t: MessageType): string
  {
    match t
    case Connect => "connect"
    case Connected => "connected"
    case Input => "input"
    case StateUpdate => "state_update"
    case LineClear => "line_clear"
    case GameOver => "game_over"
    case Disconnect => "disconnect"
    case Ping => "ping"
    case Pong => "pong"
  }

  /**
   * A message's type: an enum member for messages built locally, or the
   * raw `type` entry of a received message (which is never turned back
   * into an enum member).
   */
  datatype Tag = Typed(t: MessageType) | Raw(v: Value)

  datatype Message = Message(tag: Tag, playerId: Value, data: Value, timestamp: Value)

  /** A payload the constructor can produce: one that is truthy, or the empty object. */
  predicate Normal(data: Value)
  {
    Truthy(data) || data == Obj(map[])
  }

  /** `value or {}`. */
  function OrEmpty(v: Value): (r: Value)
    ensures Normal(r)
    ensures Truthy(v) ==> r == v
    ensures !Truthy(v) ==> r == Obj(map[])
  {
    if Truthy(v) then v else Obj(map[])
  }

  /** `GameMessage(type, player_id, data)` at clock reading `now`: a falsy payload is replaced by `{}`. */
  function NewMessage(tag: Tag, playerId: Value, data: Value, now: int): (m: Message)
    ensures Truthy(data) ==> m.data == data
    ensures !Truthy(data) ==> m.data == Obj(map[])
    ensures m.tag == tag && m.playerId == playerId && m.timestamp == Num(now)
  {
    Message(tag, playerId, OrEmpty(data), Num(now))
  }

  function TagValue(tag: Tag): Value
  {
    match tag
    case Typed(t) => Str(WireName(t))
    case Raw(v) => v
  }

  /** `to_json`, stopping short of the text: the object `json.dumps` is given. */
  function ToJson(m: Message): Value
  {
    Obj(map["type" := TagValue(m.tag), "player_id" := m.playerId, "data" := m.data, "timestamp" := m.timestamp])
  }

  /**
   * `from_json` applied to an already parsed document, at clock reading
   * `now`: no message without a `type` entry; a missing `player_id` is
   * `None`, a missing `data` is `{}`, a missing `timestamp` is the clock.
   */
  function FromJson(v: Value, now: int): (m: Option<Message>)
    ensures m.Some? <==> v.Obj? && "type" in v.fields
    ensures m.Some? ==> var f := v.fields;
      && m.value.tag == Raw(f["type"])
      && m.value.playerId == (if "player_id" in f then f["player_id"] else Null)
      && ("data" in f && Truthy(f["data"]) ==> m.value.data == f["data"])
      && (("data" !in f || !Truthy(f["data"])) ==> m.value.data == Obj(map[]))
      && m.value.timestamp == (if "timestamp" in f then f["timestamp"] else Num(now))
  {
    if !(v.Obj? && "type" in v.fields) then None
    else
      var f := v.fields;
      var m := NewMessage(Raw(f["type"]), Get(f, "player_id", Null), Get(f, "data", Obj(map[])), now);
      Some(m.(timestamp := Get(f, "timestamp", Num(now))))
  }

  /**
   * A message survives `to_json` then `from_json` unchanged, except that
   * its type comes back as the raw wire value; serialising it again gives
   * the same object.
   */
  lemma JsonRoundTrip(m: Message, now: int)
    requires Normal(m.data)
    ensures FromJson(ToJson(m), now) == Some(m.(tag := Raw(TagValue(m.tag))))
    ensures ToJson(FromJson(ToJson(m), now).value) == ToJson(m)
  {
    var f := ToJson(m).fields;
    assert f["type"] == TagValue(m.tag) && f["data"] == m.data;
  }

  /** `create_connect_message`: carries the player's name and no id. */
  function ConnectMessage(playerName: Value, now: int): (m: Message)
    ensures m.tag == Typed(Connect) && m.playerId == Null
    ensures m.data.Obj? && m.data.fields.Keys == {"player_name"} && m.data.fields["player_name"] == playerName
  {
    NewMessage(Typed(Connect), Null, Obj(map["player_name" := playerName]), now)
  }

  /** `create_connected_message`: carries the id and an empty payload. */
  function ConnectedMessage(playerId: Value, now: int): (m: Message)
    ensures m.tag == Typed(Connected) && m.playerId == playerId && m.data == Obj(map[])
  {
    NewMessage(Typed(Connected), playerId, Null, now)
  }

  /** `create_input_message`: the action and its parameters, `{}` when they are falsy. */
  function InputMessage(playerId: Value, action: Value, params: Value, now: int): (m: Message)
    ensures m.tag == Typed(Input) && m.playerId == playerId
    ensures m.data.Obj? && m.data.fields.Keys == {"action", "params"}
    ensures m.data.fields["action"] == action && m.data.fields["params"] == OrEmpty(params)
  {
    NewMessage(Typed(Input), playerId, Obj(map["action" := action, "params" := OrEmpty(params)]), now)
  }

  /** `create_state_update_message`: the game state under `state`. */
  function StateUpdateMessage(playerId: Value, state: Value, now: int): (m: Message)
    ensures m.tag == Typed(StateUpdate) && m.playerId == playerId
    ensures m.data.Obj? && m.data.fields.Keys == {"state"} && m.data.fields["state"] == state
  {
    NewMessage(Typed(StateUpdate), playerId, Obj(map["state" := state]), now)
  }

  /** `create_game_over_message`: the final score under `score`. */
  function GameOverMessage(playerId: Value, finalScore: Value, now: int): (m: Message)
    ensures m.tag == Typed(GameOver) && m.playerId == playerId
    ensures m.data.Obj? && m.data.fields.Keys == {"score"} && m.data.fields["score"] == finalScore
  {
    NewMessage(Typed(GameOver), playerId, Obj(map["score" := finalScore]), now)
  }

  // ---------------------------------------------------------------------
  // Length prefix

  /** `n.to_bytes(4, byteorder='big')`. */
  function BigEndian32(n: int): (bs: seq<Byte>)
    requires 0 <= n < PrefixLimit
    ensures |bs| == 4
  {
    var n1 := n / 0x100;
    var n2 := n1 / 0x100;
    [n2 / 0x100, n2 % 0x100, n1 % 0x100, n % 0x100]
  }

  /** `int.from_bytes(bs, byteorder='big')`. */
  function FromBigEndian(bs: seq<Byte>): (n: nat)
  {
    if bs == [] then 0 else FromBigEndian(bs[..|bs| - 1]) * 0x100 + bs[|bs| - 1]
  }

  lemma FromBigEndianOfFour(bs: seq<Byte>)
    requires |bs| == 4
    ensures FromBigEndian(bs) == (((bs[0] as int) * 0x100 + bs[1]) * 0x100 + bs[2]) * 0x100 + bs[3]
  {
    assert bs[..3][..2] == bs[..2] && bs[..2][..1] == bs[..1] && bs[..1][..0] == [];
    assert FromBigEndian(bs[..1]) == bs[0];
    assert FromBigEndian(bs[..2]) == (bs[0] as int) * 0x100 + bs[1];
    assert FromBigEndian(bs[..3]) == ((bs[0] as int) * 0x100 + bs[1]) * 0x100 + bs[2];
  }

  /** Decoding the 4-byte prefix gives back the length it encodes. */
  lemma {:induction false} PrefixRoundTrip(n: int)
    requires 0 <= n < PrefixLimit
    ensures FromBigEndian(BigEndian32(n)) == n
  {
    FromBigEndianOfFour(BigEndian32(n));
  }

  /** Every 4-byte prefix is the encoding of the length it decodes to. */
  lemma {:induction false} PrefixIsEncoding(bs: seq<Byte>)
    requires |bs| == 4
    ensures FromBigEndian(bs) < PrefixLimit && BigEndian32(FromBigEndian(bs)) == bs
  {
    FromBigEndianOfFour(bs);
    var n := FromBigEndian(bs);
    assert n / 0x100 == ((bs[0] as int) * 0x100 + bs[1]) * 0x100 + bs[2];
    assert n / 0x100 / 0x100 == (bs[0] as int) * 0x100 + bs[1];
  }

  // ---------------------------------------------------------------------
  // Framing

  /** `to_bytes` on an encoded payload; a payload too long for the prefix makes `to_bytes` raise. */
  function Frame(payload: seq<Byte>): (f: Option<seq<Byte>>)
    ensures f.Some? <==> |payload| < PrefixLimit
    ensures f.Some? ==> |f.value| == 4 + |payload| && f.value[4..] == payload && FromBigEndian(f.value[..4]) == |payload|
  {
    if |payload| < PrefixLimit then
      PrefixRoundTrip(|payload|);
      assert (BigEndian32(|payload|) + payload)[..4] == BigEndian32(|payload|);
      Some(BigEndian32(|payload|) + payload)
    else None
  }

  /**
   * `to_bytes`: frame the bytes of the message's JSON text.  `encode`
   * stands for `json.dumps` followed by UTF-8 encoding.
   */
  function ToBytes(m: Message, encode: Value -> seq<Byte>): Option<seq<Byte>>
  {
    Frame(encode(ToJson(m)))
  }

  /** The bytes of `chunks`, in order. */
  function Flatten(chunks: seq<seq<Byte>>): seq<Byte>
  {
    if chunks == [] then [] else chunks[0] + Flatten(chunks[1..])
  }

  /** No arrival chunk is empty. */
  predicate Chunked(chunks: seq<seq<Byte>>)
  {
    forall i :: 0 <= i < |chunks| ==> |chunks[i]| > 0
  }

  /** `recv(n)` on pending `chunks`: up to `n` bytes of the first chunk, and what is left pending. */
  function Recvd(chunks: seq<seq<Byte>>, n: nat): (r: (seq<Byte>, seq<seq<Byte>>))
    requires Chunked(chunks)
    ensures Chunked(r.1)
    ensures |r.0| <= n && r.0 + Flatten(r.1) == Flatten(chunks)
    ensures r.0 == [] <==> chunks == [] || n == 0
  {
    if chunks == [] then ([], [])
    else
      var c := chunks[0];
      var k := Min(n, |c|);
      assert c[..k] + c[k..] == c;
      if k == |c| then (c, chunks[1..])
      else
        var rest := [c[k..]] + chunks[1..];
        assert rest[1..] == chunks[1..];
        (c[..k], rest)
  }

  /** Whether the first `recv(4)` returns all four prefix bytes. */
  predicate HeaderArrives(chunks: seq<seq<Byte>>)
  {
    chunks != [] && |chunks[0]| >= 4
  }

  /**
   * The payload `receive_from_socket` collects from `chunks`: none when the
   * first read returns fewer than four bytes or when the stream ends before
   * the announced length has arrived.
   */
  function Received(chunks: seq<seq<Byte>>): Option<seq<Byte>>
    requires Chunked(chunks)
  {
    if !HeaderArrives(chunks) then None
    else
      var s := Flatten(chunks);
      FlattenStartsWithFirst(chunks);
      var length := FromBigEndian(s[..4]);
      if |s| - 4 >= length then Some(s[4..4 + length]) else None
  }

  /** What is still unread after `receive_from_socket` on `chunks`. */
  function Leftover(chunks: seq<seq<Byte>>): seq<Byte>
    requires Chunked(chunks)
  {
    if !HeaderArrives(chunks) then Flatten(Recvd(chunks, 4).1)
    else
      var s := Flatten(chunks);
      FlattenStartsWithFirst(chunks);
      var length := FromBigEndian(s[..4]);
      if |s| - 4 >= length then s[4 + length..] else []
  }

  lemma FlattenStartsWithFirst(chunks: seq<seq<Byte>>)
    requires chunks != []
    ensures |Flatten(chunks)| >= |chunks[0]| && Flatten(chunks)[..|chunks[0]|] == chunks[0]
  {
    assert Flatten(chunks) == chunks[0] + Flatten(chunks[1..]);
  }

  /**
   * A frame sent whole is received whole, whatever follows it and however
   * it is chunked after the first four bytes: the payload comes back and
   * exactly the bytes after the frame stay unread.
   */
  lemma FrameReceived(payload: seq<Byte>, rest: seq<Byte>, chunks: seq<seq<Byte>>)
    requires Chunked(chunks) && HeaderArrives(chunks)
    requires Frame(payload).Some? && Flatten(chunks) == Frame(payload).value + rest
    ensures Received(chunks) == Some(payload)
    ensures Leftover(chunks) == rest
  {
    var f := Frame(payload).value;
    var s := Flatten(chunks);
    assert s[..4] == f[..4];
    assert s[4..4 + |payload|] == f[4..] == payload;
    assert s[4 + |payload|..] == rest;
  }

  /** A stream that is exactly `to_bytes(m)`, arriving as one chunk, yields the payload. */
  lemma FrameReceivedAlone(payload: seq<Byte>)
    requires Frame(payload).Some?
    ensures Chunked([Frame(payload).value]) && Received([Frame(payload).value]) == Some(payload)
  {
    var f := Frame(payload).value;
    var single: seq<seq<Byte>> := [f];
    assert Flatten(single) == f + [] by {
      assert single[1..] == [];
    }
    FrameReceived(payload, [], [f]);
  }

  /** A stream that stops anywhere inside a frame yields nothing. */
  lemma TruncatedFrameFails(payload: seq<Byte>, k: nat, chunks: seq<seq<Byte>>)
    requires Frame(payload).Some? && k < |Frame(payload).value|
    requires Chunked(chunks) && Flatten(chunks) == Frame(payload).value[..k]
    ensures Received(chunks) == None
  {
    if HeaderArrives(chunks) {
      FlattenStartsWithFirst(chunks);
      var f := Frame(payload).value;
      assert Flatten(chunks)[..4] == f[..4];
    }
  }

  /**
   * The prefix is read with a single `recv(4)`: when the four prefix bytes
   * arrive split over two chunks, the message is lost although the stream
   * holds a complete frame.
   */
  lemma SplitPrefixIsLost()
    ensures var chunks := [[0, 0], [0, 1, 65]];
      && Chunked(chunks) && Flatten(chunks) == Frame([65]).value && Received(chunks) == None
  {
    var chunks: seq<seq<Byte>> := [[0, 0], [0, 1, 65]];
    assert chunks[1..][1..] == [];
    assert BigEndian32(1) == [0, 0, 0, 1];
  }

  /**
   * The peer's end of a stream socket: the bytes sent and not yet read, in
   * the chunks they arrive in.  An empty list means the peer has closed the
   * connection and everything has been read.
   */
  class Socket {
    var chunks: seq<seq<Byte>>

    ghost predicate Valid()
      reads this
    {
      Chunked(chunks)
    }

    /** Every byte not yet read. */
    function Stream(): seq<Byte>
      reads this
    {
      Flatten(chunks)
    }

    constructor (arrivals: seq<seq<Byte>>)
      requires Chunked(arrivals)
      ensures Valid() && chunks == arrivals
    {
      chunks := arrivals;
    }

    /** `recv(n)`: at most `n` bytes from the next chunk; empty only at the end of the stream. */
    method Recv(n: nat) returns (data: seq<Byte>)
      requires Valid()
      modifies this
      ensures Valid()
      ensures (data, chunks) == Recvd(old(chunks), n)
    {
      if chunks == [] {
        return [];
      }
      var c := chunks[0];
      var k := Min(n, |c|);
      if k == |c| {
        data, chunks := c, chunks[1..];
      } else {
        data, chunks := c[..k], [c[k..]] + chunks[1..];
      }
    }
  }

  /**
   * The framing part of `receive_from_socket`: one `recv(4)` for the
   * prefix, then the payload loop.
   */
  method ReceiveFrame(sock: Socket) returns (payload: Option<seq<Byte>>)
    requires sock.Valid()
    modifies sock
    ensures sock.Valid()
    ensures payload == Received(old(sock.chunks))
    ensures sock.Stream() == Leftover(old(sock.chunks))
  {
    ghost var chunks0, s0 := sock.chunks, sock.Stream();
    var header := sock.Recv(4);
    if |header| < 4 {
      return None;
    }
    FlattenStartsWithFirst(chunks0);
    Split(header, sock.Stream(), s0);
    var length := FromBigEndian(header);
    payload := ReceiveExactly(sock, length);
    if |s0| - 4 >= length {
      assert s0[4..][..length] == s0[4..4 + length];
      assert s0[4..][length..] == s0[4 + length..];
    }
  }

  /** `a + b` splits back into `a` and `b`. */
  lemma Split(a: seq<Byte>, b: seq<Byte>, s: seq<Byte>)
    requires a + b == s
    ensures s[..|a|] == a && s[|a|..] == b
  {
  }

  /** Moving a received chunk from the unread stream to the bytes collected. */
  lemma Advance(received: seq<Byte>, chunk: seq<Byte>, rest: seq<Byte>, s: seq<Byte>)
    requires received + (chunk + rest) == s
    ensures (received + chunk) + rest == s
  {
    assert (received + chunk) + rest == received + (chunk + rest);
  }

  /**
   * The payload loop of `receive_from_socket`: reads of at most the
   * outstanding byte count (and at most 4096) until `n` bytes have arrived;
   * nothing if the stream ends first.
   */
  method ReceiveExactly(sock: Socket, n: nat) returns (data: Option<seq<Byte>>)
    requires sock.Valid()
    modifies sock
    ensures sock.Valid()
    ensures data == (if |old(sock.Stream())| >= n then Some(old(sock.Stream())[..n]) else None)
    ensures sock.Stream() == if |old(sock.Stream())| >= n then old(sock.Stream())[n..] else []
  {
    ghost var s0 := sock.Stream();
    var received: seq<Byte> := [];
    while |received| < n
      invariant sock.Valid()
      invariant |received| <= n
      invariant received + sock.Stream() == s0
      decreases n - |received|
    {
      var chunk := sock.Recv(Min(n - |received|, ChunkSize));
      if chunk == [] {
        Split(received, sock.Stream(), s0);
        return None;
      }
      Advance(received, chunk, sock.Stream(), s0);
      received := received + chunk;
    }
    Split(received, sock.Stream(), s0);
    return Some(received);
  }

  /**
   * The payload a reader that also loops for the prefix would collect: the
   * frame at the head of the stream, however the stream is chunked.
   */
  function ReceivedFully(chunks: seq<seq<Byte>>): Option<seq<Byte>>
  {
    var s := Flatten(chunks);
    if |s| < 4 then None
    else
      var length := FromBigEndian(s[..4]);
      if |s| - 4 >= length then Some(s[4..4 + length]) else None
  }

  /** The two readers agree whenever the first chunk holds the whole prefix. */
  lemma ReceivedFullyAgrees(chunks: seq<seq<Byte>>)
    requires Chunked(chunks) && HeaderArrives(chunks)
    ensures ReceivedFully(chunks) == Received(chunks)
  {
    FlattenStartsWithFirst(chunks);
  }

  /** A frame at the head of the stream is received, whatever the chunking. */
  lemma FrameReceivedFully(payload: seq<Byte>, rest: seq<Byte>, chunks: seq<seq<Byte>>)
    requires Frame(payload).Some? && Flatten(chunks) == Frame(payload).value + rest
    ensures ReceivedFully(chunks) == Some(payload)
  {
    var f := Frame(payload).value;
    var s := Flatten(chunks);
    assert s[..4] == f[..4];
    assert s[4..4 + |payload|] == f[4..] == payload;
  }

  /** The framing loop with the prefix read the same way as the payload. */
  method ReceiveFrameFully(sock: Socket) returns (payload: Option<seq<Byte>>)
    requires sock.Valid()
    modifies sock
    ensures sock.Valid()
    ensures payload == ReceivedFully(old(sock.chunks))
  {
    ghost var s0 := sock.Stream();
    var header := ReceiveExactly(sock, 4);
    if header.None? {
      return None;
    }
    var length := FromBigEndian(header.value);
    payload := ReceiveExactly(sock, length);
    if |s0| - 4 >= length {
      assert s0[4..][..length] == s0[4..4 + length];
    }
  }

  /**
   * Receiving a message: `decode` stands for UTF-8 decoding followed by
   * `json.loads`; it yields nothing for bytes that do not parse.  Every
   * failure, including a document without a `type`, ends in no message.
   */
  function Delivered(chunks: seq<seq<Byte>>, decode: seq<Byte> -> Option<Value>, now: int): Option<Message>
    requires Chunked(chunks)
  {
    match Received(chunks)
    case None => None
    case Some(payload) =>
      match decode(payload)
      case None => None
      case Some(v) => FromJson(v, now)
  }

  /** `receive_from_socket`. */
  method ReceiveFromSocket(sock: Socket, decode: seq<Byte> -> Option<Value>, now: int) returns (m: Option<Message>)
    requires sock.Valid()
    modifies sock
    ensures sock.Valid()
    ensures m == Delivered(old(sock.chunks), decode, now)
    ensures sock.Stream() == Leftover(old(sock.chunks))
  {
    var payload := ReceiveFrame(sock);
    if payload.None? {
      return None;
    }
    var doc := decode(payload.value);
    if doc.None? {
      return None;
    }
    m := FromJson(doc.value, now);
  }

  /**
   * A message sent with `to_bytes` is received as the same message (its
   * type as the raw wire value), provided the JSON text reads back as what
   * was written and the first chunk holds the whole prefix.
   */
  lemma MessageRoundTrip(m: Message, encode: Value -> seq<Byte>, decode: seq<Byte> -> Option<Value>,
                         rest: seq<Byte>, chunks: seq<seq<Byte>>, now: int)
    requires Normal(m.data)
    requires decode(encode(ToJson(m))) == Some(ToJson(m))
    requires ToBytes(m, encode).Some?
    requires Chunked(chunks) && HeaderArrives(chunks) && Flatten(chunks) == ToBytes(m, encode).value + rest
    ensures Delivered(chunks, decode, now) == Some(m.(tag := Raw(TagValue(m.tag))))
  {
    FrameReceived(encode(ToJson(m)), rest, chunks);
    JsonRoundTrip(m, now);
  }
}
