/** The self-delimiting messages of src/commtypes.c: map updates as words, message buffers as bytes. */
module MapStream {
  import opened Paths
  import opened VoteBuff

  /** A map update on the wire: the pose and the new obstacles. */
  datatype Update = Update(pose: Cell, obstacles: seq<Cell>)

  const HEADER := 3
  const BUFFER_WORDS := 1024

  /** The most obstacles that commSendMapUpdate's buffer takes. */
  const MOST_OBSTACLES := 510

  function Pairs(obstacles: seq<Cell>): (words: seq<int>)
    ensures |words| == 2 * |obstacles|
    ensures forall i :: 0 <= i < |obstacles| ==> words[2 * i] == obstacles[i].x && words[2 * i + 1] == obstacles[i].y
  {
    if obstacles == [] then []
    else
      var last := |obstacles| - 1;
      Pairs(obstacles[..last]) + [obstacles[last].x, obstacles[last].y]
  }

  function Encode(u: Update): (words: seq<int>)
    ensures |words| == HEADER + 2 * |u.obstacles|
  {
    [u.pose.x, u.pose.y, |u.obstacles|] + Pairs(u.obstacles)
  }

  /** commSendMapUpdate: fills a buffer of BUFFER_WORDS words and writes the part that is used. */
  method SendMapUpdate(pose: Cell, count: nat, obsX: array<int>, obsY: array<int>) returns (written: seq<int>)
    requires count <= obsX.Length && count <= obsY.Length && count <= MOST_OBSTACLES
    ensures written == Encode(Update(pose, Listed(obsX[..], obsY[..], count)))
  {
    var buffer := new int[BUFFER_WORDS];
    buffer[0], buffer[1], buffer[2] := pose.x, pose.y, count;
    var used := HEADER;
    ghost var obstacles := Listed(obsX[..], obsY[..], count);
    for i := 0 to count
      invariant used == HEADER + 2 * i
      invariant buffer[0] == pose.x && buffer[1] == pose.y && buffer[2] == count
      invariant forall j :: 0 <= j < i ==> buffer[HEADER + 2 * j] == obsX[j] && buffer[HEADER + 2 * j + 1] == obsY[j]
    {
      buffer[used] := obsX[i];
      buffer[used + 1] := obsY[i];
      used := used + 2;
    }
    written := buffer[..used];
    ghost var words := Encode(Update(pose, obstacles));
    forall w | 0 <= w < |words| ensures written[w] == words[w] {
      if w >= HEADER {
        var j := (w - HEADER) / 2;
        assert w == HEADER + 2 * j || w == HEADER + 2 * j + 1;
        assert obstacles[j] == Cell(obsX[j], obsY[j]);
      }
    }
  }

  /** The first `n` obstacles of two coordinate arrays. */
  ghost function Listed(xs: seq<int>, ys: seq<int>, n: nat): (cells: seq<Cell>)
    requires n <= |xs| && n <= |ys|
    ensures |cells| == n
  {
    seq(n, i requires 0 <= i < n => Cell(xs[i], ys[i]))
  }

  /** A read takes what it asks for, or all there is. */
  function Taken(wire: seq<int>, n: nat): seq<int> {
    if n <= |wire| then wire[..n] else wire
  }

  function Unpaired(words: seq<int>): (obstacles: seq<Cell>)
    requires |words| % 2 == 0
    ensures |obstacles| == |words| / 2
    ensures forall i :: 0 <= i < |obstacles| ==> obstacles[i] == Cell(words[2 * i], words[2 * i + 1])
  {
    if words == [] then [] else Unpaired(words[..|words| - 2]) + [Cell(words[|words| - 2], words[|words| - 1])]
  }

  datatype Decoded = Decoded(update: Update, rest: seq<int>) | Broken(rest: seq<int>)

  /** What commRecvMapUpdate takes from the wire: a header, then as many pairs as it announces. A short
      header or a short list of pairs is read and lost. */
  function Decode(wire: seq<int>): (r: Decoded)
    ensures |r.rest| <= |wire|
    ensures r.Decoded? ==> |r.rest| < |wire|
  {
    if |wire| < HEADER then Broken([])
    else
      var count := wire[2];
      var body := wire[HEADER..];
      if count <= 0 then Decoded(Update(Cell(wire[0], wire[1]), []), body)
      else if |body| < 2 * count then Broken([])
      else Decoded(Update(Cell(wire[0], wire[1]), Unpaired(body[..2 * count])), body[2 * count..])
  }

  /** Decoding takes exactly one encoded update off the front of the wire, whatever follows it. */
  lemma DecodeEncode(u: Update, more: seq<int>)
    ensures Decode(Encode(u) + more) == Decoded(u, more)
  {
    var wire, pairs := Encode(u) + more, Pairs(u.obstacles);
    assert wire[HEADER..] == pairs + more;
    assert (pairs + more)[..|pairs|] == pairs && (pairs + more)[|pairs|..] == more;
    UnpairedPairs(u.obstacles);
  }

  lemma UnpairedPairs(obstacles: seq<Cell>)
    ensures Unpaired(Pairs(obstacles)) == obstacles
  {
  }

  function EncodeAll(us: seq<Update>): (wire: seq<int>)
    ensures us != [] ==> wire != []
  {
    if us == [] then [] else Encode(us[0]) + EncodeAll(us[1..])
  }

  /** Decoding one message at a time until the wire is empty or broken. */
  function DecodeAll(wire: seq<int>): seq<Update>
    decreases |wire|
  {
    match Decode(wire)
    case Broken(_) => []
    case Decoded(u, rest) => [u] + DecodeAll(rest)
  }

  /** Any sequence of updates comes out as it went in. */
  lemma {:induction false} DecodeEncodeAll(us: seq<Update>)
    ensures DecodeAll(EncodeAll(us)) == us
  {
    if us != [] {
      DecodeEncode(us[0], EncodeAll(us[1..]));
      DecodeEncodeAll(us[1..]);
    }
  }

  lemma {:induction false} EncodeAllAppend(us: seq<Update>, u: Update)
    ensures EncodeAll(us + [u]) == EncodeAll(us) + Encode(u)
  {
    if us == [] {
      assert EncodeAll([u][1..]) == [];
    } else {
      assert (us + [u])[1..] == us[1..] + [u];
      EncodeAllAppend(us[1..], u);
    }
  }

  /** A read comes back short, but not empty: in the header, or in the obstacles that the header counts. */
  predicate Truncated(wire: seq<int>) {
    0 < |wire| < HEADER || (|wire| > HEADER && |wire| - HEADER < 2 * wire[2])
  }

  /** commRecvMapUpdate into a message that holds `pose0` and `count0`; the returned count is in words.
      Obstacles go to the caller's arrays, whose length it does not check. A short read leaves them as
      they were, and the header as far as it was read, behind a positive count. */
  method RecvMapUpdate(wire: seq<int>, obsX: array<int>, obsY: array<int>, pose0: Cell, count0: int)
    returns (ret: int, pose: Cell, count: int, rest: seq<int>)
    requires obsX != obsY
    requires |wire| >= HEADER ==> wire[2] <= obsX.Length && wire[2] <= obsY.Length && HEADER + 2 * wire[2] <= BUFFER_WORDS
    modifies obsX, obsY
    ensures rest == Decode(wire).rest
    ensures ret > 0 <==> Decode(wire).Decoded? || Truncated(wire)
    ensures if |wire| < HEADER then pose == pose0 && count == count0 else pose == Cell(wire[0], wire[1]) && count == wire[2]
    ensures match Decode(wire)
      case Decoded(u, _) =>
        && pose == u.pose
        && (if count <= 0 then u.obstacles == [] else u.obstacles == Listed(obsX[..], obsY[..], count))
      case Broken(_) => obsX[..] == old(obsX[..]) && obsY[..] == old(obsY[..])
  {
    pose, count := pose0, count0;
    var head := Taken(wire, HEADER);
    ret, rest := |head|, wire[|head|..];
    if ret == HEADER {
      pose, count := Cell(head[0], head[1]), head[2];
      if count > 0 {
        var body := Taken(rest, 2 * count);
        ret, rest := |body|, rest[|body|..];
        if ret == 2 * count {
          assert body == wire[HEADER..][..2 * count];
          for i := 0 to count
            invariant forall j :: 0 <= j < i ==> obsX[j] == body[2 * j] && obsY[j] == body[2 * j + 1]
          {
            obsX[i], obsY[i] := body[2 * i], body[2 * i + 1];
          }
          assert Unpaired(body) == Listed(obsX[..], obsY[..], count);
        }
      }
    }
  }

  // ---------------------------------------------------------------------------- message buffers

  /** The four bytes of a C int, least significant first. */
  function LengthBytes(n: nat): (bs: seq<byte>)
    requires n < 0x1_0000_0000
    ensures |bs| == 4
  {
    [(n % 256) as byte, (n / 256 % 256) as byte, (n / 65536 % 256) as byte, (n / 16777216) as byte]
  }

  function LengthOf(bs: seq<byte>): nat
    requires |bs| == 4
  {
    bs[0] as int + 256 * bs[1] as int + 65536 * bs[2] as int + 16777216 * bs[3] as int
  }

  lemma LengthRoundTrip(n: nat)
    requires n < 0x1_0000_0000
    ensures LengthOf(LengthBytes(n)) == n
    ensures n < 256 ==> LengthBytes(n) == [n as byte, 0, 0, 0]
  {
    var a, b, c := n / 256, n / 65536, n / 16777216;
    assert b == a / 256 && c == b / 256;
    assert n == 256 * a + n % 256 && a == 256 * b + a % 256 && b == 256 * c + b % 256;
  }

  function EncodeMessage(m: seq<byte>): seq<byte>
    requires |m| < 0x8000_0000
  {
    LengthBytes(|m|) + m
  }

  datatype Unwrapped = Unwrapped(message: seq<byte>, rest: seq<byte>) | Cut(rest: seq<byte>)

  /** commRecvMsgBuffer: four bytes of length, then that many bytes; a stream that ends early is lost.
      After a length that is negative as a C int no message bytes are read. */
  function DecodeMessage(wire: seq<byte>): (r: Unwrapped)
    ensures r.Unwrapped? ==> |r.rest| < |wire|
  {
    if |wire| < 4 then Cut([])
    else
      var n := LengthOf(wire[..4]);
      if n >= 0x8000_0000 then Unwrapped([], wire[4..])
      else if |wire| < 4 + n then Cut([])
      else Unwrapped(wire[4..4 + n], wire[4 + n..])
  }

  lemma MessageRoundTrip(m: seq<byte>, more: seq<byte>)
    requires |m| < 0x8000_0000
    ensures DecodeMessage(EncodeMessage(m) + more) == Unwrapped(m, more)
  {
    var wire := EncodeMessage(m) + more;
    assert wire[..4] == LengthBytes(|m|);
    LengthRoundTrip(|m|);
    assert wire[4..4 + |m|] == m && wire[4 + |m|..] == more;
  }

  ghost predicate Sendable(ms: seq<seq<byte>>) {
    forall i :: 0 <= i < |ms| ==> |ms[i]| < 0x8000_0000
  }

  function EncodeMessages(ms: seq<seq<byte>>): seq<byte>
    requires Sendable(ms)
  {
    if ms == [] then [] else EncodeMessage(ms[0]) + EncodeMessages(ms[1..])
  }

  function DecodeMessages(wire: seq<byte>): seq<seq<byte>>
    decreases |wire|
  {
    match DecodeMessage(wire)
    case Cut(_) => []
    case Unwrapped(m, rest) => [m] + DecodeMessages(rest)
  }

  lemma {:induction false} MessagesRoundTrip(ms: seq<seq<byte>>)
    requires Sendable(ms)
    ensures DecodeMessages(EncodeMessages(ms)) == ms
  {
    if ms != [] {
      MessageRoundTrip(ms[0], EncodeMessages(ms[1..]));
      MessagesRoundTrip(ms[1..]);
    }
  }
}
