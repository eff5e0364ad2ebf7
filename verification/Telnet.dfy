/** The telnet command stripper: `crates/slopio/src/telnet.rs`, against RFC 854 and RFC 855. */
module Telnet {
  import opened Prelude
  import opened Streams

  const IAC: byte := 255
  const DONT: byte := 254
  const DO: byte := 253
  const WONT: byte := 252
  const WILL: byte := 251
  const SB: byte := 250
  const SE: byte := 240

  /** Subnegotiation keeps the option byte once seen and whether an IAC is pending. */
  datatype State =
    | Data
    | Iac
    | Negotiate(cmd: byte)
    | Subneg(opt: Option<byte>, iacSeen: bool, payload: seq<byte>)

  /** Where a chunk leaves the parser, the data it carried and the replies it caused. */
  datatype Result = Result(state: State, data: seq<byte>, replies: seq<byte>)

  function Refusal(cmd: byte, opt: byte): seq<byte> {
    if cmd == DO then [IAC, WONT, opt] else if cmd == WILL then [IAC, DONT, opt] else []
  }

  function Step(st: State, b: byte, refuse: bool): Result {
    match st
    case Data => if b == IAC then Result(Iac, [], []) else Result(Data, [b], [])
    case Iac =>
      if b == IAC then Result(Data, [IAC], [])
      else if b in {DO, DONT, WILL, WONT} then Result(Negotiate(b), [], [])
      else if b == SB then Result(Subneg(None, false, []), [], [])
      else Result(Data, [], [])
    case Negotiate(cmd) => Result(Data, [], if refuse then Refusal(cmd, b) else [])
    case Subneg(opt, iacSeen, payload) =>
      if opt.None? then Result(Subneg(Some(b), iacSeen, payload), [], [])
      else if iacSeen then
        if b == SE then Result(Data, [], [])
        else Result(Subneg(opt, false, if b == IAC then payload + [IAC] else payload), [], [])
      else if b == IAC then Result(Subneg(opt, true, payload), [], [])
      else Result(Subneg(opt, false, payload + [b]), [], [])
  }

  function Join(r: Result, t: Result): Result {
    Result(t.state, r.data + t.data, r.replies + t.replies)
  }

  function Run(st: State, s: seq<byte>, refuse: bool): Result {
    if s == [] then Result(st, [], [])
    else
      var r := Run(st, s[..|s| - 1], refuse);
      Join(r, Step(r.state, s[|s| - 1], refuse))
  }

  lemma JoinAssociates(r: Result, t: Result, u: Result)
    ensures Join(Join(r, t), u) == Join(r, Join(t, u))
  {
    assert (r.data + t.data) + u.data == r.data + (t.data + u.data);
    assert (r.replies + t.replies) + u.replies == r.replies + (t.replies + u.replies);
  }

  /** Chunk boundaries do not matter. */
  lemma {:induction false} RunSplits(st: State, a: seq<byte>, b: seq<byte>, refuse: bool)
    ensures Run(st, a + b, refuse) == Join(Run(st, a, refuse), Run(Run(st, a, refuse).state, b, refuse))
  {
    var r := Run(st, a, refuse);
    if b == [] {
      assert a + b == a;
      assert r.data + [] == r.data && r.replies + [] == r.replies;
    } else {
      var front := b[..|b| - 1];
      assert (a + b)[..|a + b| - 1] == a + front;
      RunSplits(st, a, front, refuse);
      var t := Run(r.state, front, refuse);
      JoinAssociates(r, t, Step(t.state, b[|b| - 1], refuse));
    }
  }

  // The stream a telnet peer writes.

  datatype Item =
    | Byte(b: byte)
    | Negotiation(cmd: byte, opt: byte)
    | Command(cmd: byte)
    | Subnegotiation(opt: byte, payload: seq<byte>)

  predicate ItemOk(i: Item) {
    match i
    case Byte(_) => true
    case Negotiation(cmd, _) => cmd in {DO, DONT, WILL, WONT}
    case Command(cmd) => cmd !in {IAC, DO, DONT, WILL, WONT, SB}
    case Subnegotiation(_, _) => true
  }

  /** Data 255 is doubled. */
  function Escape(s: seq<byte>): seq<byte> {
    if s == [] then []
    else Escape(s[..|s| - 1]) + if s[|s| - 1] == IAC then [IAC, IAC] else [s[|s| - 1]]
  }

  function Encode(i: Item): seq<byte> {
    match i
    case Byte(b) => if b == IAC then [IAC, IAC] else [b]
    case Negotiation(cmd, opt) => [IAC, cmd, opt]
    case Command(cmd) => [IAC, cmd]
    case Subnegotiation(opt, payload) => [IAC, SB, opt] + Escape(payload) + [IAC, SE]
  }

  function EncodeAll(items: seq<Item>): seq<byte> {
    if items == [] then [] else EncodeAll(items[..|items| - 1]) + Encode(items[|items| - 1])
  }

  function DataOf(items: seq<Item>): seq<byte> {
    if items == [] then []
    else
      var i := items[|items| - 1];
      DataOf(items[..|items| - 1]) + if i.Byte? then [i.b] else []
  }

  /** One refusal for each DO and WILL, in order. */
  function RepliesTo(items: seq<Item>): seq<Item> {
    if items == [] then []
    else
      var i := items[|items| - 1];
      RepliesTo(items[..|items| - 1]) +
      (if i.Negotiation? && i.cmd == DO then [Negotiation(WONT, i.opt)]
       else if i.Negotiation? && i.cmd == WILL then [Negotiation(DONT, i.opt)]
       else [])
  }

  lemma RunBytes2(st: State, x: byte, y: byte, refuse: bool)
    ensures Run(st, [x, y], refuse) == Join(Step(st, x, refuse), Step(Step(st, x, refuse).state, y, refuse))
  {
    assert [x, y][..1] == [x] && [x][..0] == [];
    assert Run(st, [x], refuse) == Step(st, x, refuse);
  }

  lemma {:induction false} RunEscaped(opt: byte, buf: seq<byte>, payload: seq<byte>, refuse: bool)
    ensures Run(Subneg(Some(opt), false, buf), Escape(payload), refuse)
         == Result(Subneg(Some(opt), false, buf + payload), [], [])
  {
    var st := Subneg(Some(opt), false, buf);
    if payload == [] {
      assert buf + payload == buf;
    } else {
      var front, b := payload[..|payload| - 1], payload[|payload| - 1];
      RunEscaped(opt, buf, front, refuse);
      var tail := if b == IAC then [IAC, IAC] else [b];
      RunSplits(st, Escape(front), tail, refuse);
      var mid := Subneg(Some(opt), false, buf + front);
      if b == IAC {
        RunBytes2(mid, IAC, IAC, refuse);
      } else {
        assert [b][..0] == [];
      }
      assert (buf + front) + [b] == buf + payload;
    }
  }

  /** One item from the data state: back in the data state, with its data and its reply. */
  lemma RunItem(i: Item, refuse: bool)
    requires ItemOk(i)
    ensures Run(Data, Encode(i), refuse)
         == Result(Data, if i.Byte? then [i.b] else [], if refuse && i.Negotiation? then Refusal(i.cmd, i.opt) else [])
  {
    match i {
      case Byte(b) =>
        if b == IAC {
          RunBytes2(Data, IAC, IAC, refuse);
        } else {
          assert [b][..0] == [];
        }
      case Command(cmd) =>
        RunBytes2(Data, IAC, cmd, refuse);
      case Negotiation(cmd, opt) =>
        RunBytes2(Data, IAC, cmd, refuse);
        assert [IAC, cmd, opt][..2] == [IAC, cmd];
      case Subnegotiation(opt, payload) =>
        RunSubnegotiation(opt, payload, refuse);
    }
  }

  lemma RunSubnegotiation(opt: byte, payload: seq<byte>, refuse: bool)
    ensures Run(Data, [IAC, SB, opt] + Escape(payload) + [IAC, SE], refuse) == Result(Data, [], [])
  {
    RunBytes2(Data, IAC, SB, refuse);
    assert [IAC, SB, opt][..2] == [IAC, SB];
    assert Run(Data, [IAC, SB, opt], refuse) == Result(Subneg(Some(opt), false, []), [], []);
    RunEscaped(opt, [], payload, refuse);
    assert [] + payload == payload;
    RunSplits(Data, [IAC, SB, opt], Escape(payload), refuse);
    RunBytes2(Subneg(Some(opt), false, payload), IAC, SE, refuse);
    RunSplits(Data, [IAC, SB, opt] + Escape(payload), [IAC, SE], refuse);
  }

  /**
   * The bytes of RFC 854 themselves: a request to do or an offer is refused, the refusals themselves are
   * not answered, a doubled 255 is data, and 255 250 begins what 255 240 ends.
   */
  lemma LiteralBytes(opt: byte, payload: seq<byte>)
    requires 255 !in payload
    ensures Run(Data, [255, 253, opt], true) == Result(Data, [], [255, 252, opt])
    ensures Run(Data, [255, 251, opt], true) == Result(Data, [], [255, 254, opt])
    ensures Run(Data, [255, 252, opt], true) == Run(Data, [255, 254, opt], true) == Result(Data, [], [])
    ensures Run(Data, [255, 255], true) == Result(Data, [255], [])
    ensures opt < 255 ==> Run(Data, [opt], true) == Result(Data, [opt], [])
    ensures Run(Data, [255, 250, opt] + payload + [255, 240], true) == Result(Data, [], [])
  {
    RunItem(Negotiation(DO, opt), true);
    RunItem(Negotiation(WILL, opt), true);
    RunItem(Negotiation(WONT, opt), true);
    RunItem(Negotiation(DONT, opt), true);
    RunItem(Byte(255), true);
    RunItem(Byte(opt), true);
    EscapeNothing(payload);
    RunSubnegotiation(opt, payload, true);
  }

  lemma {:induction false} EscapeNothing(s: seq<byte>)
    requires 255 !in s
    ensures Escape(s) == s
  {
    if s != [] {
      EscapeNothing(s[..|s| - 1]);
      assert s[|s| - 1] in s;
    }
  }

  /** Nothing leaves a subnegotiation before a byte 240, and nothing of it is data or is answered. */
  lemma {:induction false} SilentUntilSe(opt: Option<byte>, iacSeen: bool, buf: seq<byte>, s: seq<byte>, refuse: bool)
    requires opt.Some? ==> 240 !in s
    requires opt.None? ==> s == [] || 240 !in s[1..]
    ensures var r := Run(Subneg(opt, iacSeen, buf), s, refuse);
      && r.state.Subneg? && r.data == [] && r.replies == []
      && (r.state.opt.Some? <==> opt.Some? || s != [])
  {
    if s != [] {
      var n := |s| - 1;
      assert n > 0 ==> s[..n][1..] == s[1..][..n - 1];
      assert n > 0 ==> s[n] == s[1..][n - 1];
      SilentUntilSe(opt, iacSeen, buf, s[..n], refuse);
    }
  }

  lemma EncodeNext(items: seq<Item>, i: Item)
    ensures EncodeAll(items + [i]) == EncodeAll(items) + Encode(i)
  {
    assert (items + [i])[..|items|] == items;
  }

  /** Decoding inverts encoding: exactly the data bytes, and exactly the refusals, encoded, in order. */
  lemma {:induction false} DecodeInvertsEncode(items: seq<Item>, refuse: bool)
    requires forall n :: 0 <= n < |items| ==> ItemOk(items[n])
    ensures Run(Data, EncodeAll(items), refuse)
         == Result(Data, DataOf(items), if refuse then EncodeAll(RepliesTo(items)) else [])
  {
    if items != [] {
      var front, i := items[..|items| - 1], items[|items| - 1];
      DecodeInvertsEncode(front, refuse);
      RunItem(i, refuse);
      RunSplits(Data, EncodeAll(front), Encode(i), refuse);
      if i.Negotiation? && i.cmd == DO {
        EncodeNext(RepliesTo(front), Negotiation(WONT, i.opt));
      } else if i.Negotiation? && i.cmd == WILL {
        EncodeNext(RepliesTo(front), Negotiation(DONT, i.opt));
      } else {
        assert RepliesTo(items) == RepliesTo(front);
      }
    }
  }

  lemma {:induction false} RefusalsAreQuiet(items: seq<Item>)
    ensures forall n :: 0 <= n < |RepliesTo(items)| ==>
              RepliesTo(items)[n].Negotiation? && RepliesTo(items)[n].cmd in {WONT, DONT}
  {
    if items != [] {
      RefusalsAreQuiet(items[..|items| - 1]);
    }
  }

  /** A refusal makes the parser that reads it say nothing and carries no data. */
  lemma RefusalIsQuiet(cmd: byte, opt: byte)
    ensures Run(Data, Refusal(cmd, opt), true) == Result(Data, [], [])
  {
    if cmd == DO {
      RunItem(Negotiation(WONT, opt), true);
    } else if cmd == WILL {
      RunItem(Negotiation(DONT, opt), true);
    }
  }

  /**
   * No negotiation loop: whatever bytes a parser has read, in whatever state it began, feeding its
   * replies to another parser yields no data and no replies, and leaves that one as it was.
   */
  lemma {:induction false} RepliesCauseNothing(st: State, s: seq<byte>)
    ensures Run(Data, Run(st, s, true).replies, true) == Result(Data, [], [])
  {
    if s != [] {
      var r, b := Run(st, s[..|s| - 1], true), s[|s| - 1];
      RepliesCauseNothing(st, s[..|s| - 1]);
      var more := Step(r.state, b, true).replies;
      if r.state.Negotiate? {
        RefusalIsQuiet(r.state.cmd, b);
      } else {
        assert more == [];
      }
      RunSplits(Data, r.replies, more, true);
    }
  }

  class IacParser {
    var state: State
    var refuse: bool

    constructor ()
      ensures state == Data && refuse
    {
      state, refuse := Data, true;
    }

    method RefuseNegotiation(on: bool)
      modifies this`refuse
      ensures refuse == on
    {
      refuse := on;
    }

    /** One chunk, byte by byte, from wherever the last chunk left off. */
    method Parse(chunk: seq<byte>) returns (out: seq<byte>, replies: seq<byte>)
      modifies this`state
      ensures Result(state, out, replies) == Run(old(state), chunk, refuse)
    {
      out, replies := [], [];
      for n := 0 to |chunk|
        invariant Result(state, out, replies) == Run(old(state), chunk[..n], refuse)
      {
        assert chunk[..n + 1][..n] == chunk[..n];
        var b := chunk[n];
        match state
        case Data =>
          if b == IAC {
            state := Iac;
          } else {
            out := out + [b];
          }
        case Iac =>
          if b == IAC {
            out := out + [IAC];
            state := Data;
          } else if b == DO || b == DONT || b == WILL || b == WONT {
            state := Negotiate(b);
          } else if b == SB {
            state := Subneg(None, false, []);
          } else {
            state := Data;
          }
        case Negotiate(cmd) =>
          if refuse {
            if cmd == DO {
              replies := replies + [IAC, WONT, b];
            } else if cmd == WILL {
              replies := replies + [IAC, DONT, b];
            }
          }
          state := Data;
        case Subneg(opt, iacSeen, payload) =>
          if opt.None? {
            state := Subneg(Some(b), iacSeen, payload);
          } else if iacSeen {
            if b == SE {
              state := Data;
            } else if b == IAC {
              state := Subneg(opt, false, payload + [IAC]);
            } else {
              state := Subneg(opt, false, payload);
            }
          } else if b == IAC {
            state := Subneg(opt, true, payload);
          } else {
            state := Subneg(opt, false, payload + [b]);
          }
      }
      assert chunk[..|chunk|] == chunk;
    }

    /** A whole connection: however the peer's items are cut into chunks, the data and replies are the same. */
    method ParseChunks(chunks: seq<seq<byte>>, ghost items: seq<Item>) returns (out: seq<byte>, replies: seq<byte>)
      requires state == Data
      requires forall n :: 0 <= n < |items| ==> ItemOk(items[n])
      requires Concat(chunks) == EncodeAll(items)
      modifies this`state
      ensures state == Data
      ensures out == DataOf(items)
      ensures replies == if refuse then EncodeAll(RepliesTo(items)) else []
    {
      out, replies := [], [];
      for n := 0 to |chunks|
        invariant Result(state, out, replies) == Run(Data, Concat(chunks[..n]), refuse)
      {
        ConcatNext(chunks, n);
        RunSplits(Data, Concat(chunks[..n]), chunks[n], refuse);
        var d, r := Parse(chunks[n]);
        out, replies := out + d, replies + r;
      }
      assert chunks[..|chunks|] == chunks;
      DecodeInvertsEncode(items, refuse);
    }
  }
}
