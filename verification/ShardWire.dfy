/**
 * The shard protocol: `crates/mudproto/src/shard.rs`, and its encoder in the web gateway,
 * `apps/ws_gateway/src/main.rs`.
 */
module ShardWire {
  import opened Prelude
  import opened Names
  import opened Streams
  import Frames
  import Utf8

  const REQ_ATTACH: byte := 0x01
  const REQ_DETACH: byte := 0x02
  const REQ_INPUT: byte := 0x03
  const RESP_OUTPUT: byte := 0x81
  const RESP_ERR: byte := 0x82

  const SID_LEN := 16
  const HEADER := 1 + SID_LEN

  datatype ShardReq =
    | Attach(session: nat, isBot: bool, auth: Option<seq<byte>>, race: Option<seq<byte>>, class_: Option<seq<byte>>,
             sex: Option<seq<byte>>, pronouns: Option<seq<byte>>, name: seq<byte>)
    | Detach(session: nat)
    | Input(session: nat, line: seq<byte>)

  datatype ShardResp = Output(session: nat, line: seq<byte>) | ErrorText(session: nat, msg: seq<byte>)

  datatype ProtoError = TooShort(need: nat, got: nat) | UnknownType(t: byte) | Malformed

  datatype Result<+T> = Ok(value: T) | Err(error: ProtoError)

  /** `flags & mask != 0` for a mask of one bit. */
  predicate Bit(flags: byte, mask: nat)
    requires mask > 0
  {
    flags / mask % 2 == 1
  }

  /** A field with a one-byte length at `i`, with `extra` more bytes known to follow it. */
  function Field(p: seq<byte>, i: nat, extra: nat): Result<(seq<byte>, nat)>
    requires i < |p|
  {
    var end := i + 1 + p[i];
    if |p| < end + extra then Err(TooShort(end + extra, |p|)) else Ok((p[i + 1..end], end))
  }

  /** The optional authentication token at `i`. */
  function AuthAt(p: seq<byte>, i: nat, present: bool): Result<(Option<seq<byte>>, nat)> {
    if !present then Ok((None, i))
    else if |p| < i + 2 then Err(TooShort(i + 2, |p|))
    else
      var end := i + 2 + Number(p[i..i + 2]);
      if |p| < end then Err(TooShort(end, |p|)) else Ok((Some(p[i + 2..end]), end))
  }

  datatype Build = Build(race: seq<byte>, class_: seq<byte>, sex: seq<byte>, pronouns: seq<byte>)

  /** Two fields in a row. */
  function Fields(p: seq<byte>, i: nat, extra: nat): Result<(seq<byte>, seq<byte>, nat)>
    requires i < |p|
  {
    match Field(p, i, 1)
    case Err(e) => Err(e)
    case Ok((f, j)) =>
      match Field(p, j, extra)
      case Err(e) => Err(e)
      case Ok((g, k)) => Ok((f, g, k))
  }

  function BuildAt(p: seq<byte>, i: nat): Result<(Build, nat)> {
    if |p| < i + 1 then Err(TooShort(i + 1, |p|)) else
    match Fields(p, i, 1)
    case Err(e) => Err(e)
    case Ok((race, class_, k)) =>
      match Fields(p, k, 0)
      case Err(e) => Err(e)
      case Ok((sex, pronouns, m)) => Ok((Build(race, class_, sex, pronouns), m))
  }

  function ToAttach(session: nat, isBot: bool, auth: Option<seq<byte>>, b: Option<Build>, name: seq<byte>): ShardReq {
    if b.None? then Attach(session, isBot, auth, None, None, None, None, name)
    else
      Attach(session, isBot, auth,
             Some(b.value.race), Some(b.value.class_), Some(b.value.sex), Some(b.value.pronouns), name)
  }

  function ParseAttach(p: seq<byte>): Result<ShardReq>
    requires |p| >= HEADER
  {
    if |p| < HEADER + 1 then Err(TooShort(HEADER + 1, |p|))
    else
      var session, flags := Number(p[1..HEADER]), p[HEADER];
      match AuthAt(p, HEADER + 1, Bit(flags, 2))
      case Err(e) => Err(e)
      case Ok((auth, i)) =>
        if !Bit(flags, 4) then Ok(ToAttach(session, Bit(flags, 1), auth, None, if i <= |p| then p[i..] else []))
        else
          match BuildAt(p, i)
          case Err(e) => Err(e)
          case Ok((b, m)) => Ok(ToAttach(session, Bit(flags, 1), auth, Some(b), if m <= |p| then p[m..] else []))
  }

  function ParseReq(p: seq<byte>): Result<ShardReq> {
    if |p| < HEADER then Err(TooShort(HEADER, |p|))
    else if p[0] == REQ_ATTACH then ParseAttach(p)
    else if p[0] == REQ_DETACH then if |p| != HEADER then Err(Malformed) else Ok(Detach(Number(p[1..HEADER])))
    else if p[0] == REQ_INPUT then Ok(Input(Number(p[1..HEADER]), p[HEADER..]))
    else Err(UnknownType(p[0]))
  }

  function ParseResp(p: seq<byte>): Result<ShardResp> {
    if |p| < HEADER then Err(TooShort(HEADER, |p|))
    else if p[0] == RESP_OUTPUT then Ok(Output(Number(p[1..HEADER]), p[HEADER..]))
    else if p[0] == RESP_ERR then Ok(ErrorText(Number(p[1..HEADER]), p[HEADER..]))
    else Err(UnknownType(p[0]))
  }

  // The documented layout.

  predicate Short(s: Option<seq<byte>>) {
    s.Some? ==> |s.value| <= 255
  }

  predicate WellFormed(r: ShardReq) {
    && r.session < Pow256(SID_LEN)
    && (r.Attach? ==>
          && (r.auth.Some? ==> |r.auth.value| < Pow256(2))
          && (r.race.Some? <==> r.class_.Some?) && (r.race.Some? <==> r.sex.Some?)
          && (r.race.Some? <==> r.pronouns.Some?)
          && Short(r.race) && Short(r.class_) && Short(r.sex) && Short(r.pronouns))
  }

  function Flag(on: bool, value: nat): nat {
    if on then value else 0
  }

  function FlagsOf(r: ShardReq, spare: nat): byte
    requires r.Attach? && spare < 32
  {
    Flag(r.isBot, 1) + Flag(r.auth.Some?, 2) + Flag(r.race.Some?, 4) + 8 * spare
  }

  function LenField(s: seq<byte>): seq<byte>
    requires |s| <= 255
  {
    [|s|] + s
  }

  function AuthBytes(auth: Option<seq<byte>>): seq<byte> {
    if auth.None? then [] else BigEndian(|auth.value|, 2) + auth.value
  }

  /** The optional build fields and the name. */
  function BuildAndName(r: ShardReq): seq<byte>
    requires r.Attach? && WellFormed(r)
  {
    if r.race.None? then r.name
    else
      LenField(r.race.value) + (LenField(r.class_.value) + (LenField(r.sex.value)
      + (LenField(r.pronouns.value) + r.name)))
  }

  function Header(t: byte, session: nat): seq<byte> {
    [t] + BigEndian(session, SID_LEN)
  }

  /** The bytes of a request; `spare` fills the five flag bits without a meaning. */
  function EncodeReq(r: ShardReq, spare: nat): seq<byte>
    requires WellFormed(r) && spare < 32
  {
    match r
    case Attach(session, _, auth, _, _, _, _, _) =>
      Header(REQ_ATTACH, session) + ([FlagsOf(r, spare)] + (AuthBytes(auth) + BuildAndName(r)))
    case Detach(session) => Header(REQ_DETACH, session)
    case Input(session, line) => Header(REQ_INPUT, session) + line
  }

  /** A field as bytes: one byte of length, then the field. */
  predicate IsField(s: seq<byte>, field: Option<seq<byte>>) {
    field.Some? && s != [] && s[0] as int == |field.value| && s[1..] == field.value
  }

  /**
   * The bytes of an attach request, one part after another: its type, the session in 16 bytes with the
   * highest first, the flags, a token behind two bytes of length, race, class, sex and pronouns behind
   * one byte each, and the name.
   */
  lemma AttachBytes(r: ShardReq, spare: nat)
    returns (sid: seq<byte>, flags: byte, auth: seq<byte>, race: seq<byte>, class_: seq<byte>, sex: seq<byte>,
             pronouns: seq<byte>)
    requires WellFormed(r) && spare < 32 && r.Attach?
    ensures EncodeReq(r, spare) == [0x01] + (sid + ([flags] + (auth + (race + (class_ + (sex + (pronouns + r.name)))))))
    ensures |sid| == 16
    ensures forall i :: 0 <= i < 16 ==> Pow256(i) > 0 && sid[15 - i] as int == r.session / Pow256(i) % 256
    ensures flags % 2 == (if r.isBot then 1 else 0) && flags / 2 % 2 == (if r.auth.Some? then 1 else 0)
    ensures flags / 4 % 2 == (if r.race.Some? then 1 else 0) && flags / 8 == spare
    ensures r.auth.None? ==> auth == []
    ensures r.auth.Some? ==>
      |auth| >= 2 && 256 * (auth[0] as int) + auth[1] as int == |r.auth.value| && auth[2..] == r.auth.value
    ensures if r.race.None? then race == class_ == sex == pronouns == []
            else
              && IsField(race, r.race) && IsField(class_, r.class_)
              && IsField(sex, r.sex) && IsField(pronouns, r.pronouns)
  {
    sid, flags, auth := BigEndian(r.session, SID_LEN), FlagsOf(r, spare), AuthBytes(r.auth);
    forall i | 0 <= i < 16
      ensures Pow256(i) > 0 && sid[15 - i] as int == r.session / Pow256(i) % 256
    {
      BigEndianAt(r.session, SID_LEN, i);
    }
    FlagBits(r, spare);
    TokenBytes(r.auth);
    race, class_, sex, pronouns := [], [], [], [];
    if r.race.Some? {
      race, class_, sex, pronouns := LenField(r.race.value), LenField(r.class_.value), LenField(r.sex.value),
        LenField(r.pronouns.value);
    }
    assert BuildAndName(r) == race + (class_ + (sex + (pronouns + r.name)));
    var tail := [flags] + (auth + BuildAndName(r));
    Reassociate([0x01], sid, tail);
  }

  lemma TokenBytes(auth: Option<seq<byte>>)
    requires auth.Some? ==> |auth.value| < Pow256(2)
    ensures auth.Some? ==>
      var s := AuthBytes(auth);
      |s| >= 2 && 256 * (s[0] as int) + s[1] as int == |auth.value| && s[2..] == auth.value
  {
    if auth.Some? {
      var n := |auth.value|;
      assert Pow256(0) == 1 && Pow256(1) == 256 && Pow256(2) == 65536;
      BigEndianAt(n, 2, 0);
      BigEndianAt(n, 2, 1);
    }
  }

  /** The other requests: a type, a session, and for input the line. */
  lemma OtherBytes(r: ShardReq) returns (sid: seq<byte>)
    requires WellFormed(r) && !r.Attach?
    ensures |sid| == 16
    ensures forall i :: 0 <= i < 16 ==> Pow256(i) > 0 && sid[15 - i] as int == r.session / Pow256(i) % 256
    ensures EncodeReq(r, 0) == if r.Detach? then [0x02] + sid else [0x03] + sid + r.line
  {
    sid := BigEndian(r.session, SID_LEN);
    forall i | 0 <= i < 16
      ensures Pow256(i) > 0 && sid[15 - i] as int == r.session / Pow256(i) % 256
    {
      BigEndianAt(r.session, SID_LEN, i);
    }
  }

  // Parsing inverts the layout.

  lemma HeaderParts(t: byte, session: nat, body: seq<byte>)
    requires session < Pow256(SID_LEN)
    ensures var p := Header(t, session) + body;
      |p| == HEADER + |body| && p[0] == t && Number(p[1..HEADER]) == session && p[HEADER..] == body
  {
    var p := Header(t, session) + body;
    assert p[1..HEADER] == BigEndian(session, SID_LEN);
    NumberInvertsBigEndian(session, SID_LEN);
  }

  lemma FieldParts(p: seq<byte>, i: nat, f: seq<byte>, rest: seq<byte>, extra: nat)
    requires |f| <= 255 && extra <= |rest| && i <= |p| && p[i..] == LenField(f) + rest
    ensures i < |p| && Field(p, i, extra) == Ok((f, i + 1 + |f|)) && p[i + 1 + |f|..] == rest
  {
    assert p[i] == p[i..][0];
    Suffixes(p, i, [|f|], f + rest);
    Suffixes(p, i + 1, f, rest);
  }

  lemma Suffixes(p: seq<byte>, i: nat, a: seq<byte>, b: seq<byte>)
    requires i <= |p| && p[i..] == a + b
    ensures i + |a| <= |p| && p[i..i + |a|] == a && p[i + |a|..] == b
  {
    assert p[i..i + |a|] == p[i..][..|a|];
    assert p[i + |a|..] == p[i..][|a|..];
  }

  lemma Reassociate(a: seq<byte>, b: seq<byte>, c: seq<byte>)
    ensures (a + b) + c == a + (b + c)
  {
  }

  lemma AuthParts(p: seq<byte>, i: nat, auth: Option<seq<byte>>, rest: seq<byte>)
    requires auth.Some? ==> |auth.value| < Pow256(2)
    requires i <= |p| && p[i..] == AuthBytes(auth) + rest
    ensures AuthAt(p, i, auth.Some?) == Ok((auth, i + |AuthBytes(auth)|)) && p[i + |AuthBytes(auth)|..] == rest
  {
    if auth.Some? {
      var token := auth.value;
      TwoSuffixes(p, i, BigEndian(|token|, 2), token, rest);
      TokenAt(p, i, |token|);
    }
  }

  lemma TwoSuffixes(p: seq<byte>, i: nat, a: seq<byte>, b: seq<byte>, c: seq<byte>)
    requires i <= |p| && p[i..] == (a + b) + c
    ensures i + |a| + |b| <= |p| && p[i..i + |a|] == a
    ensures p[i + |a|..i + |a| + |b|] == b && p[i + |a| + |b|..] == c
  {
    Reassociate(a, b, c);
    Suffixes(p, i, a, b + c);
    Suffixes(p, i + |a|, b, c);
  }

  lemma TokenAt(p: seq<byte>, i: nat, n: nat)
    requires n < Pow256(2) && i + 2 + n <= |p| && p[i..i + 2] == BigEndian(n, 2)
    ensures AuthAt(p, i, true) == Ok((Some(p[i + 2..i + 2 + n]), i + 2 + n))
  {
    NumberInvertsBigEndian(n, 2);
  }

  lemma FieldsParts(p: seq<byte>, i: nat, f: seq<byte>, g: seq<byte>, rest: seq<byte>, extra: nat)
    requires |f| <= 255 && |g| <= 255 && extra <= |rest| && i <= |p| && p[i..] == LenField(f) + (LenField(g) + rest)
    ensures i < |p| && Fields(p, i, extra) == Ok((f, g, i + 2 + |f| + |g|)) && p[i + 2 + |f| + |g|..] == rest
  {
    FieldParts(p, i, f, LenField(g) + rest, 1);
    FieldParts(p, i + 1 + |f|, g, rest, extra);
  }

  lemma BuildParts(p: seq<byte>, i: nat, b: Build, name: seq<byte>)
    requires |b.race| <= 255 && |b.class_| <= 255 && |b.sex| <= 255 && |b.pronouns| <= 255 && i <= |p|
    requires p[i..] == LenField(b.race) + (LenField(b.class_) + (LenField(b.sex) + (LenField(b.pronouns) + name)))
    ensures var m := i + 4 + |b.race| + |b.class_| + |b.sex| + |b.pronouns|;
      BuildAt(p, i) == Ok((b, m)) && p[m..] == name
  {
    FieldsParts(p, i, b.race, b.class_, LenField(b.sex) + (LenField(b.pronouns) + name), 1);
    FieldsParts(p, i + 2 + |b.race| + |b.class_|, b.sex, b.pronouns, name, 0);
  }

  lemma FlagBits(r: ShardReq, spare: nat)
    requires r.Attach? && spare < 32
    ensures var f := FlagsOf(r, spare);
      && (Bit(f, 1) <==> r.isBot) && (Bit(f, 2) <==> r.auth.Some?) && (Bit(f, 4) <==> r.race.Some?) && f / 8 == spare
  {
  }

  function BuildOf(r: ShardReq): Option<Build>
    requires r.Attach? && WellFormed(r)
  {
    if r.race.None? then None else Some(Build(r.race.value, r.class_.value, r.sex.value, r.pronouns.value))
  }

  /** The parts put together by `ParseAttach`. */
  lemma ParseAttachFrom(p: seq<byte>, r: ShardReq, i: nat)
    requires r.Attach? && WellFormed(r) && |p| > HEADER && Number(p[1..HEADER]) == r.session
    requires (Bit(p[HEADER], 1) <==> r.isBot) && (Bit(p[HEADER], 2) <==> r.auth.Some?)
    requires Bit(p[HEADER], 4) <==> r.race.Some?
    requires AuthAt(p, HEADER + 1, r.auth.Some?) == Ok((r.auth, i)) && i <= |p|
    requires p[i..] == BuildAndName(r)
    ensures ParseAttach(p) == Ok(r)
  {
    if r.race.Some? {
      ParseBuiltFrom(p, r, i);
    } else {
      assert ToAttach(r.session, r.isBot, r.auth, None, r.name) == r;
    }
  }

  lemma ParseBuiltFrom(p: seq<byte>, r: ShardReq, i: nat)
    requires r.Attach? && WellFormed(r) && r.race.Some? && i <= |p| && p[i..] == BuildAndName(r)
    ensures BuildAt(p, i).Ok?
    ensures var (b, m) := BuildAt(p, i).value;
      m <= |p| && ToAttach(r.session, r.isBot, r.auth, Some(b), p[m..]) == r
  {
    BuildParts(p, i, BuildOf(r).value, r.name);
  }

  lemma ParseInvertsAttach(r: ShardReq, spare: nat)
    requires r.Attach? && WellFormed(r) && spare < 32
    ensures ParseReq(EncodeReq(r, spare)) == Ok(r)
  {
    var p, flags := EncodeReq(r, spare), FlagsOf(r, spare);
    var tail := AuthBytes(r.auth) + BuildAndName(r);
    HeaderParts(REQ_ATTACH, r.session, [flags] + tail);
    assert p[HEADER] == p[HEADER..][0] == flags;
    assert p[HEADER + 1..] == p[HEADER..][1..] == tail;
    FlagBits(r, spare);
    AuthParts(p, HEADER + 1, r.auth, BuildAndName(r));
    ParseAttachFrom(p, r, HEADER + 1 + |AuthBytes(r.auth)|);
  }

  /** Parsing inverts encoding, whatever the unused flag bits. */
  lemma ParseInvertsEncode(r: ShardReq, spare: nat)
    requires WellFormed(r) && spare < 32
    ensures ParseReq(EncodeReq(r, spare)) == Ok(r)
  {
    match r {
      case Attach(_, _, _, _, _, _, _, _) => ParseInvertsAttach(r, spare);
      case Detach(session) =>
        HeaderParts(REQ_DETACH, session, []);
        assert EncodeReq(r, spare) == Header(REQ_DETACH, session) + [];
      case Input(session, line) => HeaderParts(REQ_INPUT, session, line);
    }
  }

  // Encoding inverts parsing.

  lemma HeaderBytes(p: seq<byte>)
    requires |p| >= HEADER
    ensures Number(p[1..HEADER]) < Pow256(SID_LEN)
    ensures p == Header(p[0], Number(p[1..HEADER])) + p[HEADER..]
  {
    BigEndianInvertsNumber(p[1..HEADER]);
  }

  lemma FieldSlice(p: seq<byte>, i: nat, extra: nat)
    requires i < |p| && Field(p, i, extra).Ok?
    ensures var (f, j) := Field(p, i, extra).value;
      |f| <= 255 && j + extra <= |p| && p[i..] == LenField(f) + p[j..]
  {
  }

  lemma AuthSlice(p: seq<byte>, i: nat, present: bool)
    requires i <= |p| && AuthAt(p, i, present).Ok?
    ensures var (auth, j) := AuthAt(p, i, present).value;
      && j <= |p| && p[i..] == AuthBytes(auth) + p[j..] && (auth.Some? <==> present)
      && (auth.Some? ==> |auth.value| < Pow256(2))
  {
    if present {
      BigEndianInvertsNumber(p[i..i + 2]);
      var (auth, j) := AuthAt(p, i, present).value;
      assert p[i..] == p[i..i + 2] + p[i + 2..j] + p[j..];
    }
  }

  lemma FieldsSlice(p: seq<byte>, i: nat, extra: nat)
    requires i < |p| && Fields(p, i, extra).Ok?
    ensures var (f, g, k) := Fields(p, i, extra).value;
      |f| <= 255 && |g| <= 255 && k + extra <= |p| && p[i..] == LenField(f) + (LenField(g) + p[k..])
  {
    FieldSlice(p, i, 1);
    FieldSlice(p, Field(p, i, 1).value.1, extra);
  }

  lemma BuildSlice(p: seq<byte>, i: nat)
    requires i <= |p| && BuildAt(p, i).Ok?
    ensures var (b, m) := BuildAt(p, i).value;
      && |b.race| <= 255 && |b.class_| <= 255 && |b.sex| <= 255 && |b.pronouns| <= 255 && m <= |p|
      && p[i..] == LenField(b.race) + (LenField(b.class_) + (LenField(b.sex) + (LenField(b.pronouns) + p[m..])))
  {
    FieldsSlice(p, i, 1);
    FieldsSlice(p, Fields(p, i, 1).value.2, 0);
  }

  lemma FlagsRebuild(r: ShardReq, flags: byte)
    requires r.Attach? && (r.isBot <==> Bit(flags, 1)) && (r.auth.Some? <==> Bit(flags, 2))
    requires r.race.Some? <==> Bit(flags, 4)
    ensures flags / 8 < 32 && FlagsOf(r, flags / 8) == flags
  {
    assert flags / 2 == flags / 4 * 2 + flags / 2 % 2;
    assert flags / 4 == flags / 8 * 2 + flags / 4 % 2;
  }

  lemma AttachReencodes(p: seq<byte>)
    requires |p| >= HEADER && p[0] == REQ_ATTACH && ParseAttach(p).Ok?
    ensures var r := ParseAttach(p).value;
      |p| > HEADER && r.Attach? && WellFormed(r) && p[HEADER] / 8 < 32 && EncodeReq(r, p[HEADER] / 8) == p
  {
    var r, flags := ParseAttach(p).value, p[HEADER];
    HeaderBytes(p);
    AuthSlice(p, HEADER + 1, Bit(flags, 2));
    var i := AuthAt(p, HEADER + 1, Bit(flags, 2)).value.1;
    if Bit(flags, 4) {
      BuildSlice(p, i);
    }
    FlagsRebuild(r, flags);
    assert p[i..] == BuildAndName(r);
    assert p[HEADER..] == [flags] + p[HEADER + 1..];
  }

  /** Whatever the parser accepts encodes back to the same bytes, unused flag bits included. */
  lemma EncodeInvertsParse(p: seq<byte>)
    requires ParseReq(p).Ok?
    ensures var r := ParseReq(p).value;
      WellFormed(r) && exists spare: nat :: spare < 32 && EncodeReq(r, spare) == p
  {
    HeaderBytes(p);
    var r := ParseReq(p).value;
    if p[0] == REQ_ATTACH {
      AttachReencodes(p);
    } else {
      assert EncodeReq(r, 0) == p by {
        if r.Detach? {
          assert p[HEADER..] == [];
        }
      }
    }
  }

  /** A response parses exactly when it is a known type byte, a session id and a text. */
  lemma ParseRespIff(p: seq<byte>, r: ShardResp)
    ensures ParseResp(p) == Ok(r)
       <==> r.session < Pow256(SID_LEN)
            && p == match r
                    case Output(s, line) => Header(RESP_OUTPUT, s) + line
                    case ErrorText(s, msg) => Header(RESP_ERR, s) + msg
  {
    if |p| >= HEADER {
      HeaderBytes(p);
    }
    if r.session < Pow256(SID_LEN) {
      match r {
        case Output(s, line) => HeaderParts(RESP_OUTPUT, s, line);
        case ErrorText(s, msg) => HeaderParts(RESP_ERR, s, msg);
      }
    }
  }

  // Errors.

  /** With more bytes behind it a field reads the same, and one that was short is so until it has what it asked for. */
  lemma FieldMore(p: seq<byte>, q: seq<byte>, i: nat, extra: nat)
    requires p <= q && i < |p|
    ensures Field(p, i, extra).Ok? ==> Field(q, i, extra) == Field(p, i, extra)
    ensures Field(p, i, extra).Err? ==>
      var e := Field(p, i, extra).error;
      e.TooShort? && e.got == |p| < e.need && (|q| < e.need ==> Field(q, i, extra) == Err(TooShort(e.need, |q|)))
  {
    if Field(p, i, extra).Ok? {
      var j := Field(p, i, extra).value.1;
      assert q[i + 1..j] == p[i + 1..j];
    }
  }

  lemma FieldsMore(p: seq<byte>, q: seq<byte>, i: nat, extra: nat)
    requires p <= q && i < |p|
    ensures Fields(p, i, extra).Ok? ==> Fields(q, i, extra) == Fields(p, i, extra)
    ensures Fields(p, i, extra).Err? ==>
      var e := Fields(p, i, extra).error;
      e.TooShort? && e.got == |p| < e.need && (|q| < e.need ==> Fields(q, i, extra) == Err(TooShort(e.need, |q|)))
  {
    FieldMore(p, q, i, 1);
    if Field(p, i, 1).Ok? {
      FieldMore(p, q, Field(p, i, 1).value.1, extra);
    }
  }

  lemma BuildMore(p: seq<byte>, q: seq<byte>, i: nat)
    requires p <= q
    ensures BuildAt(p, i).Ok? ==> BuildAt(q, i) == BuildAt(p, i)
    ensures BuildAt(p, i).Err? ==>
      var e := BuildAt(p, i).error;
      e.TooShort? && e.got == |p| < e.need && (|q| < e.need ==> BuildAt(q, i) == Err(TooShort(e.need, |q|)))
  {
    if |p| >= i + 1 {
      FieldsMore(p, q, i, 1);
      if Fields(p, i, 1).Ok? {
        FieldsMore(p, q, Fields(p, i, 1).value.2, 0);
      }
    }
  }

  lemma AuthMore(p: seq<byte>, q: seq<byte>, i: nat, present: bool)
    requires p <= q
    ensures AuthAt(p, i, present).Ok? ==> AuthAt(q, i, present) == AuthAt(p, i, present)
    ensures AuthAt(p, i, present).Err? ==>
      var e := AuthAt(p, i, present).error;
      e.TooShort? && e.got == |p| < e.need && (|q| < e.need ==> AuthAt(q, i, present) == Err(TooShort(e.need, |q|)))
  {
    if present && |p| >= i + 2 {
      assert q[i..i + 2] == p[i..i + 2];
      if AuthAt(p, i, true).Ok? {
        var j := AuthAt(p, i, true).value.1;
        assert q[i + 2..j] == p[i + 2..j];
      }
    }
  }

  /**
   * A payload that is too short says how many bytes it has and how many it needs: with fewer than that,
   * whatever they are, it is still too short and still needs as many. The other errors are an unknown
   * type, and anything behind the session of a detach request.
   */
  lemma ErrorsMean(p: seq<byte>, q: seq<byte>)
    requires ParseReq(p).Err? && p <= q
    ensures var e := ParseReq(p).error;
      && (e.TooShort? ==> e.got == |p| < e.need && (|q| < e.need ==> ParseReq(q) == Err(TooShort(e.need, |q|))))
      && (e.UnknownType? <==> |p| >= 17 && p[0] !in {0x01, 0x02, 0x03})
      && (e.UnknownType? ==> e.t == p[0])
      && (e.Malformed? <==> |p| > 17 && p[0] == 0x02)
  {
    if |p| > HEADER && p[0] == REQ_ATTACH {
      AuthMore(p, q, HEADER + 1, Bit(p[HEADER], 2));
      var auth := AuthAt(p, HEADER + 1, Bit(p[HEADER], 2));
      if auth.Ok? {
        BuildMore(p, q, auth.value.1);
      }
    }
  }

  // The parser as written: a cursor that advances over the payload.

  method ParseReqAt(p: seq<byte>) returns (r: Result<ShardReq>)
    ensures r == ParseReq(p)
  {
    if |p| < HEADER {
      return Err(TooShort(HEADER, |p|));
    }
    var session := Number(p[1..HEADER]);
    if p[0] == REQ_ATTACH {
      if |p| < HEADER + 1 {
        return Err(TooShort(HEADER + 1, |p|));
      }
      var flags := p[HEADER];
      var i := HEADER + 1;
      var auth := None;
      if Bit(flags, 2) {
        if |p| < i + 2 {
          return Err(TooShort(i + 2, |p|));
        }
        var len := Number(p[i..i + 2]);
        i := i + 2;
        if |p| < i + len {
          return Err(TooShort(i + len, |p|));
        }
        auth := Some(p[i..i + len]);
        i := i + len;
      }
      if !Bit(flags, 4) {
        return Ok(Attach(session, Bit(flags, 1), auth, None, None, None, None, p[i..]));
      }
      var b, end := BuildFields(p, i);
      if b.Err? {
        return Err(b.error);
      }
      r := Ok(ToAttach(session, Bit(flags, 1), auth, Some(b.value), p[end..]));
    } else if p[0] == REQ_DETACH {
      r := if |p| != HEADER then Err(Malformed) else Ok(Detach(session));
    } else if p[0] == REQ_INPUT {
      r := Ok(Input(session, p[HEADER..]));
    } else {
      r := Err(UnknownType(p[0]));
    }
  }

  method BuildFields(p: seq<byte>, start: nat) returns (b: Result<Build>, i: nat)
    requires start <= |p|
    ensures i <= |p|
    ensures BuildAt(p, start) == if b.Ok? then Ok((b.value, i)) else Err(b.error)
  {
    i := start;
    if |p| < i + 1 {
      return Err(TooShort(i + 1, |p|)), start;
    }
    var len := p[i];
    i := i + 1;
    if |p| < i + len + 1 {
      return Err(TooShort(i + len + 1, |p|)), start;
    }
    var race := p[i..i + len];
    i := i + len;
    len := p[i];
    i := i + 1;
    if |p| < i + len + 1 {
      return Err(TooShort(i + len + 1, |p|)), start;
    }
    var class_ := p[i..i + len];
    i := i + len;
    len := p[i];
    i := i + 1;
    if |p| < i + len + 1 {
      return Err(TooShort(i + len + 1, |p|)), start;
    }
    var sex := p[i..i + len];
    i := i + len;
    len := p[i];
    i := i + 1;
    if |p| < i + len {
      return Err(TooShort(i + len, |p|)), start;
    }
    var pronouns := p[i..i + len];
    i := i + len;
    b := Ok(Build(race, class_, sex, pronouns));
  }

  // The gateway.

  /** A build field as sent: trimmed and cut to 255 bytes; slicing inside a character panics. */
  function Cut(t: seq<byte>): Option<seq<byte>> {
    if |t| <= 255 then Some(t) else if Utf8.Continues(t[255]) then None else Some(t[..255])
  }

  function Sent(s: Option<string>): Option<seq<byte>> {
    Cut(Utf8.Encode(Trim(if s.Some? then s.value else "")))
  }

  /**
   * The gateway panics on a field exactly when it is longer than 255 bytes and no whole
   * number of its characters fills 255; otherwise it sends whole characters only.
   */
  lemma SentIff(s: Option<string>)
    ensures var t := Trim(if s.Some? then s.value else "");
      && (Sent(s).None? <==> |Utf8.Encode(t)| > 255 && !Utf8.Boundary(t, 255))
      && (Sent(s).Some? ==>
            && Sent(s).value <= Utf8.Encode(t) && |Sent(s).value| == Min(255, |Utf8.Encode(t)|)
            && exists k :: 0 <= k <= |t| && Sent(s).value == Utf8.Encode(t[..k]))
  {
    var t := Trim(if s.Some? then s.value else "");
    if |Utf8.Encode(t)| > 255 {
      Utf8.BoundaryIffLeads(t, 255);
      if Utf8.Boundary(t, 255) {
        var k :| 0 <= k <= |t| && |Utf8.Encode(t[..k])| == 255;
        Utf8.PrefixGrows(t, k);
      }
    } else {
      assert t[..|t|] == t;
    }
  }

  lemma {:induction false} OneByteEach(s: string)
    requires forall i :: 0 <= i < |s| ==> s[i] < 128 as char
    ensures |Utf8.Encode(s)| == |s|
  {
    if s != [] {
      OneByteEach(s[..|s| - 1]);
    }
  }

  /** It does panic: on 254 one-byte characters and then a two-byte one, with no white space at the ends. */
  lemma TwoByteAt255Panics(s: string)
    requires |s| == 255 && Trim(s) == s && 128 as char <= s[254] < 0x800 as char
    requires forall i :: 0 <= i < 254 ==> s[i] < 128 as char
    ensures Sent(Some(s)).None?
  {
    OneByteEach(s[..254]);
    assert Utf8.Encode(s) == Utf8.Encode(s[..254]) + Utf8.EncodeChar(s[254]);
  }

  /** There is such a field. */
  lemma SomeFieldPanics()
    ensures exists s: string :: Sent(Some(s)).None?
  {
    var s := seq(254, _ => 'a') + [0xE9 as char];
    assert !White(s[0]) && !White(s[254]);
    TrimmedStays(s);
    TwoByteAt255Panics(s);
  }

  lemma TrimmedStays(s: string)
    requires s != [] && !White(s[0]) && !White(s[|s| - 1])
    ensures Trim(s) == s
  {
  }

  datatype Login = Login(isBot: bool, name: string, race: Option<string>, class_: Option<string>,
                         sex: Option<string>, pronouns: Option<string>)

  predicate HasBuild(l: Login) {
    l.race.Some? || l.class_.Some? || l.sex.Some? || l.pronouns.Some?
  }

  /** The four fields as sent, unless cutting one of them panics. */
  function SentBuild(l: Login): Option<Build> {
    if Sent(l.race).None? || Sent(l.class_).None? || Sent(l.sex).None? || Sent(l.pronouns).None? then None
    else Some(Build(Sent(l.race).value, Sent(l.class_).value, Sent(l.sex).value, Sent(l.pronouns).value))
  }

  predicate Panics(l: Login) {
    HasBuild(l) && SentBuild(l).None?
  }

  /** What the shard should see: no token, and all four fields as soon as one is given. */
  function Expected(session: nat, l: Login): ShardReq {
    ToAttach(session, l.isBot, None, if HasBuild(l) then SentBuild(l) else None, Utf8.Encode(l.name))
  }

  predicate FieldsShort(b: Build) {
    |b.race| <= 255 && |b.class_| <= 255 && |b.sex| <= 255 && |b.pronouns| <= 255
  }

  lemma SentIsShort(l: Login)
    ensures SentBuild(l).Some? ==> FieldsShort(SentBuild(l).value)
  {
    SentIff(l.race);
    SentIff(l.class_);
    SentIff(l.sex);
    SentIff(l.pronouns);
  }

  /** The body of an attach request without a token, by the documented layout. */
  function Layout(isBot: bool, b: Option<Build>, name: seq<byte>): seq<byte>
    requires b.Some? ==> FieldsShort(b.value)
  {
    [Flag(isBot, 1) + Flag(b.Some?, 4)] +
    if b.None? then name
    else
      LenField(b.value.race) + (LenField(b.value.class_) + (LenField(b.value.sex)
      + (LenField(b.value.pronouns) + name)))
  }

  lemma LayoutIsEncoding(session: nat, isBot: bool, b: Option<Build>, name: seq<byte>)
    requires session < Pow256(SID_LEN) && (b.Some? ==> FieldsShort(b.value))
    ensures var r := ToAttach(session, isBot, None, b, name);
      WellFormed(r) && EncodeReq(r, 0) == Header(REQ_ATTACH, session) + Layout(isBot, b, name)
  {
    var r := ToAttach(session, isBot, None, b, name);
    assert [] + BuildAndName(r) == BuildAndName(r);
  }

  method PushField(dst: seq<byte>, s: Option<string>) returns (out: Option<seq<byte>>)
    ensures Sent(s).Some? ==> |Sent(s).value| <= 255
    ensures out == if Sent(s).None? then None else Some(dst + LenField(Sent(s).value))
  {
    SentIff(s);
    var t := Utf8.Encode(Trim(if s.Some? then s.value else ""));
    if |t| > 255 {
      if Utf8.Continues(t[255]) {
        return None;
      }
      t := t[..255];
    }
    out := Some((dst + [|t|]) + t);
    assert (dst + [|t|]) + t == dst + ([|t|] + t);
  }

  /** The gateway's body is the documented layout of the expected request; a bad cut panics. */
  method AttachBody(l: Login) returns (body: Option<seq<byte>>)
    ensures body.None? <==> Panics(l)
    ensures body.Some? ==> var b := if HasBuild(l) then SentBuild(l) else None;
              (b.Some? ==> FieldsShort(b.value)) && body.value == Layout(l.isBot, b, Utf8.Encode(l.name))
  {
    var name := Utf8.Encode(l.name);
    var flags := Flag(l.isBot, 1);
    if !HasBuild(l) {
      return Some([flags] + name);
    }
    flags := flags + 4;
    SentIsShort(l);
    body := PushField([flags], l.race);
    if body.Some? {
      body := PushField(body.value, l.class_);
    }
    if body.Some? {
      body := PushField(body.value, l.sex);
    }
    if body.Some? {
      body := PushField(body.value, l.pronouns);
    }
    if body.Some? {
      var b := SentBuild(l).value;
      NestRight([flags], LenField(b.race), LenField(b.class_), LenField(b.sex), LenField(b.pronouns), name);
      body := Some(body.value + name);
    }
  }

  lemma NestRight(a: seq<byte>, r: seq<byte>, c: seq<byte>, s: seq<byte>, p: seq<byte>, n: seq<byte>)
    ensures ((((a + r) + c) + s) + p) + n == a + (r + (c + (s + (p + n))))
  {
  }

  /** `write_req`: the header and the body as two parts of one frame. */
  method WriteReq(fw: Frames.FrameWriter, t: byte, session: nat, body: seq<byte>) returns (ok: bool)
    requires session < Pow256(SID_LEN)
    modifies fw
    ensures ok <==> HEADER + |body| <= Frames.U32_MAX
    ensures fw.written == if ok then old(fw.written) + Frames.Encode(Header(t, session) + body) else old(fw.written)
  {
    var parts := [Header(t, session), body];
    assert Concat(parts) == Header(t, session) + body by {
      assert parts[1..] == [body] && [body][1..] == [];
      assert Concat([body]) == body + [] == body;
    }
    ok := fw.WriteFrameParts(parts);
  }

  /** Whatever the login, the request the gateway means has short fields, all or none of them. */
  lemma ExpectedIsWellFormed(session: nat, l: Login)
    requires session < Pow256(SID_LEN) && !Panics(l)
    ensures WellFormed(Expected(session, l))
  {
    SentIsShort(l);
  }

  /** The payload the shard should get: the expected request in the documented layout. */
  ghost function AttachPayload(session: nat, l: Login): seq<byte>
    requires session < Pow256(SID_LEN) && !Panics(l)
  {
    ExpectedIsWellFormed(session, l);
    EncodeReq(Expected(session, l), 0)
  }

  /** What the gateway puts on the wire to attach a session: nothing when a field panics. */
  method SendAttach(fw: Frames.FrameWriter, session: nat, l: Login) returns (ok: bool)
    requires session < Pow256(SID_LEN)
    modifies fw
    ensures ok ==> !Panics(l) && fw.written == old(fw.written) + Frames.Encode(AttachPayload(session, l))
    ensures !ok ==> fw.written == old(fw.written)
    ensures !Panics(l) && |AttachPayload(session, l)| <= Frames.U32_MAX ==> ok
  {
    var body := AttachBody(l);
    if body.None? {
      return false;
    }
    LayoutIsEncoding(session, l.isBot, if HasBuild(l) then SentBuild(l) else None, Utf8.Encode(l.name));
    ok := WriteReq(fw, REQ_ATTACH, session, body.value);
  }

  /** The shard's loop: read frames until the stream ends, and parse each. */
  method Serve(fr: Frames.FrameReader) returns (reqs: seq<Result<ShardReq>>, end: Frames.ReadResult)
    requires NonEmpty(fr.inner.chunks)
    modifies fr, fr.inner
    ensures var (frames, last) := Frames.DecodeAll(old(fr.Pending()), fr.max);
      end == last && |reqs| == |frames| && forall n :: 0 <= n < |reqs| ==> reqs[n] == ParseReq(frames[n])
  {
    var frames;
    frames, end := fr.ReadAll();
    reqs := [];
    for i := 0 to |frames|
      invariant |reqs| == i && forall n :: 0 <= n < i ==> reqs[n] == ParseReq(frames[n])
    {
      var r := ParseReqAt(frames[i]);
      reqs := reqs + [r];
    }
  }

  function Payloads(reqs: seq<ShardReq>): seq<seq<byte>>
    requires forall n :: 0 <= n < |reqs| ==> WellFormed(reqs[n])
  {
    seq(|reqs|, n requires 0 <= n < |reqs| => EncodeReq(reqs[n], 0))
  }

  /** End to end: however the written frames are cut into reads, the shard sees the requests sent. */
  method RelayAll(reqs: seq<ShardReq>, chunks: seq<seq<byte>>, max: nat)
    returns (got: seq<Result<ShardReq>>, end: Frames.ReadResult)
    requires forall n :: 0 <= n < |reqs| ==> WellFormed(reqs[n])
    requires forall n :: 0 <= n < |reqs| ==> Frames.Fits(EncodeReq(reqs[n], 0), max)
    requires NonEmpty(chunks) && Concat(chunks) == Frames.EncodeAll(Payloads(reqs))
    ensures end == Frames.EndOfStream
    ensures |got| == |reqs| && forall n :: 0 <= n < |reqs| ==> got[n] == Ok(reqs[n])
  {
    var src := new Source(chunks);
    var fr := new Frames.FrameReader(src, max);
    assert fr.Pending() == Concat(chunks);
    Frames.DecodeInvertsEncode(Payloads(reqs), fr.max);
    got, end := Serve(fr);
    forall n | 0 <= n < |reqs| ensures got[n] == Ok(reqs[n]) {
      ParseInvertsEncode(reqs[n], 0);
    }
  }

  /** A field as the shard gets it: the first 255 bytes of it, trimmed, or all there are; empty if it was not given. */
  ghost predicate Arrives(got: Option<seq<byte>>, field: Option<string>) {
    var t := Utf8.Encode(Trim(if field.Some? then field.value else ""));
    got.Some? && got.value <= t && |got.value| == Min(255, |t|)
  }

  /** A login as the shard gets it: all four fields as soon as one was given, each in its own place. */
  ghost predicate ArrivesAs(r: ShardReq, session: nat, l: Login) {
    && r.Attach? && r.session == session && r.isBot == l.isBot && r.auth == None && r.name == Utf8.Encode(l.name)
    && if l.race.Some? || l.class_.Some? || l.sex.Some? || l.pronouns.Some?
       then
         && Arrives(r.race, l.race) && Arrives(r.class_, l.class_)
         && Arrives(r.sex, l.sex) && Arrives(r.pronouns, l.pronouns)
       else r.race == r.class_ == r.sex == r.pronouns == None
  }

  lemma SentArrives(s: Option<string>)
    requires Sent(s).Some?
    ensures Arrives(Sent(s), s)
  {
  }

  lemma ExpectedArrives(session: nat, l: Login)
    requires !Panics(l)
    ensures ArrivesAs(Expected(session, l), session, l)
  {
    if HasBuild(l) {
      SentArrives(l.race);
      SentArrives(l.class_);
      SentArrives(l.sex);
      SentArrives(l.pronouns);
    }
  }

  /** A field whose cut after 255 bytes falls inside a character. */
  ghost predicate SplitAt255(field: Option<string>) {
    var t := Trim(if field.Some? then field.value else "");
    |Utf8.Encode(t)| > 255 && !Utf8.Boundary(t, 255)
  }

  /** The gateway panics on a login exactly when one field was given and one of the four is cut inside a character. */
  lemma PanicsIff(l: Login)
    ensures Panics(l)
       <==> (l.race.Some? || l.class_.Some? || l.sex.Some? || l.pronouns.Some?)
            && (SplitAt255(l.race) || SplitAt255(l.class_) || SplitAt255(l.sex) || SplitAt255(l.pronouns))
  {
    SentIff(l.race);
    SentIff(l.class_);
    SentIff(l.sex);
    SentIff(l.pronouns);
  }

  predicate Sendable(logins: seq<(nat, Login)>) {
    forall n :: 0 <= n < |logins| ==> logins[n].0 < Pow256(SID_LEN) && !Panics(logins[n].1)
  }

  ghost function AttachPayloads(logins: seq<(nat, Login)>): seq<seq<byte>>
    requires Sendable(logins)
  {
    seq(|logins|, n requires 0 <= n < |logins| => AttachPayload(logins[n].0, logins[n].1))
  }

  /** The gateway attaches one session after another on one connection. */
  method SendAll(fw: Frames.FrameWriter, logins: seq<(nat, Login)>) returns (ok: bool)
    requires Sendable(logins)
    requires forall n :: 0 <= n < |logins| ==> |AttachPayload(logins[n].0, logins[n].1)| <= Frames.U32_MAX
    modifies fw
    ensures ok && fw.written == old(fw.written) + Frames.EncodeAll(AttachPayloads(logins))
  {
    ok := true;
    ghost var payloads, was := AttachPayloads(logins), fw.written;
    for n := 0 to |logins|
      invariant ok && was + Frames.EncodeAll(payloads) == fw.written + Frames.EncodeAll(payloads[n..])
    {
      ghost var before := fw.written;
      ok := SendAttach(fw, logins[n].0, logins[n].1);
      assert payloads[n..][0] == payloads[n] && payloads[n..][1..] == payloads[n + 1..];
      Reassociate(before, Frames.Encode(payloads[n]), Frames.EncodeAll(payloads[n + 1..]));
    }
  }

  /** From the gateway's logins to the shard's requests, whatever the reads. */
  method RelayLogins(logins: seq<(nat, Login)>, chunks: seq<seq<byte>>, max: nat)
    returns (got: seq<Result<ShardReq>>, end: Frames.ReadResult)
    requires Sendable(logins)
    requires forall n :: 0 <= n < |logins| ==> Frames.Fits(AttachPayload(logins[n].0, logins[n].1), max)
    requires NonEmpty(chunks) && Concat(chunks) == Frames.EncodeAll(AttachPayloads(logins))
    ensures end == Frames.EndOfStream
    ensures |got| == |logins|
    ensures forall n :: 0 <= n < |got| ==> got[n].Ok? && ArrivesAs(got[n].value, logins[n].0, logins[n].1)
  {
    var reqs := seq(|logins|, n requires 0 <= n < |logins| => Expected(logins[n].0, logins[n].1));
    forall n | 0 <= n < |logins|
      ensures WellFormed(reqs[n]) && EncodeReq(reqs[n], 0) == AttachPayload(logins[n].0, logins[n].1)
    {
      ExpectedIsWellFormed(logins[n].0, logins[n].1);
    }
    assert Payloads(reqs) == AttachPayloads(logins);
    got, end := RelayAll(reqs, chunks, max);
    forall n | 0 <= n < |got|
      ensures got[n].Ok? && ArrivesAs(got[n].value, logins[n].0, logins[n].1)
    {
      ExpectedArrives(logins[n].0, logins[n].1);
    }
  }
}
