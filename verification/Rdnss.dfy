/** The parser for the kernel's neighbour-discovery user option messages (RDNSS). */
module Rdnss {
  import opened Bytes

  const MSG_SIZE := 16
  const HDR_SIZE := 4
  const ND_OPT_RDNSS: byte := 25
  const SECOND := 1_000_000_000

  type uint16 = x: int | 0 <= x < B16

  /** One RDNSS option as the rest of the program sees it; the lifetime is in nanoseconds. */
  datatype RDNSSOption = RDNSSOption(lifetime: int, servers: seq<seq<byte>>)

  datatype NDUserOpt = NDUserOpt(family: byte, ifindex: uint32, icmpType: byte, icmpCode: byte, rdnss: seq<RDNSSOption>)

  datatype Error = MessageTooShort | OptionsTooShort | RanOut | RDNSSTooShort

  /** `Ignored` is the nil result without an error; `Panic` a slice beyond its capacity. */
  datatype Outcome<T> = Parsed(value: T) | Ignored | Failed(error: Error) | Panic

  // ---------------------------------------------------------------- what the parser computes

  function Servers(b: seq<byte>): (ss: seq<seq<byte>>)
    ensures |ss| == |b| / 16
  {
    if |b| < 16 then [] else [b[..16]] + Servers(b[16..])
  }

  function OneRDNSS(b: seq<byte>): RDNSSOption
    requires |b| >= 24
  {
    RDNSSOption(FromBe32(b[4..8]) * SECOND, Servers(b[8..]))
  }

  /** The size in bytes that an option's Length field announces. */
  function OptionSize(b: seq<byte>): nat
    requires |b| >= 2
  {
    var length: int := b[1];
    8 * length
  }

  /** The option loop on a slice with contents `b`, followed in its backing array by `beyond`. */
  function Options(b: seq<byte>, beyond: seq<byte>, acc: seq<RDNSSOption>): (r: Outcome<seq<RDNSSOption>>)
    decreases |b|
  {
    var full := b + beyond;
    if |full| < HDR_SIZE then Panic
    else
      var l := OptionSize(full);
      if l == 0 then Ignored
      else if |b| < l then Failed(RanOut)
      else if full[0] == ND_OPT_RDNSS && l < 24 then Failed(RDNSSTooShort)
      else
        var acc' := if full[0] == ND_OPT_RDNSS then acc + [OneRDNSS(b[..l])] else acc;
        if |b| - l < HDR_SIZE then Parsed(acc') else Options(b[l..], beyond, acc')
  }

  function OptsLen(b: seq<byte>): (n: uint16)
    requires |b| >= MSG_SIZE
  {
    b[2] + b[3] * B8
  }

  function WithOptions(b: seq<byte>, rs: seq<RDNSSOption>): NDUserOpt
    requires |b| >= MSG_SIZE
  {
    NDUserOpt(b[0], FromLe32(b[4..8]), b[8], b[9], rs)
  }

  /** A whole message `b` in a slice with room for `spare` after it. */
  function Message(b: seq<byte>, spare: seq<byte>): (r: Outcome<NDUserOpt>)
  {
    if |b| < MSG_SIZE then Failed(MessageTooShort)
    else
      var n := OptsLen(b);
      if |b| - MSG_SIZE < n then Failed(OptionsTooShort)
      else
        match Options(b[MSG_SIZE..MSG_SIZE + n], b[MSG_SIZE + n..] + spare, [])
        case Parsed(rs) => Parsed(WithOptions(b, rs))
        case Ignored => Ignored
        case Failed(e) => Failed(e)
        case Panic => Panic
  }

  // ---------------------------------------------------------------- the parser

  method ParseRDNSSOption(b: seq<byte>) returns (r: Outcome<RDNSSOption>)
    ensures |b| < 24 ==> r == Failed(RDNSSTooShort)
    ensures |b| >= 24 ==> r == Parsed(OneRDNSS(b))
  {
    if |b| < 24 {
      return Failed(RDNSSTooShort);
    }
    var rest := b[4..];
    var lifetime := FromBe32(rest[..4]) * SECOND;
    assert rest[..4] == b[4..8];
    rest := rest[4..];
    assert rest == b[8..];
    var servers: seq<seq<byte>> := [];
    while |rest| >= 16
      invariant servers + Servers(rest) == Servers(b[8..])
      decreases |rest|
    {
      assert servers + Servers(rest) == servers + [rest[..16]] + Servers(rest[16..]);
      servers := servers + [rest[..16]];
      rest := rest[16..];
    }
    assert servers == servers + Servers(rest);
    return Parsed(RDNSSOption(lifetime, servers));
  }

  method ParseOptions(opts: seq<byte>, beyond: seq<byte>) returns (r: Outcome<seq<RDNSSOption>>)
    ensures r == Options(opts, beyond, [])
  {
    var b, rs := opts, [];
    while true
      invariant Options(b, beyond, rs) == Options(opts, beyond, [])
      decreases |b|
    {
      var full := b + beyond;
      if |full| < HDR_SIZE {
        return Panic;
      }
      var typ, l := full[0], OptionSize(full);
      if l == 0 {
        return Ignored;
      }
      if |b| < l {
        return Failed(RanOut);
      }
      if typ == ND_OPT_RDNSS {
        var one := ParseRDNSSOption(b[..l]);
        if !one.Parsed? {
          return Failed(RDNSSTooShort);
        }
        rs := rs + [one.value];
      }
      b := b[l..];
      if |b| < HDR_SIZE {
        return Parsed(rs);
      }
    }
  }

  method ParseNDUserOpt(b: seq<byte>, spare: seq<byte>) returns (r: Outcome<NDUserOpt>)
    ensures r == Message(b, spare)
  {
    if |b| < MSG_SIZE {
      return Failed(MessageTooShort);
    }
    var n := b[2] + b[3] * B8;
    if |b| - MSG_SIZE < n {
      return Failed(OptionsTooShort);
    }
    var rs := ParseOptions(b[MSG_SIZE..MSG_SIZE + n], b[MSG_SIZE + n..] + spare);
    match rs
    case Parsed(list) => return Parsed(NDUserOpt(b[0], FromLe32(b[4..8]), b[8], b[9], list));
    case Ignored => return Ignored;
    case Failed(e) => return Failed(e);
    case Panic => return Panic;
  }

  // ---------------------------------------------------------------- the wire format

  /**
   * One option on the wire. An RDNSS option is section 5.1 of RFC 8106: two reserved bytes, the
   * lifetime in seconds and the addresses; `pad` is the half address that an even Length leaves.
   * Anything else is the general form of section 4.6 of RFC 4861.
   */
  datatype WireOption =
    | RDNSS(reserved: seq<byte>, lifetime: uint32, servers: seq<seq<byte>>, pad: seq<byte>)
    | Other(typ: byte, body: seq<byte>)

  /** The option's Length field: its size in units of eight bytes. */
  function Units(o: WireOption): nat {
    if o.RDNSS? then 1 + 2 * |o.servers| + |o.pad| / 8 else (2 + |o.body|) / 8
  }

  predicate WellFormed(o: WireOption) {
    && 1 <= Units(o) < 256
    && match o
       case RDNSS(reserved, _, servers, pad) =>
         && |reserved| == 2 && servers != [] && (|pad| == 0 || |pad| == 8)
         && (forall i :: 0 <= i < |servers| ==> |servers[i]| == 16)
       case Other(typ, body) => typ != ND_OPT_RDNSS && |body| == 8 * Units(o) - 2
  }

  function Flat(ss: seq<seq<byte>>): (b: seq<byte>)
    requires forall i :: 0 <= i < |ss| ==> |ss[i]| == 16
    ensures |b| == 16 * |ss|
  {
    if ss == [] then [] else ss[0] + Flat(ss[1..])
  }

  function Encode(o: WireOption): (b: seq<byte>)
    requires WellFormed(o)
    ensures |b| == 8 * Units(o) && b[1] == Units(o)
    ensures b[0] == if o.RDNSS? then ND_OPT_RDNSS else o.typ
  {
    match o
    case RDNSS(reserved, lifetime, servers, pad) =>
      [ND_OPT_RDNSS, Units(o)] + reserved + Be32(lifetime) + (Flat(servers) + pad)
    case Other(typ, body) => [typ, Units(o)] + body
  }

  predicate AllWellFormed(os: seq<WireOption>) {
    os == [] || (WellFormed(os[0]) && AllWellFormed(os[1..]))
  }

  function EncodeAll(os: seq<WireOption>): seq<byte>
    requires AllWellFormed(os)
  {
    if os == [] then [] else Encode(os[0]) + EncodeAll(os[1..])
  }

  function Found(o: WireOption): seq<RDNSSOption> {
    if o.RDNSS? then [RDNSSOption(o.lifetime * SECOND, o.servers)] else []
  }

  /** The RDNSS options among `os`, in order. */
  function AllFound(os: seq<WireOption>): seq<RDNSSOption> {
    if os == [] then [] else Found(os[0]) + AllFound(os[1..])
  }

  // ---------------------------------------------------------------- one option, both ways

  lemma {:induction false} ServersOfFlat(ss: seq<seq<byte>>, pad: seq<byte>)
    requires |pad| < 16 && forall i :: 0 <= i < |ss| ==> |ss[i]| == 16
    ensures Servers(Flat(ss) + pad) == ss
    decreases |ss|
  {
    if ss != [] {
      var b := Flat(ss) + pad;
      assert b[..16] == ss[0];
      assert b[16..] == Flat(ss[1..]) + pad;
      ServersOfFlat(ss[1..], pad);
    }
  }

  lemma {:induction false} FlatOfServers(b: seq<byte>)
    ensures forall i :: 0 <= i < |Servers(b)| ==> |Servers(b)[i]| == 16
    ensures Flat(Servers(b)) + b[|b| / 16 * 16..] == b
    decreases |b|
  {
    if |b| >= 16 {
      FlatOfServers(b[16..]);
      var ss := Servers(b);
      assert ss[1..] == Servers(b[16..]);
      assert forall i :: 1 <= i < |ss| ==> ss[i] == ss[1..][i - 1];
      assert b[16..][|b[16..]| / 16 * 16..] == b[|b| / 16 * 16..];
      assert b == b[..16] + b[16..];
    }
  }

  /** Reading an encoded RDNSS option: its lifetime, which fits 64 bits, and its (Length - 1) / 2 addresses. */
  lemma ReadsBack(o: WireOption)
    requires WellFormed(o) && o.RDNSS?
    ensures |Encode(o)| >= 24 && OneRDNSS(Encode(o)) == RDNSSOption(o.lifetime * SECOND, o.servers)
    ensures |o.servers| == (Units(o) - 1) / 2
    ensures 0 <= OneRDNSS(Encode(o)).lifetime < B64 / 2
  {
    var b := Encode(o);
    ServersOfFlat(o.servers, o.pad);
    RoundTrip32(o.lifetime);
    assert b[4..8] == Be32(o.lifetime);
    assert b[8..] == Flat(o.servers) + o.pad;
  }

  /** Every option the parser takes is the encoding of a well-formed option. */
  lemma Decoded(b: seq<byte>) returns (o: WireOption)
    requires |b| >= 8 && |b| == OptionSize(b) && (b[0] == ND_OPT_RDNSS ==> |b| >= 24)
    ensures WellFormed(o) && Encode(o) == b && (o.RDNSS? <==> b[0] == ND_OPT_RDNSS)
  {
    if b[0] == ND_OPT_RDNSS {
      var body := b[8..];
      FlatOfServers(body);
      o := RDNSS(b[2..4], FromBe32(b[4..8]), Servers(body), body[|body| / 16 * 16..]);
      assert Units(o) == b[1] by { Sizes(b[1], |body|, |o.pad|); }
      RoundTripBytes(b[4..8]);
      assert b == [b[0], b[1]] + b[2..4] + b[4..8] + body;
    } else {
      o := Other(b[0], b[2..]);
      assert b == [b[0], b[1]] + b[2..];
    }
  }

  lemma Sizes(n: nat, size: nat, pad: nat)
    requires n >= 3 && size == 8 * (n - 1) && pad == size - size / 16 * 16
    ensures 1 + 2 * (size / 16) + pad / 8 == n && (pad == 0 || pad == 8)
  {
  }

  // ---------------------------------------------------------------- option lists

  /** The loop takes one encoded option and goes on with the rest, if there is room for a header. */
  lemma TakesOne(o: WireOption, rest: seq<byte>, beyond: seq<byte>, acc: seq<RDNSSOption>)
    requires WellFormed(o)
    ensures Options(Encode(o) + rest, beyond, acc)
         == if |rest| < HDR_SIZE then Parsed(acc + Found(o)) else Options(rest, beyond, acc + Found(o))
  {
    var b := Encode(o) + rest;
    assert b[..|Encode(o)|] == Encode(o) && b[|Encode(o)|..] == rest;
    if o.RDNSS? {
      ReadsBack(o);
    } else {
      assert acc + Found(o) == acc;
    }
  }

  lemma Grouped<T>(a: seq<T>, b: seq<T>, c: seq<T>)
    ensures a + b + c == a + (b + c)
  {}

  lemma {:induction false} TakesAll(os: seq<WireOption>, rest: seq<byte>, beyond: seq<byte>, acc: seq<RDNSSOption>)
    requires AllWellFormed(os)
    requires |rest| >= HDR_SIZE || os != []
    ensures Options(EncodeAll(os) + rest, beyond, acc)
         == if |rest| < HDR_SIZE then Parsed(acc + AllFound(os)) else Options(rest, beyond, acc + AllFound(os))
    decreases |os|
  {
    if os == [] {
      assert EncodeAll(os) + rest == rest && acc + AllFound(os) == acc;
    } else {
      var more := EncodeAll(os[1..]) + rest;
      Grouped(Encode(os[0]), EncodeAll(os[1..]), rest);
      Grouped(acc, Found(os[0]), AllFound(os[1..]));
      TakesOne(os[0], more, beyond, acc);
      if os[1..] != [] || |rest| >= HDR_SIZE {
        TakesAll(os[1..], rest, beyond, acc + Found(os[0]));
      } else {
        assert more == rest && AllFound(os[1..]) == [];
        assert acc + Found(os[0]) + [] == acc + Found(os[0]);
      }
    }
  }

  /** The loop takes no further option from `rest`. */
  ghost predicate Stuck(rest: seq<byte>, beyond: seq<byte>, first: bool) {
    var full := rest + beyond;
    if !first && |rest| < HDR_SIZE then true
    else |full| < HDR_SIZE || full[1] == 0 || |rest| < OptionSize(full) || (full[0] == ND_OPT_RDNSS && full[1] < 3)
  }

  /** How the loop ends on the bytes left after a list of options, which is empty if `first`. */
  ghost predicate Ends(rest: seq<byte>, beyond: seq<byte>, first: bool, r: Outcome<seq<RDNSSOption>>,
                       found: seq<RDNSSOption>) {
    var full := rest + beyond;
    match r
    case Parsed(rs) => !first && |rest| < HDR_SIZE && rs == found
    case Panic => first && |full| < HDR_SIZE
    case Ignored => (first || |rest| >= HDR_SIZE) && |full| >= HDR_SIZE && full[1] == 0
    case Failed(e) =>
      && (first || |rest| >= HDR_SIZE) && |full| >= HDR_SIZE && full[1] != 0
      && if e == RanOut then |rest| < OptionSize(full)
         else e == RDNSSTooShort && full[0] == ND_OPT_RDNSS && full[1] < 3 && OptionSize(full) <= |rest|
  }

  /** Any bytes are a list of well-formed options followed by something the loop stops at. */
  lemma {:induction false} Chop(b: seq<byte>, beyond: seq<byte>) returns (os: seq<WireOption>, rest: seq<byte>)
    ensures AllWellFormed(os) && b == EncodeAll(os) + rest && Stuck(rest, beyond, os == [])
    decreases |b|
  {
    os, rest := [], b;
    if Stuck(b, beyond, true) {
      return;
    }
    var l := OptionSize(b + beyond);
    var o := Decoded(b[..l]);
    var tail: seq<WireOption> := [];
    rest := b[l..];
    if |rest| >= HDR_SIZE {
      tail, rest := Chop(b[l..], beyond);
    }
    os := [o] + tail;
    assert os[1..] == tail && os[0] == o;
    assert b[l..] == EncodeAll(tail) + rest;
    Regroup(b, l, EncodeAll(tail), rest);
  }

  lemma Regroup(b: seq<byte>, l: nat, x: seq<byte>, rest: seq<byte>)
    requires l <= |b| && b[l..] == x + rest
    ensures b == b[..l] + x + rest
  {
    assert b == b[..l] + b[l..];
  }

  /** The loop's result is settled by the options and the bytes it stops at. */
  lemma Settled(os: seq<WireOption>, rest: seq<byte>, beyond: seq<byte>, r: Outcome<seq<RDNSSOption>>)
    requires AllWellFormed(os) && Stuck(rest, beyond, os == [])
    ensures Options(EncodeAll(os) + rest, beyond, []) == r <==> Ends(rest, beyond, os == [], r, AllFound(os))
  {
    assert [] + AllFound(os) == AllFound(os);
    if os == [] {
      assert EncodeAll(os) + rest == rest;
    } else {
      TakesAll(os, rest, beyond, []);
    }
  }

  ghost predicate Explains(os: seq<WireOption>, rest: seq<byte>, b: seq<byte>, beyond: seq<byte>,
                           r: Outcome<seq<RDNSSOption>>) {
    AllWellFormed(os) && b == EncodeAll(os) + rest && Ends(rest, beyond, os == [], r, AllFound(os))
  }

  /** For any bytes, the loop's result is r exactly when the bytes are options followed by an ending for r. */
  lemma OptionsIff(b: seq<byte>, beyond: seq<byte>, r: Outcome<seq<RDNSSOption>>)
    ensures Options(b, beyond, []) == r <==> exists os, rest :: Explains(os, rest, b, beyond, r)
  {
    if Options(b, beyond, []) == r {
      var os, rest := Chop(b, beyond);
      Settled(os, rest, beyond, r);
      assert Explains(os, rest, b, beyond, r);
    }
    forall os, rest | Explains(os, rest, b, beyond, r)
      ensures Options(b, beyond, []) == r
    {
      Settled(os, rest, beyond, r);
    }
  }

  // ---------------------------------------------------------------- messages

  datatype Header = Header(family: byte, pad: byte, ifindex: uint32, icmpType: byte, icmpCode: byte, pads: seq<byte>)

  /** A message: the 16-byte header in the machine's little-endian order, then `n` bytes of options. */
  function EncodeHeader(h: Header, n: uint16): (b: seq<byte>)
    requires |h.pads| == 6
    ensures |b| == MSG_SIZE
  {
    [h.family, h.pad, n % B8, n / B8] + Le32(h.ifindex) + [h.icmpType, h.icmpCode] + h.pads
  }

  function Opt(h: Header, rs: seq<RDNSSOption>): NDUserOpt {
    NDUserOpt(h.family, h.ifindex, h.icmpType, h.icmpCode, rs)
  }

  lemma HeaderReads(h: Header, n: uint16, more: seq<byte>, rs: seq<RDNSSOption>)
    requires |h.pads| == 6
    ensures var b := EncodeHeader(h, n) + more;
            OptsLen(b) == n && WithOptions(b, rs) == Opt(h, rs) && b[MSG_SIZE..] == more
  {
    var b := EncodeHeader(h, n) + more;
    RoundTrip32(h.ifindex);
    assert b[4..8] == Le32(h.ifindex);
  }

  lemma HeaderOf(b: seq<byte>) returns (h: Header)
    requires |b| >= MSG_SIZE
    ensures |h.pads| == 6 && b[..MSG_SIZE] == EncodeHeader(h, OptsLen(b))
  {
    h := Header(b[0], b[1], FromLe32(b[4..8]), b[8], b[9], b[10..16]);
    RoundTripBytes(b[4..8]);
    assert b[..MSG_SIZE] == [b[0], b[1], b[2], b[3]] + b[4..8] + [b[8], b[9]] + b[10..16];
  }

  function Wrapped(h: Header, r: Outcome<seq<RDNSSOption>>): Outcome<NDUserOpt> {
    match r
    case Parsed(rs) => Parsed(Opt(h, rs))
    case Ignored => Ignored
    case Failed(e) => Failed(e)
    case Panic => Panic
  }

  /** A message's result is that of its options. */
  lemma MessageIs(h: Header, opts: seq<byte>, after: seq<byte>, spare: seq<byte>)
    requires |h.pads| == 6 && |opts| < B16
    ensures Message(EncodeHeader(h, |opts|) + (opts + after), spare) == Wrapped(h, Options(opts, after + spare, []))
  {
    var b, n, r := EncodeHeader(h, |opts|) + (opts + after), |opts|, Options(opts, after + spare, []);
    HeaderReads(h, n, opts + after, if r.Parsed? then r.value else []);
    assert b[MSG_SIZE..MSG_SIZE + n] == b[MSG_SIZE..][..n] == opts;
    assert b[MSG_SIZE + n..] == b[MSG_SIZE..][n..] == after;
  }

  /** `b` is a message carrying the options `os` and up to three stray option bytes, with `after` behind them. */
  ghost predicate IsMessage(b: seq<byte>, h: Header, os: seq<WireOption>, stray: seq<byte>, after: seq<byte>) {
    && AllWellFormed(os) && |h.pads| == 6 && |stray| < HDR_SIZE
    && |EncodeAll(os) + stray| < B16
    && b == EncodeHeader(h, |EncodeAll(os) + stray|) + (EncodeAll(os) + stray + after)
  }

  /** Round trip: a message with at least one option yields exactly its RDNSS options, in order. */
  lemma MessageRoundTrip(b: seq<byte>, spare: seq<byte>, h: Header, os: seq<WireOption>, stray: seq<byte>,
                         after: seq<byte>)
    requires IsMessage(b, h, os, stray, after) && os != []
    ensures Message(b, spare) == Parsed(Opt(h, AllFound(os)))
  {
    Settled(os, stray, after + spare, Parsed(AllFound(os)));
    MessageIs(h, EncodeAll(os) + stray, after, spare);
  }

  /** Any message long enough for its options is a header, the options and something behind them. */
  lemma Parts(b: seq<byte>) returns (h: Header, opts: seq<byte>, after: seq<byte>)
    requires |b| >= MSG_SIZE && OptsLen(b) <= |b| - MSG_SIZE
    ensures |h.pads| == 6 && |opts| == OptsLen(b) && b == EncodeHeader(h, |opts|) + (opts + after)
  {
    var n := OptsLen(b);
    h := HeaderOf(b);
    opts, after := b[MSG_SIZE..MSG_SIZE + n], b[MSG_SIZE + n..];
    assert b == b[..MSG_SIZE] + (opts + after);
  }

  /** Nothing but such a message is ever parsed. */
  lemma ParsedIsMessage(b: seq<byte>, spare: seq<byte>)
    returns (h: Header, os: seq<WireOption>, stray: seq<byte>, after: seq<byte>)
    requires Message(b, spare).Parsed?
    ensures IsMessage(b, h, os, stray, after) && os != []
  {
    var opts: seq<byte>;
    h, opts, after := Parts(b);
    MessageIs(h, opts, after, spare);
    os, stray := Chop(opts, after + spare);
    Settled(os, stray, after + spare, Options(opts, after + spare, []));
  }

  /** The parser returns `u` exactly on the messages that carry it. */
  lemma MessageParsedIff(b: seq<byte>, spare: seq<byte>, u: NDUserOpt)
    ensures Message(b, spare) == Parsed(u)
       <==> exists h, os, stray, after :: IsMessage(b, h, os, stray, after) && os != [] && u == Opt(h, AllFound(os))
  {
    if Message(b, spare).Parsed? {
      var h, os, stray, after := ParsedIsMessage(b, spare);
      MessageRoundTrip(b, spare, h, os, stray, after);
    }
    forall h, os, stray, after | IsMessage(b, h, os, stray, after) && os != []
      ensures Message(b, spare) == Parsed(Opt(h, AllFound(os)))
    {
      MessageRoundTrip(b, spare, h, os, stray, after);
    }
  }

  /** A message that is too short, for its header or for the options it announces, is an error and not ignored. */
  lemma TooShortIff(b: seq<byte>, spare: seq<byte>)
    ensures Message(b, spare) == Failed(MessageTooShort) <==> |b| < 16
    ensures Message(b, spare) == Failed(OptionsTooShort)
       <==> |b| >= 16 && |b| - 16 < (b[2] as int) + 256 * (b[3] as int)
  {
    if |b| >= MSG_SIZE && OptsLen(b) <= |b| - MSG_SIZE {
      var h, opts, after := Parts(b);
      MessageIs(h, opts, after, spare);
      var os, rest := Chop(opts, after + spare);
      Settled(os, rest, after + spare, Options(opts, after + spare, []));
    }
  }

  /** The numbers of the format: type 25, a length in units of eight bytes, a lifetime in nanoseconds. */
  lemma InNumbers(o: WireOption)
    requires WellFormed(o)
    ensures o.RDNSS? <==> Encode(o)[0] == 25
    ensures 8 * (Encode(o)[1] as int) == |Encode(o)|
    ensures o.RDNSS? ==> Found(o) == [RDNSSOption(o.lifetime * 1_000_000_000, o.servers)]
  {}

  /** An option of length zero, once reached, discards the whole message. */
  lemma ZeroLengthIgnored(h: Header, os: seq<WireOption>, zero: seq<byte>, after: seq<byte>, spare: seq<byte>)
    requires AllWellFormed(os) && |h.pads| == 6 && |zero| >= HDR_SIZE && zero[1] == 0 && |EncodeAll(os) + zero| < B16
    ensures Message(EncodeHeader(h, |EncodeAll(os) + zero|) + (EncodeAll(os) + zero + after), spare) == Ignored
  {
    Settled(os, zero, after + spare, Ignored);
    MessageIs(h, EncodeAll(os) + zero, after, spare);
  }

  /**
   * The header of the first option is sliced before the length is checked, so the parser panics
   * exactly when a message has no room for four bytes after its own header, spare capacity included.
   */
  lemma PanicIff(b: seq<byte>, spare: seq<byte>)
    ensures Message(b, spare) == Panic
       <==> |b| >= 16 && OptsLen(b) <= |b| - 16 && |b| - 16 + |spare| < 4
  {
    if |b| >= MSG_SIZE && OptsLen(b) <= |b| - MSG_SIZE {
      var h, opts, after := Parts(b);
      MessageIs(h, opts, after, spare);
      var os, rest := Chop(opts, after + spare);
      Settled(os, rest, after + spare, Panic);
    }
  }
}
