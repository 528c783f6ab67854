/**
 The Telnet stream decoder: an incremental parser that strips the RFC 854 command structure from
 a byte stream, refuses every option it is offered and keeps an incomplete tail for the next
 chunk.  The specification is a tokenizer; the imperative decoder is proved against it.
 */
module Telnet {
  import opened Basics

  const IAC: byte := 255
  const DONT: byte := 254
  const DO: byte := 253
  const WONT: byte := 252
  const WILL: byte := 251
  const SB: byte := 250
  const SE: byte := 240

  /** One unit of the stream, as RFC 854 ("TELNET COMMAND STRUCTURE") and RFC 855 describe it. */
  datatype Token =
    | Data(value: byte)                       // any byte; 255 travels doubled
    | Negotiate(verb: byte, option: byte)     // IAC DO/DONT/WILL/WONT option
    | Command(code: byte)                     // every other two-byte command
    | Subnegotiation(payload: seq<byte>)      // IAC SB payload IAC SE

  predicate IsVerb(b: byte) { b == DO || b == DONT || b == WILL || b == WONT }

  /** Two adjacent bytes that end a subnegotiation wherever they occur in it. */
  predicate TerminatorAt(s: seq<byte>, k: int) {
    0 <= k && k + 1 < |s| && s[k] == IAC && s[k + 1] == SE
  }

  ghost predicate HasTerminator(s: seq<byte>) { exists k :: TerminatorAt(s, k) }

  ghost predicate ValidToken(t: Token) {
    match t
    case Data(_) => true
    case Negotiate(verb, _) => IsVerb(verb)
    case Command(code) => code != IAC && code != SB && !IsVerb(code)
    case Subnegotiation(payload) => !HasTerminator(payload)
  }

  ghost predicate ValidTokens(ts: seq<Token>) { forall i :: 0 <= i < |ts| ==> ValidToken(ts[i]) }

  // ---- The encoder: what a peer puts on the wire ----

  function EncodeToken(t: Token): seq<byte> {
    match t
    case Data(b) => if b == IAC then [IAC, IAC] else [b]
    case Negotiate(verb, option) => [IAC, verb, option]
    case Command(code) => [IAC, code]
    case Subnegotiation(payload) => [IAC, SB] + payload + [IAC, SE]
  }

  function Encode(ts: seq<Token>): seq<byte> {
    if ts == [] then [] else EncodeToken(ts[0]) + Encode(ts[1..])
  }

  /** What the user of the session should see of a token. */
  function Shown(t: Token): seq<byte> {
    if t.Data? then [t.value] else []
  }

  /** The refusal a token calls for: DO is answered WONT, WILL is answered DONT, the rest nothing. */
  function Refusal(t: Token): seq<byte> {
    if t.Negotiate? && t.verb == DO then [IAC, WONT, t.option]
    else if t.Negotiate? && t.verb == WILL then [IAC, DONT, t.option]
    else []
  }

  function ShownAll(ts: seq<Token>): seq<byte> {
    if ts == [] then [] else Shown(ts[0]) + ShownAll(ts[1..])
  }

  function RefusalAll(ts: seq<Token>): seq<byte> {
    if ts == [] then [] else Refusal(ts[0]) + RefusalAll(ts[1..])
  }

  // ---- The tokenizer: the specification of the decoder ----

  /** A prefix that may still become a token when more bytes arrive. */
  ghost predicate Incomplete(s: seq<byte>) {
    || s == []
    || s == [IAC]
    || (|s| == 2 && s[0] == IAC && IsVerb(s[1]))
    || (|s| >= 2 && s[0] == IAC && s[1] == SB && !HasTerminator(s[2..]))
  }

  /** The least index at or after `from` just past a terminator. */
  function SubnegotiationEnd(data: seq<byte>, from: nat): (end: Option<nat>)
    ensures end.Some? ==> from + 2 <= end.value <= |data|
    decreases |data| - from
  {
    if from + 1 >= |data| then None
    else if TerminatorAt(data, from) then Some(from + 2)
    else SubnegotiationEnd(data, from + 1)
  }

  /** The search finds the first terminator, or there is none. */
  lemma {:induction false} SubnegotiationEndIsFirst(data: seq<byte>, from: nat)
    ensures var end := SubnegotiationEnd(data, from);
            && (end.Some? ==> TerminatorAt(data, end.value - 2))
            && (forall k :: from <= k < (if end.Some? then end.value - 2 else |data|) ==> !TerminatorAt(data, k))
    decreases |data| - from
  {
    if from + 1 < |data| && !TerminatorAt(data, from) {
      SubnegotiationEndIsFirst(data, from + 1);
    }
  }

  /** What is first is what the search finds. */
  lemma {:induction false} SubnegotiationEndIs(data: seq<byte>, from: nat, at: nat)
    requires from <= at && TerminatorAt(data, at)
    requires forall k :: from <= k < at ==> !TerminatorAt(data, k)
    ensures SubnegotiationEnd(data, from) == Some(at + 2)
    decreases at - from
  {
    if from < at { SubnegotiationEndIs(data, from + 1, at); }
  }

  /** The first token of a stream and its length on the wire, when the stream holds one. */
  function First(data: seq<byte>): (r: Option<(Token, nat)>)
    ensures r.Some? ==> 0 < r.value.1 <= |data|
  {
    if data == [] then None
    else if data[0] != IAC then Some((Data(data[0]), 1))
    else if |data| == 1 then None
    else if data[1] == IAC then Some((Data(IAC), 2))
    else if IsVerb(data[1]) then
      if |data| == 2 then None else Some((Negotiate(data[1], data[2]), 3))
    else if data[1] == SB then
      var end := SubnegotiationEnd(data, 2);
      if end.None? then None else Some((Subnegotiation(data[2..end.value - 2]), end.value))
    else Some((Command(data[1]), 2))
  }

  lemma SubnegotiationFirst(data: seq<byte>)
    requires |data| >= 2
    ensures var end := SubnegotiationEnd(data, 2);
            && (end.None? <==> !HasTerminator(data[2..]))
            && (end.Some? ==>
                  && !HasTerminator(data[2..end.value - 2])
                  && data[..end.value] == data[..2] + data[2..end.value - 2] + [IAC, SE])
  {
    hide SubnegotiationEnd;
    var end := SubnegotiationEnd(data, 2);
    SubnegotiationEndIsFirst(data, 2);
    if end.Some? {
      assert TerminatorAt(data[2..], end.value - 4);
      NoTerminatorInside(data, end.value - 2);
    } else {
      NoTerminatorInside(data, |data|);
      assert data[2..|data|] == data[2..];
    }
  }

  lemma NoTerminatorInside(data: seq<byte>, to: nat)
    requires 2 <= to <= |data| && forall k :: 2 <= k < to ==> !TerminatorAt(data, k)
    ensures !HasTerminator(data[2..to])
  {
    var p := data[2..to];
    forall k ensures !TerminatorAt(p, k) {
      if TerminatorAt(p, k) { assert TerminatorAt(data, k + 2); }
    }
  }

  /** The token found is well formed and is spelled by the bytes taken; none is found exactly when the stream is incomplete. */
  lemma FirstIsSound(data: seq<byte>)
    ensures var r := First(data);
            && (r.None? <==> Incomplete(data))
            && (r.Some? ==> ValidToken(r.value.0) && EncodeToken(r.value.0) == data[..r.value.1])
  {
    if |data| >= 2 && data[0] == IAC && data[1] == SB {
      SubnegotiationFirst(data);
    }
  }

  /** What one pass over a buffer yields: shown bytes, refusals and the incomplete tail. */
  datatype Decoded = Decoded(visible: seq<byte>, responses: seq<byte>, remaining: seq<byte>)

  function Decode(data: seq<byte>): Decoded
    decreases |data|
  {
    match First(data)
    case None => Decoded([], [], data)
    case Some((t, n)) =>
      var rest := Decode(data[n..]);
      Decoded(Shown(t) + rest.visible, Refusal(t) + rest.responses, rest.remaining)
  }

  function Tokens(data: seq<byte>): seq<Token>
    decreases |data|
  {
    match First(data)
    case None => []
    case Some((t, n)) => [t] + Tokens(data[n..])
  }

  // ---- Laws ----

  /** Once a token is complete, later bytes cannot change it. */
  lemma FirstStable(data: seq<byte>, more: seq<byte>)
    requires First(data).Some?
    ensures First(data + more) == First(data)
  {
    if data[0] == IAC && |data| >= 2 && data[1] == SB {
      var end := SubnegotiationEnd(data, 2).value;
      SubnegotiationEndIsFirst(data, 2);
      forall k | 2 <= k < end - 2 ensures !TerminatorAt(data + more, k) { assert !TerminatorAt(data, k); }
      SubnegotiationEndIs(data + more, 2, end - 2);
      assert (data + more)[2..end - 2] == data[2..end - 2];
    }
  }

  /** A valid token at the front of any stream is the one the tokenizer finds. */
  lemma FirstOfEncoding(t: Token, more: seq<byte>)
    requires ValidToken(t)
    ensures First(EncodeToken(t) + more) == Some((t, |EncodeToken(t)|))
  {
    var data := EncodeToken(t) + more;
    if t.Subnegotiation? {
      var n := |t.payload|;
      assert data[2..2 + n] == t.payload;
      forall k | 2 <= k < n + 2 ensures !TerminatorAt(data, k) {
        if TerminatorAt(data, k) {
          assert TerminatorAt(t.payload, k - 2);
        }
      }
      SubnegotiationEndIs(data, 2, n + 2);
    }
  }

  /** One unfolding of the decoder. */
  lemma DecodeStep(data: seq<byte>)
    ensures First(data).None? ==> Decode(data) == Decoded([], [], data)
    ensures First(data).Some? ==>
              var (t, n) := First(data).value;
              var rest := Decode(data[n..]);
              Decode(data) == Decoded(Shown(t) + rest.visible, Refusal(t) + rest.responses, rest.remaining)
  {
    hide First, Shown, Refusal;
  }

  /** The two decodings that follow one another, as one. */
  function Then(first: Decoded, second: Decoded): Decoded {
    Decoded(first.visible + second.visible, first.responses + second.responses, second.remaining)
  }

  /** Decoding a stream that starts with a given token. */
  lemma DecodeToken(t: Token, more: seq<byte>)
    requires ValidToken(t)
    ensures Decode(EncodeToken(t) + more) == Then(Decoded(Shown(t), Refusal(t), []), Decode(more))
  {
    hide First, Decode, Shown, Refusal, ValidToken;
    var data := EncodeToken(t) + more;
    FirstOfEncoding(t, more);
    DecodeStep(data);
    assert data[|EncodeToken(t)|..] == more;
  }

  /**
   Fragmentation: decoding a stream in two pieces, the second after the tail the first left over,
   is decoding it whole.
   */
  lemma {:induction false} DecodeSplit(a: seq<byte>, b: seq<byte>)
    ensures Decode(a + b) == Then(Decode(a), Decode(Decode(a).remaining + b))
    decreases |a|
  {
    hide First, Decode, Shown, Refusal;
    DecodeStep(a);
    if First(a).Some? {
      var (t, n) := First(a).value;
      FirstStable(a, b);
      DecodeStep(a + b);
      assert (a + b)[n..] == a[n..] + b;
      DecodeSplit(a[n..], b);
      ThenAssociates(Decoded(Shown(t), Refusal(t), []), Decode(a[n..]), Decode(Decode(a).remaining + b));
    }
  }

  lemma ThenAssociates(a: Decoded, b: Decoded, c: Decoded)
    ensures Then(Then(a, b), c) == Then(a, Then(b, c))
  {
    assert (a.visible + b.visible) + c.visible == a.visible + (b.visible + c.visible);
    assert (a.responses + b.responses) + c.responses == a.responses + (b.responses + c.responses);
  }

  /** A token list followed by any bytes: the tokens are taken in order, then the bytes are decoded. */
  lemma {:induction false} DecodeEncoding(ts: seq<Token>, more: seq<byte>)
    requires ValidTokens(ts)
    ensures Decode(Encode(ts) + more) == Then(Decoded(ShownAll(ts), RefusalAll(ts), []), Decode(more))
    decreases |ts|
  {
    hide First, Decode, EncodeToken, Shown, Refusal, ValidToken;
    if ts == [] {
      assert Encode(ts) + more == more;
    } else {
      var rest := Encode(ts[1..]) + more;
      assert Encode(ts) + more == EncodeToken(ts[0]) + rest;
      DecodeToken(ts[0], rest);
      DecodeEncoding(ts[1..], more);
      ThenAssociates(Decoded(Shown(ts[0]), Refusal(ts[0]), []),
                     Decoded(ShownAll(ts[1..]), RefusalAll(ts[1..]), []), Decode(more));
    }
  }

  /** Decoder undoes encoder: data comes back, each DO and WILL is refused in order, nothing is left. */
  lemma {:induction false} DecodeUndoesEncode(ts: seq<Token>)
    requires ValidTokens(ts)
    ensures Decode(Encode(ts)) == Decoded(ShownAll(ts), RefusalAll(ts), [])
  {
    DecodeEncoding(ts, []);
    assert Encode(ts) + [] == Encode(ts);
  }

  /** No byte is lost or made up: every stream is its tokens followed by an incomplete tail. */
  lemma {:induction false} EveryStreamIsTokensAndTail(data: seq<byte>)
    ensures var d := Decode(data);
            && ValidTokens(Tokens(data))
            && Encode(Tokens(data)) + d.remaining == data
            && Incomplete(d.remaining)
            && d.visible == ShownAll(Tokens(data))
            && d.responses == RefusalAll(Tokens(data))
    decreases |data|
  {
    hide First, Decode, EncodeToken, Shown, Refusal, ValidToken, Incomplete, Tokens;
    DecodeStep(data);
    TokensStep(data);
    FirstIsSound(data);
    if First(data).Some? {
      var (t, n) := First(data).value;
      EveryStreamIsTokensAndTail(data[n..]);
      assert data == data[..n] + data[n..];
      ConsTokens(t, Tokens(data[n..]));
      assert (EncodeToken(t) + Encode(Tokens(data[n..]))) + Decode(data[n..]).remaining == data;
    }
  }

  lemma TokensStep(data: seq<byte>)
    ensures First(data).None? ==> Tokens(data) == []
    ensures First(data).Some? ==> var (t, n) := First(data).value; Tokens(data) == [t] + Tokens(data[n..])
  {
    hide First;
  }

  lemma ConsTokens(t: Token, ts: seq<Token>)
    ensures Encode([t] + ts) == EncodeToken(t) + Encode(ts)
    ensures ShownAll([t] + ts) == Shown(t) + ShownAll(ts)
    ensures RefusalAll([t] + ts) == Refusal(t) + RefusalAll(ts)
    ensures ValidToken(t) && ValidTokens(ts) ==> ValidTokens([t] + ts)
  {
    hide EncodeToken, Shown, Refusal, ValidToken;
    assert ([t] + ts)[1..] == ts;
  }

  /** ... and in one way only, so the framing is unambiguous. */
  lemma {:induction false} FramingIsUnique(ts: seq<Token>, tail: seq<byte>, us: seq<Token>, rest: seq<byte>)
    requires ValidTokens(ts) && ValidTokens(us) && Incomplete(tail) && Incomplete(rest)
    requires Encode(ts) + tail == Encode(us) + rest
    ensures ts == us && tail == rest
    decreases |ts|
  {
    hide First, Encode, EncodeToken, ValidToken, Incomplete;
    FirstOfSplit(ts, tail);
    FirstOfSplit(us, rest);
    if ts == [] {
      assert us == [];
    } else {
      AfterFirstToken(ts, tail);
      AfterFirstToken(us, rest);
      FramingIsUnique(ts[1..], tail, us[1..], rest);
      assert ts == [ts[0]] + ts[1..];
      assert us == [us[0]] + us[1..];
    }
  }

  lemma AfterFirstToken(ts: seq<Token>, tail: seq<byte>)
    requires ts != []
    ensures |EncodeToken(ts[0])| <= |Encode(ts) + tail|
    ensures (Encode(ts) + tail)[|EncodeToken(ts[0])|..] == Encode(ts[1..]) + tail
  {
    hide EncodeToken;
    assert Encode(ts) + tail == EncodeToken(ts[0]) + (Encode(ts[1..]) + tail);
  }

  lemma FirstOfSplit(ts: seq<Token>, tail: seq<byte>)
    requires ValidTokens(ts) && Incomplete(tail)
    ensures First(Encode(ts) + tail) == if ts == [] then None else Some((ts[0], |EncodeToken(ts[0])|))
    ensures ts == [] ==> Encode(ts) + tail == tail
  {
    hide First, EncodeToken, ValidToken, Incomplete;
    if ts == [] {
      assert Encode(ts) + tail == tail;
      FirstIsSound(tail);
    } else {
      assert Encode(ts) + tail == EncodeToken(ts[0]) + (Encode(ts[1..]) + tail);
      FirstOfEncoding(ts[0], Encode(ts[1..]) + tail);
    }
  }

  /** The refusals of any stream, read as tokens: WONT and DONT only. */
  function RefusalTokens(ts: seq<Token>): (rs: seq<Token>)
    ensures ValidTokens(rs)
    ensures ShownAll(rs) == [] && RefusalAll(rs) == []
    ensures Encode(rs) == RefusalAll(ts)
  {
    if ts == [] then []
    else
      var rest := RefusalTokens(ts[1..]);
      if ts[0].Negotiate? && ts[0].verb == DO then [Negotiate(WONT, ts[0].option)] + rest
      else if ts[0].Negotiate? && ts[0].verb == WILL then [Negotiate(DONT, ts[0].option)] + rest
      else rest
  }

  /** Two such endpoints never loop: a decoder that reads our refusals has nothing to say to them. */
  lemma RefusalsAreQuiet(data: seq<byte>)
    ensures Decode(Decode(data).responses) == Decoded([], [], [])
  {
    EveryStreamIsTokensAndTail(data);
    DecodeUndoesEncode(RefusalTokens(Tokens(data)));
  }

  // ---- The wire, byte by byte ----

  /** No 255 is directly followed by 240. */
  ghost predicate NoPair(p: seq<byte>) { forall k :: 0 <= k < |p| - 1 ==> !(p[k] == 255 && p[k + 1] == 240) }

  lemma NoPairNoTerminator(p: seq<byte>)
    ensures NoPair(p) <==> !HasTerminator(p)
  {
    if HasTerminator(p) { var k :| TerminatorAt(p, k); }
    forall k | 0 <= k < |p| - 1 && p[k] == 255 && p[k + 1] == 240 ensures TerminatorAt(p, k) {}
  }

  /**
   The decoder in the numbers of RFC 854 and RFC 855, one clause for each way a stream can begin: DO (253)
   is answered with WONT (252) and WILL (251) with DONT (254) for the same option, nothing else is answered,
   and only data bytes are shown.
   */
  lemma DecodeByBytes(b: byte, more: seq<byte>)
    ensures Decode([255, 253, b] + more) == Then(Decoded([], [255, 252, b], []), Decode(more))
    ensures Decode([255, 251, b] + more) == Then(Decoded([], [255, 254, b], []), Decode(more))
    ensures Decode([255, 254, b] + more) == Then(Decoded([], [], []), Decode(more))
    ensures Decode([255, 252, b] + more) == Then(Decoded([], [], []), Decode(more))
    ensures Decode([255, 255] + more) == Then(Decoded([255], [], []), Decode(more))
    ensures b != 255 ==> Decode([b] + more) == Then(Decoded([b], [], []), Decode(more))
    ensures b < 250 ==> Decode([255, b] + more) == Then(Decoded([], [], []), Decode(more))
  {
    hide Decode;
    DecodeToken(Negotiate(253, b), more);
    DecodeToken(Negotiate(251, b), more);
    DecodeToken(Negotiate(254, b), more);
    DecodeToken(Negotiate(252, b), more);
    DecodeToken(Data(255), more);
    if b != 255 { DecodeToken(Data(b), more); }
    if b < 250 { DecodeToken(Command(b), more); }
  }

  /** ... a subnegotiation is dropped whole, ... */
  lemma DecodeSubnegotiation(p: seq<byte>, more: seq<byte>)
    requires NoPair(p)
    ensures Decode([255, 250] + p + [255, 240] + more) == Then(Decoded([], [], []), Decode(more))
  {
    hide Decode;
    NoPairNoTerminator(p);
    DecodeToken(Subnegotiation(p), more);
  }

  /** ... and what is not complete yet is kept. */
  lemma DecodeIncomplete(p: seq<byte>, b: byte)
    requires NoPair(p) && 251 <= b <= 254
    ensures Decode([]) == Decoded([], [], []) && Decode([255]) == Decoded([], [], [255])
    ensures Decode([255, b]) == Decoded([], [], [255, b])
    ensures Decode([255, 250] + p) == Decoded([], [], [255, 250] + p)
  {
    NoPairNoTerminator(p);
    FirstIsSound([]);
    FirstIsSound([255]);
    FirstIsSound([255, b]);
    var open := [255, 250] + p;
    assert open[2..] == p;
    FirstIsSound(open);
    hide First, Decode;
    DecodeStep([]);
    DecodeStep([255]);
    DecodeStep([255, b]);
    DecodeStep(open);
  }

  // ---- Subnegotiation payloads that contain 255 ----

  /** RFC 855: a 255 inside the parameters is sent doubled. */
  function Doubled(p: seq<byte>): seq<byte> {
    if p == [] then [] else (if p[0] == IAC then [IAC, IAC] else [p[0]]) + Doubled(p[1..])
  }

  /** The payload bytes after its first 255, 240; nothing when it has no such pair. */
  function AfterFirstPair(p: seq<byte>): seq<byte> {
    if |p| < 2 then []
    else if p[0] == IAC && p[1] == SE then p[2..]
    else AfterFirstPair(p[1..])
  }

  /** Doubled data is exactly data tokens. */
  function AsData(p: seq<byte>): seq<Token> {
    if p == [] then [] else [Data(p[0])] + AsData(p[1..])
  }

  lemma {:induction false} AsDataIs(p: seq<byte>)
    ensures var ts := AsData(p); ValidTokens(ts) && Encode(ts) == Doubled(p) && ShownAll(ts) == p && RefusalAll(ts) == []
  {
    if p != [] {
      AsDataIs(p[1..]);
      assert ShownAll(AsData(p)) == [p[0]] + p[1..];
    }
  }

  /** Where the first 255, 240 of a payload sent doubled stands, or else the real terminator. */
  function PairPosition(p: seq<byte>): nat {
    if p == [] then 0
    else if TerminatorAt(p, 0) then 1
    else (if p[0] == IAC then 2 else 1) + PairPosition(p[1..])
  }

  ghost predicate FirstTerminatorAt(s: seq<byte>, at: nat) {
    TerminatorAt(s, at) && forall k :: 0 <= k < at ==> !TerminatorAt(s, k)
  }

  lemma PairPositionStep(p: seq<byte>)
    ensures PairPosition(p) == if p == [] then 0
                               else if TerminatorAt(p, 0) then 1
                               else (if p[0] == IAC then 2 else 1) + PairPosition(p[1..])
  {
  }

  /** Doubling makes no pair of its own, and keeps the first one of the payload. */
  lemma {:induction false} TerminatorInDoubled(p: seq<byte>)
    ensures FirstTerminatorAt(Doubled(p) + [IAC, SE], PairPosition(p))
    ensures (Doubled(p) + [IAC, SE])[PairPosition(p) + 2..] ==
            if HasTerminator(p) then Doubled(AfterFirstPair(p)) + [IAC, SE] else []
    decreases |p|
  {
    hide PairPosition;
    PairPositionStep(p);
    var from := Doubled(p) + [IAC, SE];
    if p == [] {
      assert from == [IAC, SE];
      assert !HasTerminator(p);
    } else if TerminatorAt(p, 0) {
      assert p[1..][1..] == p[2..];
      assert Doubled(p[1..]) == [SE] + Doubled(p[2..]);
      assert from == [IAC, IAC, SE] + (Doubled(p[2..]) + [IAC, SE]);
      assert AfterFirstPair(p) == p[2..];
    } else {
      TerminatorInDoubled(p[1..]);
      DoublingStep(p);
    }
  }

  lemma DoublingStep(p: seq<byte>)
    requires p != [] && !TerminatorAt(p, 0)
    requires FirstTerminatorAt(Doubled(p[1..]) + [IAC, SE], PairPosition(p[1..]))
    ensures FirstTerminatorAt(Doubled(p) + [IAC, SE], PairPosition(p))
    ensures (Doubled(p) + [IAC, SE])[PairPosition(p) + 2..] == (Doubled(p[1..]) + [IAC, SE])[PairPosition(p[1..]) + 2..]
    ensures HasTerminator(p) <==> HasTerminator(p[1..])
    ensures HasTerminator(p) ==> AfterFirstPair(p) == AfterFirstPair(p[1..])
  {
    var piece := if p[0] == IAC then [IAC, IAC] else [p[0]];
    var rest := Doubled(p[1..]) + [IAC, SE];
    assert Doubled(p) + [IAC, SE] == piece + rest;
    HasTerminatorTail(p);
    DoubledHead(p[1..]);
    hide HasTerminator, FirstTerminatorAt, Doubled;
    ShiftTerminator(piece, rest, PairPosition(p[1..]));
  }

  lemma DoubledHead(p: seq<byte>)
    ensures (Doubled(p) + [IAC, SE])[0] == if p == [] then IAC else p[0]
  {
  }

  lemma ShiftTerminator(piece: seq<byte>, rest: seq<byte>, at: nat)
    requires FirstTerminatorAt(rest, at)
    requires |piece| == 1 || piece == [IAC, IAC]
    requires piece[|piece| - 1] == IAC ==> rest[0] != SE
    ensures FirstTerminatorAt(piece + rest, |piece| + at)
    ensures (piece + rest)[|piece| + at + 2..] == rest[at + 2..]
  {
    var n, s := |piece|, piece + rest;
    assert TerminatorAt(s, n + at);
    forall k | 0 <= k < n + at ensures !TerminatorAt(s, k) {
      if k >= n { assert !TerminatorAt(rest, k - n); }
    }
  }

  lemma HasTerminatorTail(p: seq<byte>)
    requires p != [] && !TerminatorAt(p, 0)
    ensures HasTerminator(p) <==> HasTerminator(p[1..])
  {
    if HasTerminator(p) {
      var k :| TerminatorAt(p, k);
      assert TerminatorAt(p[1..], k - 1);
    }
    if HasTerminator(p[1..]) {
      var k :| TerminatorAt(p[1..], k);
      assert TerminatorAt(p, k + 1);
    }
  }

  /**
   The search for the end of a subnegotiation does not track doubled 255s.  For every payload, sent
   doubled as RFC 855 asks, this is exactly what leaks into the visible text: the bytes after the
   payload's first 255, 240.
   */
  lemma {:induction false} SubnegotiationLeak(p: seq<byte>)
    ensures Decode([IAC, SB] + Doubled(p) + [IAC, SE]) == Decoded(AfterFirstPair(p), [], [])
  {
    hide Decode, Doubled, AfterFirstPair, PairPosition, HasTerminator;
    var data := [IAC, SB] + Doubled(p) + [IAC, SE];
    var body := Doubled(p) + [IAC, SE];
    assert data == [IAC, SB] + body;
    var at := PairPosition(p);
    TerminatorInDoubled(p);
    forall k | 2 <= k < at + 2 ensures !TerminatorAt(data, k) { assert !TerminatorAt(body, k - 2); }
    assert TerminatorAt(data, at + 2);
    SubnegotiationEndIs(data, 2, at + 2);
    FirstSubnegotiation(data, at + 4);
    DecodeStep(data);
    assert data[at + 4..] == body[at + 2..];
    NoPairNoSuffix(p);
    LeakedTail(p);
  }

  lemma FirstSubnegotiation(data: seq<byte>, end: nat)
    requires |data| >= 2 && data[0] == IAC && data[1] == SB && SubnegotiationEnd(data, 2) == Some(end)
    ensures First(data).Some? && First(data).value.0.Subnegotiation? && First(data).value.1 == end
  {
  }

  lemma LeakedTail(p: seq<byte>)
    ensures Decode(Doubled(AfterFirstPair(p)) + [IAC, SE]) == Decoded(AfterFirstPair(p), [], [])
    ensures Decode([]) == Decoded([], [], [])
  {
    hide Decode, AfterFirstPair, Doubled, Encode, ShownAll, RefusalAll;
    var rest := AfterFirstPair(p);
    AsDataIs(rest);
    DecodeEncoding(AsData(rest), [IAC, SE]);
    DecodeStep([IAC, SE]);
    assert Decode([IAC, SE]) == Decoded([], [], []) by { assert [IAC, SE][2..] == []; DecodeStep([]); }
    assert rest + [] == rest;
    DecodeStep([]);
  }

  lemma {:induction false} NoPairNoSuffix(p: seq<byte>)
    ensures !HasTerminator(p) ==> AfterFirstPair(p) == []
  {
    if |p| >= 2 {
      if TerminatorAt(p, 0) {
      } else {
        NoPairNoSuffix(p[1..]);
        if HasTerminator(p[1..]) {
          var k :| TerminatorAt(p[1..], k);
          assert TerminatorAt(p, k + 1);
        }
      }
    }
  }

  /** So a payload is silent exactly when every 255, 240 it holds is its very end. */
  lemma SubnegotiationIsSilentIff(p: seq<byte>)
    ensures Decode([IAC, SB] + Doubled(p) + [IAC, SE]).visible == [] <==>
            forall k :: TerminatorAt(p, k) ==> k + 2 == |p|
  {
    hide Decode, Doubled;
    SubnegotiationLeak(p);
    EmptySuffixIff(p);
  }

  lemma {:induction false} EmptySuffixIff(p: seq<byte>)
    ensures AfterFirstPair(p) == [] <==> forall k :: TerminatorAt(p, k) ==> k + 2 == |p|
    decreases |p|
  {
    if |p| >= 2 && !TerminatorAt(p, 0) {
      EmptySuffixIff(p[1..]);
      forall k | TerminatorAt(p, k) ensures TerminatorAt(p[1..], k - 1) {}
      forall k | TerminatorAt(p[1..], k) ensures TerminatorAt(p, k + 1) {}
    }
  }

  // ---- The decoder as the source runs it ----

  method FindSubnegotiationEnd(data: seq<byte>, start: nat) returns (end: Option<nat>)
    ensures end == SubnegotiationEnd(data, start)
  {
    var index := start;
    while index + 1 < |data|
      invariant start <= index
      invariant SubnegotiationEnd(data, start) == SubnegotiationEnd(data, index)
    {
      if data[index] == IAC && data[index + 1] == SE {
        return Some(index + 2);
      }
      index := index + 1;
    }
    return None;
  }

  method ConsumeTelnetBytes(data: seq<byte>) returns (visible: seq<byte>, responses: seq<byte>, remaining: seq<byte>)
    ensures Decoded(visible, responses, remaining) == Decode(data)
  {
    hide Decode, First, Then, SubnegotiationEnd;
    StartOfDecoding(data);
    visible, responses := [], [];
    var index := 0;
    while index < |data|
      invariant 0 <= index <= |data|
      invariant Decode(data) == Then(Decoded(visible, responses, []), Decode(data[index..]))
    {
      ghost var before := Decoded(visible, responses, []);
      FirstHere(data, index);
      if data[index] != IAC {
        TakeToken(data, index, before, Data(data[index]), 1);
        visible := visible + [data[index]];
        index := index + 1;
        continue;
      }
      if index + 1 >= |data| {
        NoToken(data, index, before);
        break;
      }
      var command := data[index + 1];
      if command == IAC {
        TakeToken(data, index, before, Data(IAC), 2);
        visible := visible + [IAC];
        index := index + 2;
        continue;
      }
      if command == DO || command == DONT || command == WILL || command == WONT {
        if index + 2 >= |data| {
          NoToken(data, index, before);
          break;
        }
        var option := data[index + 2];
        TakeToken(data, index, before, Negotiate(command, option), 3);
        if command == DO {
          responses := responses + [IAC, WONT, option];
        } else if command == WILL {
          responses := responses + [IAC, DONT, option];
        }
        index := index + 3;
        continue;
      }
      if command == SB {
        var end := FindSubnegotiationEnd(data, index + 2);
        if end.None? {
          NoToken(data, index, before);
          break;
        }
        TakeToken(data, index, before, Subnegotiation(data[index + 2..end.value - 2]), end.value - index);
        index := end.value;
        continue;
      }
      TakeToken(data, index, before, Command(command), 2);
      index := index + 2;
    }
    remaining := data[index..];
    if index == |data| { NoToken(data, index, Decoded(visible, responses, [])); }
  }

  lemma StartOfDecoding(data: seq<byte>)
    ensures Decode(data) == Then(Decoded([], [], []), Decode(data[0..]))
  {
    hide Decode;
    assert data[0..] == data;
  }

  /** The first token from an index on, in terms of the whole buffer. */
  lemma FirstHere(data: seq<byte>, index: nat)
    requires index <= |data|
    ensures var r, left := First(data[index..]), |data| - index;
            && (left == 0 ==> r.None?)
            && (left > 0 && data[index] != IAC ==> r == Some((Data(data[index]), 1)))
            && (left > 0 && data[index] == IAC ==>
                  && (left == 1 ==> r.None?)
                  && (left > 1 && data[index + 1] == IAC ==> r == Some((Data(IAC), 2)))
                  && (left > 1 && IsVerb(data[index + 1]) ==>
                        r == if left == 2 then None else Some((Negotiate(data[index + 1], data[index + 2]), 3)))
                  && (left > 1 && data[index + 1] == SB ==>
                        var end := SubnegotiationEnd(data, index + 2);
                        r == if end.None? then None
                             else Some((Subnegotiation(data[index + 2..end.value - 2]), end.value - index)))
                  && (left > 1 && data[index + 1] != IAC && !IsVerb(data[index + 1]) && data[index + 1] != SB ==>
                        r == Some((Command(data[index + 1]), 2))))
  {
    hide SubnegotiationEnd;
    if index + 1 < |data| && data[index] == IAC && data[index + 1] == SB {
      EndInSuffix(data, index, 2);
      var end := SubnegotiationEnd(data, index + 2);
      if end.Some? { assert data[index..][2..end.value - index - 2] == data[index + 2..end.value - 2]; }
    }
  }

  lemma TakeToken(data: seq<byte>, index: nat, before: Decoded, t: Token, n: nat)
    requires index <= |data| && First(data[index..]) == Some((t, n))
    ensures index + n <= |data|
    ensures before.visible + [] == before.visible && before.responses + [] == before.responses
    ensures Then(before, Decode(data[index..])) ==
            Then(Decoded(before.visible + Shown(t), before.responses + Refusal(t), []), Decode(data[index + n..]))
  {
    hide First, Decode, Shown, Refusal;
    DecodeStep(data[index..]);
    assert data[index..][n..] == data[index + n..];
    ThenAssociates(before, Decoded(Shown(t), Refusal(t), []), Decode(data[index + n..]));
  }

  lemma NoToken(data: seq<byte>, index: nat, before: Decoded)
    requires index <= |data| && (index == |data| || First(data[index..]).None?)
    ensures Then(before, Decode(data[index..])) == Decoded(before.visible, before.responses, data[index..])
  {
    hide Decode;
    FirstHere(data, index);
    DecodeStep(data[index..]);
    assert before.visible + [] == before.visible && before.responses + [] == before.responses;
  }

  /** Searching a suffix is searching the whole from further on. */
  lemma EndInSuffix(data: seq<byte>, index: nat, from: nat)
    requires index <= |data|
    ensures var whole, part := SubnegotiationEnd(data, index + from), SubnegotiationEnd(data[index..], from);
            && (whole.None? <==> part.None?)
            && (whole.Some? ==> whole.value == index + part.value)
    decreases |data| - from
  {
    if index + from + 1 < |data| {
      EndInSuffix(data, index, from + 1);
    }
  }

  /** The part of a session that owns the connection and the carry-over buffer. */
  class TelnetCliSession {
    var connected: bool
    var protocolBuffer: seq<byte>
    ghost var received: seq<byte>   // every byte of this connection so far
    ghost var shown: seq<byte>
    ghost var refused: seq<byte>

    /** Whatever the chunking, the session stands where one pass over everything received would. */
    ghost predicate Valid()
      reads this
    {
      Decode(received) == Decoded(shown, refused, protocolBuffer) && (!connected ==> received == [])
    }

    constructor ()
      ensures Valid() && !connected && received == [] && protocolBuffer == []
    {
      connected, protocolBuffer := false, [];
      received, shown, refused := [], [], [];
    }

    /** connect, up to its first read: a new connection starts with an empty buffer. */
    method Open(socketOpens: bool)
      requires Valid()
      modifies this`connected
      ensures Valid() && connected == (old(connected) || socketOpens)
      ensures !old(connected) ==> received == [] && protocolBuffer == []
    {
      DecodeStep([]);
      if !connected && socketOpens {
        connected := true;
      }
    }

    /** The next bytes of the connection. */
    method ConsumeProtocol(data: seq<byte>) returns (visible: seq<byte>, responses: seq<byte>)
      requires Valid() && connected
      modifies this
      ensures Valid() && connected
      ensures received == old(received) + data
      ensures shown == old(shown) + visible
      ensures refused == old(refused) + responses
    {
      var buffer := protocolBuffer + data;
      var remaining;
      visible, responses, remaining := ConsumeTelnetBytes(buffer);
      protocolBuffer := remaining;
      DecodeSplit(received, data);
      received, shown, refused := received + data, shown + visible, refused + responses;
    }

    /** Without a connection nothing happens; when closing it raises, connection and buffer stay as they are. */
    method Close(closeRaises: bool) returns (raised: bool)
      requires Valid()
      modifies this
      ensures Valid() && raised == (old(connected) && closeRaises) && connected == raised
      ensures raised || !old(connected) ==>
                protocolBuffer == old(protocolBuffer) && received == old(received) && shown == old(shown) && refused == old(refused)
      ensures !raised && old(connected) ==> protocolBuffer == [] && received == []
    {
      raised := connected && closeRaises;
      if connected && !raised {
        connected, protocolBuffer := false, [];
        received, shown, refused := [], [], [];
      }
    }
  }

  /** Feeding a list of chunks, each decoded together with what the one before it left over. */
  function Feed(buffer: seq<byte>, chunks: seq<seq<byte>>): Decoded
    decreases |chunks|
  {
    if chunks == [] then Decoded([], [], buffer)
    else
      var now := Decode(buffer + chunks[0]);
      Then(now, Feed(now.remaining, chunks[1..]))
  }

  function Joined(chunks: seq<seq<byte>>): seq<byte> {
    if chunks == [] then [] else chunks[0] + Joined(chunks[1..])
  }

  /** Fragmentation invariance for any number of chunks, from any buffer a session can hold. */
  lemma {:induction false} FragmentationInvariance(buffer: seq<byte>, chunks: seq<seq<byte>>)
    requires Incomplete(buffer)
    ensures Feed(buffer, chunks) == Decode(buffer + Joined(chunks))
    decreases |chunks|
  {
    hide First, Decode, Incomplete;
    if chunks == [] {
      assert buffer + Joined(chunks) == buffer;
      FirstIsSound(buffer);
      DecodeStep(buffer);
    } else {
      var now := buffer + chunks[0];
      EveryStreamIsTokensAndTail(now);
      FragmentationInvariance(Decode(now).remaining, chunks[1..]);
      DecodeSplit(now, Joined(chunks[1..]));
      assert buffer + Joined(chunks) == now + Joined(chunks[1..]);
    }
  }
}
