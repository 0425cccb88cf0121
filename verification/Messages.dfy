/**
 Whole messages of msgproto.py: parameters of integer and string type, MessageFormat.encode and
 MessageFormat.parse, and MessageParser.parse.
 */
module Messages {
  import opened Basics
  import opened Protocol
  import opened Vlq

  datatype ParamType = PtUint | PtInt | PtString

  datatype Value = VInt(v: int) | VStr(b: seq<byte>)

  // A python value that a parameter of the type can hold; a string's length is one byte.
  predicate Matches(t: ParamType, v: Value) {
    match t
    case PtString => v.VStr? && |v.b| < 256
    case _ => v.VInt?
  }

  function EncodeParam(t: ParamType, v: Value): (e: seq<byte>)
    requires Matches(t, v)
    ensures |e| > 0
  {
    match t
    case PtString => [|v.b|] + v.b
    case _ => EncodePy(v.v)
  }

  // None stands for an IndexError; a slice of python stops at the end of the string.
  function ParseParam(t: ParamType, s: seq<byte>, pos: nat): Option<(Value, nat)> {
    match t
    case PtUint =>
      (match ParseUnsigned(s, pos) case None => None case Some((v, next)) => Some((VInt(v), next)))
    case PtInt =>
      (match ParseWide(s, pos) case None => None case Some((v, next)) => Some((VInt(v), next)))
    case PtString =>
      if pos >= |s| then None
      else
        var next := pos + s[pos] + 1;
        Some((VStr(s[pos + 1..IMin(next, |s|)]), next))
  }

  // What comes back for a value that was sent.
  function Received(t: ParamType, v: Value): Value
    requires Matches(t, v)
  {
    match t
    case PtUint => VInt(v.v % TWO32)
    case PtInt => VInt(Carried(v.v))
    case PtString => v
  }

  lemma ParamRoundTrip(t: ParamType, v: Value, s: seq<byte>, pos: nat)
    requires Matches(t, v) && StandsAt(s, pos, EncodeParam(t, v))
    ensures ParseParam(t, s, pos) == Some((Received(t, v), pos + |EncodeParam(t, v)|))
  {
    if t.PtString? {
      StandsSplit(s, pos, [|v.b|], v.b);
      assert s[pos..pos + 1][0] == |v.b|;
    } else {
      PyRoundTrip(s, pos, v.v);
    }
  }

  predicate AllMatch(ts: seq<ParamType>, vs: seq<Value>) {
    |ts| == |vs| && forall i :: 0 <= i < |ts| ==> Matches(ts[i], vs[i])
  }

  function EncodeParams(ts: seq<ParamType>, vs: seq<Value>): seq<byte>
    requires AllMatch(ts, vs)
  {
    if ts == [] then [] else EncodeParam(ts[0], vs[0]) + EncodeParams(ts[1..], vs[1..])
  }

  function ParseParams(ts: seq<ParamType>, s: seq<byte>, pos: nat): Option<(seq<Value>, nat)> {
    if ts == [] then Some(([], pos))
    else match ParseParam(ts[0], s, pos)
      case None => None
      case Some((v, next)) =>
        match ParseParams(ts[1..], s, next)
        case None => None
        case Some((vs, end)) => Some(([v] + vs, end))
  }

  function ReceivedAll(ts: seq<ParamType>, vs: seq<Value>): seq<Value>
    requires AllMatch(ts, vs)
  {
    if ts == [] then [] else [Received(ts[0], vs[0])] + ReceivedAll(ts[1..], vs[1..])
  }

  // Values within the range of their type come back unchanged.
  predicate InRange(t: ParamType, v: Value)
    requires Matches(t, v)
  {
    match t
    case PtUint => 0 <= v.v < TWO32
    case PtInt => -0x8000_0000 <= v.v < 0x8000_0000
    case PtString => true
  }

  lemma OneUnchanged(t: ParamType, v: Value)
    requires Matches(t, v) && InRange(t, v)
    ensures Received(t, v) == v
  {
  }

  lemma {:induction false} ReceivedUnchanged(ts: seq<ParamType>, vs: seq<Value>)
    requires AllMatch(ts, vs) && forall i :: 0 <= i < |ts| ==> InRange(ts[i], vs[i])
    ensures ReceivedAll(ts, vs) == vs
  {
    hide InRange, Received, Matches;
    if ts != [] {
      OneUnchanged(ts[0], vs[0]);
      assert forall i :: 0 <= i < |ts| - 1 ==> ts[1..][i] == ts[i + 1] && vs[1..][i] == vs[i + 1];
      ReceivedUnchanged(ts[1..], vs[1..]);
    }
  }

  lemma {:induction false} ParamsRoundTrip(ts: seq<ParamType>, vs: seq<Value>, s: seq<byte>, pos: nat)
    requires AllMatch(ts, vs) && StandsAt(s, pos, EncodeParams(ts, vs))
    ensures ParseParams(ts, s, pos) == Some((ReceivedAll(ts, vs), pos + |EncodeParams(ts, vs)|))
  {
    hide ParseParam, EncodeParam, Received, StandsAt, Matches;
    if ts != [] {
      var e, rest := EncodeParam(ts[0], vs[0]), EncodeParams(ts[1..], vs[1..]);
      StandsSplit(s, pos, e, rest);
      ParamRoundTrip(ts[0], vs[0], s, pos);
      ParamsRoundTrip(ts[1..], vs[1..], s, pos + |e|);
    }
  }

  /* ----- Messages in a block ----- */

  // A known message: its id and parameter types.
  datatype Format = Format(msgId: int, types: seq<ParamType>)

  datatype Parsed = Known(format: Format, values: seq<Value>) | Unknown | Error

  // MessageFormat.encode
  function Encode(f: Format, vs: seq<Value>): seq<byte>
    requires AllMatch(f.types, vs)
  {
    EncodePy(f.msgId) + EncodeParams(f.types, vs)
  }

  // MessageParser.parse of a whole block; messages by id.
  function Parse(byId: map<int, Format>, s: seq<byte>): Parsed {
    match ParseWide(s, MESSAGE_HEADER_SIZE)
    case None => Error
    case Some((id, _)) =>
      if id !in byId then Unknown
      else match ParseParams(byId[id].types, s, MESSAGE_HEADER_SIZE + |EncodePy(byId[id].msgId)|)
        case None => Error
        case Some((vs, pos)) =>
          // bytes after the last parameter
          if pos != |s| - MESSAGE_TRAILER_SIZE then Error else Known(byId[id], vs)
  }

  // Message ids are PT_int32 and index the table.
  predicate TableOk(byId: map<int, Format>) {
    forall id :: id in byId ==> byId[id].msgId == id && -0x8000_0000 <= id < 0x8000_0000
  }

  lemma Middle(a: seq<byte>, e: seq<byte>, b: seq<byte>)
    ensures StandsAt(a + e + b, |a|, e)
  {
  }

  // Main theorem: a message in a block comes back as the same message, with nothing left over.
  lemma MessageRoundTrip(byId: map<int, Format>, id: int, vs: seq<Value>, header: seq<byte>, trailer: seq<byte>)
    requires TableOk(byId) && id in byId && AllMatch(byId[id].types, vs)
    requires |header| == MESSAGE_HEADER_SIZE && |trailer| == MESSAGE_TRAILER_SIZE
    ensures Parse(byId, header + Encode(byId[id], vs) + trailer) == Known(byId[id], ReceivedAll(byId[id].types, vs))
  {
    hide EncodePy, ParseWide, ParseUnsigned, StandsAt, EncodeParams, ParseParams, ReceivedAll;
    ParamsParsed(byId, id, vs, header, trailer);
  }

  // The same message with anything more, or less, before the trailer is refused.
  lemma OtherLengthRefused(byId: map<int, Format>, id: int, vs: seq<Value>, header: seq<byte>, rest: seq<byte>)
    requires TableOk(byId) && id in byId && AllMatch(byId[id].types, vs)
    requires |header| == MESSAGE_HEADER_SIZE && |rest| != MESSAGE_TRAILER_SIZE
    ensures Parse(byId, header + Encode(byId[id], vs) + rest) == Error
  {
    hide EncodePy, ParseWide, ParseUnsigned, StandsAt, EncodeParams, ParseParams, ReceivedAll;
    ParamsParsed(byId, id, vs, header, rest);
  }

  // The parameters of a message come back, whatever follows it.
  lemma ParamsParsed(byId: map<int, Format>, id: int, vs: seq<Value>, header: seq<byte>, rest: seq<byte>)
    requires TableOk(byId) && id in byId && AllMatch(byId[id].types, vs) && |header| == MESSAGE_HEADER_SIZE
    ensures var e := Encode(byId[id], vs);
      var s := header + e + rest;
      && ParseWide(s, MESSAGE_HEADER_SIZE) == Some((id, MESSAGE_HEADER_SIZE + |EncodePy(id)|))
      && ParseParams(byId[id].types, s, MESSAGE_HEADER_SIZE + |EncodePy(id)|)
        == Some((ReceivedAll(byId[id].types, vs), MESSAGE_HEADER_SIZE + |e|))
  {
    hide EncodePy, ParseWide, ParseUnsigned, StandsAt, EncodeParams, ParseParams, ReceivedAll;
    var f := byId[id];
    var s := header + Encode(f, vs) + rest;
    Middle(header, Encode(f, vs), rest);
    StandsSplit(s, 2, EncodePy(id), EncodeParams(f.types, vs));
    PyRoundTrip(s, 2, id);
    ParamsRoundTrip(f.types, vs, s, 2 + |EncodePy(id)|);
  }
}
