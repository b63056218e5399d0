/**
 Replication events on the wire (internal/transport/grpc/protocol/messages.go:145-327). Field and
 metadata maps travel as they are; keys and operations are mapped to protobuf values and back.
 */
module Wire {
  import opened Decimal
  import opened PrimaryKeys
  import opened Rows

  type Fields = map<string, string>

  /** An event with its fields and metadata as raw bytes. */
  datatype Envelope = Envelope(
    peer: string, table: string, id: string, key: seq<PrimaryKeyPart>, op: Operation, version: int,
    fields: Fields, metadata: Fields)

  /** JSON string encoding and decoding, and hexadecimal decoding. */
  datatype Codec = Codec(quote: string -> string, unquote: string -> Option<string>, unhex: string -> Option<string>)

  ghost predicate ValidCodec(codec: Codec) {
    forall s :: codec.unquote(codec.quote(s)) == Some(s)
  }

  datatype WireValue = IntegerValue(number: int) | BooleanValue(truth: bool) | StringValue(text: string) | Missing
  datatype WirePart = WirePart(column: string, value: WireValue)
  datatype WireOperation = WireUnspecified | WireInsert | WireUpdate | WireDelete

  datatype WireEvent = WireEvent(
    id: string, origin: string, table: string, key: seq<WirePart>, fields: Fields, metadata: Fields, version: int,
    op: WireOperation)

  function ToWireOperation(op: Operation): WireOperation {
    match op
    case Insert => WireInsert
    case Update => WireUpdate
    case Delete => WireDelete
    case Upsert => WireUnspecified
  }

  function FromWireOperation(op: WireOperation): Operation {
    match op
    case WireInsert => Insert
    case WireUpdate => Update
    case WireDelete => Delete
    case WireUnspecified => Upsert
  }

  /** The numbers of the protobuf enumeration (api/proto/peer/v1/replication.proto:120-125). */
  function WireNumber(op: WireOperation): nat {
    match op
    case WireUnspecified => 0
    case WireInsert => 1
    case WireUpdate => 2
    case WireDelete => 3
  }

  /** Each operation travels under its own number, upserts under that of an unspecified one, and comes back. */
  lemma OperationsOnTheWire(op: Operation)
    ensures WireNumber(ToWireOperation(Insert)) == 1 && WireNumber(ToWireOperation(Update)) == 2
    ensures WireNumber(ToWireOperation(Delete)) == 3 && WireNumber(ToWireOperation(Upsert)) == 0
    ensures FromWireOperation(ToWireOperation(op)) == op
  {
  }

  /** A value that does not decode as its type says travels as text. */
  function ToWireValue(codec: Codec, p: PrimaryKeyPart): WireValue {
    match p.typ
    case Integer => if DecodeInt(p.value).Some? then IntegerValue(DecodeInt(p.value).value) else StringValue(p.value)
    case Boolean => if DecodeBool(p.value).Some? then BooleanValue(DecodeBool(p.value).value) else StringValue(p.value)
    case _ => if codec.unquote(p.value).Some? then StringValue(codec.unquote(p.value).value) else StringValue(p.value)
  }

  function ToWirePart(codec: Codec, p: PrimaryKeyPart): WirePart {
    WirePart(p.column, ToWireValue(codec, p))
  }

  function FromWirePart(codec: Codec, p: WirePart): Result<PrimaryKeyPart> {
    match p.value
    case IntegerValue(i) => Success(PrimaryKeyPart(p.column, Integer, IntText(i)))
    case BooleanValue(b) => Success(PrimaryKeyPart(p.column, Boolean, if b then "true" else "false"))
    case StringValue(s) => Success(PrimaryKeyPart(p.column, String, codec.quote(s)))
    case Missing => Failure
  }

  function ToWireKey(codec: Codec, key: seq<PrimaryKeyPart>): seq<WirePart> {
    if key == [] then [] else ToWireKey(codec, key[..|key| - 1]) + [ToWirePart(codec, key[|key| - 1])]
  }

  function FromWireKey(codec: Codec, key: seq<WirePart>): Result<seq<PrimaryKeyPart>> {
    if key == [] then Success([])
    else
      match FromWireKey(codec, key[..|key| - 1])
      case Failure => Failure
      case Success(init) =>
        (match FromWirePart(codec, key[|key| - 1])
         case Failure => Failure
         case Success(last) => Success(init + [last]))
  }

  function ToWire(codec: Codec, e: Envelope): WireEvent {
    WireEvent(e.id, e.peer, e.table, ToWireKey(codec, e.key), e.fields, e.metadata, e.version, ToWireOperation(e.op))
  }

  function FromWire(codec: Codec, w: WireEvent): Result<Envelope> {
    match FromWireKey(codec, w.key)
    case Failure => Failure
    case Success(key) =>
      Success(Envelope(w.origin, w.table, w.id, key, FromWireOperation(w.op), w.version, w.fields, w.metadata))
  }

  method ToProtoEvents(codec: Codec, events: seq<Envelope>) returns (result: seq<WireEvent>)
    ensures |result| == |events| && forall i :: 0 <= i < |events| ==> result[i] == ToWire(codec, events[i])
  {
    result := [];
    for i := 0 to |events|
      invariant |result| == i && forall j :: 0 <= j < i ==> result[j] == ToWire(codec, events[j])
    {
      var e := events[i];
      var key := ToProtoPrimaryKey(codec, e.key);
      result := result + [WireEvent(e.id, e.peer, e.table, key, e.fields, e.metadata, e.version,
                                    ToWireOperation(e.op))];
    }
  }

  method ToProtoPrimaryKey(codec: Codec, parts: seq<PrimaryKeyPart>) returns (result: seq<WirePart>)
    ensures result == ToWireKey(codec, parts)
  {
    result := [];
    for i := 0 to |parts|
      invariant result == ToWireKey(codec, parts[..i])
    {
      assert parts[..i + 1][..i] == parts[..i];
      result := result + [WirePart(parts[i].column, ToWireValue(codec, parts[i]))];
    }
    assert parts[..|parts|] == parts;
  }

  /** One event with an undecodable key fails the whole message. */
  method ToReplicationEvents(codec: Codec, events: seq<WireEvent>) returns (result: Result<seq<Envelope>>)
    ensures result.Failure? <==> exists i :: 0 <= i < |events| && FromWire(codec, events[i]).Failure?
    ensures result.Success? ==>
              && |result.value| == |events|
              && forall i :: 0 <= i < |events| ==> FromWire(codec, events[i]) == Success(result.value[i])
  {
    var decoded: seq<Envelope> := [];
    for i := 0 to |events|
      invariant |decoded| == i && forall j :: 0 <= j < i ==> FromWire(codec, events[j]) == Success(decoded[j])
    {
      var event := FromWire(codec, events[i]);
      if event.Failure? {
        return Failure;
      }
      decoded := decoded + [event.value];
    }
    return Success(decoded);
  }

  // ---- the round trip ----

  /** Key parts that survive the wire: typed, and in the form their type is written in. */
  predicate WireSafe(codec: Codec, p: PrimaryKeyPart) {
    match p.typ
    case Unspecified => false
    case String => codec.unquote(p.value).Some? && codec.quote(codec.unquote(p.value).value) == p.value
    case _ => CanonicalPart(p)
  }

  lemma IntTextIsLiteral(i: int)
    ensures IsIntLiteral(IntText(i)) && IntText(i) != "-0" && IntValue(IntText(i)) == i
  {
    NatTextRoundTrip(if i < 0 then -i else i);
    if i < 0 {
      assert IntText(i)[1..] == NatText(-i);
      assert NatText(-i)[0] != '0';
    }
  }

  lemma IntegerOnTheWire(value: string)
    requires DecodeInt(value).Some?
    ensures IntText(DecodeInt(value).value) == value <==> value != "-0" && value != "null"
  {
    var i := DecodeInt(value).value;
    IntTextIsLiteral(i);
    if value == "null" {
      assert IntText(i) == "0";
    } else if value != "-0" {
      IntLiteralUnique(IntText(i), value);
    }
  }

  /** A key part comes back unchanged if and only if it is wire safe. */
  lemma PartRoundTripIff(codec: Codec, p: PrimaryKeyPart)
    requires ValidCodec(codec)
    ensures FromWirePart(codec, ToWirePart(codec, p)) == Success(p) <==> WireSafe(codec, p)
  {
    if p.typ.Integer? && DecodeInt(p.value).Some? {
      IntegerOnTheWire(p.value);
    }
  }

  lemma {:induction false} KeyRoundTripIff(codec: Codec, key: seq<PrimaryKeyPart>)
    requires ValidCodec(codec)
    ensures FromWireKey(codec, ToWireKey(codec, key)).Success?
    ensures |FromWireKey(codec, ToWireKey(codec, key)).value| == |key|
    ensures FromWireKey(codec, ToWireKey(codec, key)).value == key <==> forall p :: p in key ==> WireSafe(codec, p)
  {
    if key != [] {
      var init, last := key[..|key| - 1], key[|key| - 1];
      KeyRoundTripIff(codec, init);
      PartRoundTripIff(codec, last);
      FromWireAppend(codec, ToWireKey(codec, init), ToWirePart(codec, last));
      var back := FromWireKey(codec, ToWireKey(codec, init)).value;
      var part := FromWirePart(codec, ToWirePart(codec, last)).value;
      SameAppended(back, part, init, last);
      assert key == init + [last];
      assert (forall p :: p in key ==> WireSafe(codec, p))
        <==> (forall p :: p in init ==> WireSafe(codec, p)) && WireSafe(codec, last);
    }
  }

  lemma SameAppended(a: seq<PrimaryKeyPart>, p: PrimaryKeyPart, b: seq<PrimaryKeyPart>, q: PrimaryKeyPart)
    requires |a| == |b|
    ensures a + [p] == b + [q] <==> a == b && p == q
  {
    if a + [p] == b + [q] {
      assert (a + [p])[..|a|] == a && (b + [q])[..|b|] == b;
      assert (a + [p])[|a|] == p && (b + [q])[|b|] == q;
    }
  }

  lemma FromWireAppend(codec: Codec, init: seq<WirePart>, last: WirePart)
    requires FromWireKey(codec, init).Success? && FromWirePart(codec, last).Success?
    ensures FromWireKey(codec, init + [last])
         == Success(FromWireKey(codec, init).value + [FromWirePart(codec, last).value])
  {
    var key := init + [last];
    assert key[..|key| - 1] == init && key[|key| - 1] == last;
  }

  /** An event comes back unchanged if and only if all parts of its key are wire safe. */
  lemma EventRoundTripIff(codec: Codec, e: Envelope)
    requires ValidCodec(codec)
    ensures FromWire(codec, ToWire(codec, e)) == Success(e) <==> forall p :: p in e.key ==> WireSafe(codec, p)
  {
    KeyRoundTripIff(codec, e.key);
  }
}
