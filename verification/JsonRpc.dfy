/** JSON-RPC 2.0 lines as the two endpoints read them. Payloads are opaque JSON
    text; what matters here is which members a message has and what its id is. */
module JsonRpc {
  import opened Common

  type Json = string

  /** An id as it stands in a message. `OddId` is any other JSON value, a
      fractional number included. */
  datatype Id = NullId | NumberId(number: int) | StringId(text: string) | OddId(json: Json)

  datatype Verb = Absent | Named(name: string) | OddVerb

  datatype Line =
    | Blank
    | Garbage
    | Message(id: Option<Id>, verb: Verb, params: Option<Json>, result: Option<Json>, error: Option<Json>)

  datatype Outcome = Success(value: Json) | Failure(error: Json)

  datatype Route =
    | Skipped
    | Unparseable
    | Response(id: Id, outcome: Outcome)
    | Request(id: Id, verb: string, params: Option<Json>)
    | Notification(verb: string, params: Option<Json>)
    | Unrecognized

  // ---------------------------------------------------------------- the two readers

  /** The agent decodes an id it cannot represent as null. */
  function Decoded(id: Id): Id {
    if id.OddId? then NullId else id
  }

  function NameOf(m: Verb): string {
    if m.Named? then m.name else ""
  }

  function AgentRoute(line: Line): Route {
    match line
    case Blank => Skipped
    case Garbage => Unparseable
    case Message(id, verb, params, result, error) =>
      if id.Some? && (result.Some? || error.Some?) && verb.Absent? then
        Response(Decoded(id.value), if result.Some? then Success(result.value) else Failure(error.value))
      else if id.Some? && !verb.Absent? then Request(Decoded(id.value), NameOf(verb), params)
      else if !verb.Absent? then Notification(NameOf(verb), params)
      else Unrecognized
  }

  function ClientRoute(line: Line): Route {
    match line
    case Blank => Skipped
    case Garbage => Unparseable
    case Message(id, verb, params, result, error) =>
      var hasId := id.Some? && id.value != NullId;
      if hasId && (result.Some? || error.Some?) && !verb.Named? then
        Response(id.value, if error.Some? then Failure(error.value) else Success(result.value))
      else if hasId && verb.Named? then Request(id.value, verb.name, params)
      else if verb.Named? then Notification(verb.name, params)
      else Unrecognized
  }

  /** The readers take a line for the same thing exactly when its method is a
      string or missing, an id that is null or of an odd type stands in an
      otherwise empty message, and no bare response has both a result and an
      error. Everything sections 4 and 5 of the JSON-RPC 2.0 Specification allow
      with a number or a string for id is inside. */
  lemma RoutesAgreeExactly(line: Line)
    ensures AgentRoute(line) == ClientRoute(line) <==>
            (line.Message? ==>
               && !line.verb.OddVerb?
               && (line.id.Some? && (line.id.value.NullId? || line.id.value.OddId?) ==>
                     line.verb.Absent? && line.result.None? && line.error.None?)
               && !(line.id.Some? && line.verb.Absent? && line.result.Some? && line.error.Some?))
  {
  }

  /** Three lines they take differently: a request under a null id, a method that
      is not a string, and a response with both a result and an error. */
  lemma ReadersDisagree(name: string, n: int, value: Json, error: Json)
    ensures var line := Message(Some(NullId), Named(name), None, None, None);
            AgentRoute(line) == Request(NullId, name, None) && ClientRoute(line) == Notification(name, None)
    ensures var line := Message(Some(NumberId(n)), OddVerb, None, Some(value), None);
            AgentRoute(line) == Request(NumberId(n), "", None) && ClientRoute(line) == Response(NumberId(n), Success(value))
    ensures var line := Message(Some(NumberId(n)), Absent, None, Some(value), Some(error));
            && AgentRoute(line) == Response(NumberId(n), Success(value))
            && ClientRoute(line) == Response(NumberId(n), Failure(error))
  {
  }

  // ---------------------------------------------------------------- what well-behaved endpoints send

  datatype Call = Call(verb: string, params: Json)

  /** One message in flight. `Noise` is any line neither reader takes for a
      request or a response under a numeric id: notifications, responses to
      string or null ids, unparseable lines. */
  datatype Packet = Ask(number: int, call: Call) | Reply(number: int, outcome: Outcome) | Noise(line: Line)

  function Encode(p: Packet): Line {
    match p
    case Ask(n, call) => Message(Some(NumberId(n)), Named(call.verb), Some(call.params), None, None)
    case Reply(n, Success(v)) => Message(Some(NumberId(n)), Absent, None, Some(v), None)
    case Reply(n, Failure(e)) => Message(Some(NumberId(n)), Absent, None, None, Some(e))
    case Noise(line) => line
  }

  predicate Numbered(r: Route) {
    (r.Response? || r.Request?) && r.id.NumberId?
  }

  predicate Proper(p: Packet) {
    p.Noise? ==> !Numbered(AgentRoute(p.line)) && !Numbered(ClientRoute(p.line))
  }

  /** Both readers recognise every message of either direction for what it is. */
  lemma ReadersDecode(p: Packet)
    requires Proper(p)
    ensures p.Ask? ==> AgentRoute(Encode(p)) == ClientRoute(Encode(p))
                       == Request(NumberId(p.number), p.call.verb, Some(p.call.params))
    ensures p.Reply? ==> AgentRoute(Encode(p)) == ClientRoute(Encode(p)) == Response(NumberId(p.number), p.outcome)
    ensures p.Noise? ==> !Numbered(AgentRoute(Encode(p))) && !Numbered(ClientRoute(Encode(p)))
  {
  }

  // ---------------------------------------------------------------- pending keys

  function Digit(d: nat): char
    requires d < 10
  {
    "0123456789"[d]
  }

  function Digits(n: nat): string {
    if n < 10 then [Digit(n)] else Digits(n / 10) + [Digit(n % 10)]
  }

  function Decimal(n: int): string {
    if n < 0 then "-" + Digits(-n) else Digits(n)
  }

  function IdKey(id: Id): string {
    match id
    case NumberId(n) => "n:" + Decimal(n)
    case StringId(s) => "s:" + s
    case _ => "null"
  }

  function DigitValue(c: char): nat {
    if '0' <= c <= '9' then c as nat - '0' as nat else 10
  }

  function Parsed(digits: string): nat {
    if digits == [] then 0 else 10 * Parsed(digits[..|digits| - 1]) + DigitValue(digits[|digits| - 1])
  }

  lemma {:induction false} DigitsParse(n: nat)
    ensures Parsed(Digits(n)) == n
    ensures |Digits(n)| > 0 && '0' <= Digits(n)[0] <= '9'
  {
    if n >= 10 {
      DigitsParse(n / 10);
      assert Digits(n)[..|Digits(n)| - 1] == Digits(n / 10);
    } else {
      assert Digits(n)[..0] == [];
    }
  }

  /** A decimal numeral reads back as the number it was made from. */
  function ParsedDecimal(numeral: string): int {
    if numeral != [] && numeral[0] == '-' then -(Parsed(numeral[1..]) as int) else Parsed(numeral)
  }

  lemma DecimalParses(n: int)
    ensures ParsedDecimal(Decimal(n)) == n
  {
    DigitsParse(if n < 0 then -n else n);
    if n < 0 {
      assert Decimal(n)[1..] == Digits(-n);
    }
  }

  /** The id a pending key was made from. */
  function KeyId(key: string): Id {
    if |key| < 2 || key[1] != ':' then NullId
    else if key[0] == 'n' then NumberId(ParsedDecimal(key[2..]))
    else StringId(key[2..])
  }

  lemma KeyRoundTrip(id: Id)
    requires !id.OddId?
    ensures KeyId(IdKey(id)) == id && IdKey(NullId) == "null"
  {
    if id.NumberId? {
      DecimalParses(id.number);
      assert IdKey(id)[2..] == Decimal(id.number);
    } else if id.StringId? {
      assert IdKey(id)[2..] == id.text;
    }
  }

  /** No two ids the agent can decode share a pending key: not a number and the
      string of its digits, nor any two numbers. */
  lemma KeysAreInjective(a: Id, b: Id)
    requires !a.OddId? && !b.OddId?
    ensures IdKey(a) == IdKey(b) <==> a == b
  {
    KeyRoundTrip(a);
    KeyRoundTrip(b);
  }
}
