/**
 * The wire protocol of the chat server (minechat_api.py): turning a received line
 * into text, framing a submission, the registration and authorisation exchanges,
 * and how the server's answer to a token is classified.
 *
 * JSON decoding is abstract: `parse` stands for `json.loads` and says, of each
 * text, which JSON value it denotes or that it does not decode.
 */
module Api {
  import opened Events
  import Text

  /** What `json.loads` does with a text. */
  datatype Parsed = Parsed(doc: Json) | Malformed(error: string)

  /** `_readline_text`: the received line without its trailing newlines; end of
      stream (the empty read) gives the empty text. */
  function ReadlineText(raw: string): (r: string)
    ensures raw == "" ==> r == ""
    ensures |r| <= |raw| && r == raw[..|r|]
    ensures forall i :: |r| <= i < |raw| ==> raw[i] == '\n'
    ensures r == [] || r[|r| - 1] != '\n'
  {
    if raw == "" then "" else Text.RStrip(raw, Text.Newline)
  }

  /** End of stream and a blank line are indistinguishable to the caller, and those are
      the only raw lines that decode to the empty text. */
  lemma ReadlineTextEmpty(raw: string)
    ensures ReadlineText(raw) == "" <==> forall i :: 0 <= i < |raw| ==> raw[i] == '\n'
  {
  }

  /** `submit_message`'s body: the text without trailing newlines, then the blank line
      that terminates a message. */
  function SubmissionBody(text: string): (body: string)
    ensures 2 <= |body| <= |text| + 2 && body[|body| - 2] == '\n' && body[|body| - 1] == '\n'
  {
    Text.RStrip(text, Text.Newline) + "\n\n"
  }

  /** Before its terminator the body is the text cut where only newlines remain, and it
      keeps none of them. */
  lemma SubmissionBodyShape(text: string)
    ensures var body := SubmissionBody(text);
            body[..|body| - 2] == text[..|body| - 2] &&
            (forall i :: |body| - 2 <= i < |text| ==> text[i] == '\n') &&
            (|body| == 2 || body[|body| - 3] != '\n')
  {
  }

  /** What the server takes as the message: the body without its terminating blank line. */
  function Unframe(body: string): string
    requires |body| >= 2
  {
    body[..|body| - 2]
  }

  /** Framing round trip: the server recovers the text, unless it ended in newlines,
      which framing drops. */
  lemma FramingRoundTrip(text: string)
    ensures Unframe(SubmissionBody(text)) == Text.RStrip(text, Text.Newline)
    ensures text == [] || text[|text| - 1] != '\n' ==> Unframe(SubmissionBody(text)) == text
  {
    var t := Text.RStrip(text, Text.Newline);
    var body := SubmissionBody(text);
    assert body == t + "\n\n";
    assert |body| - 2 == |t|;
    assert body[..|t|] == t;
    if text == [] || text[|text| - 1] != '\n' {
      Text.RStripFixed(text, Text.Newline);
    }
  }

  /** Framing ignores trailing newlines, and the empty text is the bare terminator,
      which the sender uses as its heartbeat ping. */
  lemma FramingIgnoresTrailingNewline(text: string)
    ensures SubmissionBody(text + "\n") == SubmissionBody(text)
    ensures SubmissionBody("") == "\n\n"
  {
    Text.RStripIgnoresTrail(text, "\n", Text.Newline);
  }

  /** The payload `authorise` and `authorise_or_raise` compute: `json.loads(response)
      if response else None`, with a decoding error also giving None. */
  function Payload(response: string, parse: string -> Parsed): (p: Json)
    ensures response == "" || parse(response).Malformed? ==> p == Null
    ensures response != "" && parse(response).Parsed? ==> p == parse(response).doc
  {
    if response == "" then Null
    else match parse(response)
      case Malformed(_) => Null
      case Parsed(doc) => doc
  }

  /** Python truthiness of a payload: `None`, the empty string and the empty dict are
      falsy, and any other value is as truthy as Python says. */
  predicate Truthy(p: Json) {
    match p
    case Null => false
    case Str(t) => t != ""
    case Object(members) => |members| > 0
    case Other(t, _) => t
  }

  /** `type(p).__name__`. */
  function TypeName(p: Json): string {
    match p
    case Null => "NoneType"
    case Str(_) => "str"
    case Object(_) => "dict"
    case Other(_, name) => name
  }

  /** `authorise`'s test, `payload is not None`. */
  predicate ApiAccepts(p: Json) {
    p != Null
  }

  /** The two client paths disagree: `core/auth.py` tests truthiness, so it rejects
      exactly the non-null falsy payloads (`{}`, `""`, `false`, `0`, `[]`) that
      `authorise` accepts, and accepts nothing that `authorise` rejects. */
  lemma AcceptanceDiffers(p: Json)
    ensures Truthy(p) ==> ApiAccepts(p)
    ensures ApiAccepts(p) && !Truthy(p) <==> p == Object(map[]) || p == Str("") || (p.Other? && !p.truthy)
  {
    if p.Object? && |p.members| == 0 {
      assert p.members == map[];
    }
  }

  /** The exchange both authorisation paths perform on a fresh connection: read the
      greeting, write `line`, read the reply. The reply is the decoded reply text, or
      the exception that stopped the exchange. */
  datatype Exchange = Exchange(io: seq<Io>, next: nat, reply: Result<string, Failure>)

  function Handshake(inbox: seq<ReadEvent>, pos: nat, line: string): (x: Exchange)
    ensures Sends(x.io) == if |x.io| < 2 then [] else [line]
    ensures x.reply.Success? <==> |x.io| == 3
    ensures |x.io| == 0 || |x.io| == 2 || |x.io| == 3
    ensures |x.io| >= 2 ==> x.io[0].Recv? && x.io[1] == Send(line)
    ensures x.reply.Success? ==> x.io[2].Recv? && x.reply.value == ReadlineText(x.io[2].raw)
  {
    var g := Arrival(inbox, pos);
    var greet := At(inbox, g);
    if greet.Fault? then Exchange([], g + 1, Failure(greet.failure))
    else
      var r := Arrival(inbox, g + 1);
      var reply := At(inbox, r);
      SendsOne(Recv(greet.raw));
      SendsOne(Send(line));
      SendsAppend([Recv(greet.raw)], [Send(line)]);
      assert [Recv(greet.raw)] + [Send(line)] == [Recv(greet.raw), Send(line)];
      if reply.Fault? then Exchange([Recv(greet.raw), Send(line)], r + 1, Failure(reply.failure))
      else
        SendsOne(Recv(reply.raw));
        SendsAppend([Recv(greet.raw), Send(line)], [Recv(reply.raw)]);
        assert [Recv(greet.raw), Send(line)] + [Recv(reply.raw)] == [Recv(greet.raw), Send(line), Recv(reply.raw)];
        Exchange([Recv(greet.raw), Send(line), Recv(reply.raw)], r + 1, Success(ReadlineText(reply.raw)))
  }

  /** `authorise`: the token exchange on the connection whose reads start at `pos`,
      then the answer classified by `payload is not None`. Exceptions pass through. */
  method Authorise(inbox: seq<ReadEvent>, pos: nat, token: string, parse: string -> Parsed)
    returns (io: seq<Io>, next: nat, ok: Result<bool, Failure>)
    ensures io == Handshake(inbox, pos, token + "\n").io
    ensures next == Handshake(inbox, pos, token + "\n").next
    ensures Sends(io) == if |io| < 2 then [] else [token + "\n"]
    ensures ok.Failure? <==> Handshake(inbox, pos, token + "\n").reply.Failure?
    ensures ok.Failure? ==> ok.error == Handshake(inbox, pos, token + "\n").reply.error
    ensures ok.Success? ==> |io| == 3 && ok.value == ApiAccepts(Payload(ReadlineText(io[2].raw), parse))
    // any reply that decodes to a JSON value other than null is an acceptance
    ensures ok.Success? ==> var response := ReadlineText(io[2].raw);
              (ok.value <==> response != "" && parse(response).Parsed? && parse(response).doc != Null)
  {
    io := [];
    var g := Arrival(inbox, pos);
    var greet := At(inbox, g);
    if greet.Fault? {
      return io, g + 1, Failure(greet.failure);
    }
    io := io + [Recv(greet.raw)];
    io := io + [Send(token + "\n")];
    var r := Arrival(inbox, g + 1);
    var reply := At(inbox, r);
    next := r + 1;
    if reply.Fault? {
      return io, next, Failure(reply.failure);
    }
    io := io + [Recv(reply.raw)];
    var response := ReadlineText(reply.raw);
    var payload := Payload(response, parse);
    ok := Success(payload != Null);
  }

  /** Reads and writes alternate, starting with a read. */
  predicate Turns(io: seq<Io>) {
    forall i :: 0 <= i < |io| ==> (io[i].Recv? <==> i % 2 == 0)
  }

  lemma TurnsSnoc(io: seq<Io>, e: Io)
    requires Turns(io) && (e.Recv? <==> |io| % 2 == 0)
    ensures Turns(io + [e])
  {
    forall i | 0 <= i < |io| + 1
      ensures ((io + [e])[i].Recv? <==> i % 2 == 0)
    {
      if i < |io| {
        assert (io + [e])[i] == io[i];
      }
    }
  }

  /** The token exchange alternates: greeting, line, reply. */
  lemma HandshakeTurns(inbox: seq<ReadEvent>, pos: nat, line: string)
    ensures Turns(Handshake(inbox, pos, line).io)
  {
    var io := Handshake(inbox, pos, line).io;
    forall i | 0 <= i < |io|
      ensures (io[i].Recv? <==> i % 2 == 0)
    {
      assert i == 0 || i == 1 || i == 2;
    }
  }

  /** `register`: read the greeting, send an empty line to ask for registration, read
      the prompt, send the nickname, read the reply and decode it with `json.loads`,
      whose decoding error is not caught. */
  method Register(inbox: seq<ReadEvent>, nickname: string, parse: string -> Parsed)
    returns (io: seq<Io>, result: Result<Json, Failure>)
    requires parse("").Malformed?
    ensures Turns(io) && |io| <= 5
    ensures Sends(io) == ["\n", nickname + "\n"][..|io| / 2]
    ensures |io| == 5 ==> result == Loads(parse(ReadlineText(io[4].raw)))
    ensures |io| < 5 ==> result.Failure?
    // an exception from the greeting or prompt read escapes after what was done so far
    ensures var x := Handshake(inbox, 0, "\n");
            x.reply.Failure? ==> io == x.io && result == Failure(x.reply.error)
    // otherwise the nickname is written and the token line read; an exception there escapes
    ensures var x := Handshake(inbox, 0, "\n");
            var e := At(inbox, Arrival(inbox, x.next));
            x.reply.Success? && e.Fault? ==>
              io == x.io + [Send(nickname + "\n")] && result == Failure(e.failure)
    ensures var x := Handshake(inbox, 0, "\n");
            var e := At(inbox, Arrival(inbox, x.next));
            x.reply.Success? && !e.Fault? ==>
              io == x.io + [Send(nickname + "\n"), Recv(e.raw)] &&
              result == Loads(parse(ReadlineText(e.raw)))
    // `json.loads("")` raises, so a token line that is end of stream or blank is an error
    ensures var x := Handshake(inbox, 0, "\n");
            var e := At(inbox, Arrival(inbox, x.next));
            x.reply.Success? && e.Data? && ReadlineText(e.raw) == "" ==> result.Failure?
  {
    var x := Handshake(inbox, 0, "\n");
    HandshakeTurns(inbox, 0, "\n");
    if x.reply.Failure? {
      return x.io, Failure(x.reply.error);
    }
    var tokenLine := At(inbox, Arrival(inbox, x.next));
    if tokenLine.Fault? {
      NicknameSent(x.io, nickname);
      return x.io + [Send(nickname + "\n")], Failure(tokenLine.failure);
    }
    TokenLineRead(x.io, nickname, tokenLine.raw);
    io := x.io + [Send(nickname + "\n"), Recv(tokenLine.raw)];
    result := Loads(parse(ReadlineText(tokenLine.raw)));
  }

  /** After a completed exchange of `"\n"`, writing the nickname keeps the turns and
      makes it the second write. */
  lemma NicknameSent(hs: seq<Io>, nickname: string)
    requires |hs| == 3 && Turns(hs) && Sends(hs) == ["\n"]
    ensures var io := hs + [Send(nickname + "\n")];
            Turns(io) && Sends(io) == ["\n", nickname + "\n"]
  {
    TurnsSnoc(hs, Send(nickname + "\n"));
    SendsOne(Send(nickname + "\n"));
    SendsAppend(hs, [Send(nickname + "\n")]);
  }

  /** Reading the token line after the nickname keeps the turns and writes nothing. */
  lemma TokenLineRead(hs: seq<Io>, nickname: string, raw: string)
    requires |hs| == 3 && Turns(hs) && Sends(hs) == ["\n"]
    ensures var io := hs + [Send(nickname + "\n"), Recv(raw)];
            Turns(io) && Sends(io) == ["\n", nickname + "\n"]
  {
    var sent := hs + [Send(nickname + "\n")];
    NicknameSent(hs, nickname);
    TurnsSnoc(sent, Recv(raw));
    SendsOne(Recv(raw));
    SendsAppend(sent, [Recv(raw)]);
    assert sent + [Recv(raw)] == hs + [Send(nickname + "\n"), Recv(raw)];
  }

  /** `json.loads` as a call: a text that does not decode raises `JSONDecodeError`. */
  function Loads(p: Parsed): (r: Result<Json, Failure>)
    ensures r.Success? <==> p.Parsed?
  {
    match p
    case Parsed(doc) => Success(doc)
    case Malformed(e) => Failure(OtherFailure(e))
  }
}
