/**
 * Turning the body of a successful chat response into the assistant's reply.
 *
 * The JSON library is not part of this model. What this client asks of it is
 * captured by an Extractor: applied to a text it answers
 *   None              when the text does not parse, or when message.content is
 *                     present but not a string (both raise a JSON exception),
 *   Some(None)        when the text parses but message.content is absent, and
 *   Some(Some(c))     when message.content is the string c.
 */
module ResponseDecoder {
  import opened Wrappers
  import opened LineSplit

  type Extractor = string -> Option<Option<string>>

  /** The framing prefix a line may carry; exactly one occurrence is removed. */
  const DataPrefix: string := "data: "

  /** The terminator line some servers send at the end of a stream. */
  const DoneMarker: string := "[DONE]"

  /** Removes one leading DataPrefix, if there is one. */
  function StripDataPrefix(line: string): (r: string)
    ensures if DataPrefix <= line then DataPrefix + r == line else r == line
  {
    if DataPrefix <= line then line[|DataPrefix|..] else line
  }

  /**
   * What one streamed line adds to the reply: nothing when, after the prefix
   * is stripped, it is empty or the terminator, does not parse, or carries no
   * message.content; otherwise exactly that content.
   */
  function LineContent(extract: Extractor, line: string): (c: string)
    ensures c != [] ==> extract(StripDataPrefix(line)) == Some(Some(c))
    ensures StripDataPrefix(line) == [] || StripDataPrefix(line) == DoneMarker ==> c == []
    ensures var p := StripDataPrefix(line);
      p != [] && p != DoneMarker && extract(p).Some? && extract(p).value.Some? ==> c == extract(p).value.value
  {
    var payload := StripDataPrefix(line);
    if payload == [] || payload == DoneMarker then []
    else
      match extract(payload)
      case Some(Some(content)) => content
      case _ => []
  }

  /** LineContent as a rule on lines. */
  function ContentRule(extract: Extractor): string -> string
  {
    line => LineContent(extract, line)
  }

  /**
   * The reply of a streamed response body: the contents of its lines, in line
   * order. An empty body gives the empty reply, and a non-empty reply has a
   * line that carries content.
   */
  function StreamBodyReply(extract: Extractor, body: string): (reply: string)
    ensures body == [] ==> reply == []
    ensures reply != [] ==> exists k :: 0 <= k < |Lines(body)| && LineContent(extract, Lines(body)[k]) != []
  {
    ConcatMapNonEmpty(ContentRule(extract), Lines(body));
    ConcatMap(ContentRule(extract), Lines(body))
  }

  /** A body that is a single line (no newline at all) decodes to that line's content. */
  lemma SingleLineReply(extract: Extractor, line: string)
    requires forall k :: 0 <= k < |line| ==> line[k] != '\n'
    ensures StreamBodyReply(extract, line) == LineContent(extract, line)
  {
    ConcatMapOneLine(ContentRule(extract), line);
  }

  /**
   * Decoding is compositional over lines: the reply of two pieces of a body
   * joined by a newline is the reply of the first followed by that of the second.
   */
  lemma StreamBodyConcat(extract: Extractor, x: string, y: string)
    ensures StreamBodyReply(extract, x + "\n" + y) ==
      StreamBodyReply(extract, x) + StreamBodyReply(extract, y)
  {
    assert ContentRule(extract)([]) == [];
    ConcatMapLinesJoin(ContentRule(extract), x, y);
  }

  /**
   * A line that does not parse adds nothing and does not stop the lines after
   * it: the reply is that of the surrounding lines, in order.
   */
  lemma MalformedLineSkipped(extract: Extractor, before: string, bad: string, after: string)
    requires forall k :: 0 <= k < |bad| ==> bad[k] != '\n'
    requires extract(StripDataPrefix(bad)) == None
    ensures StreamBodyReply(extract, before + "\n" + bad + "\n" + after) ==
      StreamBodyReply(extract, before) + StreamBodyReply(extract, after)
  {
    var tail := bad + "\n" + after;
    assert before + "\n" + bad + "\n" + after == before + "\n" + tail;
    StreamBodyConcat(extract, before, tail);
    StreamBodyConcat(extract, bad, after);
    SingleLineReply(extract, bad);
    assert StreamBodyReply(extract, tail) == StreamBodyReply(extract, after);
  }

  /** Lines none of which carries message.content decode to the empty reply. */
  lemma {:induction false} NoContentEmptyReply(extract: Extractor, ls: seq<string>)
    requires forall k :: 0 <= k < |ls| ==> extract(StripDataPrefix(ls[k])) !in {Some(None), None} ==>
      StripDataPrefix(ls[k]) in {"", DoneMarker}
    ensures ConcatMap(ContentRule(extract), ls) == []
  {
    if ls != [] {
      NoContentEmptyReply(extract, ls[1..]);
      assert LineContent(extract, ls[0]) == [];
    }
  }

  /** Every line framed with DataPrefix. */
  function Framed(ls: seq<string>): (r: seq<string>)
    ensures |r| == |ls| && forall k :: 0 <= k < |ls| ==> r[k] == DataPrefix + ls[k]
  {
    if ls == [] then [] else [DataPrefix + ls[0]] + Framed(ls[1..])
  }

  /**
   * The two framings a server may use are decoded alike: a stream whose lines
   * carry the DataPrefix gives the same reply as the bare lines, as long as no
   * bare line itself begins with the prefix (only one prefix is stripped).
   */
  lemma {:induction false} FramingInterchangeable(extract: Extractor, ls: seq<string>)
    requires forall k :: 0 <= k < |ls| ==> !(DataPrefix <= ls[k])
    ensures ConcatMap(ContentRule(extract), Framed(ls)) == ConcatMap(ContentRule(extract), ls)
  {
    if ls != [] {
      var f := Framed(ls);
      assert StripDataPrefix(f[0]) == ls[0] by {
        assert DataPrefix <= f[0];
        assert f[0][|DataPrefix|..] == ls[0];
      }
      assert LineContent(extract, f[0]) == LineContent(extract, ls[0]);
      assert f[1..] == Framed(ls[1..]);
      FramingInterchangeable(extract, ls[1..]);
    }
  }

  /** A framed chunk holds no newline if the chunk holds none, and is stripped back to the chunk. */
  lemma FramedChunk(chunk: string)
    requires forall k :: 0 <= k < |chunk| ==> chunk[k] != '\n'
    ensures forall k :: 0 <= k < |DataPrefix + chunk| ==> (DataPrefix + chunk)[k] != '\n'
    ensures StripDataPrefix(DataPrefix + chunk) == chunk
  {
    assert (DataPrefix + chunk)[|DataPrefix|..] == chunk;
  }

  /**
   * A framed stream of two chunks and a terminator line decodes to the
   * concatenation of the chunks' contents: with chunks carrying "Hel" and
   * "lo", the reply is "Hello".
   */
  lemma FramedStreamExample(extract: Extractor, a: string, b: string, p: string, q: string)
    requires forall k :: 0 <= k < |a| ==> a[k] != '\n'
    requires forall k :: 0 <= k < |b| ==> b[k] != '\n'
    requires a != [] && a != DoneMarker && extract(a) == Some(Some(p))
    requires b != [] && b != DoneMarker && extract(b) == Some(Some(q))
    ensures StreamBodyReply(extract, DataPrefix + a + "\n" + DataPrefix + b + "\n" + DoneMarker) == p + q
  {
    var fa, fb := DataPrefix + a, DataPrefix + b;
    var tail := fb + "\n" + DoneMarker;
    assert DataPrefix + a + "\n" + DataPrefix + b + "\n" + DoneMarker == fa + "\n" + tail;
    FramedChunk(a);
    FramedChunk(b);
    SingleLineReply(extract, fa);
    SingleLineReply(extract, fb);
    SingleLineReply(extract, DoneMarker);
    assert StreamBodyReply(extract, fa) == p;
    assert StreamBodyReply(extract, fb) == q;
    assert StreamBodyReply(extract, DoneMarker) == [];
    StreamBodyConcat(extract, fb, DoneMarker);
    assert StreamBodyReply(extract, tail) == q;
    StreamBodyConcat(extract, fa, tail);
  }

  /** The reply from pos on is the content of the line read there, then the reply after it. */
  lemma ReplyAtLine(extract: Extractor, body: string, pos: nat, end: nat)
    requires pos < |body| && pos <= end <= |body|
    requires forall k :: pos <= k < end ==> body[k] != '\n'
    requires end < |body| ==> body[end] == '\n'
    ensures StreamBodyReply(extract, body[pos..]) ==
      LineContent(extract, body[pos..end]) + StreamBodyReply(extract, body[if end < |body| then end + 1 else end..])
  {
    var next := if end < |body| then end + 1 else end;
    NextLine(body, pos, end);
    ConcatMapCons(ContentRule(extract), body[pos..end], Lines(body[next..]));
  }

  /**
   * The streaming decoder of the C++ client: read the body line by line as
   * std::getline does, strip one leading DataPrefix, skip empty and terminator
   * lines, and append the message.content of every line that carries one;
   * lines that do not parse are skipped.
   */
  method DecodeStream(extract: Extractor, body: string) returns (reply: string)
    ensures reply == StreamBodyReply(extract, body)
  {
    reply := "";
    var pos := 0;
    while pos < |body|
      invariant 0 <= pos <= |body|
      invariant StreamBodyReply(extract, body) == reply + StreamBodyReply(extract, body[pos..])
      decreases |body| - pos
    {
      // std::getline: read up to the next newline, which is consumed but not kept
      var end := pos;
      while end < |body| && body[end] != '\n'
        invariant pos <= end <= |body|
        invariant forall k :: pos <= k < end ==> body[k] != '\n'
      {
        end := end + 1;
      }
      var line := body[pos..end];
      var next := if end < |body| then end + 1 else end;
      ghost var raw, before := line, reply;
      assert StreamBodyReply(extract, body) ==
        (before + LineContent(extract, raw)) + StreamBodyReply(extract, body[next..]) by {
        ReplyAtLine(extract, body, pos, end);
        ConcatAssoc(before, LineContent(extract, raw), StreamBodyReply(extract, body[next..]));
      }
      pos := next;

      if DataPrefix <= line {
        line := line[|DataPrefix|..];
      }
      if line != "" && line != DoneMarker {
        match extract(line) {
          case Some(Some(content)) =>
            reply := reply + content;
          case _ =>
            // a parse or type error, or no message.content: nothing is added
        }
      }
      assert reply == before + LineContent(extract, raw);
    }
  }

  /**
   * The non-streaming decoder: the whole body is one JSON document; its
   * message.content is the reply, an absent one gives the empty reply, and a
   * document that does not parse (or a non-string content) is an error (None).
   */
  function DecodeWhole(extract: Extractor, body: string): (r: Option<string>)
    ensures r == None <==> extract(body) == None
    ensures extract(body) == Some(None) ==> r == Some([])
    ensures r.Some? && r.value != [] ==> extract(body) == Some(Some(r.value))
    ensures extract(body).Some? && extract(body).value.Some? ==> r == Some(extract(body).value.value)
  {
    match extract(body)
    case None => None
    case Some(None) => Some([])
    case Some(Some(content)) => Some(content)
  }
}
