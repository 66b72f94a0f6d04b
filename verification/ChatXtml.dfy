/** The XTML form of a conversation (src/chat/k3_chat.c): rendering a history into segments, and
    recognising one assistant turn in the ids the model emits. */
module ChatXtml {
  import opened ChatJson
  import opened Common

  /** A piece of text; in a special one the control markers are recognised. */
  datatype Segment = Segment(text: string, special: bool)

  /** The tokenizer, as far as it matters here: `encode` with special tokens off, the id of each
      control marker, which ids exist, which of them were added to the vocabulary. */
  datatype Tok = Tok(encode: string -> seq<int>, marker: string -> int, known: int -> bool, added: int -> bool,
      decode: seq<int> -> string)

  const OPEN := "<|open|>"
  const CLOSE := "<|close|>"
  const SEP := "<|sep|>"
  const EOM := "<|end_of_msg|>"
  const EOS := "[EOS]"

  /** The five markers are added tokens. */
  ghost predicate Markers(tok: Tok) {
    && tok.added(tok.marker(OPEN)) && tok.added(tok.marker(CLOSE)) && tok.added(tok.marker(SEP))
    && tok.added(tok.marker(EOM)) && tok.added(tok.marker(EOS))
  }

  /** Text that is neither out of range nor an added token. */
  ghost predicate Free(tok: Tok, ids: seq<int>) {
    forall i :: 0 <= i < |ids| ==> tok.known(ids[i]) && !tok.added(ids[i])
  }

  /** Encoding this text with special tokens off loses nothing and adds nothing. */
  ghost predicate Faithful(tok: Tok, s: string) {
    s != "" ==> Free(tok, tok.encode(s)) && tok.decode(tok.encode(s)) == s
  }

  /* ------------------------------------------------------------ rendering */

  datatype Options = Options(thinking: bool, effort: string)

  /** Empty text makes no segment. */
  function Seg(text: string, special: bool): seq<Segment> {
    if text == "" then [] else [Segment(text, special)]
  }

  function OpenTag(tag: string, attrs: string): seq<Segment> {
    [Segment(OPEN, true)] + Seg(tag, false) + Seg(attrs, false) + [Segment(SEP, true)]
  }

  function CloseTag(tag: string): seq<Segment> {
    [Segment(CLOSE, true)] + Seg(tag, false) + [Segment(SEP, true)]
  }

  function EndOfMessage(): seq<Segment> {
    [Segment(EOM, true)]
  }

  function Attrs(r: Role): string {
    " role=\"" + RoleName(r) + "\""
  }

  function TextOf(s: Option<string>): string {
    match s case None => "" case Some(t) => t
  }

  /** What the model is to produce of an assistant message after the generation opening. */
  function Completion(m: Message, thinking: bool): seq<Segment> {
    (if thinking then Seg(TextOf(m.reasoning), false) + CloseTag("think") + OpenTag("response", "") else [])
    + Seg(m.content, false) + CloseTag("response") + CloseTag("message") + EndOfMessage()
  }

  /** The generation opening: the message, then its first channel. */
  function Generation(thinking: bool): seq<Segment> {
    OpenTag("message", Attrs(Assistant)) + OpenTag(if thinking then "think" else "response", "")
  }

  function Rendered(m: Message, thinking: bool): seq<Segment> {
    OpenTag("message", Attrs(m.role))
    + (if m.role == Assistant then
         (if thinking then OpenTag("think", "") + Seg(TextOf(m.reasoning), false) + CloseTag("think") else [])
         + OpenTag("response", "") + Seg(m.content, false) + CloseTag("response")
       else Seg(m.content, false))
    + CloseTag("message") + EndOfMessage()
  }

  function EffortGuide(): string {
    "`thinking_effort` guides on how much to think in your thinking channel (not including the response channel), "
    + "supported values include `low`, `medium`, `high`, and `max`.\n"
    + "Now the system is invoked with "
  }

  function EffortText(effort: string): string {
    EffortGuide() + "`thinking_effort=" + effort + "`."
  }

  function Preamble(o: Options): seq<Segment> {
    if o.thinking then
      OpenTag("message", " role=\"system\" type=\"thinking-effort\"") + Seg(EffortText(o.effort), false)
          + CloseTag("message") + EndOfMessage()
    else []
  }

  predicate OptionsOk(o: Options) {
    !o.thinking || o.effort == "low" || o.effort == "high" || o.effort == "max"
  }

  const EFFORTS: seq<string> := ["low", "high", "max"]

  /** `k3_chat_options_validate`. */
  method ValidateOptions(o: Options) returns (ok: bool)
    ensures ok <==> OptionsOk(o)
  {
    if !o.thinking { return true; }
    for i := 0 to |EFFORTS|
      invariant forall j :: 0 <= j < i ==> o.effort != EFFORTS[j]
    {
      if o.effort == EFFORTS[i] { return true; }
    }
    assert o.effort != EFFORTS[0] && o.effort != EFFORTS[1] && o.effort != EFFORTS[2];
    ok := false;
  }

  function RenderedAll(h: seq<Message>, thinking: bool): seq<Segment> {
    if h == [] then [] else RenderedAll(h[..|h| - 1], thinking) + Rendered(h[|h| - 1], thinking)
  }

  function Prompt(h: seq<Message>, generate: bool, o: Options): seq<Segment> {
    var segs := Preamble(o) + RenderedAll(h, o.thinking);
    if generate then segs + Generation(o.thinking) else segs
  }

  /* ------------------------------------------------------------ reading segments back */

  /** What a reader of segments makes of one message. */
  datatype Heard = Heard(attrs: string, reasoning: Option<string>, content: string)

  /** The marker, the tag, attributes if there are any, and the separator. */
  function ReadTag(segs: seq<Segment>, marker: string, tag: string): (r: Option<(string, seq<Segment>)>)
    ensures r.Some? ==> |r.value.1| < |segs|
  {
    if |segs| < 3 || segs[0] != Segment(marker, true) || segs[1] != Segment(tag, false) then None
    else if segs[2] == Segment(SEP, true) then Some(("", segs[3..]))
    else if |segs| >= 4 && !segs[2].special && segs[3] == Segment(SEP, true) then Some((segs[2].text, segs[4..]))
    else None
  }

  /** The plain text that comes next, if any. */
  function ReadText(segs: seq<Segment>): (r: (string, seq<Segment>))
    ensures |r.1| <= |segs|
  {
    if segs != [] && !segs[0].special then (segs[0].text, segs[1..]) else ("", segs)
  }

  /** Everything of a channel. */
  function ReadChannel(segs: seq<Segment>, tag: string): (r: Option<(string, seq<Segment>)>)
    ensures r.Some? ==> |r.value.1| < |segs|
  {
    match ReadTag(segs, OPEN, tag)
    case None => None
    case Some(a) =>
      var text := ReadText(a.1);
      match ReadTag(text.1, CLOSE, tag)
      case None => None
      case Some(b) => Some((text.0, b.1))
  }

  /** A message, to its end: its channels, or else its plain text. */
  function ReadMessage(segs: seq<Segment>): (r: Option<(Heard, seq<Segment>)>)
    ensures r.Some? ==> |r.value.1| < |segs|
  {
    match ReadTag(segs, OPEN, "message")
    case None => None
    case Some(a) =>
      var think := ReadChannel(a.1, "think");
      var rest := if think.Some? then think.value.1 else a.1;
      var response := ReadChannel(rest, "response");
      var body := if response.Some? then response.value else ReadText(rest);
      match ReadTag(body.1, CLOSE, "message")
      case None => None
      case Some(b) =>
        if b.1 == [] || b.1[0] != Segment(EOM, true) then None
        else Some((Heard(a.0, if think.Some? then Some(think.value.0) else None, body.0), b.1[1..]))
  }

  /** All messages that are complete, and what is left. */
  function ReadMessages(segs: seq<Segment>): (seq<Heard>, seq<Segment>)
    decreases |segs|
  {
    match ReadMessage(segs)
    case None => ([], segs)
    case Some(m) =>
      var more := ReadMessages(m.1);
      ([m.0] + more.0, more.1)
  }

  /** An opening for the assistant: the message and one channel of it, and nothing behind. */
  predicate OpensFor(segs: seq<Segment>, attrs: string, tag: string) {
    match ReadTag(segs, OPEN, "message")
    case None => false
    case Some(a) => a.0 == attrs && ReadTag(a.1, OPEN, tag) == Some(("", []))
  }

  const FROM_SYSTEM := " role=\"system\""
  const FROM_USER := " role=\"user\""
  const FROM_ASSISTANT := " role=\"assistant\""
  const EFFORT := " role=\"system\" type=\"thinking-effort\""

  ghost function From(r: Role): string {
    match r case System => FROM_SYSTEM case User => FROM_USER case Assistant => FROM_ASSISTANT
  }

  /** The reasoning, empty when there is none. */
  ghost function Thought(m: Message): string {
    if m.reasoning.Some? then m.reasoning.value else ""
  }

  /** Role, text and, with thinking on, the assistant's reasoning. */
  ghost function Said(m: Message, thinking: bool): Heard {
    Heard(From(m.role), if thinking && m.role == Assistant then Some(Thought(m)) else None, m.content)
  }

  ghost function AllSaid(h: seq<Message>, thinking: bool): (r: seq<Heard>)
    ensures |r| == |h|
  {
    seq(|h|, i requires 0 <= i < |h| => Said(h[i], thinking))
  }

  /** The note asks for this effort. */
  ghost predicate AsksFor(note: string, effort: string) {
    var asked := "`thinking_effort=" + effort + "`.";
    |asked| <= |note| && note[|note| - |asked|..] == asked
  }

  lemma EffortIsAsked(effort: string)
    ensures AsksFor(EffortText(effort), effort)
  {
    hide EffortGuide;
    var asked := "`thinking_effort=" + effort + "`.";
    assert EffortText(effort) == EffortGuide() + asked;
  }

  /** The segments are heard as these messages in their order, after a note on the effort when
      thinking is on, and leave the model in its first channel when an answer is asked for. */
  ghost predicate HeardAs(segs: seq<Segment>, h: seq<Message>, generate: bool, o: Options) {
    var r := ReadMessages(segs);
    && r.0 == (if o.thinking then [Heard(EFFORT, None, EffortText(o.effort))] else []) + AllSaid(h, o.thinking)
    && (o.thinking ==> AsksFor(r.0[0].content, o.effort))
    && if generate then OpensFor(r.1, FROM_ASSISTANT, if o.thinking then "think" else "response") else r.1 == []
  }

  /** Nothing but the control markers is special. */
  ghost predicate OnlyMarkers(segs: seq<Segment>) {
    forall i :: 0 <= i < |segs| && segs[i].special ==> segs[i].text in {OPEN, CLOSE, SEP, EOM}
  }

  /** What is rendered, if anything, is heard as it was meant, and its text stays plain. */
  ghost predicate Understood(out: Option<seq<Segment>>, h: seq<Message>, generate: bool, o: Options) {
    match out case None => true case Some(segs) => HeardAs(segs, h, generate, o) && OnlyMarkers(segs)
  }

  lemma TagReads(marker: string, tag: string, attrs: string, rest: seq<Segment>)
    requires tag != ""
    ensures ReadTag([Segment(marker, true)] + Seg(tag, false) + Seg(attrs, false) + [Segment(SEP, true)] + rest,
            marker, tag)
         == Some((attrs, rest))
  {
    var a, b := [Segment(marker, true), Segment(tag, false), Segment(SEP, true)],
        [Segment(marker, true), Segment(tag, false), Segment(attrs, false), Segment(SEP, true)];
    var t := [Segment(marker, true)] + Seg(tag, false) + Seg(attrs, false) + [Segment(SEP, true)];
    if attrs == "" {
      assert t == a && (a + rest)[3..] == rest;
    } else {
      assert t == b && (b + rest)[4..] == rest;
    }
  }

  lemma OpenReads(tag: string, attrs: string, rest: seq<Segment>)
    requires tag != ""
    ensures ReadTag(OpenTag(tag, attrs) + rest, OPEN, tag) == Some((attrs, rest))
  {
    hide Seg, ReadTag;
    TagReads(OPEN, tag, attrs, rest);
  }

  lemma CloseReads(tag: string, rest: seq<Segment>)
    requires tag != ""
    ensures ReadTag(CloseTag(tag) + rest, CLOSE, tag) == Some(("", rest))
  {
    hide ReadTag;
    TagReads(CLOSE, tag, "", rest);
    assert CloseTag(tag) == [Segment(CLOSE, true)] + Seg(tag, false) + Seg("", false) + [Segment(SEP, true)];
  }

  lemma TextReads(text: string, rest: seq<Segment>)
    requires rest != [] && rest[0].special
    ensures ReadText(Seg(text, false) + rest) == (text, rest)
  {
    if text != "" { assert ([Segment(text, false)] + rest)[1..] == rest; } else { assert [] + rest == rest; }
  }

  /** A text that is not followed by an opening is no channel. */
  lemma NoChannel(text: string, rest: seq<Segment>, tag: string)
    requires rest != [] && rest[0] == Segment(CLOSE, true)
    ensures ReadChannel(Seg(text, false) + rest, tag) == None
  {
    assert OPEN[2] == 'o' && CLOSE[2] == 'c';
    assert (Seg(text, false) + rest)[0] == if text == "" then rest[0] else Segment(text, false);
  }

  /** One channel is no other. */
  lemma OtherChannel(rest: seq<Segment>)
    ensures ReadChannel(OpenTag("response", "") + rest, "think") == None
  {
    assert (OpenTag("response", "") + rest)[1] == Segment("response", false);
    assert "response"[0] == 'r' && "think"[0] == 't';
  }

  lemma ChannelReads(tag: string, text: string, rest: seq<Segment>)
    requires tag != ""
    ensures ReadChannel(OpenTag(tag, "") + Seg(text, false) + CloseTag(tag) + rest, tag) == Some((text, rest))
  {
    hide ReadTag, ReadText, Seg, OpenTag;
    var o, t, c := OpenTag(tag, ""), Seg(text, false), CloseTag(tag);
    assert o + t + c + rest == o + (t + (c + rest));
    OpenReads(tag, "", t + (c + rest));
    assert (c + rest)[0] == c[0];
    TextReads(text, c + rest);
    CloseReads(tag, rest);
  }

  /** The end of a message. */
  lemma EndReads(rest: seq<Segment>)
    ensures var end := CloseTag("message") + EndOfMessage() + rest;
            && end[0] == Segment(CLOSE, true)
            && ReadTag(end, CLOSE, "message") == Some(("", EndOfMessage() + rest))
            && EndOfMessage() + rest != [] && (EndOfMessage() + rest)[0] == Segment(EOM, true)
            && (EndOfMessage() + rest)[1..] == rest
  {
    hide ReadTag;
    CloseReads("message", EndOfMessage() + rest);
    assert CloseTag("message") + EndOfMessage() + rest == CloseTag("message") + (EndOfMessage() + rest);
  }

  /** A message with this body, once its channels are known. */
  lemma MessageReads(attrs: string, body: seq<Segment>, rest: seq<Segment>, think: Option<string>, content: string)
    requires var end := CloseTag("message") + EndOfMessage() + rest;
             var thought := ReadChannel(body + end, "think");
             var after := if thought.Some? then thought.value.1 else body + end;
             && (if think.Some? then thought.Some? && thought.value.0 == think.value else thought == None)
             && match ReadChannel(after, "response")
                case Some(x) => x == (content, end)
                case None => ReadText(after) == (content, end)
    ensures ReadMessage(OpenTag("message", attrs) + body + CloseTag("message") + EndOfMessage() + rest)
         == Some((Heard(attrs, think, content), rest))
  {
    hide ReadTag, ReadText, ReadChannel, OpenTag, CloseTag, EndOfMessage;
    var o, end := OpenTag("message", attrs), CloseTag("message") + EndOfMessage() + rest;
    assert o + body + CloseTag("message") + EndOfMessage() + rest == o + (body + end);
    OpenReads("message", attrs, body + end);
    EndReads(rest);
  }

  /** A rendered message is heard as what it says. */
  lemma RenderedReads(m: Message, thinking: bool, rest: seq<Segment>)
    ensures ReadMessage(Rendered(m, thinking) + rest) == Some((Said(m, thinking), rest))
  {
    hide ReadMessage, ReadChannel, ReadText, OpenTag, CloseTag, Seg, EndOfMessage, Attrs, From;
    var end, t, c := CloseTag("message") + EndOfMessage() + rest, Seg(TextOf(m.reasoning), false),
        Seg(m.content, false);
    AttrsAre(m.role);
    EndReads(rest);
    if m.role != Assistant {
      NoChannel(m.content, end, "think");
      NoChannel(m.content, end, "response");
      TextReads(m.content, end);
      MessageReads(Attrs(m.role), c, rest, None, m.content);
    } else {
      var response := OpenTag("response", "") + c + CloseTag("response");
      ChannelReads("response", m.content, end);
      if thinking {
        var think := OpenTag("think", "") + t + CloseTag("think");
        ChannelReads("think", TextOf(m.reasoning), response + end);
        assert think + response + end == think + (response + end);
        MessageReads(Attrs(m.role), think + response, rest, Some(TextOf(m.reasoning)), m.content);
        assert think + OpenTag("response", "") + c + CloseTag("response") == think + response;
      } else {
        OtherChannel(c + CloseTag("response") + end);
        assert response + end == OpenTag("response", "") + (c + CloseTag("response") + end);
        MessageReads(Attrs(m.role), response, rest, None, m.content);
        assert [] + OpenTag("response", "") + c + CloseTag("response") == response;
      }
    }
  }

  lemma AttrsAre(r: Role)
    ensures Attrs(r) == From(r)
  {
  }

  lemma PreambleReads(o: Options, rest: seq<Segment>)
    requires o.thinking
    ensures ReadMessage(Preamble(o) + rest) == Some((Heard(EFFORT, None, EffortText(o.effort)), rest))
  {
    hide ReadMessage, ReadChannel, ReadText, OpenTag, CloseTag, Seg, EndOfMessage, EffortText;
    var end := CloseTag("message") + EndOfMessage() + rest;
    EndReads(rest);
    NoChannel(EffortText(o.effort), end, "think");
    NoChannel(EffortText(o.effort), end, "response");
    TextReads(EffortText(o.effort), end);
    MessageReads(EFFORT, Seg(EffortText(o.effort), false), rest, None, EffortText(o.effort));
  }

  lemma {:induction false} MessagesRead(h: seq<Message>, thinking: bool, rest: seq<Segment>)
    ensures ReadMessages(RenderedAll(h, thinking) + rest)
         == (AllSaid(h, thinking) + ReadMessages(rest).0, ReadMessages(rest).1)
    decreases |h|
  {
    hide ReadMessage, Rendered, Said;
    if h == [] {
      assert RenderedAll(h, thinking) + rest == rest && AllSaid(h, thinking) == [];
      assert [] + ReadMessages(rest).0 == ReadMessages(rest).0;
    } else {
      var init, m := h[..|h| - 1], h[|h| - 1];
      MessagesRead(init, thinking, Rendered(m, thinking) + rest);
      RenderedReads(m, thinking, rest);
      assert RenderedAll(h, thinking) + rest == RenderedAll(init, thinking) + (Rendered(m, thinking) + rest);
      assert AllSaid(h, thinking) == AllSaid(init, thinking) + [Said(m, thinking)];
      var more := ReadMessages(rest).0;
      assert ReadMessages(Rendered(m, thinking) + rest) == ([Said(m, thinking)] + more, ReadMessages(rest).1);
      assert AllSaid(init, thinking) + ([Said(m, thinking)] + more) == AllSaid(h, thinking) + more;
    }
  }

  lemma GenerationReads(thinking: bool)
    ensures OpensFor(Generation(thinking), FROM_ASSISTANT, if thinking then "think" else "response")
    ensures ReadMessages(Generation(thinking)) == ([], Generation(thinking))
  {
    hide ReadTag, OpenTag, Seg, ReadChannel;
    var tag := if thinking then "think" else "response";
    AttrsAre(Assistant);
    OpenReads("message", Attrs(Assistant), OpenTag(tag, ""));
    OpenReads(tag, "", []);
    assert OpenTag(tag, "") + [] == OpenTag(tag, "");
    OpeningIsOpen(tag);
  }

  /** An opening is neither a channel nor a text nor an end. */
  lemma OpeningIsOpen(tag: string)
    requires tag != ""
    ensures forall t :: ReadChannel(OpenTag(tag, ""), t) == None
    ensures ReadText(OpenTag(tag, "")) == ("", OpenTag(tag, "")) && ReadTag(OpenTag(tag, ""), CLOSE, "message") == None
  {
    hide ReadTag;
    OpenReads(tag, "", []);
    assert OpenTag(tag, "") + [] == OpenTag(tag, "");
    OpenEnds(tag);
  }

  lemma OpenEnds(tag: string)
    requires tag != ""
    ensures OpenTag(tag, "")[0] == Segment(OPEN, true) && OPEN != CLOSE
    ensures ReadTag(OpenTag(tag, ""), CLOSE, "message") == None
    ensures forall t :: t != tag ==> ReadTag(OpenTag(tag, ""), OPEN, t) == None
    ensures forall t :: ReadTag([], CLOSE, t) == None
  {
    assert OPEN[2] == 'o' && CLOSE[2] == 'c';
  }

  /** The whole prompt is heard as the messages it was made of. */
  lemma PromptReads(h: seq<Message>, generate: bool, o: Options)
    ensures HeardAs(Prompt(h, generate, o), h, generate, o)
  {
    hide ReadMessage, Preamble, RenderedAll, Generation, EffortText, OpensFor, AsksFor;
    var rest := if generate then Generation(o.thinking) else [];
    var pre, all := Preamble(o), RenderedAll(h, o.thinking);
    GenerationReads(o.thinking);
    NothingReads();
    MessagesRead(h, o.thinking, rest);
    assert Prompt(h, generate, o) == pre + (all + rest);
    assert AllSaid(h, o.thinking) + [] == AllSaid(h, o.thinking);
    if o.thinking {
      PreambleReads(o, all + rest);
      EffortIsAsked(o.effort);
    } else {
      NoPreamble(o);
      assert [] + (all + rest) == all + rest;
      assert [] + AllSaid(h, o.thinking) == AllSaid(h, o.thinking);
    }
  }

  lemma NoPreamble(o: Options)
    requires !o.thinking
    ensures Preamble(o) == []
  {
  }

  lemma NothingReads()
    ensures ReadMessages([]) == ([], [])
  {
  }

  lemma MarkersJoin(a: seq<Segment>, b: seq<Segment>)
    requires OnlyMarkers(a) && OnlyMarkers(b)
    ensures OnlyMarkers(a + b)
  {
  }

  lemma TagsAreMarkers(tag: string, attrs: string)
    ensures OnlyMarkers(OpenTag(tag, attrs)) && OnlyMarkers(CloseTag(tag)) && OnlyMarkers(EndOfMessage())
    ensures OnlyMarkers(Seg(tag, false))
  {
  }

  lemma RenderedMarkers(m: Message, thinking: bool)
    ensures OnlyMarkers(Rendered(m, thinking))
  {
    hide OnlyMarkers, OpenTag, CloseTag, EndOfMessage, Seg;
    var r, c, cm, e := Seg(TextOf(m.reasoning), false), Seg(m.content, false), CloseTag("message"), EndOfMessage();
    var om, ot, ct, or, cr := OpenTag("message", Attrs(m.role)), OpenTag("think", ""), CloseTag("think"),
        OpenTag("response", ""), CloseTag("response");
    TagsAreMarkers("message", Attrs(m.role));
    TagsAreMarkers("think", "");
    TagsAreMarkers("response", "");
    TagsAreMarkers(TextOf(m.reasoning), "");
    TagsAreMarkers(m.content, "");
    NoMarkers();
    MarkersJoin(ot, r);
    MarkersJoin(ot + r, ct);
    var think := if thinking then ot + r + ct else [];
    MarkersJoin(think, or);
    MarkersJoin(think + or, c);
    MarkersJoin(think + or + c, cr);
    var body := if m.role == Assistant then think + or + c + cr else c;
    MarkersJoin(om, body);
    MarkersJoin(om + body, cm);
    MarkersJoin(om + body + cm, e);
  }

  lemma NoMarkers()
    ensures OnlyMarkers([])
  {
  }

  lemma {:induction false} AllMarkers(h: seq<Message>, thinking: bool)
    ensures OnlyMarkers(RenderedAll(h, thinking))
  {
    hide OnlyMarkers, Rendered;
    NoMarkers();
    if h != [] {
      AllMarkers(h[..|h| - 1], thinking);
      RenderedMarkers(h[|h| - 1], thinking);
      MarkersJoin(RenderedAll(h[..|h| - 1], thinking), Rendered(h[|h| - 1], thinking));
    }
  }

  lemma PromptMarkers(h: seq<Message>, generate: bool, o: Options)
    ensures OnlyMarkers(Prompt(h, generate, o))
  {
    hide OnlyMarkers, OpenTag, CloseTag, EndOfMessage, Seg, RenderedAll, EffortText;
    NoMarkers();
    AllMarkers(h, o.thinking);
    TagsAreMarkers("message", EFFORT);
    TagsAreMarkers(EffortText(o.effort), "");
    var a, b, c, d := OpenTag("message", EFFORT), Seg(EffortText(o.effort), false), CloseTag("message"), EndOfMessage();
    MarkersJoin(a, b);
    MarkersJoin(a + b, c);
    MarkersJoin(a + b + c, d);
    MarkersJoin(Preamble(o), RenderedAll(h, o.thinking));
    TagsAreMarkers("message", Attrs(Assistant));
    TagsAreMarkers(if o.thinking then "think" else "response", "");
    MarkersJoin(OpenTag("message", Attrs(Assistant)), OpenTag(if o.thinking then "think" else "response", ""));
    MarkersJoin(Preamble(o) + RenderedAll(h, o.thinking), Generation(o.thinking));
  }

  /** Transcripts that differ in a role or a text, or with thinking on in an assistant's reasoning,
      render differently. */
  lemma RenderIsInjective(h: seq<Message>, h': seq<Message>, generate: bool, o: Options)
    requires Prompt(h, generate, o) == Prompt(h', generate, o)
    ensures |h| == |h'|
    ensures forall i :: 0 <= i < |h| ==>
              && h[i].role == h'[i].role && h[i].content == h'[i].content
              && (o.thinking && h[i].role == Assistant ==> Thought(h[i]) == Thought(h'[i]))
  {
    hide Prompt, ReadMessages, OpensFor, From, EffortText, Said;
    PromptReads(h, generate, o);
    PromptReads(h', generate, o);
    var pre := if o.thinking then [Heard(EFFORT, None, EffortText(o.effort))] else [];
    var a, b := AllSaid(h, o.thinking), AllSaid(h', o.thinking);
    assert a == (pre + a)[|pre|..] == (pre + b)[|pre|..] == b;
    forall i | 0 <= i < |h|
      ensures h[i].role == h'[i].role && h[i].content == h'[i].content
      ensures o.thinking && h[i].role == Assistant ==> Thought(h[i]) == Thought(h'[i])
    {
      assert a[i] == b[i];
      SaidIsInjective(h[i], h'[i], o.thinking);
    }
  }

  lemma SaidIsInjective(m: Message, m': Message, thinking: bool)
    requires Said(m, thinking) == Said(m', thinking)
    ensures m.role == m'.role && m.content == m'.content
    ensures thinking && m.role == Assistant ==> Thought(m) == Thought(m')
  {
    hide From, Thought;
    RolesDiffer(m.role, m'.role);
  }

  lemma RolesDiffer(r: Role, r': Role)
    ensures From(r) == From(r') ==> r == r'
  {
    assert |FROM_SYSTEM| == 14 && |FROM_USER| == 12 && |FROM_ASSISTANT| == 17;
  }

  /** `k3_chat_render_opts`. */
  method Render(h: seq<Message>, generate: bool, o: Options) returns (out: Option<seq<Segment>>)
    ensures out == if OptionsOk(o) && ValidHistory(h) then Some(Prompt(h, generate, o)) else None
    ensures Understood(out, h, generate, o)
  {
    hide Rendered, Preamble, Generation, ValidHistory, HeardAs, OnlyMarkers;
    PromptReads(h, generate, o);
    PromptMarkers(h, generate, o);
    var ok := ValidateOptions(o);
    if !ok { return None; }
    var valid := Validate(h);
    if !valid { return None; }
    var segs := Preamble(o);
    for i := 0 to |h|
      invariant segs == Preamble(o) + RenderedAll(h[..i], o.thinking)
    {
      assert h[..i + 1][..i] == h[..i];
      segs := segs + Rendered(h[i], o.thinking);
    }
    assert h[..|h|] == h;
    if generate { segs := segs + Generation(o.thinking); }
    out := Some(segs);
  }

  /** A rendered assistant message is the generation opening followed by its completion. */
  lemma RenderedIsOpened(m: Message, thinking: bool)
    requires m.role == Assistant
    ensures Rendered(m, thinking) == Generation(thinking) + Completion(m, thinking)
  {
    hide OpenTag, CloseTag, Seg, EndOfMessage, Attrs;
    var a, c, d, e := OpenTag("message", Attrs(m.role)), OpenTag("response", ""), Seg(m.content, false),
        CloseTag("response");
    var f, g := CloseTag("message"), EndOfMessage();
    if thinking {
      RegroupThinking(a, OpenTag("think", ""), Seg(TextOf(m.reasoning), false), CloseTag("think"), c, d, e, f, g);
    } else {
      RegroupPlain(a, c, d, e, f, g);
    }
  }

  lemma RegroupThinking<T>(a: seq<T>, b: seq<T>, r: seq<T>, s: seq<T>, c: seq<T>, d: seq<T>, e: seq<T>, f: seq<T>,
      g: seq<T>)
    ensures a + ((b + r + s) + c + d + e) + f + g == (a + b) + ((r + s + c) + d + e + f + g)
  {
    assert a + ((b + r + s) + c + d + e) == (a + b) + (r + s + c + d + e);
  }

  lemma RegroupPlain<T>(a: seq<T>, c: seq<T>, d: seq<T>, e: seq<T>, f: seq<T>, g: seq<T>)
    ensures a + ([] + c + d + e) + f + g == (a + c) + ([] + d + e + f + g)
  {
    assert a + ([] + c + d + e) == (a + c) + (d + e);
    assert [] + d + e + f + g == d + e + f + g;
  }

  /** The next prompt starts with what this turn was prompted with and produced: the transcript
      with the answer is the transcript opened for an answer, then the answer. */
  lemma AnswerExtendsPrompt(h: seq<Message>, m: Message, o: Options)
    requires m.role == Assistant
    ensures Prompt(h + [m], false, o) == Prompt(h, true, o) + Completion(m, o.thinking)
  {
    hide Rendered, Generation, Completion, Preamble;
    RenderedIsOpened(m, o.thinking);
    assert (h + [m])[..|h|] == h;
  }

  /* ------------------------------------------------------------ encoding */

  function SegmentIds(tok: Tok, s: Segment): seq<int> {
    if s.special then [tok.marker(s.text)] else tok.encode(s.text)
  }

  function Ids(tok: Tok, segs: seq<Segment>): seq<int> {
    if segs == [] then [] else Ids(tok, segs[..|segs| - 1]) + SegmentIds(tok, segs[|segs| - 1])
  }

  /** `k3_chat_encode`: segment by segment. */
  method Encode(tok: Tok, segs: seq<Segment>) returns (ids: seq<int>)
    ensures ids == Ids(tok, segs)
  {
    ids := [];
    for i := 0 to |segs|
      invariant ids == Ids(tok, segs[..i])
    {
      assert segs[..i + 1][..i] == segs[..i];
      ids := ids + SegmentIds(tok, segs[i]);
    }
    assert segs[..|segs|] == segs;
  }

  lemma {:induction false} IdsAppend(tok: Tok, a: seq<Segment>, b: seq<Segment>)
    ensures Ids(tok, a + b) == Ids(tok, a) + Ids(tok, b)
  {
    hide SegmentIds;
    if b == [] {
      assert a + b == a;
    } else {
      IdsAppend(tok, a, b[..|b| - 1]);
      assert (a + b)[..|a + b| - 1] == a + b[..|b| - 1];
    }
  }

  lemma IdsOne(tok: Tok, s: Segment)
    ensures Ids(tok, [s]) == SegmentIds(tok, s)
  {
    assert [s][..0] == [];
  }

  /** The ids of a text, none for the empty one. */
  function TextIds(tok: Tok, s: string): seq<int> {
    if s == "" then [] else tok.encode(s)
  }

  lemma IdsSeg(tok: Tok, s: string)
    ensures Ids(tok, Seg(s, false)) == TextIds(tok, s)
  {
    if s != "" { IdsOne(tok, Segment(s, false)); }
  }

  function CloseIds(tok: Tok, tag: string): seq<int> {
    [tok.marker(CLOSE)] + TextIds(tok, tag) + [tok.marker(SEP)]
  }

  function OpenIds(tok: Tok, tag: string): seq<int> {
    [tok.marker(OPEN)] + TextIds(tok, tag) + [tok.marker(SEP)]
  }

  lemma IdsClose(tok: Tok, tag: string)
    ensures Ids(tok, CloseTag(tag)) == CloseIds(tok, tag)
  {
    hide Seg, TextIds;
    IdsAppend(tok, [Segment(CLOSE, true)] + Seg(tag, false), [Segment(SEP, true)]);
    IdsAppend(tok, [Segment(CLOSE, true)], Seg(tag, false));
    IdsOne(tok, Segment(CLOSE, true));
    IdsOne(tok, Segment(SEP, true));
    IdsSeg(tok, tag);
  }

  lemma IdsOpen(tok: Tok, tag: string)
    ensures Ids(tok, OpenTag(tag, "")) == OpenIds(tok, tag)
  {
    assert OpenTag(tag, "") == [Segment(OPEN, true)] + Seg(tag, false) + [Segment(SEP, true)];
    hide Seg, TextIds;
    IdsAppend(tok, [Segment(OPEN, true)] + Seg(tag, false), [Segment(SEP, true)]);
    IdsAppend(tok, [Segment(OPEN, true)], Seg(tag, false));
    IdsOne(tok, Segment(OPEN, true));
    IdsOne(tok, Segment(SEP, true));
    IdsSeg(tok, tag);
  }

  /* ------------------------------------------------------------ one assistant turn */

  /** Between reasoning and response. */
  function Boundary(tok: Tok): seq<int> {
    CloseIds(tok, "think") + OpenIds(tok, "response")
  }

  /** After the response. */
  function Closure(tok: Tok): seq<int> {
    CloseIds(tok, "response") + CloseIds(tok, "message")
  }

  ghost predicate EndId(tok: Tok, id: int) {
    id == tok.marker(EOM) || id == tok.marker(EOS)
  }

  /** The ids of a turn with reasoning r and response c. */
  ghost predicate Turn(tok: Tok, thinking: bool, ids: seq<int>, r: seq<int>, c: seq<int>, end: int) {
    && EndId(tok, end) && Free(tok, r) && Free(tok, c)
    && (if thinking then ids == r + Boundary(tok) + (c + Closure(tok) + [end])
      else r == [] && ids == c + Closure(tok) + [end])
  }

  predicate Match(ids: seq<int>, at: nat, pat: seq<int>) {
    at + |pat| <= |ids| && ids[at..at + |pat|] == pat
  }

  /** The first match of pat at or after `from`, or -1. */
  ghost predicate FirstMatch(ids: seq<int>, from: nat, pat: seq<int>, at: int) {
    if at < 0 then at == -1 && forall i: nat :: from <= i < |ids| ==> !Match(ids, i, pat)
    else from <= at < |ids| && Match(ids, at, pat) && forall i: nat :: from <= i < at ==> !Match(ids, i, pat)
  }

  method Find(ids: seq<int>, from: nat, pat: seq<int>) returns (at: int)
    ensures FirstMatch(ids, from, pat, at)
  {
    hide Match;
    var i := from;
    while i < |ids|
      invariant from <= i && forall j: nat :: from <= j < i ==> !Match(ids, j, pat)
    {
      if Match(ids, i, pat) { return i; }
      i := i + 1;
    }
    at := -1;
  }

  /** Is there a control token among ids[a..b]? */
  method HasAdded(tok: Tok, ids: seq<int>, a: nat, b: nat) returns (bad: bool)
    requires a <= b <= |ids|
    ensures bad <==> exists i :: a <= i < b && tok.known(ids[i]) && tok.added(ids[i])
  {
    for i := a to b
      invariant forall j :: a <= j < i ==> !(tok.known(ids[j]) && tok.added(ids[j]))
    {
      if tok.known(ids[i]) && tok.added(ids[i]) { return true; }
    }
    bad := false;
  }

  /** Decoding fails on an id the tokenizer does not have. */
  method DecodeIds(tok: Tok, ids: seq<int>) returns (s: Option<string>)
    ensures s == if forall i :: 0 <= i < |ids| ==> tok.known(ids[i]) then Some(tok.decode(ids)) else None
  {
    for i := 0 to |ids|
      invariant forall j :: 0 <= j < i ==> tok.known(ids[j])
    {
      if !tok.known(ids[i]) { return None; }
    }
    s := Some(tok.decode(ids));
  }

  /** The first match of a pattern that starts with a close marker, in text free of added ids
      followed by that pattern, is where the text ends. */
  lemma MatchAfterFree(tok: Tok, ids: seq<int>, from: nat, x: seq<int>, pat: seq<int>, rest: seq<int>, at: int)
    requires Markers(tok) && Free(tok, x) && pat != [] && pat[0] == tok.marker(CLOSE)
    requires from <= |ids| && ids[from..] == x + (pat + rest) && FirstMatch(ids, from, pat, at)
    ensures at == from + |x|
  {
    var p := from + |x|;
    assert Match(ids, p, pat) by {
      assert ids[p..p + |pat|] == ids[from..][|x|..|x| + |pat|] == pat;
    }
    assert p < |ids|;
    if from <= at < p { NoMatchInFree(tok, ids, from, x, pat, rest, at); }
  }

  lemma NoMatchInFree(tok: Tok, ids: seq<int>, from: nat, x: seq<int>, pat: seq<int>, rest: seq<int>, at: nat)
    requires Markers(tok) && Free(tok, x) && pat != [] && pat[0] == tok.marker(CLOSE)
    requires from <= |ids| && ids[from..] == x + (pat + rest) && from <= at < from + |x|
    ensures !Match(ids, at, pat)
  {
    assert ids[at] == ids[from..][at - from] == x[at - from];
    assert at + |pat| <= |ids| ==> ids[at..at + |pat|][0] == ids[at];
  }

  /** There is only one way to read a turn. */
  lemma TurnIsUnique(tok: Tok, thinking: bool, ids: seq<int>, r: seq<int>, c: seq<int>, end: int, r': seq<int>,
      c': seq<int>, end': int)
    requires Markers(tok) && Turn(tok, thinking, ids, r, c, end) && Turn(tok, thinking, ids, r', c', end')
    ensures r == r' && c == c' && end == end'
  {
    hide Boundary, Closure, Free, Markers, EndId;
    Starts(tok);
    if thinking {
      SameLead(tok, ids, r, Boundary(tok), c + Closure(tok) + [end], r', c' + Closure(tok) + [end']);
    }
    assert c + Closure(tok) + [end] == c' + Closure(tok) + [end'];
    SameLead(tok, c + Closure(tok) + [end], c, Closure(tok), [end], c', [end']);
    assert [end][0] == [end'][0];
  }

  lemma Starts(tok: Tok)
    ensures Boundary(tok) != [] && Boundary(tok)[0] == tok.marker(CLOSE)
    ensures Closure(tok) != [] && Closure(tok)[0] == tok.marker(CLOSE)
  {
  }

  lemma LeadShorter(ids: seq<int>, x: seq<int>, pat: seq<int>, rest: seq<int>, y: seq<int>, rest': seq<int>)
    requires |x| < |y| && pat != [] && ids == x + pat + rest == y + pat + rest'
    ensures y[|x|] == pat[0]
  {
    assert ids[|x|] == pat[0] && ids[|x|] == y[|x|];
  }

  lemma SameLead(tok: Tok, ids: seq<int>, x: seq<int>, pat: seq<int>, rest: seq<int>, y: seq<int>, rest': seq<int>)
    requires Markers(tok) && Free(tok, x) && Free(tok, y) && pat != [] && pat[0] == tok.marker(CLOSE)
    requires ids == x + pat + rest == y + pat + rest'
    ensures x == y && rest == rest'
  {
    if |x| < |y| {
      LeadShorter(ids, x, pat, rest, y, rest');
    } else if |y| < |x| {
      LeadShorter(ids, y, pat, rest', x, rest);
    } else {
      assert x == ids[..|x|] == y;
      assert rest == ids[|x| + |pat|..] == rest';
    }
  }

  /** `k3_chat_parse_assistant_opts`: accepted exactly when the ids are a turn, and then the
      message is that turn's reasoning and response. */
  method ParseAssistant(tok: Tok, thinking: bool, ids: seq<int>)
      returns (m: Option<Message>, ghost r: seq<int>, ghost c: seq<int>)
    requires Markers(tok)
    ensures m.None? ==> forall x, y, e :: !Turn(tok, thinking, ids, x, y, e)
    ensures m.Some? ==> ids != [] && Turn(tok, thinking, ids, r, c, ids[|ids| - 1])
    ensures m.Some? ==> m.value == Message(Assistant, tok.decode(c), if thinking then Some(tok.decode(r)) else None)
  {
    hide Boundary, Closure, Markers, Free, FirstMatch, Turn;
    r, c := [], [];
    var a, z := Boundary(tok), Closure(tok);
    var split, body := 0, 0;
    if thinking {
      split := Find(ids, 0, a);
      if split < 0 {
        NoBoundary(tok, ids, split);
        return None, [], [];
      }
      body := split + |a|;
      MatchFits(ids, 0, a, split);
    }
    var end := Find(ids, body, z);
    Cuts(tok, thinking, ids, split, body, end);
    if end < 0 || end + |z| != |ids| - 1 { return None, [], []; }
    var last := ids[|ids| - 1];
    if last != tok.marker(EOM) && last != tok.marker(EOS) { return None, [], []; }
    var bad := HasAdded(tok, ids, 0, split);
    FreeSlice(tok, ids, 0, split);
    FreeSlice(tok, ids, body, end);
    assert ids[0..split] == ids[..split];
    if bad { return None, [], []; }
    bad := HasAdded(tok, ids, body, end);
    if bad { return None, [], []; }
    r, c := ids[..split], ids[body..end];
    FreeWhen(tok, r);
    FreeWhen(tok, c);
    var reasoning := None;
    if thinking {
      reasoning := DecodeIds(tok, ids[..split]);
      if reasoning.None? { return None, [], []; }
    }
    var content := DecodeIds(tok, ids[body..end]);
    if content.None? { return None, [], []; }
    m := Some(Message(Assistant, content.value, reasoning));
  }

  lemma FreeSlice(tok: Tok, ids: seq<int>, a: nat, b: nat)
    requires a <= b <= |ids|
    ensures (exists i :: a <= i < b && tok.known(ids[i]) && tok.added(ids[i])) ==> !Free(tok, ids[a..b])
    ensures !(exists i :: a <= i < b && tok.known(ids[i]) && tok.added(ids[i])) ==>
              forall i :: 0 <= i < |ids[a..b]| ==> !(tok.known(ids[a..b][i]) && tok.added(ids[a..b][i]))
  {
    if i :| a <= i < b && tok.known(ids[i]) && tok.added(ids[i]) { assert ids[a..b][i - a] == ids[i]; }
  }

  lemma FreeWhen(tok: Tok, x: seq<int>)
    requires forall i :: 0 <= i < |x| ==> !(tok.known(x[i]) && tok.added(x[i]))
    ensures Free(tok, x) <==> forall i :: 0 <= i < |x| ==> tok.known(x[i])
  {
  }

  lemma MatchFits(ids: seq<int>, from: nat, pat: seq<int>, at: int)
    requires FirstMatch(ids, from, pat, at) && at >= 0
    ensures from <= at && at + |pat| <= |ids| && ids[at..at + |pat|] == pat
  {
  }

  /** Without a boundary there is no turn. */
  lemma NoBoundary(tok: Tok, ids: seq<int>, split: int)
    requires Markers(tok) && FirstMatch(ids, 0, Boundary(tok), split) && split < 0
    ensures forall x, y, e :: !Turn(tok, true, ids, x, y, e)
  {
    hide Boundary, Closure, Markers, Free, FirstMatch;
    Starts(tok);
    forall x, y, e ensures !Turn(tok, true, ids, x, y, e) {
      if Turn(tok, true, ids, x, y, e) {
        TurnSplits(tok, ids, x, y, e, split);
      }
    }
  }

  /** In a turn the boundary is found where the reasoning ends. */
  lemma TurnSplits(tok: Tok, ids: seq<int>, x: seq<int>, y: seq<int>, e: int, split: int)
    requires Markers(tok) && Turn(tok, true, ids, x, y, e) && FirstMatch(ids, 0, Boundary(tok), split)
    ensures split == |x| && split + |Boundary(tok)| <= |ids| && x == ids[..split]
    ensures ids[split + |Boundary(tok)|..] == y + Closure(tok) + [e]
  {
    hide Boundary, Closure, Markers, Free, FirstMatch;
    Starts(tok);
    var rest := y + Closure(tok) + [e];
    assert ids[0..] == ids == x + (Boundary(tok) + rest);
    MatchAfterFree(tok, ids, 0, x, Boundary(tok), rest, split);
    assert ids == (x + Boundary(tok)) + rest;
  }

  /** What the searches find in a turn. */
  lemma TurnEnds(tok: Tok, ids: seq<int>, body: nat, y: seq<int>, e: int, end: int)
    requires Markers(tok) && Free(tok, y) && body <= |ids| && ids[body..] == y + Closure(tok) + [e]
             && FirstMatch(ids, body, Closure(tok), end)
    ensures end == body + |y| && end + |Closure(tok)| == |ids| - 1 && ids[body..end] == y && ids[|ids| - 1] == e
  {
    hide Boundary, Closure, Markers, Free, FirstMatch;
    Starts(tok);
    var tail := y + Closure(tok) + [e];
    assert tail == y + (Closure(tok) + [e]);
    MatchAfterFree(tok, ids, body, y, Closure(tok), [e], end);
    assert |tail| == |ids| - body;
    assert ids[body..][..|y|] == y && ids[body..end] == ids[body..][..|y|];
    assert ids[|ids| - 1] == ids[body..][|tail| - 1];
  }

  /** The conditions checked after the two searches are those of a turn. */
  lemma Cuts(tok: Tok, thinking: bool, ids: seq<int>, split: int, body: nat, end: int)
    requires Markers(tok) && FirstMatch(ids, body, Closure(tok), end)
    requires if thinking then FirstMatch(ids, 0, Boundary(tok), split) && split >= 0
             && body == split + |Boundary(tok)| else split == body == 0
    ensures split <= body <= |ids| && (end >= 0 ==> body <= end && end + |Closure(tok)| <= |ids|)
    ensures end < 0 || end + |Closure(tok)| != |ids| - 1 || !EndId(tok, ids[|ids| - 1]) ==>
            forall x, y, e :: !Turn(tok, thinking, ids, x, y, e)
    ensures end >= 0 ==> forall x, y, e :: Turn(tok, thinking, ids, x, y, e) ==>
            x == ids[..split] && y == ids[body..end] && Free(tok, x) && Free(tok, y)
    ensures end >= 0 && end + |Closure(tok)| == |ids| - 1 && EndId(tok, ids[|ids| - 1]) && Free(tok, ids[..split])
            && Free(tok, ids[body..end]) ==>
              Turn(tok, thinking, ids, ids[..split], ids[body..end], ids[|ids| - 1])
  {
    hide Boundary, Closure, Markers, FirstMatch, EndId, Free;
    if thinking { MatchFits(ids, 0, Boundary(tok), split); }
    if end >= 0 {
      MatchFits(ids, body, Closure(tok), end);
      Assembles(tok, thinking, ids, split, body, end);
    }
    forall x, y, e | Turn(tok, thinking, ids, x, y, e)
      ensures end == body + |y| && end + |Closure(tok)| == |ids| - 1 && x == ids[..split] && y == ids[body..end]
              && ids[|ids| - 1] == e
    {
      if thinking { TurnSplits(tok, ids, x, y, e, split); }
      TurnEnds(tok, ids, body, y, e, end);
    }
  }

  lemma Assembles(tok: Tok, thinking: bool, ids: seq<int>, split: nat, body: nat, end: nat)
    requires split <= body <= end <= |ids| && end + |Closure(tok)| <= |ids|
             && ids[end..end + |Closure(tok)|] == Closure(tok)
    requires if thinking then body == split + |Boundary(tok)| && ids[split..body] == Boundary(tok)
             else split == body == 0
    ensures end + |Closure(tok)| == |ids| - 1 ==>
              if thinking then ids == ids[..split] + Boundary(tok) + (ids[body..end] + Closure(tok) + [ids[|ids| - 1]])
              else ids[..split] == [] && ids == ids[body..end] + Closure(tok) + [ids[|ids| - 1]]
  {
    hide Boundary, Closure;
    if end + |Closure(tok)| == |ids| - 1 {
      var tail := ids[body..end] + Closure(tok) + [ids[|ids| - 1]];
      assert ids[body..] == ids[body..end] + ids[end..end + |Closure(tok)|] + ids[end + |Closure(tok)|..];
      assert ids[end + |Closure(tok)|..] == [ids[|ids| - 1]];
      assert ids[body..] == tail;
      assert ids == ids[..split] + ids[split..body] + ids[body..];
    }
  }

  /* ------------------------------------------------------------ rendering and parsing */

  /** What comes back of a message: with thinking on there is always a think channel, with
      thinking off there is never one. */
  ghost function ThroughXtml(m: Message, thinking: bool): Message {
    m.(reasoning := if thinking then Some(Thought(m)) else None)
  }

  lemma CompletionIds(tok: Tok, m: Message, thinking: bool)
    ensures Ids(tok, Completion(m, thinking)) ==
              (if thinking then TextIds(tok, TextOf(m.reasoning)) + Boundary(tok)
                + (TextIds(tok, m.content) + Closure(tok) + [tok.marker(EOM)])
               else TextIds(tok, m.content) + Closure(tok) + [tok.marker(EOM)])
  {
    hide Seg, OpenTag, CloseTag, TextIds, CloseIds, OpenIds;
    var r, c := Seg(TextOf(m.reasoning), false), Seg(m.content, false);
    var ct, op, cr, cm, e := CloseTag("think"), OpenTag("response", ""), CloseTag("response"), CloseTag("message"),
        EndOfMessage();
    IdsSeg(tok, TextOf(m.reasoning));
    IdsSeg(tok, m.content);
    IdsClose(tok, "think");
    IdsOpen(tok, "response");
    IdsClose(tok, "response");
    IdsClose(tok, "message");
    IdsOne(tok, Segment(EOM, true));
    var tail := c + (cr + cm) + e;
    IdsAppend(tok, cr, cm);
    IdsAppend(tok, c, cr + cm);
    IdsAppend(tok, c + (cr + cm), e);
    if thinking {
      IdsAppend(tok, r, ct + op);
      IdsAppend(tok, ct, op);
      IdsAppend(tok, r + (ct + op), tail);
      assert Completion(m, thinking) == (r + (ct + op)) + tail by { RegroupCompletion(r, ct, op, c, cr, cm, e); }
    } else {
      assert Completion(m, thinking) == tail by { RegroupTail(c, cr, cm, e); }
    }
  }

  lemma RegroupCompletion<T>(r: seq<T>, ct: seq<T>, op: seq<T>, c: seq<T>, cr: seq<T>, cm: seq<T>, e: seq<T>)
    ensures (r + ct + op) + c + cr + cm + e == (r + (ct + op)) + (c + (cr + cm) + e)
  {
    RegroupTail(c, cr, cm, e);
    assert r + ct + op == r + (ct + op);
  }

  lemma RegroupTail<T>(c: seq<T>, cr: seq<T>, cm: seq<T>, e: seq<T>)
    ensures [] + c + cr + cm + e == c + (cr + cm) + e
  {
    assert [] + c == c;
    assert c + cr + cm == c + (cr + cm);
  }

  /** Rendering an assistant message and parsing what follows the generation opening gives the
      message back, in both modes. */
  method RenderThenParse(tok: Tok, m: Message, thinking: bool) returns (back: Option<Message>)
    requires Markers(tok) && m.role == Assistant && Faithful(tok, m.content) && Faithful(tok, Thought(m))
             && tok.decode([]) == ""
    ensures back == Some(ThroughXtml(m, thinking))
  {
    hide Markers, Boundary, Closure;
    var ids := Encode(tok, Completion(m, thinking));
    CompletionIds(tok, m, thinking);
    ghost var r0, c0 := if thinking then TextIds(tok, TextOf(m.reasoning)) else [], TextIds(tok, m.content);
    assert Turn(tok, thinking, ids, r0, c0, tok.marker(EOM));
    ghost var r, c;
    back, r, c := ParseAssistant(tok, thinking, ids);
    TurnIsUnique(tok, thinking, ids, r, c, ids[|ids| - 1], r0, c0, tok.marker(EOM));
  }
}
