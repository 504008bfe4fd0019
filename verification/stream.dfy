/**
 * What `runAI` does with the streamed reply: `readBody` frames each read
 * (module Framing), stops at a `[DONE]` line, and hands every other line to
 * `parse`, which probes the decoded JSON for a piece of text, appends it to
 * the running reply and writes the reply into the target turn.
 *
 * `JSON.parse` is a caller-supplied decoder; `None` stands for a line it
 * rejects. A throw inside the read callback ends the stream: no further
 * line is parsed and no further read is issued.
 */
module Stream {
  import opened Options
  import opened Turns
  import opened Buffer
  import opened Framing

  /** The value found under a `content` key: absent, `null`, or a string. */
  datatype Json = Missing | Null | Str(s: string)

  /** JavaScript truthiness of a content value: a non-empty string. */
  predicate Truthy(j: Json) {
    j.Str? && j.s != ""
  }

  /** What `resultText += v` appends for `v`. */
  function Appended(j: Json): string {
    match j
    case Missing => "undefined"
    case Null => "null"
    case Str(s) => s
  }

  /**
   * An object field that is absent or `null` is `None`; an object is
   * represented by the value of its `content` key.
   */
  datatype Choice = Choice(message: Option<Json>, delta: Option<Json>)

  /** One decoded line: its `message` object and its `choices` array. */
  datatype Payload = Payload(message: Option<Json>, choices: Option<seq<Choice>>)

  /** `o?.content`. */
  function ContentOf(o: Option<Json>): Json {
    match o
    case None => Missing
    case Some(j) => j
  }

  /**
   * The piece `parse` appends, probing in order `message.content`,
   * `choices[0].message.content` and `choices[0].delta.content`; `None` when
   * the probe throws (no `choices`, an empty one, or no `delta` to fall back on).
   */
  function Piece(p: Payload): (r: Option<string>)
    ensures Truthy(ContentOf(p.message)) ==> r == Some(ContentOf(p.message).s)
    ensures r.None? <==>
              && !Truthy(ContentOf(p.message))
              && (|| p.choices.None? || |p.choices.value| == 0
                  || (!Truthy(ContentOf(p.choices.value[0].message)) && p.choices.value[0].delta.None?))
  {
    if Truthy(ContentOf(p.message)) then Some(ContentOf(p.message).s)
    else if p.choices.None? || |p.choices.value| == 0 then None
    else
      var c := p.choices.value[0];
      if Truthy(ContentOf(c.message)) then Some(ContentOf(c.message).s)
      else if c.delta.None? then None
      else Some(Appended(c.delta.value))
  }

  /** The outcome of evaluating a JavaScript expression: a throw or a value. */
  datatype Eval = Throws | Value(v: Json)

  /** `a || b`: a throw propagates, a truthy `a` wins, otherwise `b`. */
  function Or(a: Eval, b: Eval): Eval {
    match a
    case Throws => Throws
    case Value(v) => if Truthy(v) then a else b
  }

  /** `data.choices[0]`, which throws when `choices` is absent, `null` or empty. */
  function FirstChoice(p: Payload): Option<Choice> {
    if p.choices.None? || |p.choices.value| == 0 then None else Some(p.choices.value[0])
  }

  /** The source's expression, operand by operand. */
  function ProbeExpression(p: Payload): Eval {
    var first := Value(ContentOf(p.message));
    var second := match FirstChoice(p)
      case None => Throws
      case Some(c) => Value(ContentOf(c.message));
    var third := match FirstChoice(p)
      case None => Throws
      case Some(c) => if c.delta.None? then Throws else Value(c.delta.value);
    Or(Or(first, second), third)
  }

  /** `Piece` is the source's `||` chain followed by `resultText += res`. */
  lemma PieceIsProbeExpression(p: Payload)
    ensures Piece(p) == match ProbeExpression(p)
                        case Throws => None
                        case Value(v) => Some(Appended(v))
  {
  }

  /**
   * `JSON.parse` followed by the probe: `parse` goes on exactly when the line
   * decodes and the source's `||` chain evaluates without throwing, and then
   * appends that value as `+=` renders it.
   */
  function Parse(decode: string -> Option<Payload>, line: string): (r: Option<string>)
    ensures r.Some? <==> decode(line).Some? && ProbeExpression(decode(line).value).Value?
    ensures r.Some? ==> r.value == Appended(ProbeExpression(decode(line).value).v)
  {
    match decode(line)
    case None => None
    case Some(p) =>
      PieceIsProbeExpression(p);
      Piece(p)
  }

  /** A generation in progress: the buffer, the reply's id, the reply so far, lines parsed. */
  datatype Gen = Gen(session: Session, target: Id, text: string, parsed: nat)

  /** The state right after `runAI` sends its request. */
  function Start(s: Session, target: Id): Gen {
    Gen(s, target, "", 0)
  }

  /** The turn `parse` writes: the reply so far, as an assistant turn without image. */
  function Reply(text: string): Turn {
    Turn(Assistant, text, None)
  }

  /**
   * The rest of `parse`: append the piece, overwrite (or create) the target
   * turn with the reply so far, then `pickLastItem`.
   */
  function Absorb(g: Gen, piece: string, newId: Id): (r: Gen)
    requires newId !in Keys(g.session.conv) && newId != g.target
    ensures r.target == g.target && r.text == g.text + piece && r.parsed == g.parsed + 1
    ensures Lookup(r.session.conv, g.target) == Some(Reply(r.text))
    ensures Keys(r.session.conv) == Keys(Put(g.session.conv, g.target, Reply(r.text)))
         || Keys(r.session.conv) == Keys(Put(g.session.conv, g.target, Reply(r.text))) + [newId]
  {
    var text := g.text + piece;
    var c := Put(g.session.conv, g.target, Reply(text));
    KeysPut(g.session.conv, g.target, Reply(text));
    var s := PickLast(Session(c, g.session.cursor), newId);
    LookupPut(c, newId, Blank, g.target);
    LookupPut(g.session.conv, g.target, Reply(text), g.target);
    KeysAppend(c, Entry(newId, Blank));
    Gen(s, g.target, text, g.parsed + 1)
  }

  /** `ids(k)` is the id `uuid()` returns if the k-th `pickLastItem` needs one. */
  ghost predicate FreshIds(ids: nat -> Id, g: Gen) {
    && (forall k :: g.parsed <= k ==> ids(k) !in Keys(g.session.conv) && ids(k) != g.target)
    && (forall i, j :: g.parsed <= i < j ==> ids(i) != ids(j))
  }

  lemma AbsorbFresh(g: Gen, piece: string, ids: nat -> Id)
    requires FreshIds(ids, g)
    ensures FreshIds(ids, Absorb(g, piece, ids(g.parsed)))
  {
    var r := Absorb(g, piece, ids(g.parsed));
    AbsorbKeys(g, piece, ids(g.parsed));
    forall k | r.parsed <= k
      ensures ids(k) !in Keys(r.session.conv)
    {
      assert ids(k) != ids(g.parsed);
    }
  }

  /** `parse` adds no key but the target and the id it passes to `pickLastItem`. */
  lemma AbsorbKeys(g: Gen, piece: string, newId: Id)
    requires newId !in Keys(g.session.conv) && newId != g.target
    ensures forall x :: x in Keys(Absorb(g, piece, newId).session.conv) ==>
              x in Keys(g.session.conv) || x == g.target || x == newId
  {
    var r := Absorb(g, piece, newId);
    var put := Keys(Put(g.session.conv, g.target, Reply(r.text)));
    KeysPut(g.session.conv, g.target, Reply(r.text));
    assert forall x :: x in put ==> x in Keys(g.session.conv) || x == g.target;
  }

  /** Why `readBody` stopped. */
  datatype Stop =
    | SawDone    // a `[DONE]` line
    | Threw      // `parse` threw
    | Pending    // every line was handled; another read is issued
    | Closed     // the body ended (only the corrected loop stops here)

  /** The loop over one read's lines. */
  function RunLines(g: Gen, lines: seq<string>, decode: string -> Option<Payload>, ids: nat -> Id): (r: (Gen, Stop))
    requires FreshIds(ids, g)
    ensures FreshIds(ids, r.0)
    ensures r.0.target == g.target
    ensures r.1 != Closed
    decreases |lines|
  {
    if |lines| == 0 then (g, Pending)
    else if lines[0] == "[DONE]" then (g, SawDone)
    else
      match Parse(decode, lines[0])
      case None => (g, Threw)
      case Some(piece) =>
        AbsorbFresh(g, piece, ids);
        RunLines(Absorb(g, piece, ids(g.parsed)), lines[1..], decode, ids)
  }

  /** One read of the body: a decoded chunk, or the end of the body. */
  datatype Read = Chunk(text: string) | EndOfBody

  /**
   * `textDecoder.decode(result.value)`: a chunk is its text; the end of the
   * body has no value, which decodes to "" and so yields no line.
   */
  function Decoded(read: Read): (text: string)
    ensures read.Chunk? ==> text == read.text
    ensures read.EndOfBody? ==> Frame(text) == []
  {
    match read
    case Chunk(t) => t
    case EndOfBody =>
      FrameEmpty();
      ""
  }

  /** Where a stream left off: the generation, why it stopped, how many reads it used. */
  datatype Outcome = Outcome(gen: Gen, stop: Stop, used: nat)

  /**
   * `readBody` as written: frame the read, run its lines, and unless they
   * stopped the stream read again. `result.done` is never consulted.
   */
  function RunReads(g: Gen, body: seq<Read>, decode: string -> Option<Payload>, ids: nat -> Id): (r: Outcome)
    requires FreshIds(ids, g)
    ensures FreshIds(ids, r.gen) && r.gen.target == g.target
    ensures r.used <= |body|
    ensures r.stop != Closed
    ensures r.stop == Pending ==> r.used == |body|
    ensures r.stop != Pending ==> 0 < r.used
    decreases |body|
  {
    if |body| == 0 then Outcome(g, Pending, 0)
    else
      var step := RunLines(g, Frame(Decoded(body[0])), decode, ids);
      if step.1 != Pending then Outcome(step.0, step.1, 1)
      else
        var rest := RunReads(step.0, body[1..], decode, ids);
        Outcome(rest.gen, rest.stop, rest.used + 1)
  }

  /** A read whose first line is `[DONE]` stops the loop where it stands. */
  lemma RunLinesDone(g: Gen, lines: seq<string>, decode: string -> Option<Payload>, ids: nat -> Id)
    requires FreshIds(ids, g)
    requires |lines| > 0 && lines[0] == "[DONE]"
    ensures RunLines(g, lines, decode, ids) == (g, SawDone)
  {
  }

  /** One round of `readBody`: frame the first read, run its lines, and read on only if they did not stop. */
  lemma RunReadsStep(g: Gen, body: seq<Read>, g': Gen, stop: Stop, decode: string -> Option<Payload>, ids: nat -> Id)
    requires FreshIds(ids, g)
    requires |body| > 0
    requires RunLines(g, Frame(Decoded(body[0])), decode, ids) == (g', stop)
    ensures stop != Pending ==> RunReads(g, body, decode, ids) == Outcome(g', stop, 1)
    ensures stop == Pending ==>
              RunReads(g, body, decode, ids)
                == Outcome(RunReads(g', body[1..], decode, ids).gen, RunReads(g', body[1..], decode, ids).stop,
                           RunReads(g', body[1..], decode, ids).used + 1)
  {
  }

  /** Running two batches of lines is running the first, then, if it did not stop, the second. */
  lemma {:induction false} RunLinesAppend(g: Gen, a: seq<string>, b: seq<string>,
                                          decode: string -> Option<Payload>, ids: nat -> Id)
    requires FreshIds(ids, g)
    ensures RunLines(g, a, decode, ids).1 == Pending ==>
              RunLines(g, a + b, decode, ids) == RunLines(RunLines(g, a, decode, ids).0, b, decode, ids)
    ensures RunLines(g, a, decode, ids).1 != Pending ==>
              RunLines(g, a + b, decode, ids) == RunLines(g, a, decode, ids)
    decreases |a|
  {
    if |a| == 0 {
      assert a + b == b;
    } else {
      assert (a + b)[0] == a[0] && (a + b)[1..] == a[1..] + b;
      if a[0] != "[DONE]" && Parse(decode, a[0]).Some? {
        var piece := Parse(decode, a[0]).value;
        AbsorbFresh(g, piece, ids);
        RunLinesAppend(Absorb(g, piece, ids(g.parsed)), a[1..], b, decode, ids);
      }
    }
  }

  /** Every line the reads yield, read after read. */
  function AllLines(body: seq<Read>): seq<string> {
    if |body| == 0 then [] else Frame(Decoded(body[0])) + AllLines(body[1..])
  }

  /**
   * Read boundaries matter only through framing: the loop over reads ends
   * exactly where one loop over all their lines would.
   */
  lemma {:induction false} RunReadsFlat(g: Gen, body: seq<Read>, decode: string -> Option<Payload>, ids: nat -> Id)
    requires FreshIds(ids, g)
    ensures RunReads(g, body, decode, ids).gen == RunLines(g, AllLines(body), decode, ids).0
    ensures RunReads(g, body, decode, ids).stop == RunLines(g, AllLines(body), decode, ids).1
    decreases |body|
  {
    if |body| > 0 {
      var lines := Frame(Decoded(body[0]));
      RunLinesAppend(g, lines, AllLines(body[1..]), decode, ids);
      var step := RunLines(g, lines, decode, ids);
      if step.1 == Pending {
        RunReadsFlat(step.0, body[1..], decode, ids);
      }
    }
  }

  /** The pieces `parse` extracts from `lines`, up to `[DONE]` or the first line that throws. */
  function Pieces(lines: seq<string>, decode: string -> Option<Payload>): seq<string> {
    if |lines| == 0 || lines[0] == "[DONE]" then []
    else match Parse(decode, lines[0])
      case None => []
      case Some(piece) => [piece] + Pieces(lines[1..], decode)
  }

  function Concat(ps: seq<string>): string {
    if |ps| == 0 then "" else ps[0] + Concat(ps[1..])
  }

  /** The reply is the concatenation of the pieces parsed, one line per piece. */
  lemma {:induction false} RunLinesText(g: Gen, lines: seq<string>, decode: string -> Option<Payload>, ids: nat -> Id)
    requires FreshIds(ids, g)
    ensures RunLines(g, lines, decode, ids).0.text == g.text + Concat(Pieces(lines, decode))
    ensures RunLines(g, lines, decode, ids).0.parsed == g.parsed + |Pieces(lines, decode)|
    ensures |Pieces(lines, decode)| == 0 ==> RunLines(g, lines, decode, ids).0 == g
    decreases |lines|
  {
    if |lines| > 0 && lines[0] != "[DONE]" && Parse(decode, lines[0]).Some? {
      var piece := Parse(decode, lines[0]).value;
      RunLinesStep(g, lines, decode, ids);
      var g' := Absorb(g, piece, ids(g.parsed));
      RunLinesText(g', lines[1..], decode, ids);
      PiecesStep(lines, decode);
      AppendAssoc(g.text, piece, Concat(Pieces(lines[1..], decode)));
    }
  }

  /** Concatenation regroups: the reply grows by the piece, then by the rest. */
  lemma AppendAssoc(a: string, b: string, c: string)
    ensures (a + b) + c == a + (b + c)
  {
  }

  /** One parsed line: absorb its piece, continue with the rest. */
  lemma RunLinesStep(g: Gen, lines: seq<string>, decode: string -> Option<Payload>, ids: nat -> Id)
    requires FreshIds(ids, g)
    requires |lines| > 0 && lines[0] != "[DONE]" && Parse(decode, lines[0]).Some?
    ensures FreshIds(ids, Absorb(g, Parse(decode, lines[0]).value, ids(g.parsed)))
    ensures RunLines(g, lines, decode, ids)
         == RunLines(Absorb(g, Parse(decode, lines[0]).value, ids(g.parsed)), lines[1..], decode, ids)
  {
    AbsorbFresh(g, Parse(decode, lines[0]).value, ids);
  }

  lemma PiecesStep(lines: seq<string>, decode: string -> Option<Payload>)
    requires |lines| > 0 && lines[0] != "[DONE]" && Parse(decode, lines[0]).Some?
    ensures Pieces(lines, decode) == [Parse(decode, lines[0]).value] + Pieces(lines[1..], decode)
    ensures Concat(Pieces(lines, decode)) == Parse(decode, lines[0]).value + Concat(Pieces(lines[1..], decode))
  {
    var ps := [Parse(decode, lines[0]).value] + Pieces(lines[1..], decode);
    assert ps[1..] == Pieces(lines[1..], decode);
  }

  /**
   * The map after at least one piece of a generation that started on `c0`:
   * the target holds the reply (in place, or appended), possibly followed
   * by the one blank user turn `first` that `pickLastItem` added, and the
   * cursor is on the last turn, a user turn.
   */
  ghost predicate Shaped(g: Gen, c0: Conv, first: Id) {
    && (|| g.session.conv == Put(c0, g.target, Reply(g.text))
        || g.session.conv == Put(c0, g.target, Reply(g.text)) + [Entry(first, Blank)])
    && |g.session.conv| > 0
    && g.session.conv[|g.session.conv| - 1].id == g.session.cursor
    && g.session.conv[|g.session.conv| - 1].turn.role == User
  }

  /** Rewriting the target of a shaped map keeps its shape and its user turn at the end. */
  lemma PutShaped(conv: Conv, c0: Conv, target: Id, text: string, text': string, first: Id)
    requires conv == Put(c0, target, Reply(text)) || conv == Put(c0, target, Reply(text)) + [Entry(first, Blank)]
    requires |conv| > 0 && conv[|conv| - 1].turn.role == User
    ensures var put := Put(conv, target, Reply(text'));
            && (conv == Put(c0, target, Reply(text)) ==> put == Put(c0, target, Reply(text')))
            && (conv != Put(c0, target, Reply(text)) ==> put == Put(c0, target, Reply(text')) + [Entry(first, Blank)])
            && Keys(put) == Keys(conv)
            && |put| > 0 && put[|put| - 1].turn.role == User
  {
    var c := Put(c0, target, Reply(text));
    if conv == c {
      PutShapedInPlace(c0, c, target, text, text');
    } else {
      var e := Entry(first, Blank);
      assert conv == c + [e];
      PutShapedAppended(c0, c, target, text, text', e);
    }
  }

  /** `PutShaped` when `pickLastItem` added nothing. */
  lemma PutShapedInPlace(c0: Conv, c: Conv, target: Id, text: string, text': string)
    requires c == Put(c0, target, Reply(text))
    requires |c| > 0 && c[|c| - 1].turn.role == User
    ensures Put(c, target, Reply(text')) == Put(c0, target, Reply(text'))
    ensures Keys(Put(c, target, Reply(text'))) == Keys(c)
    ensures |Put(c, target, Reply(text'))| > 0
    ensures Put(c, target, Reply(text'))[|c| - 1].turn.role == User
  {
    KeysPut(c, target, Reply(text'));
    KeysPut(c0, target, Reply(text));
    PutPut(c0, target, Reply(text), Reply(text'));
    RewriteKeepsLast(c0, c, target, Reply(text), Reply(text'));
  }

  /** `PutShaped` when `pickLastItem` appended the blank user turn `e`. */
  lemma PutShapedAppended(c0: Conv, c: Conv, target: Id, text: string, text': string, e: Entry)
    requires c == Put(c0, target, Reply(text))
    requires e.turn.role == User
    ensures Put(c + [e], target, Reply(text')) == Put(c0, target, Reply(text')) + [e]
    ensures Keys(Put(c + [e], target, Reply(text'))) == Keys(c + [e])
  {
    KeysPut(c0, target, Reply(text));
    KeysAppend(c, e);
    KeysPut(c + [e], target, Reply(text'));
    PutPut(c0, target, Reply(text), Reply(text'));
    PutBeforeAppended(c, e, target, Reply(text'));
  }

  /** Rewriting a key whose turn is not a user turn keeps a user turn at the end. */
  lemma RewriteKeepsLast(c0: Conv, c: Conv, target: Id, t: Turn, t': Turn)
    requires c == Put(c0, target, t)
    requires t.role != User
    requires |c| > 0 && c[|c| - 1].turn.role == User
    ensures |Put(c0, target, t')| == |c|
    ensures Put(c0, target, t')[|c| - 1] == c[|c| - 1]
  {
    IndexOfPut(c0, target, t);
    PutPut(c0, target, t, t');
    var i := IndexOf(c, target);
    assert c[i].turn == t;
  }

  /** Later pieces only rewrite the target in place; `pickLastItem` adds nothing more. */
  lemma AbsorbShaped(g: Gen, piece: string, newId: Id, c0: Conv, first: Id)
    requires newId !in Keys(g.session.conv) && newId != g.target
    requires Shaped(g, c0, first)
    ensures Shaped(Absorb(g, piece, newId), c0, first)
  {
    var text := g.text + piece;
    var put := Put(g.session.conv, g.target, Reply(text));
    PutShaped(g.session.conv, c0, g.target, g.text, text, first);
    AbsorbOnUser(g, piece, newId, put);
  }

  /** When the rewritten map ends with a user turn, `pickLastItem` only moves the cursor there. */
  lemma AbsorbOnUser(g: Gen, piece: string, newId: Id, put: Conv)
    requires newId !in Keys(g.session.conv) && newId != g.target
    requires put == Put(g.session.conv, g.target, Reply(g.text + piece))
    requires |put| > 0 && put[|put| - 1].turn.role == User
    ensures Absorb(g, piece, newId).session == Session(put, put[|put| - 1].id)
  {
    KeysPut(g.session.conv, g.target, Reply(g.text + piece));
    PickLastOnUser(Session(put, g.session.cursor), newId);
  }

  /** The first piece: the target is written, and `pickLastItem` adds at most one turn. */
  lemma AbsorbFirstShaped(g: Gen, piece: string, newId: Id)
    requires newId !in Keys(g.session.conv) && newId != g.target
    ensures Shaped(Absorb(g, piece, newId), g.session.conv, newId)
  {
  }

  /** Every generation that has parsed something has the shape `Shaped` describes. */
  lemma {:induction false} RunLinesShaped(g: Gen, lines: seq<string>, decode: string -> Option<Payload>,
                                          ids: nat -> Id, c0: Conv, first: Id)
    requires FreshIds(ids, g)
    requires Shaped(g, c0, first)
    ensures Shaped(RunLines(g, lines, decode, ids).0, c0, first)
    decreases |lines|
  {
    if |lines| > 0 && lines[0] != "[DONE]" && Parse(decode, lines[0]).Some? {
      var piece := Parse(decode, lines[0]).value;
      AbsorbFresh(g, piece, ids);
      AbsorbShaped(g, piece, ids(g.parsed), c0, first);
      RunLinesShaped(Absorb(g, piece, ids(g.parsed)), lines[1..], decode, ids, c0, first);
    }
  }

  /** A generation started on `s`, after any number of lines. */
  lemma RunFromStartShaped(s: Session, target: Id, lines: seq<string>, decode: string -> Option<Payload>, ids: nat -> Id)
    requires FreshIds(ids, Start(s, target))
    ensures var g := RunLines(Start(s, target), lines, decode, ids).0;
            g == Start(s, target) || Shaped(g, s.conv, ids(0))
  {
    var g0 := Start(s, target);
    if |lines| > 0 && lines[0] != "[DONE]" && Parse(decode, lines[0]).Some? {
      var piece := Parse(decode, lines[0]).value;
      AbsorbFresh(g0, piece, ids);
      AbsorbFirstShaped(g0, piece, ids(0));
      RunLinesShaped(Absorb(g0, piece, ids(0)), lines[1..], decode, ids, s.conv, ids(0));
    }
  }

  /**
   * What a generation leaves in the buffer after its lines: the target
   * holds the concatenated pieces as an assistant turn without image, in
   * its old place or appended; every other turn is where and what it was;
   * at most the one blank user turn `ids(0)` is added after them, and the
   * cursor is on the last turn, a user turn.
   */
  lemma Accumulation(s: Session, target: Id, lines: seq<string>, decode: string -> Option<Payload>, ids: nat -> Id)
    requires Valid(s)
    requires FreshIds(ids, Start(s, target))
    ensures var g := RunLines(Start(s, target), lines, decode, ids).0;
            var ps := Pieces(lines, decode);
            && g.text == Concat(ps)
            && g.parsed == |ps|
            && (|ps| == 0 ==> g.session == s)
            && (|ps| > 0 ==> ReplyWritten(s, target, g.session, Concat(ps), ids(0)))
  {
    var g0 := Start(s, target);
    var g := RunLines(g0, lines, decode, ids).0;
    RunLinesText(g0, lines, decode, ids);
    RunFromStartShaped(s, target, lines, decode, ids);
    if |Pieces(lines, decode)| > 0 {
      assert g != g0;
      ShapedReply(s, g, ids(0));
    }
  }

  /** The buffer `r` once the reply `text` has been written into `target`, starting from `s`. */
  ghost predicate ReplyWritten(s: Session, target: Id, r: Session, text: string, first: Id) {
    && ReplyPlaced(s, target, r.conv, text, first)
    && r.conv[|r.conv| - 1].id == r.cursor
    && r.conv[|r.conv| - 1].turn.role == User
  }

  /** Where the reply and the other turns sit in `conv`. */
  ghost predicate ReplyPlaced(s: Session, target: Id, conv: Conv, text: string, first: Id) {
    && Distinct(conv)
    && ReplyAt(s, target, conv, text)
    && OthersKept(s, target, conv)
    && TailFrom(s, target, conv, first)
  }

  /** The reply sits in the target's old place, or right after the old turns. */
  ghost predicate ReplyAt(s: Session, target: Id, conv: Conv, text: string) {
    && Lookup(conv, target) == Some(Reply(text))
    && IndexOf(conv, target) == (if target in Keys(s.conv) then IndexOf(s.conv, target) else |s.conv|)
  }

  /** Every old turn other than the target is where and what it was. */
  ghost predicate OthersKept(s: Session, target: Id, conv: Conv) {
    && |s.conv| <= |conv|
    && (forall j :: 0 <= j < |s.conv| && s.conv[j].id != target ==> conv[j] == s.conv[j])
  }

  /** At most two turns follow the old ones: the target and the blank turn `first`. */
  ghost predicate TailFrom(s: Session, target: Id, conv: Conv, first: Id) {
    && |conv| <= |s.conv| + 2
    && (forall j :: |s.conv| <= j < |conv| ==> conv[j].id == target || conv[j] == Entry(first, Blank))
  }

  lemma ShapedReply(s: Session, g: Gen, first: Id)
    requires Valid(s)
    requires first !in Keys(s.conv) && first != g.target
    requires Shaped(g, s.conv, first)
    ensures ReplyWritten(s, g.target, g.session, g.text, first)
  {
    var c := Put(s.conv, g.target, Reply(g.text));
    PutPlaced(s, g.target, g.text, first);
    if g.session.conv != c {
      KeysPut(s.conv, g.target, Reply(g.text));
      PutFrame(s.conv, g.target, Reply(g.text));
      AppendBlankPlaced(s, g.target, c, g.text, first);
    }
  }

  /** The reply written in place (or appended), before `pickLastItem`. */
  lemma PutPlaced(s: Session, target: Id, text: string, first: Id)
    requires Valid(s)
    ensures ReplyPlaced(s, target, Put(s.conv, target, Reply(text)), text, first)
  {
    IndexOfPut(s.conv, target, Reply(text));
    LookupPut(s.conv, target, Reply(text), target);
    DistinctPut(s.conv, target, Reply(text));
    PutFrame(s.conv, target, Reply(text));
  }

  /** The blank user turn `pickLastItem` may append leaves the reply where it is. */
  lemma AppendBlankPlaced(s: Session, target: Id, c: Conv, text: string, first: Id)
    requires first !in Keys(c) && first != target
    requires |c| <= |s.conv| + 1
    requires ReplyPlaced(s, target, c, text, first)
    ensures ReplyPlaced(s, target, c + [Entry(first, Blank)], text, first)
  {
    var e := Entry(first, Blank);
    AppendNew(c, e, target);
    assert ReplyAt(s, target, c + [e], text);
    AppendKeepsOthers(s, target, c, e);
    AppendTail(s, target, c, first);
  }

  lemma AppendKeepsOthers(s: Session, target: Id, c: Conv, e: Entry)
    requires OthersKept(s, target, c)
    ensures OthersKept(s, target, c + [e])
  {
    assert forall j :: 0 <= j < |c| ==> (c + [e])[j] == c[j];
  }

  lemma AppendTail(s: Session, target: Id, c: Conv, first: Id)
    requires |c| <= |s.conv| + 1
    requires TailFrom(s, target, c, first)
    ensures TailFrom(s, target, c + [Entry(first, Blank)], first)
  {
    assert forall j :: 0 <= j < |c| ==> (c + [Entry(first, Blank)])[j] == c[j];
  }

  /** Reads past the end of the body: each one reports the end again. */
  function Ends(n: nat): seq<Read> {
    if n == 0 then [] else [EndOfBody] + Ends(n - 1)
  }

  /** `n` ends of the body: the first is an end, and `n - 1` ends follow it. */
  lemma EndsTail(n: nat)
    requires n > 0
    ensures Ends(n)[0].EndOfBody? && Ends(n)[1..] == Ends(n - 1)
  {
  }

  /** Once `readBody` has stopped, later reads are never looked at. */
  lemma {:induction false} RunReadsIgnoresLater(g: Gen, body: seq<Read>, more: seq<Read>,
                                                decode: string -> Option<Payload>, ids: nat -> Id)
    requires FreshIds(ids, g)
    requires RunReads(g, body, decode, ids).stop != Pending
    ensures RunReads(g, body + more, decode, ids) == RunReads(g, body, decode, ids)
    decreases |body|
  {
    ConcatHead(body, more);
    var step := RunLines(g, Frame(Decoded(body[0])), decode, ids);
    RunReadsStep(g, body, step.0, step.1, decode, ids);
    RunReadsStep(g, body + more, step.0, step.1, decode, ids);
    if step.1 == Pending {
      RunReadsIgnoresLater(step.0, body[1..], more, decode, ids);
    }
  }

  /** The first read of a longer list of reads, and the reads after it. */
  lemma ConcatHead(body: seq<Read>, more: seq<Read>)
    requires |body| > 0
    ensures (body + more)[0] == body[0] && (body + more)[1..] == body[1..] + more
  {
  }

  /** A read that reaches the end of the body yields no line and leaves the generation alone. */
  lemma EndOfBodyStep(g: Gen, r: Read, decode: string -> Option<Payload>, ids: nat -> Id)
    requires FreshIds(ids, g)
    requires r.EndOfBody?
    ensures RunLines(g, Frame(Decoded(r)), decode, ids) == (g, Pending)
  {
    assert Decoded(r) == "";
    FrameEmpty();
  }

  /**
   * The loop as written does not stop at the end of the body: after a body
   * that ended without `[DONE]`, any number `n` of further reads are issued
   * and the loop is still waiting for the next one.
   */
  lemma {:induction false} ReadsPastEnd(g: Gen, body: seq<Read>, n: nat,
                                        decode: string -> Option<Payload>, ids: nat -> Id)
    requires FreshIds(ids, g)
    requires RunReads(g, body, decode, ids).stop == Pending
    ensures RunReads(g, body + Ends(n), decode, ids)
         == Outcome(RunReads(g, body, decode, ids).gen, Pending, |body| + n)
    decreases |body|
  {
    if |body| > 0 {
      ConcatHead(body, Ends(n));
      var step := RunLines(g, Frame(Decoded(body[0])), decode, ids);
      RunReadsStep(g, body, step.0, step.1, decode, ids);
      RunReadsStep(g, body + Ends(n), step.0, step.1, decode, ids);
      ReadsPastEnd(step.0, body[1..], n, decode, ids);
    } else {
      assert body + Ends(n) == Ends(n);
      EndsOnly(g, n, decode, ids);
    }
  }

  /** Reads that only ever see the end of the body change nothing and never stop. */
  lemma {:induction false} EndsOnly(g: Gen, n: nat, decode: string -> Option<Payload>, ids: nat -> Id)
    requires FreshIds(ids, g)
    ensures RunReads(g, Ends(n), decode, ids) == Outcome(g, Pending, n)
  {
    if n > 0 {
      EndsTail(n);
      EndOfBodyStep(g, Ends(n)[0], decode, ids);
      RunReadsStep(g, Ends(n), g, Pending, decode, ids);
      EndsOnly(g, n - 1, decode, ids);
    } else {
      assert RunReads(g, Ends(n), decode, ids) == Outcome(g, Pending, 0);
    }
  }

  /** `readBody` with `if (result.done) return;` added first. */
  function RunReadsClosing(g: Gen, body: seq<Read>, decode: string -> Option<Payload>, ids: nat -> Id): (r: Outcome)
    requires FreshIds(ids, g)
    ensures FreshIds(ids, r.gen) && r.gen.target == g.target
    ensures r.used <= |body|
    ensures r.stop == Pending ==> r.used == |body|
    ensures r.stop != Pending ==> 0 < r.used
    decreases |body|
  {
    if |body| == 0 then Outcome(g, Pending, 0)
    else if body[0].EndOfBody? then Outcome(g, Closed, 1)
    else
      var step := RunLines(g, Frame(Decoded(body[0])), decode, ids);
      if step.1 != Pending then Outcome(step.0, step.1, 1)
      else
        var rest := RunReadsClosing(step.0, body[1..], decode, ids);
        Outcome(rest.gen, rest.stop, rest.used + 1)
  }

  /** The corrected loop reports `Closed` exactly when its last read was the end of the body. */
  lemma {:induction false} ClosingWhy(g: Gen, body: seq<Read>, decode: string -> Option<Payload>, ids: nat -> Id)
    requires FreshIds(ids, g)
    ensures RunReadsClosing(g, body, decode, ids).stop == Closed
        <==> 0 < RunReadsClosing(g, body, decode, ids).used
             && body[RunReadsClosing(g, body, decode, ids).used - 1].EndOfBody?
    decreases |body|
  {
    if |body| > 0 && body[0].Chunk? {
      var step := RunLines(g, Frame(Decoded(body[0])), decode, ids);
      if step.1 == Pending {
        ClosingStep(g, body, step.0, decode, ids);
        ClosingWhy(step.0, body[1..], decode, ids);
        var rest := RunReadsClosing(step.0, body[1..], decode, ids);
        ClosedShift(body, rest.used, rest.stop == Closed);
      }
    }
  }

  /** Where the rest of the reads ended, seen from the whole list of reads. */
  lemma ClosedShift(body: seq<Read>, used: nat, closed: bool)
    requires 0 < |body| && body[0].Chunk? && used < |body|
    requires closed <==> 0 < used && body[1..][used - 1].EndOfBody?
    ensures closed <==> body[used].EndOfBody?
  {
    if 0 < used {
      assert body[1..][used - 1] == body[used];
    }
  }

  /** One round of the corrected loop on a chunk read that does not stop it. */
  lemma ClosingStep(g: Gen, body: seq<Read>, g': Gen, decode: string -> Option<Payload>, ids: nat -> Id)
    requires FreshIds(ids, g)
    requires |body| > 0 && body[0].Chunk?
    requires RunLines(g, Frame(Decoded(body[0])), decode, ids) == (g', Pending)
    ensures RunReadsClosing(g, body, decode, ids)
         == Outcome(RunReadsClosing(g', body[1..], decode, ids).gen, RunReadsClosing(g', body[1..], decode, ids).stop,
                    RunReadsClosing(g', body[1..], decode, ids).used + 1)
  {
  }

  /** The corrected loop never reads past the end of the body. */
  lemma {:induction false} ClosingStopsAtEnd(g: Gen, body: seq<Read>, more: seq<Read>,
                                             decode: string -> Option<Payload>, ids: nat -> Id)
    requires FreshIds(ids, g)
    requires !AllChunks(body)
    ensures RunReadsClosing(g, body, decode, ids).stop != Pending
    ensures RunReadsClosing(g, body + more, decode, ids) == RunReadsClosing(g, body, decode, ids)
    decreases |body|
  {
    ConcatHead(body, more);
    if body[0].Chunk? {
      assert !AllChunks(body[1..]) by {
        var k :| 0 <= k < |body| && !body[k].Chunk?;
        assert body[1..][k - 1] == body[k];
      }
      var step := RunLines(g, Frame(Decoded(body[0])), decode, ids);
      if step.1 == Pending {
        ClosingStopsAtEnd(step.0, body[1..], more, decode, ids);
      }
    }
  }

  /** Every read carried a chunk: the body has not ended yet. */
  predicate AllChunks(body: seq<Read>) {
    forall k :: 0 <= k < |body| ==> body[k].Chunk?
  }

  /** On reads that all carry a chunk, the corrected loop is the loop as written. */
  lemma {:induction false} ClosingAgrees(g: Gen, body: seq<Read>, decode: string -> Option<Payload>, ids: nat -> Id)
    requires FreshIds(ids, g)
    requires AllChunks(body)
    ensures RunReadsClosing(g, body, decode, ids) == RunReads(g, body, decode, ids)
    decreases |body|
  {
    if |body| > 0 {
      assert body[0].Chunk?;
      var step := RunLines(g, Frame(Decoded(body[0])), decode, ids);
      if step.1 == Pending {
        assert AllChunks(body[1..]) by {
          forall k | 0 <= k < |body| - 1 ensures body[1..][k].Chunk? { assert body[1..][k] == body[k + 1]; }
        }
        ClosingAgrees(step.0, body[1..], decode, ids);
      }
    }
  }

  /** Where the loop as written keeps reading past the end, the corrected one stops with one read. */
  lemma ClosingPastEnd(g: Gen, body: seq<Read>, n: nat, decode: string -> Option<Payload>, ids: nat -> Id)
    requires FreshIds(ids, g)
    requires AllChunks(body)
    requires RunReads(g, body, decode, ids).stop == Pending
    requires n > 0
    ensures RunReadsClosing(g, body + Ends(n), decode, ids)
         == Outcome(RunReads(g, body, decode, ids).gen, Closed, |body| + 1)
  {
    ClosingAgrees(g, body, decode, ids);
    ClosingEnd(g, body, n, decode, ids);
  }

  lemma {:induction false} ClosingEnd(g: Gen, body: seq<Read>, n: nat, decode: string -> Option<Payload>, ids: nat -> Id)
    requires FreshIds(ids, g)
    requires AllChunks(body)
    requires RunReadsClosing(g, body, decode, ids).stop == Pending
    requires n > 0
    ensures RunReadsClosing(g, body + Ends(n), decode, ids)
         == Outcome(RunReadsClosing(g, body, decode, ids).gen, Closed, |body| + 1)
    decreases |body|
  {
    if |body| > 0 {
      var step := RunLines(g, Frame(Decoded(body[0])), decode, ids);
      ClosingStep(g, body, step.0, decode, ids);
      ClosingChunkStep(g, body, Ends(n), step.0, decode, ids);
      assert AllChunks(body[1..]) by {
        forall k | 0 <= k < |body| - 1 ensures body[1..][k].Chunk? { assert body[1..][k] == body[k + 1]; }
      }
      ClosingEnd(step.0, body[1..], n, decode, ids);
    } else {
      assert body + Ends(n) == Ends(n);
      EndsTail(n);
      ClosingOnEnd(g, Ends(n), decode, ids);
      assert RunReadsClosing(g, body, decode, ids) == Outcome(g, Pending, 0);
    }
  }

  /** The corrected loop stops at once, with nothing changed, when the first read is the end. */
  lemma ClosingOnEnd(g: Gen, body: seq<Read>, decode: string -> Option<Payload>, ids: nat -> Id)
    requires FreshIds(ids, g)
    requires |body| > 0 && body[0].EndOfBody?
    ensures RunReadsClosing(g, body, decode, ids) == Outcome(g, Closed, 1)
  {
  }

  /** A chunk read that does not stop the loop hands the rest of the reads to the next round. */
  lemma ClosingChunkStep(g: Gen, body: seq<Read>, more: seq<Read>, g': Gen,
                          decode: string -> Option<Payload>, ids: nat -> Id)
    requires FreshIds(ids, g)
    requires |body| > 0 && body[0].Chunk?
    requires RunLines(g, Frame(Decoded(body[0])), decode, ids) == (g', Pending)
    ensures RunReadsClosing(g, body + more, decode, ids)
         == Outcome(RunReadsClosing(g', body[1..] + more, decode, ids).gen,
                    RunReadsClosing(g', body[1..] + more, decode, ids).stop,
                    RunReadsClosing(g', body[1..] + more, decode, ids).used + 1)
  {
    ConcatHead(body, more);
    ClosingStep(g, body + more, g', decode, ids);
  }

  /** A `[DONE]` line ends the stream: no line after it is parsed. */
  lemma DoneStops(g: Gen, lines: seq<string>, rest: seq<string>, decode: string -> Option<Payload>, ids: nat -> Id)
    requires FreshIds(ids, g)
    ensures RunLines(g, lines, decode, ids).1 == Pending ==>
              RunLines(g, lines + ["[DONE]"] + rest, decode, ids) == (RunLines(g, lines, decode, ids).0, SawDone)
    ensures RunLines(g, lines, decode, ids).1 != Pending ==>
              RunLines(g, lines + ["[DONE]"] + rest, decode, ids) == RunLines(g, lines, decode, ids)
  {
    var tail := ["[DONE]"] + rest;
    assert lines + ["[DONE]"] + rest == lines + tail;
    RunLinesAppend(g, lines, tail, decode, ids);
    RunLinesDone(RunLines(g, lines, decode, ids).0, tail, decode, ids);
  }

  /** The reads before the first end of the body. */
  function UntilEnd(body: seq<Read>): (r: seq<Read>)
    ensures AllChunks(r)
    ensures |r| <= |body| && r == body[..|r|]
    ensures |r| < |body| ==> body[|r|].EndOfBody?
  {
    if |body| == 0 || body[0].EndOfBody? then []
    else
      var rest := UntilEnd(body[1..]);
      assert [body[0]] + rest == body[..|rest| + 1];
      [body[0]] + rest
  }

  /** The corrected loop issues no read after the first end of the body. */
  lemma {:induction false} ClosingReadsUntilEnd(g: Gen, body: seq<Read>, decode: string -> Option<Payload>, ids: nat -> Id)
    requires FreshIds(ids, g)
    ensures RunReadsClosing(g, body, decode, ids).used <= |UntilEnd(body)| + 1
    decreases |body|
  {
    if |body| > 0 && body[0].Chunk? {
      var step := RunLines(g, Frame(Decoded(body[0])), decode, ids);
      assert UntilEnd(body) == [body[0]] + UntilEnd(body[1..]);
      if step.1 == Pending {
        ClosingStep(g, body, step.0, decode, ids);
        ClosingReadsUntilEnd(step.0, body[1..], decode, ids);
      }
    }
  }

  /**
   * The corrected loop runs the loop as written on the reads before the
   * end of the body, and reports `Closed` where that one would wait.
   */
  lemma {:induction false} ClosingUntilEnd(g: Gen, body: seq<Read>, decode: string -> Option<Payload>, ids: nat -> Id)
    requires FreshIds(ids, g)
    ensures var u := RunReads(g, UntilEnd(body), decode, ids);
            var r := RunReadsClosing(g, body, decode, ids);
            && r.gen == u.gen
            && r.stop == if u.stop == Pending && |UntilEnd(body)| < |body| then Closed else u.stop
    decreases |body|
  {
    if |body| > 0 && body[0].Chunk? {
      var step := RunLines(g, Frame(Decoded(body[0])), decode, ids);
      var rest := UntilEnd(body[1..]);
      assert ([body[0]] + rest)[1..] == rest;
      if step.1 == Pending {
        ClosingUntilEnd(step.0, body[1..], decode, ids);
      }
    }
  }

  /**
   * The whole stream, read by the corrected loop: the reply text is every
   * piece parsed from the lines of the reads before the end of the body,
   * concatenated, and the buffer is as `Accumulation` says.
   */
  lemma StreamAccumulation(s: Session, target: Id, body: seq<Read>, decode: string -> Option<Payload>, ids: nat -> Id)
    requires Valid(s)
    requires FreshIds(ids, Start(s, target))
    ensures var g := RunReadsClosing(Start(s, target), body, decode, ids).gen;
            var ps := Pieces(AllLines(UntilEnd(body)), decode);
            && g.text == Concat(ps)
            && (|ps| == 0 ==> g.session == s)
            && (|ps| > 0 ==> ReplyWritten(s, target, g.session, Concat(ps), ids(0)))
  {
    ClosingUntilEnd(Start(s, target), body, decode, ids);
    RunReadsFlat(Start(s, target), UntilEnd(body), decode, ids);
    Accumulation(s, target, AllLines(UntilEnd(body)), decode, ids);
  }
}
