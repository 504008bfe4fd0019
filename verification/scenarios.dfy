/**
 * Handlers followed by the stream they start: what a whole round of the
 * panel does to the map, from the click or key to the last parsed line.
 */
module Scenarios {
  import opened Options
  import opened Turns
  import opened Buffer
  import opened Responder
  import opened Framing
  import opened Stream

  /** A decoded line whose only content is `choices[0].delta.content`. */
  function DeltaPayload(text: string): Payload {
    Payload(None, Some([Choice(None, Some(Str(text)))]))
  }

  /** A delta-only line contributes exactly the delta's text. */
  lemma DeltaPiece(text: string)
    ensures Piece(DeltaPayload(text)) == Some(text)
  {
    var p := DeltaPayload(text);
    assert !Truthy(ContentOf(p.message));
    assert p.choices.value[0] == Choice(None, Some(Str(text)));
  }

  /**
   * A read with one delta line and a read with `[DONE]`: the reply is the
   * delta's text, written into the target, and the stream stops after the
   * second read, whatever reads would have followed.
   */
  lemma DeltaThenDone(s: Session, target: Id, json: string, text: string, body: seq<Read>,
                      decode: string -> Option<Payload>, ids: nat -> Id)
    requires Valid(s)
    requires FreshIds(ids, Start(s, target))
    requires json != "" && Trimmed(json) && '\n' !in json && json != "[DONE]"
    requires decode(json) == Some(DeltaPayload(text))
    requires |body| >= 2 && body[0] == Chunk(DataTag + " " + json) && body[1] == Chunk("[DONE]")
    ensures var r := RunReads(Start(s, target), body, decode, ids);
            && r.stop == SawDone
            && r.used == 2
            && r.gen.text == text
            && Lookup(r.gen.session.conv, target) == Some(Reply(text))
  {
    DataLineFrames(json);
    DoneLineFrames();
    DeltaPiece(text);
    TwoReads(Start(s, target), body, json, text, decode, ids);
  }

  /** A read framing to one parsed line, then a read framing to the terminator. */
  lemma TwoReads(g: Gen, body: seq<Read>, line: string, piece: string,
                 decode: string -> Option<Payload>, ids: nat -> Id)
    requires FreshIds(ids, g)
    requires |body| >= 2
    requires Frame(Decoded(body[0])) == [line] && line != "[DONE]"
    requires Frame(Decoded(body[1])) == ["[DONE]"]
    requires Parse(decode, line) == Some(piece)
    ensures RunReads(g, body, decode, ids) == Outcome(Absorb(g, piece, ids(g.parsed)), SawDone, 2)
  {
    OneLine(g, line, piece, decode, ids);
    var g' := Absorb(g, piece, ids(g.parsed));
    RunLinesDone(g', Frame(Decoded(body[1])), decode, ids);
    ReadThenStop(g, g', body, decode, ids);
  }

  /** A single parsed line is absorbed and the loop waits for the next read. */
  lemma OneLine(g: Gen, line: string, piece: string, decode: string -> Option<Payload>, ids: nat -> Id)
    requires FreshIds(ids, g)
    requires line != "[DONE]" && Parse(decode, line) == Some(piece)
    ensures RunLines(g, [line], decode, ids) == (Absorb(g, piece, ids(g.parsed)), Pending)
  {
    RunLinesStep(g, [line], decode, ids);
    assert [line][1..] == [];
  }

  /** A read whose lines leave the loop waiting, then a read whose lines stop it. */
  lemma ReadThenStop(g: Gen, g': Gen, body: seq<Read>, decode: string -> Option<Payload>, ids: nat -> Id)
    requires FreshIds(ids, g)
    requires |body| >= 2
    requires RunLines(g, Frame(Decoded(body[0])), decode, ids) == (g', Pending)
    requires RunLines(g', Frame(Decoded(body[1])), decode, ids) == (g', SawDone)
    ensures RunReads(g, body, decode, ids) == Outcome(g', SawDone, 2)
  {
    var tail := body[1..];
    assert tail[0] == body[1];
    RunReadsStep(g', tail, g', SawDone, decode, ids);
    RunReadsStep(g, body, g', Pending, decode, ids);
  }

  /**
   * Regenerating the last turn of the map when it is an assistant turn: the
   * first piece rewrites it and then `pickLastItem` appends a blank user
   * turn, so the map grows by one turn.
   */
  lemma RegenerateLastAssistantGrows(s: Session, newId: Id, piece: string, newId2: Id)
    requires Valid(s) && newId !in Keys(s.conv)
    requires |s.conv| > 1 && s.conv[|s.conv| - 1].turn.role == Assistant
    requires newId2 !in Keys(s.conv)
    ensures var id := s.conv[|s.conv| - 1].id;
            var r := Regenerate(s, id, newId);
            && r.Started? && r.target == id
            && |Absorb(Start(r.session, r.target), piece, newId2).session.conv| == |s.conv| + 1
  {
    var i := |s.conv| - 1;
    var id := s.conv[i].id;
    IndexOfDistinct(s.conv, i);
    var put := Put(s.conv, id, Reply(piece));
    assert put[|put| - 1].turn.role == Assistant;
  }

  /**
   * Regenerating the last turn of the map when it is a user turn: the reply
   * goes to a new id at the end, and `pickLastItem` appends a blank user
   * turn after it, so the map grows by two turns.
   */
  lemma RegenerateLastUserGrowsTwo(s: Session, newId: Id, piece: string, newId2: Id)
    requires Valid(s) && newId !in Keys(s.conv)
    requires |s.conv| > 0 && s.conv[|s.conv| - 1].turn.role == User
    requires newId2 !in Keys(s.conv) && newId2 != newId
    ensures var id := s.conv[|s.conv| - 1].id;
            var r := Regenerate(s, id, newId);
            && r.Started? && r.target == newId
            && |Absorb(Start(r.session, r.target), piece, newId2).session.conv| == |s.conv| + 2
  {
    var i := |s.conv| - 1;
    var id := s.conv[i].id;
    IndexOfDistinct(s.conv, i);
    assert NextId(s.conv, i, newId) == newId;
    var r := Regenerate(s, id, newId);
    assert r.session == Session(s.conv, id) && r.target == newId;
    AbsorbIntoNewId(Start(r.session, r.target), piece, newId2);
  }

  /**
   * The first piece of a reply whose target the map does not hold: `set`
   * appends the assistant turn and `pickLastItem` appends a blank user turn.
   */
  lemma AbsorbIntoNewId(g: Gen, piece: string, newId: Id)
    requires newId !in Keys(g.session.conv) && newId != g.target
    requires g.target !in Keys(g.session.conv)
    ensures |Absorb(g, piece, newId).session.conv| == |g.session.conv| + 2
  {
    var put := Put(g.session.conv, g.target, Reply(g.text + piece));
    assert put == g.session.conv + [Entry(g.target, Reply(g.text + piece))];
    assert put[|put| - 1].turn.role == Assistant;
  }
}
