/**
 * The synchronous part of `runAI` (choosing the message prefix, the send
 * guard and the reply's target id) and the handlers that start it: the
 * Enter key and the regenerate button.
 *
 * What the network then returns is modelled in module Stream.
 */
module Responder {
  import opened Options
  import opened Turns
  import opened Buffer
  import opened Wire

  /** What a handler leaves behind. */
  datatype Launch =
    | Idle(session: Session)       // the handler returned before calling `runAI`
    | Aborted(session: Session)    // `runAI`'s guard failed: only `pickLastItem` ran
    | Started(session: Session, messages: seq<WireMessage>, target: Id)   // a request is sent

  /** How many turns `runAI` sends: through the cursor, or all of them. */
  function PrefixLength(c: Conv, cursor: Id): (n: nat)
    ensures n <= |c|
    ensures Prefix(c, cursor) == c[..n]
  {
    var i := IndexOf(c, cursor);
    if i < 0 then |c| else i + 1
  }

  /**
   * `runAI(targetId, force)`: send the turns from the first through the
   * cursor, unless there are none or (without `force`) the last one sent is
   * not a user turn; the reply goes to `targetId`, or to a new id.
   */
  function RunAI(s: Session, target: Option<Id>, force: bool, newId: Id): (r: Launch)
    requires newId !in Keys(s.conv)
    ensures !r.Idle?
    ensures r.Aborted? <==> PrefixLength(s.conv, s.cursor) == 0
                            || (!force && s.conv[PrefixLength(s.conv, s.cursor) - 1].turn.role != User)
    ensures r.Aborted? ==> r.session == PickLast(s, newId)
    ensures r.Started? ==> r.session == s
    ensures r.Started? ==> r.messages == Messages(s.conv[..PrefixLength(s.conv, s.cursor)])
    ensures r.Started? ==> r.target == target.GetOr(newId)
  {
    var clip := Prefix(s.conv, s.cursor);
    assert clip == s.conv[..PrefixLength(s.conv, s.cursor)];
    if |clip| == 0 || (!force && clip[|clip| - 1].turn.role != User) then
      Aborted(PickLast(s, newId))
    else
      Started(s, Messages(clip), target.GetOr(newId))
  }

  /** The Enter key: `runAI()` with no target and no force. */
  function Send(s: Session, newId: Id): (r: Launch)
    requires newId !in Keys(s.conv)
    ensures !r.Idle?
    ensures r.Started? <==> PrefixLength(s.conv, s.cursor) > 0
                            && s.conv[PrefixLength(s.conv, s.cursor) - 1].turn.role == User
    ensures r.Started? ==> r.target == newId && r.session == s
    ensures r.Started? ==> r.messages == Messages(Prefix(s.conv, s.cursor))
    ensures r.Started? ==> |r.messages| > 0 && r.messages[|r.messages| - 1].role == User
    ensures r.Aborted? ==> r.session == PickLast(s, newId)
  {
    RunAI(s, None, false, newId)
  }

  /**
   * The regenerate button on turn `id`.
   *  - On an assistant turn: unless it is the first turn, put the cursor on
   *    the turn before it and regenerate into the same id with `force`.
   *  - On a user turn: keep the cursor there and regenerate into the id that
   *    follows it, whatever its role, or into a new id at the end.
   *  - On anything else (a system turn, a deleted id): nothing.
   * The source tests the role a second time after the assistant branch;
   * `RegenerateAssistantKeepsRole` shows that test cannot succeed there.
   */
  function Regenerate(s: Session, id: Id, newId: Id): (r: Launch)
    requires newId !in Keys(s.conv)
    ensures Lookup(s.conv, id).None? || Lookup(s.conv, id).value.role == System ==> r == Idle(s)
    ensures Lookup(s.conv, id).Some? && Lookup(s.conv, id).value.role == User ==>
              r == Started(Session(s.conv, id), Messages(s.conv[..IndexOf(s.conv, id) + 1]),
                           NextId(s.conv, IndexOf(s.conv, id), newId))
    ensures Lookup(s.conv, id).Some? && Lookup(s.conv, id).value.role == Assistant ==>
              if IndexOf(s.conv, id) == 0 then r == Idle(s)
              else Valid(s) ==> r == Started(Session(s.conv, s.conv[IndexOf(s.conv, id) - 1].id),
                                            Messages(s.conv[..IndexOf(s.conv, id)]), id)
  {
    match Lookup(s.conv, id)
    case None => Idle(s)
    case Some(t) =>
      var now := IndexOf(s.conv, id);   // position in `Array.from(content.keys())`
      if t.role == Assistant then
        if now - 1 < 0 then Idle(s)
        else
          var prev := s.conv[now - 1].id;
          RunAIStarts(s.conv, prev, Some(id), true, newId);
          assert Valid(s) ==> IndexOf(s.conv, prev) == now - 1 by {
            if Valid(s) {
              IndexOfDistinct(s.conv, now - 1);
            }
          }
          RunAI(Session(s.conv, prev), Some(id), true, newId)
      else if t.role == User then
        var next := NextId(s.conv, now, newId);
        RunAIStarts(s.conv, id, Some(next), false, newId);
        RunAI(Session(s.conv, id), Some(next), false, newId)
      else Idle(s)
  }

  /** The id after position `i`, or `fallback` when `i` is the last position. */
  function NextId(c: Conv, i: int, fallback: Id): (r: Id)
    requires -1 <= i < |c|
    ensures i + 1 < |c| ==> r == Keys(c)[i + 1]
    ensures i + 1 == |c| ==> r == fallback
  {
    if i + 1 < |c| then c[i + 1].id else fallback
  }

  /** In a map with distinct keys, the key at position i is found at position i. */
  lemma IndexOfDistinct(c: Conv, i: nat)
    requires Distinct(c)
    requires i < |c|
    ensures IndexOf(c, c[i].id) == i
  {
  }

  /**
   * With the cursor on a turn the map holds, `runAI` sends the turns through
   * it whenever it is forced or that turn is a user turn.
   */
  lemma RunAIStarts(c: Conv, cursor: Id, target: Option<Id>, force: bool, newId: Id)
    requires newId !in Keys(c) && cursor in Keys(c)
    requires force || c[IndexOf(c, cursor)].turn.role == User
    ensures RunAI(Session(c, cursor), target, force, newId)
              == Started(Session(c, cursor), Messages(c[..IndexOf(c, cursor) + 1]), target.GetOr(newId))
  {
    assert PrefixLength(c, cursor) == IndexOf(c, cursor) + 1;
  }

  /**
   * In the assistant branch `runAI` starts without touching the map, so the
   * source's second role test (`role === "user"`) still sees an assistant turn.
   */
  lemma RegenerateAssistantKeepsRole(s: Session, id: Id, newId: Id)
    requires Valid(s) && newId !in Keys(s.conv)
    requires Lookup(s.conv, id).Some? && Lookup(s.conv, id).value.role == Assistant
    ensures Lookup(Regenerate(s, id, newId).session.conv, id).value.role == Assistant
  {
  }
}
