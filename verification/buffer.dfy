/**
 * The conversation buffer: the turn map together with the `currentId`
 * cursor, and the handlers that change them (`setItem`, `pickLastItem`,
 * the delete and edit buttons, the input box and the image hook).
 *
 * Every `uuid()` call becomes a caller-supplied id that the map does not hold.
 */
module Buffer {
  import opened Options
  import opened Turns

  /** The map and the id of the turn being composed (it may not exist yet). */
  datatype Session = Session(conv: Conv, cursor: Id)

  predicate Valid(s: Session) {
    Distinct(s.conv)
  }

  /** Which field of the turn `setItem` writes (`"text"` or `"image_url"`). */
  datatype Slot = Text | ImageUrl

  /** `setItem`'s write: the chosen field gets `data`; the role and the other field stay. */
  function Write(t: Turn, data: string, slot: Slot): (r: Turn)
    ensures r.role == t.role
    ensures r.text == (if slot == Text then data else t.text)
    ensures r.img == (if slot == ImageUrl then Some(data) else t.img)
  {
    match slot
    case Text => t.(text := data)
    case ImageUrl => t.(img := Some(data))
  }

  /**
   * `setItem`: the turn at the cursor gets `data` in the chosen field; a
   * cursor the map does not hold first gets a blank user turn at the end.
   */
  function SetItem(s: Session, data: string, slot: Slot): (r: Session)
    ensures r.cursor == s.cursor
    ensures IndexOf(s.conv, s.cursor) < 0 ==>
              r.conv == s.conv + [Entry(s.cursor, Write(Blank, data, slot))]
    ensures var i := IndexOf(s.conv, s.cursor);
            0 <= i ==>
              && |r.conv| == |s.conv|
              && r.conv[i].id == s.cursor
              && r.conv[i].turn.role == s.conv[i].turn.role
              && (slot == Text ==> r.conv[i].turn == s.conv[i].turn.(text := data))
              && (slot == ImageUrl ==> r.conv[i].turn == s.conv[i].turn.(img := Some(data)))
              && forall j :: 0 <= j < |s.conv| && j != i ==> r.conv[j] == s.conv[j]
  {
    var prior := Lookup(s.conv, s.cursor).GetOr(Blank);
    s.(conv := Put(s.conv, s.cursor, Write(prior, data, slot)))
  }

  /**
   * `pickLastItem`: point the cursor at the last turn when that is a user
   * turn; otherwise append a blank user turn under a new id and point there.
   * (The source also tests the last id for truthiness; ids are never empty,
   * so that test only asks whether the map has a last entry.)
   */
  function PickLast(s: Session, newId: Id): (r: Session)
    requires newId !in Keys(s.conv)
    ensures |r.conv| > 0
    ensures r.conv[|r.conv| - 1].id == r.cursor
    ensures r.conv[|r.conv| - 1].turn.role == User
    ensures r.conv == s.conv || (r.conv == s.conv + [Entry(newId, Blank)] && r.cursor == newId)
    ensures r.conv == s.conv <==> |s.conv| > 0 && s.conv[|s.conv| - 1].turn.role == User
  {
    if |s.conv| > 0 && s.conv[|s.conv| - 1].turn.role == User then
      s.(cursor := s.conv[|s.conv| - 1].id)
    else
      SetItem(Session(s.conv, newId), "", Text)
  }

  /** The delete button: remove the clicked turn; the cursor is left alone. */
  function Delete(s: Session, id: Id): (r: Session)
    requires Valid(s)
    ensures Valid(r)
    ensures r.cursor == s.cursor
    ensures id !in Keys(r.conv)
    ensures IndexOf(s.conv, id) < 0 ==> r == s
    ensures 0 <= IndexOf(s.conv, id) ==>
              r.conv == s.conv[..IndexOf(s.conv, id)] + s.conv[IndexOf(s.conv, id) + 1..]
  {
    KeysRemove(s.conv, id);
    s.(conv := Remove(s.conv, id))
  }

  /** The edit button: move the cursor to the clicked turn if it still exists. */
  function Edit(s: Session, id: Id): (r: Session)
    ensures r.conv == s.conv
    ensures id in Keys(s.conv) ==> r.cursor == id
    ensures id !in Keys(s.conv) ==> r == s
  {
    if Lookup(s.conv, id).None? then s else s.(cursor := id)
  }

  /** The input box: every keystroke writes the box's text into the cursor turn. */
  function Type(s: Session, text: string): (r: Session)
    ensures r.cursor == s.cursor
    ensures Lookup(s.conv, s.cursor).Some? ==>
              Lookup(r.conv, s.cursor) == Some(Lookup(s.conv, s.cursor).value.(text := text))
    ensures Lookup(s.conv, s.cursor).None? ==> Lookup(r.conv, s.cursor) == Some(Turn(User, text, None))
    ensures forall k :: k != s.cursor ==> Lookup(r.conv, k) == Lookup(s.conv, k)
  {
    var t := Write(Lookup(s.conv, s.cursor).GetOr(Blank), text, Text);
    forall k
      ensures Lookup(Put(s.conv, s.cursor, t), k) == if k == s.cursor then Some(t) else Lookup(s.conv, k)
    {
      LookupPut(s.conv, s.cursor, t, k);
    }
    SetItem(s, text, Text)
  }

  /** `window.setImg`: a new user turn holding only the image, made the cursor. */
  function InjectImage(s: Session, url: string, newId: Id): (r: Session)
    requires newId !in Keys(s.conv)
    ensures r.cursor == newId
    ensures r.conv == s.conv + [Entry(newId, Turn(User, "", Some(url)))]
  {
    SetItem(Session(s.conv, newId), url, ImageUrl)
  }

  /** Every handler keeps the map's keys distinct. */
  lemma SetItemValid(s: Session, data: string, slot: Slot)
    requires Valid(s)
    ensures Valid(SetItem(s, data, slot))
  {
    DistinctPut(s.conv, s.cursor, Write(Lookup(s.conv, s.cursor).GetOr(Blank), data, slot));
  }

  lemma PickLastValid(s: Session, newId: Id)
    requires Valid(s)
    requires newId !in Keys(s.conv)
    ensures Valid(PickLast(s, newId))
  {
    if !(|s.conv| > 0 && s.conv[|s.conv| - 1].turn.role == User) {
      SetItemValid(Session(s.conv, newId), "", Text);
    }
  }

  /** With a user turn at the end, `pickLastItem` only moves the cursor there. */
  lemma PickLastOnUser(s: Session, newId: Id)
    requires newId !in Keys(s.conv)
    requires |s.conv| > 0 && s.conv[|s.conv| - 1].turn.role == User
    ensures PickLast(s, newId) == s.(cursor := s.conv[|s.conv| - 1].id)
  {
  }

  /** A second `pickLastItem` finds a user turn at the end and changes nothing. */
  lemma PickLastIdempotent(s: Session, newId: Id, newId2: Id)
    requires newId !in Keys(s.conv)
    requires newId2 !in Keys(PickLast(s, newId).conv)
    ensures PickLast(PickLast(s, newId), newId2) == PickLast(s, newId)
  {
  }
}
