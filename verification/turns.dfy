/**
 * Chat turns and the insertion-ordered id -> turn map that holds them
 * (the module-level `content: Map<string, aiData>` of the panel).
 *
 * A JavaScript `Map` iterates in insertion order; `set` on a present key
 * keeps its position, `set` on a new key appends it, `delete` removes it.
 * The map is modelled as a sequence of entries in iteration order.
 */
module Turns {
  import opened Options

  /** Turn ids are the first eight characters of a random UUID: never empty. */
  type Id = s: string | |s| > 0 witness "0"

  datatype Role = System | User | Assistant

  /** One chat message: a role, its text and an optional image data URL. */
  datatype Turn = Turn(role: Role, text: string, img: Option<string>)

  /** The turn `setItem` creates for an id the map does not hold yet. */
  const Blank: Turn := Turn(User, "", None)

  datatype Entry = Entry(id: Id, turn: Turn)

  /** The map's contents in iteration order. */
  type Conv = seq<Entry>

  /** `Array.from(content.keys())`. */
  function Keys(c: Conv): (r: seq<Id>)
    ensures |r| == |c|
    ensures forall i :: 0 <= i < |c| ==> r[i] == c[i].id
  {
    if |c| == 0 then [] else [c[0].id] + Keys(c[1..])
  }

  /** A JavaScript map never holds a key twice. */
  predicate Distinct(c: Conv) {
    forall i, j :: 0 <= i < j < |c| ==> c[i].id != c[j].id
  }

  /** `keys.indexOf(id)`: the first position holding `id`, or -1. */
  function IndexOf(c: Conv, id: Id): (r: int)
    ensures -1 <= r < |c|
    ensures r == -1 <==> id !in Keys(c)
    ensures 0 <= r ==> c[r].id == id
    ensures 0 <= r ==> forall j :: 0 <= j < r ==> c[j].id != id
  {
    if |c| == 0 then -1
    else if c[0].id == id then 0
    else
      var k := IndexOf(c[1..], id);
      assert Keys(c) == [c[0].id] + Keys(c[1..]);
      if k < 0 then -1 else k + 1
  }

  /** `content.get(id)`. */
  function Lookup(c: Conv, id: Id): (r: Option<Turn>)
    ensures r.None? <==> id !in Keys(c)
    ensures r.Some? ==> r.value == c[IndexOf(c, id)].turn
  {
    if |c| == 0 then None
    else if c[0].id == id then Some(c[0].turn)
    else
      assert Keys(c) == [c[0].id] + Keys(c[1..]);
      Lookup(c[1..], id)
  }

  /** `content.set(id, t)`: overwrite in place, or append a new key. */
  function Put(c: Conv, id: Id, t: Turn): (r: Conv)
    ensures IndexOf(c, id) < 0 ==> r == c + [Entry(id, t)]
    ensures 0 <= IndexOf(c, id) ==> r == c[IndexOf(c, id) := Entry(id, t)]
  {
    if |c| == 0 then [Entry(id, t)]
    else if c[0].id == id then [Entry(id, t)] + c[1..]
    else
      var rest := Put(c[1..], id, t);
      var k := IndexOf(c[1..], id);
      ConsPut(c, k, Entry(id, t), rest);
      [c[0]] + rest
  }

  /** The sequence step behind `Put`'s recursive case. */
  lemma ConsPut(c: Conv, k: int, e: Entry, rest: Conv)
    requires |c| > 0 && -1 <= k < |c| - 1
    requires k < 0 ==> rest == c[1..] + [e]
    requires 0 <= k ==> rest == c[1..][k := e]
    ensures k < 0 ==> [c[0]] + rest == c + [e]
    ensures 0 <= k ==> [c[0]] + rest == c[k + 1 := e]
  {
    assert c == [c[0]] + c[1..];
  }

  /** `content.delete(id)`: remove the key, keep the others in order. */
  function Remove(c: Conv, id: Id): (r: Conv)
    ensures IndexOf(c, id) < 0 ==> r == c
    ensures 0 <= IndexOf(c, id) ==> r == c[..IndexOf(c, id)] + c[IndexOf(c, id) + 1..]
  {
    if |c| == 0 then []
    else if c[0].id == id then c[1..]
    else
      var rest := Remove(c[1..], id);
      ConsRemove(c, IndexOf(c[1..], id), rest);
      [c[0]] + rest
  }

  /** The sequence step behind `Remove`'s recursive case. */
  lemma ConsRemove(c: Conv, k: int, rest: Conv)
    requires |c| > 0 && -1 <= k < |c| - 1
    requires k < 0 ==> rest == c[1..]
    requires 0 <= k ==> rest == c[1..][..k] + c[1..][k + 1..]
    ensures k < 0 ==> [c[0]] + rest == c
    ensures 0 <= k ==> [c[0]] + rest == c[..k + 1] + c[k + 2..]
  {
    assert c == [c[0]] + c[1..];
    if 0 <= k {
      assert c[..k + 1] == [c[0]] + c[1..][..k];
      assert c[k + 2..] == c[1..][k + 1..];
    }
  }

  /**
   * The `clipContent` loop of `runAI`: copy entries in order and stop after
   * the one whose id is `cursor`; without such an entry, copy them all.
   */
  function Prefix(c: Conv, cursor: Id): (r: Conv)
    ensures IndexOf(c, cursor) < 0 ==> r == c
    ensures 0 <= IndexOf(c, cursor) ==> r == c[..IndexOf(c, cursor) + 1]
  {
    if |c| == 0 then []
    else if c[0].id == cursor then [c[0]]
    else
      var rest := Prefix(c[1..], cursor);
      ConsPrefix(c, IndexOf(c[1..], cursor), rest);
      [c[0]] + rest
  }

  /** The sequence step behind `Prefix`'s recursive case. */
  lemma ConsPrefix(c: Conv, k: int, rest: Conv)
    requires |c| > 0 && -1 <= k < |c| - 1
    requires k < 0 ==> rest == c[1..]
    requires 0 <= k ==> rest == c[1..][..k + 1]
    ensures k < 0 ==> [c[0]] + rest == c
    ensures 0 <= k ==> [c[0]] + rest == c[..k + 2]
  {
    assert c == [c[0]] + c[1..];
    if 0 <= k {
      assert c[..k + 2] == [c[0]] + c[1..][..k + 1];
    }
  }

  /** Reading back what `set` wrote; every other key reads as before. */
  lemma {:induction false} LookupPut(c: Conv, id: Id, t: Turn, k: Id)
    ensures Lookup(Put(c, id, t), k) == if k == id then Some(t) else Lookup(c, k)
  {
    if |c| > 0 && c[0].id != id {
      LookupPut(c[1..], id, t, k);
      assert ([c[0]] + Put(c[1..], id, t))[1..] == Put(c[1..], id, t);
    } else if |c| > 0 {
      assert ([Entry(id, t)] + c[1..])[1..] == c[1..];
    }
  }

  /** `set` adds the key at the end when it is new and keeps the key order otherwise. */
  lemma KeysPut(c: Conv, id: Id, t: Turn)
    ensures Keys(Put(c, id, t)) == if id in Keys(c) then Keys(c) else Keys(c) + [id]
  {
  }

  /** `set` keeps the keys distinct. */
  lemma DistinctPut(c: Conv, id: Id, t: Turn)
    requires Distinct(c)
    ensures Distinct(Put(c, id, t))
  {
  }

  /** `delete` keeps the keys distinct and drops exactly the deleted key. */
  lemma {:induction false} KeysRemove(c: Conv, id: Id)
    requires Distinct(c)
    ensures Distinct(Remove(c, id))
    ensures forall k :: k in Keys(Remove(c, id)) <==> k in Keys(c) && k != id
  {
    if |c| > 0 {
      var tail := c[1..];
      assert Keys(c) == [c[0].id] + Keys(tail);
      assert Distinct(tail);
      assert c[0].id !in Keys(tail);
      KeysRemove(tail, id);
      if c[0].id != id {
        var rest := Remove(tail, id);
        var r := [c[0]] + rest;
        assert Remove(c, id) == r;
        assert Keys(r) == [c[0].id] + Keys(rest);
        assert c[0].id !in Keys(rest);
        forall i, j | 0 <= i < j < |r| ensures r[i].id != r[j].id {
          if i == 0 {
            assert r[j].id == Keys(rest)[j - 1];
          } else {
            assert r[i] == rest[i - 1] && r[j] == rest[j - 1];
          }
        }
      } else {
        assert Remove(c, id) == tail;
      }
    }
  }

  /** After `delete` the key reads as absent, every other key reads as before. */
  lemma {:induction false} LookupRemove(c: Conv, id: Id, k: Id)
    requires Distinct(c)
    ensures Lookup(Remove(c, id), k) == if k == id then None else Lookup(c, k)
  {
    KeysRemove(c, id);
    if |c| > 0 && c[0].id != id {
      assert Distinct(c[1..]);
      LookupRemove(c[1..], id, k);
      assert ([c[0]] + Remove(c[1..], id))[1..] == Remove(c[1..], id);
    }
  }

  /** Appending an entry appends its key. */
  lemma KeysAppend(c: Conv, e: Entry)
    ensures Keys(c + [e]) == Keys(c) + [e.id]
  {
    assert forall i :: 0 <= i < |c| ==> (c + [e])[i] == c[i];
  }

  /** The first position holding a key is the one `indexOf` reports. */
  lemma IndexOfAt(c: Conv, id: Id, i: int)
    requires 0 <= i < |c| && c[i].id == id
    requires forall j :: 0 <= j < i ==> c[j].id != id
    ensures IndexOf(c, id) == i
  {
    assert Keys(c)[i] == id;
  }

  /** Appending an entry leaves a key that was already present where it was. */
  lemma IndexOfAppend(c: Conv, e: Entry, id: Id)
    requires id in Keys(c)
    ensures IndexOf(c + [e], id) == IndexOf(c, id)
  {
    var i := IndexOf(c, id);
    var ce := c + [e];
    assert forall j :: 0 <= j <= i ==> ce[j] == c[j];
    IndexOfAt(ce, id, i);
  }

  /** After `set`, the key sits where it was, or at the end when it was new. */
  lemma IndexOfPut(c: Conv, id: Id, t: Turn)
    ensures IndexOf(Put(c, id, t), id) == if IndexOf(c, id) < 0 then |c| else IndexOf(c, id)
  {
    var r := Put(c, id, t);
    var i := IndexOf(c, id);
    var n := if i < 0 then |c| else i;
    assert r[n].id == id;
    assert forall j :: 0 <= j < n ==> r[j] == c[j];
    IndexOfAt(r, id, n);
  }

  /** Entries appended after a key do not move it, and `set` on it leaves them alone. */
  lemma PutBeforeAppended(c: Conv, e: Entry, id: Id, t: Turn)
    requires id in Keys(c)
    ensures IndexOf(c + [e], id) == IndexOf(c, id)
    ensures Put(c + [e], id, t) == Put(c, id, t) + [e]
  {
    IndexOfAppend(c, e, id);
    UpdateAppend(c, e, IndexOf(c, id), Entry(id, t));
  }

  /** Updating a position before an appended entry commutes with the append. */
  lemma UpdateAppend(c: Conv, e: Entry, i: int, x: Entry)
    requires 0 <= i < |c|
    ensures (c + [e])[i := x] == c[i := x] + [e]
  {
    var l, r := (c + [e])[i := x], c[i := x] + [e];
    assert forall j :: 0 <= j < |l| ==> l[j] == r[j];
  }

  /** A second `set` of the same key overwrites the first, in the same place. */
  lemma PutPut(c: Conv, id: Id, t1: Turn, t2: Turn)
    ensures Put(Put(c, id, t1), id, t2) == Put(c, id, t2)
  {
    IndexOfPut(c, id, t1);
  }

  /** `set` touches only its own key's entry, or adds that one entry at the end. */
  lemma PutFrame(c: Conv, id: Id, t: Turn)
    ensures |c| <= |Put(c, id, t)| <= |c| + 1
    ensures forall j :: 0 <= j < |c| && c[j].id != id ==> Put(c, id, t)[j] == c[j]
    ensures forall j :: |c| <= j < |Put(c, id, t)| ==> Put(c, id, t)[j].id == id
  {
  }

  /** Appending a new key leaves every other key where and what it was. */
  lemma AppendNew(c: Conv, e: Entry, k: Id)
    requires Distinct(c) && e.id !in Keys(c) && k != e.id
    ensures Distinct(c + [e])
    ensures Lookup(c + [e], k) == Lookup(c, k)
    ensures IndexOf(c + [e], k) == IndexOf(c, k)
  {
    var ce := c + [e];
    KeysAppend(c, e);
    forall i, j | 0 <= i < j < |ce| ensures ce[i].id != ce[j].id {
      assert Keys(c)[i] == c[i].id;
    }
    if k in Keys(c) {
      IndexOfAppend(c, e, k);
    }
  }
}
