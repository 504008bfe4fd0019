/**
 * `toChatgptm`: the chat-completion message a turn is sent as. A turn with
 * an image becomes a two-part content (a `text` part, then an `image_url`
 * part); any other turn sends its text as a plain string.
 */
module Wire {
  import opened Options
  import opened Turns

  datatype Content =
    | Plain(text: string)
    | Parts(text: string, url: string)   // [{type: "text", text}, {type: "image_url", image_url: {url}}]

  datatype WireMessage = WireMessage(role: Role, content: Content)

  /** JavaScript truthiness of the optional `img` field: present and not "". */
  predicate HasImage(t: Turn) {
    t.img.Some? && t.img.value != ""
  }

  function ToWire(t: Turn): (w: WireMessage)
    ensures w.role == t.role
    ensures w.content.text == t.text
    ensures w.content.Parts? <==> HasImage(t)
    ensures w.content.Parts? ==> Some(w.content.url) == t.img
  {
    if HasImage(t) then WireMessage(t.role, Parts(t.text, t.img.value))
    else WireMessage(t.role, Plain(t.text))
  }

  /** The turn a wire message describes. */
  function FromWire(w: WireMessage): Turn {
    match w.content
    case Plain(text) => Turn(w.role, text, None)
    case Parts(text, url) => Turn(w.role, text, Some(url))
  }

  /** Nothing but a falsy image (absent or "") is lost on the way out. */
  lemma FromToWire(t: Turn)
    ensures FromWire(ToWire(t)) == if HasImage(t) then t else t.(img := None)
  {
  }

  /** Every message with a non-empty image URL is the image of exactly one turn shape. */
  lemma ToFromWire(w: WireMessage)
    requires w.content.Parts? ==> w.content.url != ""
    ensures ToWire(FromWire(w)) == w
  {
  }

  /** `message.map(toChatgptm)`. */
  function Messages(c: Conv): (r: seq<WireMessage>)
    ensures |r| == |c|
    ensures forall i :: 0 <= i < |c| ==> r[i] == ToWire(c[i].turn)
  {
    if |c| == 0 then [] else [ToWire(c[0].turn)] + Messages(c[1..])
  }
}
