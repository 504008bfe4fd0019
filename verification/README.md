# Vision chat panel: conversation buffer, cursor and reply stream

A Dafny model of the bookkeeping at the heart of the vision chat panel
(`src/renderer/aiVision/aiVision.ts`). The panel keeps an insertion-ordered
map from short turn ids to chat turns, plus a cursor (`currentId`) naming the
turn being composed. The model covers:

- the handlers that change the map and the cursor: `setItem`, `pickLastItem`,
  the delete, edit and regenerate buttons, the input box, the Enter key and
  the `window.setImg` hook;
- the synchronous part of `runAI`: the message prefix through the cursor, the
  send guard and the reply's target id;
- `toChatgptm`, which turns an internal turn into a chat-completion message;
- the streamed reply: `readBody` splits each read into lines, cleans them and
  stops at `[DONE]`, and `parse` probes each line for a piece of text in three
  places, appends it to the reply and writes the reply into the target turn.

Modules and files:

| file | module | contents |
|---|---|---|
| options.dfy | `Options` | `Option` |
| turns.dfy | `Turns` | turns, roles, the ordered map as a sequence of entries (`Put` = `Map.set`, `Remove` = `Map.delete`, `Lookup` = `Map.get`, `IndexOf` = `keys().indexOf`) and the `runAI` prefix |
| buffer.dfy | `Buffer` | the session (map + cursor) and its handlers |
| wire.dfy | `Wire` | `toChatgptm` and its partner `FromWire` |
| responder.dfy | `Responder` | `runAI`'s guard, the Enter key, the regenerate button |
| framing.dfy | `Framing` | `trim`, the `data:` strip, `split("\n")` and the per-read line framing |
| stream.dfy | `Stream` | the content probe, `parse`, the read loop as written and as corrected |
| scenarios.dfy | `Scenarios` | whole rounds: a handler followed by the stream it starts |

The following are parameters of the model:

- **`uuid()`.** It becomes a caller-supplied id that the map does not hold.
  Inside a stream it is an injective supply `ids: nat -> Id`, indexed by the
  number of lines parsed so far (`FreshIds`).
- **`JSON.parse`.** It becomes a caller-supplied `decode: string -> Option<Payload>`,
  where `None` stands for a line it rejects.
- **Each read of the body.** It is `Chunk(text)` (already decoded) or
  `EndOfBody`. `EndOfBody` is a read whose `value` is undefined, and it
  decodes to `""`.

Ids are the first eight characters of a UUID, so they are never empty. The
`lastId &&` test in `pickLastItem` therefore only asks whether the map has a
last entry.

Behaviour of the code worth knowing before reading the model:

- **Regenerating the last turn, when it is an assistant turn and not the
  only turn, adds a turn once the first piece arrives.** `pickLastItem`
  appends a blank user turn behind it
  (`Scenarios.RegenerateLastAssistantGrows`). When it is the only turn the
  button does nothing (`Responder.Regenerate`).
- **Regenerating the last turn, when it is a user turn, adds two turns once
  the first piece arrives.** The reply goes to a new id at the end, and a
  blank user turn follows it (`Scenarios.RegenerateLastUserGrowsTwo`). Until
  a line is parsed, the map is unchanged (`Stream.Accumulation`).
- **`pickLastItem` runs only in two places.** It runs when `runAI` declines to
  send and after every parsed line. Delete leaves the cursor where it is, even
  when it named the deleted turn; edit moves it only to an id the map holds.
- **The content probe takes the third place whatever it holds.** The third
  probe, `choices[0].delta.content`, is not tested for truthiness. An absent
  or `null` value appends the text `undefined` or `null`.
- **The stream does not stop when the connection closes.** See Findings.

## Model

| member | source | states |
|---|---|---|
| Turns.Keys | src/renderer/aiVision/aiVision.ts:105 | the key list has one id per entry, in map order |
| Turns.IndexOf | src/renderer/aiVision/aiVision.ts:106 | `indexOf` gives the first position holding the id, or -1 exactly when the id is not a key |
| Turns.Lookup | src/renderer/aiVision/aiVision.ts:99 | `get` gives nothing exactly for a missing key, otherwise the turn at the key's position |
| Turns.Put | src/renderer/aiVision/aiVision.ts:216-219 | `set` on a present key replaces the entry in place; on a new key it appends it at the end |
| Turns.Remove | src/renderer/aiVision/aiVision.ts:95 | `delete` cuts out exactly the key's entry and keeps the rest in order; a missing key changes nothing |
| Turns.Prefix | src/renderer/aiVision/aiVision.ts:160-164 | the clip is the entries from the first through the cursor, or all of them when the cursor is not a key |
| Turns.LookupPut | src/renderer/aiVision/aiVision.ts:216-219 | after `set`, the key reads back the new turn and every other key reads as before |
| Turns.KeysPut | src/renderer/aiVision/aiVision.ts:249 | `set` leaves the key list alone for a present key and appends a new key at its end |
| Turns.DistinctPut | src/renderer/aiVision/aiVision.ts:41 | `set` never makes a key appear twice |
| Turns.KeysRemove | src/renderer/aiVision/aiVision.ts:95 | after `delete`, the keys are the old keys except the deleted one, still distinct |
| Turns.LookupRemove | src/renderer/aiVision/aiVision.ts:95 | after `delete`, the key reads as missing and every other key reads as before |
| Turns.KeysAppend | src/renderer/aiVision/aiVision.ts:249 | appending an entry appends its id to the key list |
| Turns.IndexOfAt | src/renderer/aiVision/aiVision.ts:106 | a position holding the id with no earlier position holding it is the one `indexOf` reports |
| Turns.IndexOfAppend | src/renderer/aiVision/aiVision.ts:106 | appending an entry does not move a key already present |
| Turns.IndexOfPut | src/renderer/aiVision/aiVision.ts:216-219 | a key that `set` writes keeps its position, or lands right after the old entries |
| Turns.PutBeforeAppended | src/renderer/aiVision/aiVision.ts:216-221 | rewriting a key that precedes a later-appended entry leaves that entry last |
| Turns.PutPut | src/renderer/aiVision/aiVision.ts:216-219 | the second `set` of a key overrides the first completely |
| Turns.PutFrame | src/renderer/aiVision/aiVision.ts:216-219 | `set` grows the map by at most one entry, and entries of other keys keep their positions |
| Turns.AppendNew | src/renderer/aiVision/aiVision.ts:249 | appending a new key keeps keys distinct and leaves every other key's position and turn alone |
| Buffer.Write | src/renderer/aiVision/aiVision.ts:250-254 | `setItem` writes `data` into the chosen field only, keeping the role and the other field |
| Buffer.SetItem | src/renderer/aiVision/aiVision.ts:236-256 | an absent cursor gets one new blank user turn at the end, with the field written; a present one has only that field changed, and its role, position and all other turns are kept |
| Buffer.SetItemValid | src/renderer/aiVision/aiVision.ts:236-256 | `setItem` keeps the keys distinct |
| Buffer.PickLast | src/renderer/aiVision/aiVision.ts:225-234 | afterwards the cursor names the last turn, a user turn; the map is unchanged exactly when its last turn was a user turn, and otherwise it gets one blank user turn with the new id at the end |
| Buffer.PickLastValid | src/renderer/aiVision/aiVision.ts:225-234 | `pickLastItem` keeps the keys distinct |
| Buffer.PickLastOnUser | src/renderer/aiVision/aiVision.ts:227-228 | with a user turn last, only the cursor moves |
| Buffer.PickLastIdempotent | src/renderer/aiVision/aiVision.ts:225-234 | a second `pickLastItem` changes nothing |
| Buffer.Delete | src/renderer/aiVision/aiVision.ts:94-97 | the delete button removes exactly the clicked id, keeps the other turns in order and the keys distinct, and leaves the cursor alone |
| Buffer.Edit | src/renderer/aiVision/aiVision.ts:98-103 | the edit button moves the cursor to the id only when the id is in the map, and never changes the map |
| Buffer.Type | src/renderer/aiVision/aiVision.ts:266-272 | after a keystroke the cursor stays put, the cursor turn holds the box's text with its role and image kept (a new blank user turn when the map did not hold it), and every other key reads as before |
| Buffer.InjectImage | src/renderer/aiVision/aiVision.ts:259-264 | `setImg` appends one user turn with empty text and the image, under a new id that becomes the cursor |
| Wire.ToWire | src/renderer/aiVision/aiVision.ts:141-156 | the role and text are kept; the content is two parts exactly when the image is truthy, and then carries that image |
| Wire.FromToWire | src/renderer/aiVision/aiVision.ts:141-156 | the wire message gives the turn back, except for a falsy image |
| Wire.ToFromWire | src/renderer/aiVision/aiVision.ts:141-156 | every wire message with a non-empty image URL, and every plain one, is what some turn is sent as |
| Wire.Messages | src/renderer/aiVision/aiVision.ts:171-172 | one message per turn, each what `toChatgptm` makes of it, in order |
| Responder.PrefixLength | src/renderer/aiVision/aiVision.ts:160-164 | the clip loop copies exactly the first `n` turns of the map, with `n` the cursor's position plus one or, when the map does not hold the cursor, every turn |
| Responder.RunAI | src/renderer/aiVision/aiVision.ts:158-177 | `runAI` declines exactly when the clip is empty or, without `force`, its last turn is not a user turn; then only `pickLastItem` runs; otherwise it sends the clip's messages for the target or a new id and leaves the map alone |
| Responder.Send | src/renderer/aiVision/aiVision.ts:273-279 | Enter always sends or declines; it sends exactly when the clip through the cursor is non-empty and ends in a user turn, and then sends that clip's messages for a new id; otherwise it only repairs the cursor |
| Responder.IndexOfDistinct | src/renderer/aiVision/aiVision.ts:105-106 | in a map, `indexOf` of the key at position i is i |
| Responder.Regenerate | src/renderer/aiVision/aiVision.ts:104-120 | on a missing id or a system turn nothing happens; on a user turn the cursor moves there and the turns through it are sent for the next id, whatever its role, or for a new id when it is last; on the first turn, an assistant turn, nothing happens; on a later assistant turn the cursor moves to the turn before and a forced generation is sent for the same id with the turns before it |
| Responder.NextId | src/renderer/aiVision/aiVision.ts:117 | the user branch's target: the key after the position in the key list, or the fresh id when the position is the last one |
| Responder.RunAIStarts | src/renderer/aiVision/aiVision.ts:158-177 | with the cursor on a turn the map holds, `runAI` sends the turns through the cursor for the target or a new id, whenever it is forced or that turn is a user turn, and leaves the map alone |
| Responder.RegenerateAssistantKeepsRole | src/renderer/aiVision/aiVision.ts:108-115 | the second role test after the assistant branch still sees an assistant turn, so the two tests never both fire |
| Framing.LeadingSpaces | src/renderer/aiVision/aiVision.ts:196 | the count of leading white space, with the next character not white space |
| Framing.TrailingSpaces | src/renderer/aiVision/aiVision.ts:196 | the count of trailing white space, with the character before it not white space |
| Framing.Trim | src/renderer/aiVision/aiVision.ts:196 | `trim()` gives text with no white space at either end, and gives "" exactly for all-white-space input |
| Framing.TrimStartDrops | src/renderer/aiVision/aiVision.ts:196 | the first half of `trim()` leaves a suffix of the input that follows only white space and does not itself start with white space |
| Framing.TrimEndDrops | src/renderer/aiVision/aiVision.ts:196 | the second half of `trim()` leaves a prefix of the input that only white space follows and that does not itself end with white space |
| Framing.TrimSlice | src/renderer/aiVision/aiVision.ts:196 | the trimmed text is a slice of the input with only white space cut off on both sides |
| Framing.TrimTrimmed | src/renderer/aiVision/aiVision.ts:196-198 | trimming text that has no white space at its ends changes nothing |
| Framing.StripData | src/renderer/aiVision/aiVision.ts:197 | the input is `data:` followed by the result, or it does not start with `data:` and is returned unchanged |
| Framing.Clean | src/renderer/aiVision/aiVision.ts:195-198 | a cleaned line has no white space at either end and is no longer than the line |
| Framing.SplitLines | src/renderer/aiVision/aiVision.ts:193 | `split("\n")` gives at least one piece, none holding a line break, and joining them with line breaks restores the text |
| Framing.JoinConsChar | src/renderer/aiVision/aiVision.ts:193 | a character before the first piece comes out at the front of the joined text |
| Framing.SplitJoin | src/renderer/aiVision/aiVision.ts:193 | splitting what was joined from line-break-free pieces gives those pieces back |
| Framing.NonEmpty | src/renderer/aiVision/aiVision.ts:200 | the filter keeps exactly the non-empty lines of its input, and never more lines than it was given |
| Framing.CleanAllAppend | src/renderer/aiVision/aiVision.ts:194-199 | cleaning a concatenation of lines cleans each part |
| Framing.FrameLines | src/renderer/aiVision/aiVision.ts:194-200 | no more lines come out than went in, none of them empty, and every line that cleans to non-empty text is among them |
| Framing.Frame | src/renderer/aiVision/aiVision.ts:191-200 | every line a read yields is non-empty, trimmed at both ends and free of line breaks |
| Framing.NonEmptyAppend | src/renderer/aiVision/aiVision.ts:200 | filtering a concatenation of lines filters each part, in order |
| Framing.FrameLinesFrom | src/renderer/aiVision/aiVision.ts:194-200 | every emitted line is the cleaned form of some line of the read |
| Framing.FrameLinesAppend | src/renderer/aiVision/aiVision.ts:193-200 | framing acts line by line and keeps the order |
| Framing.FrameLinesSingle | src/renderer/aiVision/aiVision.ts:194-200 | one line yields its cleaned form, or nothing when that is empty |
| Framing.FrameLinesNoNewline | src/renderer/aiVision/aiVision.ts:193-200 | no emitted line holds a line break |
| Framing.CleanSubstring | src/renderer/aiVision/aiVision.ts:195-198 | cleaning adds no character to the line |
| Framing.FrameLinesTrimmed | src/renderer/aiVision/aiVision.ts:194-200 | every emitted line has no white space at either end |
| Framing.SplitWithoutNewline | src/renderer/aiVision/aiVision.ts:193 | text without a line break is one line |
| Framing.FrameOneLine | src/renderer/aiVision/aiVision.ts:193-200 | a read without a line break yields its cleaned form, or nothing when that is empty |
| Framing.ChunkBoundarySplitsLine | src/renderer/aiVision/aiVision.ts:191-200 | each read is framed on its own, so one line cut into two reads comes out as two lines |
| Framing.FrameEmpty | src/renderer/aiVision/aiVision.ts:192-200 | the undefined value at the end of the body yields no line |
| Framing.DataLineFrames | src/renderer/aiVision/aiVision.ts:193-200 | a `data: <json>` read yields the JSON text alone |
| Framing.DataLineClean | src/renderer/aiVision/aiVision.ts:195-198 | cleaning `data: <json>` leaves the JSON text alone |
| Framing.DoneLineClean | src/renderer/aiVision/aiVision.ts:195-198 | cleaning `[DONE]` leaves it unchanged |
| Framing.DoneLineFrames | src/renderer/aiVision/aiVision.ts:193-202 | a `[DONE]` read yields the terminator line |
| Stream.Piece | src/renderer/aiVision/aiVision.ts:211-215 | a truthy `message.content` wins; the probe throws exactly when that is not truthy and there is no first choice, or its message content is not truthy and it has no `delta` |
| Stream.PieceIsProbeExpression | src/renderer/aiVision/aiVision.ts:211-215 | `Piece` agrees with the chain of logical ors evaluated operand by operand, with `+=` of an absent or null value appending its JavaScript spelling |
| Stream.Parse | src/renderer/aiVision/aiVision.ts:209-215 | `parse` goes on exactly when `JSON.parse` accepts the line and the three-place probe does not throw, and then appends the probe's value as `+=` renders it |
| Stream.Absorb | src/renderer/aiVision/aiVision.ts:215-221 | one parsed piece is appended to the reply; the target reads back the reply as an assistant turn without image; the keys are those after the `set`, plus at most the new blank user turn |
| Stream.AbsorbFresh | src/renderer/aiVision/aiVision.ts:221 | the ids `pickLastItem` may still need stay fresh after a parsed line |
| Stream.RunLines | src/renderer/aiVision/aiVision.ts:201-204 | the loop over one read's lines keeps the target and never reports the end of the body |
| Stream.Decoded | src/renderer/aiVision/aiVision.ts:191-192 | a chunk decodes to its text; the end of the body decodes to text that yields no line |
| Stream.RunReads | src/renderer/aiVision/aiVision.ts:190-207 | the loop as written uses no more reads than offered; it waits for another read only after using all of them |
| Stream.RunReadsStep | src/renderer/aiVision/aiVision.ts:190-206 | one round of the loop as written: frame the read, run its lines, and read again only when they did not stop it |
| Stream.RunLinesAppend | src/renderer/aiVision/aiVision.ts:201-204 | two batches of lines run as the first batch, then the second only if the first did not stop |
| Stream.RunReadsFlat | src/renderer/aiVision/aiVision.ts:190-207 | read boundaries matter only through framing: the read loop ends where one loop over all the lines would |
| Stream.RunLinesText | src/renderer/aiVision/aiVision.ts:201-215 | after a batch, the reply is the old reply followed by the pieces parsed, in order, and one line is counted per piece |
| Stream.RunLinesStep | src/renderer/aiVision/aiVision.ts:201-203 | a parsed line is absorbed and the loop moves to the next line |
| Stream.PiecesStep | src/renderer/aiVision/aiVision.ts:201-215 | the pieces of a batch are the first line's piece followed by the rest |
| Stream.PutShaped | src/renderer/aiVision/aiVision.ts:216-221 | rewriting the target of a map that ends in a user turn keeps its shape and that user turn |
| Stream.RewriteKeepsLast | src/renderer/aiVision/aiVision.ts:216-219 | rewriting a non-user turn keeps the last entry in place |
| Stream.PutShapedInPlace | src/renderer/aiVision/aiVision.ts:216-219 | when `pickLastItem` added nothing, rewriting the target again is one `set` on the starting map, with the same keys and a user turn still last |
| Stream.PutShapedAppended | src/renderer/aiVision/aiVision.ts:216-221 | when `pickLastItem` appended a blank turn, rewriting the target again leaves that turn last and the keys unchanged |
| Stream.AbsorbOnUser | src/renderer/aiVision/aiVision.ts:225-228 | when the rewritten map ends in a user turn, `pickLastItem` only moves the cursor there |
| Stream.AbsorbShaped | src/renderer/aiVision/aiVision.ts:216-221 | after the first piece, later pieces only rewrite the target and `pickLastItem` adds nothing |
| Stream.AbsorbFirstShaped | src/renderer/aiVision/aiVision.ts:216-221 | the first piece writes the target and `pickLastItem` adds at most one turn |
| Stream.RunLinesShaped | src/renderer/aiVision/aiVision.ts:201-221 | that shape holds after every further line |
| Stream.RunFromStartShaped | src/renderer/aiVision/aiVision.ts:201-221 | a generation either parsed nothing or has that shape |
| Stream.Accumulation | src/renderer/aiVision/aiVision.ts:209-221 | after the lines, the target holds the concatenated pieces as an assistant turn without image, in its old position or right after the old turns; all other old turns are unchanged; at most one blank user turn follows; the cursor is on the last turn, a user turn; nothing changes when no piece was parsed |
| Stream.ShapedReply | src/renderer/aiVision/aiVision.ts:216-221 | the shape implies that placement of the reply |
| Stream.PutPlaced | src/renderer/aiVision/aiVision.ts:216-219 | the reply written by `set` sits at the target's old position or at the end |
| Stream.AppendBlankPlaced | src/renderer/aiVision/aiVision.ts:229-233 | the blank user turn `pickLastItem` appends moves no other turn |
| Stream.AppendKeepsOthers | src/renderer/aiVision/aiVision.ts:229-233 | appending keeps every old turn in place |
| Stream.AppendTail | src/renderer/aiVision/aiVision.ts:229-233 | appending the blank turn adds only that turn after the old ones |
| Stream.RunReadsIgnoresLater | src/renderer/aiVision/aiVision.ts:201-206 | once the loop stops at `[DONE]` or a throw, no later read is issued |
| Stream.EndOfBodyStep | src/renderer/aiVision/aiVision.ts:190-206 | a read at the end of the body yields no line and leads to another read |
| Stream.EndsOnly | src/renderer/aiVision/aiVision.ts:190-206 | as written, reads that only see the end of the body change nothing and never stop the loop |
| Stream.ReadsPastEnd | src/renderer/aiVision/aiVision.ts:190-206 | as written, after a body that ended without `[DONE]`, any number of further reads are issued and the loop still waits for more |
| Stream.RunReadsClosing | src/renderer/aiVision/aiVision.ts:190-207 | the corrected loop uses no more reads than offered, waits for another read only after using all of them, and stops only after a read |
| Stream.ClosingWhy | src/renderer/aiVision/aiVision.ts:190-207 | the corrected loop reports the end of the body exactly when its last read was the end |
| Stream.ClosingStep | src/renderer/aiVision/aiVision.ts:190-206 | one round of the corrected loop on a chunk read that does not stop it hands the remaining reads to the next round |
| Stream.ClosingOnEnd | src/renderer/aiVision/aiVision.ts:190-192 | the corrected loop stops at once, with nothing changed, when its first read is the end |
| Stream.ClosingReadsUntilEnd | src/renderer/aiVision/aiVision.ts:190-207 | the corrected loop issues no read after the first end of the body |
| Stream.ClosingStopsAtEnd | src/renderer/aiVision/aiVision.ts:190-207 | the corrected loop always stops once the body ends, and issues no read after that |
| Stream.ClosingAgrees | src/renderer/aiVision/aiVision.ts:190-207 | before the body ends, the corrected loop does exactly what the loop as written does |
| Stream.ClosingPastEnd | src/renderer/aiVision/aiVision.ts:190-207 | where the loop as written reads past the end, the corrected loop stops with the one read at the end |
| Stream.ClosingEnd | src/renderer/aiVision/aiVision.ts:190-207 | the corrected loop stops at the first end of the body, however many ends follow |
| Stream.ClosingChunkStep | src/renderer/aiVision/aiVision.ts:201-206 | a chunk read that does not stop the loop passes the remaining reads to the next round |
| Stream.DoneStops | src/renderer/aiVision/aiVision.ts:201-202 | no line after `[DONE]` is parsed |
| Stream.UntilEnd | src/renderer/aiVision/aiVision.ts:190-192 | the reads before the end of the body are a prefix of the body, all chunks, followed by the end if anything follows |
| Stream.ClosingUntilEnd | src/renderer/aiVision/aiVision.ts:190-207 | the corrected loop runs the loop as written on the reads before the end, and reports the end where that loop would wait |
| Stream.StreamAccumulation | src/renderer/aiVision/aiVision.ts:190-221 | under the corrected loop, the reply is every piece parsed from the reads before the end of the body, placed as `Accumulation` states |
| Scenarios.DeltaPiece | src/renderer/aiVision/aiVision.ts:211-215 | a line holding only `choices[0].delta.content` contributes exactly that text |
| Scenarios.DeltaThenDone | src/renderer/aiVision/aiVision.ts:190-221 | a `data:` read with one delta, then a `[DONE]` read: the target holds the delta's text, the stream stops after the second read, and nothing after it is read |
| Scenarios.TwoReads | src/renderer/aiVision/aiVision.ts:190-206 | a read with one parsed line, then a read with `[DONE]`: one piece is absorbed and the loop stops after two reads |
| Scenarios.RegenerateLastAssistantGrows | src/renderer/aiVision/aiVision.ts:107-113 | regenerating the last turn, when it is an assistant turn and not the only turn, grows the map by one turn once the first piece arrives |
| Scenarios.AbsorbIntoNewId | src/renderer/aiVision/aiVision.ts:216-221 | the first piece for a target the map does not hold appends the assistant turn and then a blank user turn |
| Scenarios.RegenerateLastUserGrowsTwo | src/renderer/aiVision/aiVision.ts:114-119 | regenerating the last turn, when it is a user turn, grows the map by two turns once the first piece arrives |

## Left out

- Rendering: `newChatItem`, the widgets, styles and markdown rendering. They produce DOM only. In the edit handler, the input box receiving the turn's text is also DOM only, and so is the Enter handler clearing the box.
- `fetch`, the request headers and body, the model registry, and the per-model `config` merge into the body. These are network I/O and external configuration. A response without a body, where `runAI` ends silently, is not modelled.
- `TextDecoder`, for the same reason: reads arrive already decoded. A multi-byte character split across two reads is not modelled.
- `JSON.parse`: it is the `decode` parameter. A `content` value other than a string, `null` or absent is not modelled, and neither is a non-object `choices[0]`.
- `crypto.randomUUID`: it is a fresh-id parameter, or an injective supply of ids.
- The file input handler: it reads a data URL with `FileReader` and calls `setItem` when the read completes. Its effect on the map is `Buffer.SetItem` with `ImageUrl` at whatever the cursor is then.
- Overlapping generations: two streams running at once are unguarded asynchronous behaviour. The model runs each generation on its own, from the session at which it started.
- Interleaving of user input with a stream: typing while a reply streams in is not modelled.
- A rejected `reader.read()` (a network error mid-stream): the promise chain ends there, and the state is what `RunReads` gives on the reads before it.

## Findings

| source | as written | input that shows it | evidently intended | confidence | as-written member | corrected member |
|---|---|---|---|---|---|---|
| src/renderer/aiVision/aiVision.ts:190-206 | `readBody` never looks at `result.done`. Once the body has ended, each read resolves with no value, which decodes to "", yields no line, and leads straight to another `reader.read()` | a response body that ends, without a `[DONE]` line, after lines that all parse, such as a connection that closes early; a last line that throws in `parse` stops the loop instead (`Stream.RunReadsIgnoresLater`) | stop reading when the body is done | high (not executed) | Stream.ReadsPastEnd | Stream.ClosingStopsAtEnd |
