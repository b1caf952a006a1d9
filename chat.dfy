/**
  The client-side chat component: how a received `chatMessage` is merged into
  the list shown on screen (duplicates by id are dropped) and how the input
  box turns into an outgoing message (trimmed, blank input ignored).
*/
module Chat {
  import opened Wrappers

  /** A chat message; `id` is the deduplication key. */
  datatype ChatMessage = ChatMessage(id: string, sender: string, message: string, timestamp: int)

  /** Some message of the list has this id. */
  predicate HasId(msgs: seq<ChatMessage>, id: string)
  {
    exists i :: 0 <= i < |msgs| && msgs[i].id == id
  }

  /** No two messages of the list share an id. */
  predicate IdsDistinct(msgs: seq<ChatMessage>)
  {
    forall i, j :: 0 <= i < j < |msgs| ==> msgs[i].id != msgs[j].id
  }

  // ---------------------------------------------------------------------
  // Receiving: the `setMessages` updater of the `chatMessage` listener
  // ---------------------------------------------------------------------

  /** The updater: keep the list when a message with this id is already
      shown, otherwise append the message at the end. */
  function Receive(prev: seq<ChatMessage>, m: ChatMessage): (r: seq<ChatMessage>)
    ensures prev <= r && |r| <= |prev| + 1
    ensures HasId(r, m.id)
    ensures r == prev <==> HasId(prev, m.id)
    ensures r != prev ==> r == prev + [m]
    ensures IdsDistinct(prev) ==> IdsDistinct(r)
  {
    if HasId(prev, m.id) then prev
    else
      var r := prev + [m];
      assert r[|prev|].id == m.id;
      r
  }

  /** Delivering the same message twice shows it once. */
  lemma ReceiveIdempotent(prev: seq<ChatMessage>, m: ChatMessage)
    ensures Receive(Receive(prev, m), m) == Receive(prev, m)
  {
  }

  /** The list after a run of `chatMessage` events, each one applying the updater. */
  function ReceiveAll(prev: seq<ChatMessage>, ms: seq<ChatMessage>): seq<ChatMessage>
    decreases |ms|
  {
    if ms == [] then prev else ReceiveAll(Receive(prev, ms[0]), ms[1..])
  }

  /** Whatever arrives, in whatever order and with whatever repetitions: the old
      list stays a prefix, every delivered id is shown, nothing else is added,
      and a list without duplicate ids never gets one. */
  lemma {:induction false} ReceiveAllShowsEachIdOnce(prev: seq<ChatMessage>, ms: seq<ChatMessage>)
    ensures prev <= ReceiveAll(prev, ms)
    ensures forall i :: 0 <= i < |ms| ==> HasId(ReceiveAll(prev, ms), ms[i].id)
    ensures forall x :: x in ReceiveAll(prev, ms) ==> x in prev || x in ms
    ensures IdsDistinct(prev) ==> IdsDistinct(ReceiveAll(prev, ms))
    decreases |ms|
  {
    if ms != [] {
      var next := Receive(prev, ms[0]);
      ReceiveAllShowsEachIdOnce(next, ms[1..]);
      var r := ReceiveAll(prev, ms);
      assert r == ReceiveAll(next, ms[1..]);
      forall i | 0 <= i < |ms|
        ensures HasId(r, ms[i].id)
      {
        if i == 0 {
          var k :| 0 <= k < |next| && next[k].id == ms[0].id;
          assert r[k] == next[k];
        } else {
          assert ms[i] == ms[1..][i - 1];
        }
      }
    }
  }

  /** A list that already shows every id of `ms` is left alone by them. */
  lemma {:induction false} ReceiveAllKnown(prev: seq<ChatMessage>, ms: seq<ChatMessage>)
    requires forall i :: 0 <= i < |ms| ==> HasId(prev, ms[i].id)
    ensures ReceiveAll(prev, ms) == prev
    decreases |ms|
  {
    if ms != [] {
      assert HasId(prev, ms[0].id);
      forall i | 0 <= i < |ms[1..]|
        ensures HasId(prev, ms[1..][i].id)
      {
        assert ms[1..][i] == ms[i + 1];
      }
      ReceiveAllKnown(prev, ms[1..]);
    }
  }

  /** Retransmitting a whole batch changes nothing (for example a chat history
      replayed to a client that has already shown it). */
  lemma ReceiveAllIdempotent(prev: seq<ChatMessage>, ms: seq<ChatMessage>)
    ensures ReceiveAll(ReceiveAll(prev, ms), ms) == ReceiveAll(prev, ms)
  {
    ReceiveAllShowsEachIdOnce(prev, ms);
    ReceiveAllKnown(ReceiveAll(prev, ms), ms);
  }

  // ---------------------------------------------------------------------
  // Sending: the form's `sendMessage` handler
  // ---------------------------------------------------------------------

  /** The characters `String.prototype.trim` removes: the ECMAScript WhiteSpace
      code points (tab, vertical tab, form feed, space, no-break space, byte
      order mark and the Unicode space separators) and its LineTerminators. */
  predicate IsWhitespace(c: char)
  {
    || c == '\t' || c == '\n' || c == '\U{B}' || c == '\U{C}' || c == '\r' || c == ' '
    || c == '\U{A0}' || c == '\U{1680}' || ('\U{2000}' <= c <= '\U{200A}')
    || c == '\U{2028}' || c == '\U{2029}' || c == '\U{202F}' || c == '\U{205F}'
    || c == '\U{3000}' || c == '\U{FEFF}'
  }

  predicate AllWhitespace(s: string)
  {
    forall i :: 0 <= i < |s| ==> IsWhitespace(s[i])
  }

  /** Drops the leading whitespace: the result is a suffix of `s` that does not
      start with whitespace, and everything dropped is whitespace. */
  function TrimStart(s: string): (r: string)
    ensures |r| <= |s| && r == s[|s| - |r|..]
    ensures r == [] || !IsWhitespace(r[0])
    ensures AllWhitespace(s[..|s| - |r|])
  {
    if s != [] && IsWhitespace(s[0]) then TrimStart(s[1..]) else s
  }

  /** Drops the trailing whitespace: the result is a prefix of `s` that does not
      end with whitespace, and everything dropped is whitespace. */
  function TrimEnd(s: string): (r: string)
    ensures |r| <= |s| && r == s[..|r|]
    ensures r == [] || !IsWhitespace(r[|r| - 1])
    ensures AllWhitespace(s[|r|..])
  {
    if s != [] && IsWhitespace(s[|s| - 1]) then TrimEnd(s[..|s| - 1]) else s
  }

  /** If `t` is what is left of `s` after dropping leading whitespace, and `r`
      what is left of `t` after dropping trailing whitespace, then `r` is a
      slice of `s` with only whitespace around it, whitespace-free at both ends,
      and empty exactly when `s` is all whitespace. */
  lemma TrimSlices(s: string, t: string, r: string)
    requires |t| <= |s| && t == s[|s| - |t|..] && AllWhitespace(s[..|s| - |t|])
    requires t == [] || !IsWhitespace(t[0])
    requires |r| <= |t| && r == t[..|r|] && AllWhitespace(t[|r|..])
    requires r == [] || !IsWhitespace(r[|r| - 1])
    ensures |r| <= |s|
    ensures exists a, b :: 0 <= a <= b <= |s| && r == s[a..b] && AllWhitespace(s[..a]) && AllWhitespace(s[b..])
    ensures r != [] ==> !IsWhitespace(r[0]) && !IsWhitespace(r[|r| - 1])
    ensures r == [] <==> AllWhitespace(s)
  {
    var a := |s| - |t|;
    var b := a + |r|;
    assert s[b..] == t[|r|..];
    assert r == s[a..b];
    if r == [] {
      assert t == [] && s[..a] == s;
    } else {
      assert r[0] == t[0];
    }
  }

  /** `String.prototype.trim`: a contiguous piece of `s`, whitespace-free at both
      ends, that is empty exactly when `s` is all whitespace. */
  function Trim(s: string): (r: string)
    ensures |r| <= |s|
    ensures exists a, b :: 0 <= a <= b <= |s| && r == s[a..b] && AllWhitespace(s[..a]) && AllWhitespace(s[b..])
    ensures r != [] ==> !IsWhitespace(r[0]) && !IsWhitespace(r[|r| - 1])
    ensures r == [] <==> AllWhitespace(s)
  {
    var t := TrimStart(s);
    var r := TrimEnd(t);
    TrimSlices(s, t, r);
    r
  }

  /** Trimming twice is trimming once. */
  lemma TrimIdempotent(s: string)
    ensures Trim(Trim(s)) == Trim(s)
  {
  }

  /** The payload of the `sendMessage` socket event: the room and the message. */
  datatype Outgoing = Outgoing(roomCode: string, message: ChatMessage)

  /** What a submit does: the event it emits (if any) and the new content of
      the input box. */
  datatype SendOutcome = SendOutcome(sent: Option<Outgoing>, input: string)

  /** Submitting `input` as `playerName` in room `roomCode`; `id` and `now`
      stand for the values generated from the clock and the random generator. */
  function SendMessage(input: string, roomCode: string, playerName: string, id: string, now: int): (r: SendOutcome)
    ensures r.sent.None? <==> AllWhitespace(input)
    ensures r.sent.None? ==> r.input == input
    ensures r.sent.Some? ==> r.input == "" && r.sent.value.roomCode == roomCode
    ensures r.sent.Some? ==> r.sent.value.message.id == id && r.sent.value.message.timestamp == now
    ensures r.sent.Some? ==> r.sent.value.message.sender == playerName && r.sent.value.message.message == Trim(input)
    ensures r.sent.Some? ==> r.sent.value.message.message != "" && !IsWhitespace(r.sent.value.message.message[0])
  {
    var text := Trim(input);
    if text != "" then SendOutcome(Some(Outgoing(roomCode, ChatMessage(id, playerName, text, now))), "")
    else SendOutcome(None, input)
  }
}
