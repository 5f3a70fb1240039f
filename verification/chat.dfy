/** The two pieces of chat logic around the encoder: the text-only history
    that the recipe request sends, and the guard that refuses a send.

    A message carries a role ("user" or "model"), a kind (the `type` field:
    "text", "recipe", ...) and a content whose type depends on the kind, so
    the content type is a parameter here. */
module Chat {
  import opened Wrappers

  datatype Message<C> = Message(role: string, kind: string, content: C)

  /** One entry of the request history: a role and a single text part. */
  datatype Turn<C> = Turn(role: string, text: C)

  const TEXT_KIND: string := "text"
  const MODEL_ROLE: string := "model"
  const USER_ROLE: string := "user"

  /** The request role of a message: "model" stays "model", every other
      role is sent as "user". */
  function RequestRole(role: string): (r: string)
    ensures r == MODEL_ROLE || r == USER_ROLE
    ensures r == MODEL_ROLE <==> role == MODEL_ROLE
  {
    if role == MODEL_ROLE then MODEL_ROLE else USER_ROLE
  }

  /** A message as a turn of the request history: its content as the one
      text part, under the request role. */
  function ToTurn<C>(m: Message<C>): (t: Turn<C>)
    ensures t.text == m.content
    ensures t.role == MODEL_ROLE <==> m.role == MODEL_ROLE
    ensures t.role != MODEL_ROLE ==> t.role == USER_ROLE
  {
    Turn(RequestRole(m.role), m.content)
  }

  /** The history of the recipe request: the text messages, in order, each
      as a turn with its request role and its content. */
  function TextHistory<C>(msgs: seq<Message<C>>): (h: seq<Turn<C>>)
    ensures |h| <= |msgs|
    ensures forall t :: t in h ==> exists m :: m in msgs && m.kind == TEXT_KIND && t == ToTurn(m)
    ensures forall m :: m in msgs && m.kind == TEXT_KIND ==> ToTurn(m) in h
  {
    if |msgs| == 0 then []
    else
      var rest := TextHistory(msgs[1..]);
      assert msgs == [msgs[0]] + msgs[1..];
      if msgs[0].kind == TEXT_KIND then [ToTurn(msgs[0])] + rest else rest
  }

  /** The history of a conversation is the history of its first part
      followed by the history of the rest: the order is kept. */
  lemma {:induction false} TextHistoryAppend<C>(a: seq<Message<C>>, b: seq<Message<C>>)
    ensures TextHistory(a + b) == TextHistory(a) + TextHistory(b)
    decreases |a|
  {
    if |a| > 0 {
      assert (a + b)[1..] == a[1..] + b;
      TextHistoryAppend(a[1..], b);
    } else {
      assert a + b == b;
    }
  }

  /** Only text messages count: the history is as long as the number of
      text messages. */
  function TextCount<C>(msgs: seq<Message<C>>): nat {
    if |msgs| == 0 then 0
    else (if msgs[0].kind == TEXT_KIND then 1 else 0) + TextCount(msgs[1..])
  }

  lemma {:induction false} TextHistoryLength<C>(msgs: seq<Message<C>>)
    ensures |TextHistory(msgs)| == TextCount(msgs)
    ensures TextCount(msgs) == |msgs| <==> forall i :: 0 <= i < |msgs| ==> msgs[i].kind == TEXT_KIND
    decreases |msgs|
  {
    if |msgs| > 0 {
      TextHistoryLength(msgs[1..]);
      assert forall i :: 1 <= i < |msgs| ==> msgs[1..][i - 1] == msgs[i];
      TextCountBound(msgs[1..]);
    }
  }

  lemma {:induction false} TextCountBound<C>(msgs: seq<Message<C>>)
    ensures TextCount(msgs) <= |msgs|
    decreases |msgs|
  {
    if |msgs| > 0 {
      TextCountBound(msgs[1..]);
    }
  }

  /** The character set of ECMAScript's `String.prototype.trim`: the
      WhiteSpace code points (tab, vertical tab, form feed, space, no-break
      space, zero-width no-break space and the other space separators) and
      the LineTerminator code points. */
  predicate IsJsWhitespace(c: char) {
    var n := c as int;
    || n == 0x09 || n == 0x0B || n == 0x0C || n == 0x20
    || n == 0xA0 || n == 0xFEFF
    || n == 0x1680 || (0x2000 <= n <= 0x200A) || n == 0x202F
    || n == 0x205F || n == 0x3000
    || n == 0x0A || n == 0x0D || n == 0x2028 || n == 0x2029
  }

  predicate AllWhitespace(s: string) {
    forall i :: 0 <= i < |s| ==> IsJsWhitespace(s[i])
  }

  /** The index of the first non-whitespace character of s at or after i
      (|s| if there is none), when everything before i is whitespace. */
  function StartIndex(s: string, i: nat): (lo: nat)
    requires i <= |s|
    requires forall k :: 0 <= k < i ==> IsJsWhitespace(s[k])
    decreases |s| - i
    ensures i <= lo <= |s|
    ensures forall k :: 0 <= k < lo ==> IsJsWhitespace(s[k])
    ensures lo == |s| || !IsJsWhitespace(s[lo])
  {
    if i < |s| && IsJsWhitespace(s[i]) then StartIndex(s, i + 1) else i
  }

  /** The index just past the last non-whitespace character of s at or
      after lo and before j (lo if there is none), when everything from j
      on is whitespace. */
  function EndIndex(s: string, lo: nat, j: nat): (hi: nat)
    requires lo <= j <= |s|
    requires forall k :: j <= k < |s| ==> IsJsWhitespace(s[k])
    decreases j
    ensures lo <= hi <= j
    ensures forall k :: hi <= k < |s| ==> IsJsWhitespace(s[k])
    ensures hi == lo || !IsJsWhitespace(s[hi - 1])
  {
    if lo < j && IsJsWhitespace(s[j - 1]) then EndIndex(s, lo, j - 1) else j
  }

  /** r occurs in s at lo, and everything around it is whitespace. */
  predicate PieceAmidWhitespace(s: string, lo: nat, r: string) {
    && lo + |r| <= |s| && r == s[lo..lo + |r|]
    && (forall k :: 0 <= k < lo ==> IsJsWhitespace(s[k]))
    && (forall k :: lo + |r| <= k < |s| ==> IsJsWhitespace(s[k]))
  }

  /** `s.trim()`: the piece of s that neither starts nor ends with
      whitespace, with nothing but whitespace cut off on either side. */
  function Trim(s: string): (r: string)
    ensures |r| <= |s|
    ensures exists lo: nat :: PieceAmidWhitespace(s, lo, r)
    ensures r != [] ==> !IsJsWhitespace(r[0]) && !IsJsWhitespace(r[|r| - 1])
  {
    var lo := StartIndex(s, 0);
    var hi := EndIndex(s, lo, |s|);
    assert PieceAmidWhitespace(s, lo, s[lo..hi]);
    s[lo..hi]
  }

  /** A string trims to the empty string exactly when it is all whitespace. */
  lemma TrimEmptyIff(s: string)
    ensures Trim(s) == [] <==> AllWhitespace(s)
  {
    var lo := StartIndex(s, 0);
    var hi := EndIndex(s, lo, |s|);
    assert Trim(s) == s[lo..hi];
    if lo < |s| {
      assert hi > lo;
    }
  }

  /** The guard of `handleSendMessage`: a send is refused when the trimmed
      input is empty and no image is attached, or while a reply is awaited. */
  predicate RefusesSend<I>(input: string, image: Option<I>, isTyping: bool): (refused: bool)
    ensures isTyping ==> refused
    ensures !isTyping && image.Some? ==> !refused
    ensures input == [] && image.None? ==> refused
  {
    (Trim(input) == [] && image.None?) || isTyping
  }

  /** The guard refuses exactly when a reply is awaited, or when there is
      no image and the input is nothing but whitespace (the empty input
      included). */
  lemma RefusesSendIff<I>(input: string, image: Option<I>, isTyping: bool)
    ensures RefusesSend(input, image, isTyping)
        <==> isTyping || (image.None? && AllWhitespace(input))
  {
    TrimEmptyIff(input);
  }
}
