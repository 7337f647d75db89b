/** Reconciler state kept in a hidden block of an issue comment: the printer, the parser, and the
    commit and fetch calls on a paginated comment list. */
module CommentState {
  import opened Wrappers
  import opened Strings

  // The printed comment

  function IdentityMarker(id: string): string {
    "<!--" + id + "-->"
  }

  function StateMarker(id: string): string {
    "<!--" + id + "-state-->"
  }

  function EndMarker(id: string): string {
    "<!--/" + id + "-state-->"
  }

  const OPEN := "\n<!--\n"
  const CLOSE := "\n-->\n"

  /** Everything printed before the state marker. `botInfo` is the block with the link to the logs. */
  function Head(id: string, botInfo: string, message: string): string {
    IdentityMarker(id) + "\n\n" + botInfo + "\n\n---\n\n" + message + "\n\n"
  }

  function BuildCommentContent(id: string, botInfo: string, json: string, message: string): string {
    Head(id, botInfo, message) + StateMarker(id) + (OPEN + json + CLOSE + EndMarker(id))
  }

  // The parser

  datatype Extracted = NoState | Malformed | Text(json: string)

  /** The text between the two markers without white space and its comment wrapper. */
  function Unwrapped(between: string): string {
    TrimSpace(TrimSuffix(TrimPrefix(TrimSpace(between), "<!--"), "-->"))
  }

  function ExtractState(id: string, body: string): Extracted {
    var marker := StateMarker(id);
    var start := Index(body, marker, 0);
    if start.None? then NoState
    else
      var rest := body[start.value + |marker|..];
      var end := Index(rest, EndMarker(id), 0);
      if end.None? then Malformed
      else Text(Unwrapped(rest[..end.value]))
  }

  predicate PlainIdentity(id: string) {
    forall i | 0 <= i < |id| :: id[i] != '<' && id[i] != '>' && id[i] != '\n'
  }

  /** Encoded JSON has no angle brackets, which the encoder escapes, and no outer white space. */
  predicate PlainJson(json: string) {
    Trimmed(json) && forall i | 0 <= i < |json| :: json[i] != '<' && json[i] != '>'
  }

  /** A text that contains no marker, then the marker: its first occurrence is the one written there. It
      cannot straddle the seam, because the marker has its only '<' in front. */
  lemma FirstOccurrence(before: string, marker: string, after: string)
    requires marker != [] && marker[0] == '<' && forall j | 1 <= j < |marker| :: marker[j] != '<'
    requires forall i: nat :: !OccursAt(before, marker, i)
    ensures Index(before + marker + after, marker, 0) == Some(|before|)
  {
    var body := before + marker + after;
    assert OccursAt(body, marker, |before|);
    forall i: nat | i < |before|
      ensures !OccursAt(body, marker, i)
    {
      if i + |marker| <= |before| {
        assert before[i..i + |marker|] == body[i..i + |marker|];
        assert !OccursAt(before, marker, i);
      } else if i + |marker| <= |body| {
        assert body[i..i + |marker|][|before| - i] == body[|before|] == '<';
      }
    }
  }

  /** The wrapped JSON contains no end marker: its only '<' opens the wrapper, and a line break follows
      where the marker has a slash. */
  lemma NoEndMarkerInside(id: string, json: string)
    requires PlainIdentity(id) && PlainJson(json)
    ensures forall i: nat :: !OccursAt(OPEN + json + CLOSE, EndMarker(id), i)
  {
    var inside, marker := OPEN + json + CLOSE, EndMarker(id);
    assert marker[0] == '<' && marker[4] == '/' && |marker| >= 5;
    forall i: nat
      ensures !OccursAt(inside, marker, i)
    {
      if OccursAt(inside, marker, i) {
        assert inside[i..i + |marker|][0] == inside[i] && inside[i..i + |marker|][4] == inside[i + 4];
        assert inside[5] == '\n';
        OnlyOpensOnce(json, i);
      }
    }
  }

  lemma OnlyOpensOnce(json: string, i: nat)
    requires PlainJson(json) && i < |OPEN + json + CLOSE|
    ensures (OPEN + json + CLOSE)[i] == '<' ==> i == 1
  {
    if |OPEN| <= i < |OPEN| + |json| {
      assert (OPEN + json + CLOSE)[i] == json[i - |OPEN|];
    }
  }

  /** Both trims around the wrapper leave exactly the JSON. */
  lemma Unwrap(json: string)
    requires PlainJson(json)
    ensures Unwrapped(OPEN + json + CLOSE) == json
  {
    var wrapped := "<!--\n" + json + "\n-->";
    assert OPEN + json + CLOSE == "\n" + wrapped + "\n";
    TrimRecovers("\n", wrapped, "\n");
    assert TrimPrefix(wrapped, "<!--") == "\n" + json + "\n-->";
    assert TrimSuffix("\n" + json + "\n-->", "-->") == "\n" + json + "\n";
    TrimRecovers("\n", json, "\n");
  }

  /** The parser reads the first block after a text without the state marker, whatever follows it. */
  lemma ExtractFirstBlock(id: string, head: string, json: string, tail: string)
    requires PlainIdentity(id) && PlainJson(json) && !Contains(head, StateMarker(id))
    ensures ExtractState(id, head + StateMarker(id) + (OPEN + json + CLOSE + EndMarker(id) + tail)) == Text(json)
  {
    hide Unwrapped;
    var marker, inside := StateMarker(id), OPEN + json + CLOSE;
    var body := head + marker + (inside + EndMarker(id) + tail);
    FirstOccurrence(head, marker, inside + EndMarker(id) + tail);
    assert body[|head| + |marker|..] == inside + EndMarker(id) + tail;
    NoEndMarkerInside(id, json);
    FirstOccurrence(inside, EndMarker(id), tail);
    assert (inside + EndMarker(id) + tail)[..|inside|] == inside;
    Unwrap(json);
  }

  /** The core round trip: what was printed is what is read back. */
  lemma ExtractInvertsBuild(id: string, botInfo: string, json: string, message: string)
    requires PlainIdentity(id) && PlainJson(json) && !Contains(Head(id, botInfo, message), StateMarker(id))
    ensures ExtractState(id, BuildCommentContent(id, botInfo, json, message)) == Text(json)
  {
    hide ExtractState, Head;
    ExtractFirstBlock(id, Head(id, botInfo, message), json, []);
    assert OPEN + json + CLOSE + EndMarker(id) + [] == OPEN + json + CLOSE + EndMarker(id);
  }

  // When the text before the state has the marker in it

  /** The text before the printed state as the parser sees it: without a state marker, with one that no end
      marker follows, or with a state block of its own. */
  datatype HeadState = NoMarker | Open(rest: string) | Block(json: string)

  function HeadBlock(id: string, head: string): HeadState {
    var start := Index(head, StateMarker(id), 0);
    if start.None? then NoMarker
    else
      var rest := head[start.value + |StateMarker(id)|..];
      var end := Index(rest, EndMarker(id), 0);
      if end.None? then Open(rest) else Block(Unwrapped(rest[..end.value]))
  }

  /** The first occurrence in a text is the first one in anything that the text begins. */
  lemma FirstOccurrenceStays(text: string, sub: string, more: string)
    requires Index(text, sub, 0).Some?
    ensures Index(text + more, sub, 0) == Index(text, sub, 0)
  {
    var i, n := Index(text, sub, 0).value, |sub|;
    assert (text + more)[i..i + n] == text[i..i + n];
    forall j: nat | j < i
      ensures !OccursAt(text + more, sub, j)
    {
      assert !OccursAt(text, sub, j) && (text + more)[j..j + n] == text[j..j + n];
    }
    IndexIs(text + more, sub, i);
  }

  lemma OccurrenceChars(s: string, sub: string, i: nat)
    ensures OccursAt(s, sub, i) ==> forall j | 0 <= j < |sub| :: s[i + j] == sub[j]
  {
    if OccursAt(s, sub, i) {
      forall j | 0 <= j < |sub|
        ensures s[i + j] == sub[j]
      {
        assert s[i..i + |sub|][j] == s[i + j];
      }
    }
  }

  /** An occurrence that begins in the first part lies in it, if the second begins with '<' and the text
      looked for has its only '<' in front. */
  lemma OccursInFirst(a: string, b: string, sub: string, i: nat)
    requires i < |a| && b != [] && b[0] == '<' && forall j | 1 <= j < |sub| :: sub[j] != '<'
    ensures OccursAt(a + b, sub, i) ==> OccursAt(a, sub, i)
  {
    var k := |a| - i;
    assert k < |sub| ==> sub[k] != '<';
    assert (a + b)[i + k] == '<';
    OccurrenceChars(a + b, sub, i);
    if i + |sub| <= |a| {
      assert (a + b)[i..i + |sub|] == a[i..i + |sub|];
    }
  }

  lemma OccursInSecond(a: string, b: string, sub: string, i: nat)
    requires i >= |a|
    ensures OccursAt(a + b, sub, i) ==> OccursAt(b, sub, i - |a|)
  {
    if i + |sub| <= |a + b| {
      assert (a + b)[i..i + |sub|] == b[i - |a|..i - |a| + |sub|];
    }
  }

  lemma MarkersOpenOnce(id: string)
    requires PlainIdentity(id)
    ensures forall i | 1 <= i < |StateMarker(id)| :: StateMarker(id)[i] != '<'
    ensures forall i | 1 <= i < |EndMarker(id)| :: EndMarker(id)[i] != '<'
  {
  }

  /** No end marker begins at the state marker: it would have to end in the line break behind it. */
  lemma NoEndAtMarker(id: string, more: string)
    requires more != [] && more[0] == '\n'
    ensures !OccursAt(StateMarker(id) + more, EndMarker(id), 0)
  {
    var text, end := StateMarker(id) + more, EndMarker(id);
    var n := |StateMarker(id)|;
    assert |end| == n + 1 && end[n] == '>' && text[0 + n] == '\n';
    OccurrenceChars(text, end, 0);
  }

  /** Behind an open head the first end marker is the printed one: none begins in the state marker or in
      the wrapper before it. */
  lemma EndBehindOpenHead(id: string, rest: string, json: string)
    requires PlainIdentity(id) && PlainJson(json) && Index(rest, EndMarker(id), 0).None?
    ensures var inside := rest + (StateMarker(id) + (OPEN + json + CLOSE));
            Index(inside + EndMarker(id), EndMarker(id), 0) == Some(|inside|)
  {
    var marker, end, wrapped := StateMarker(id), EndMarker(id), OPEN + json + CLOSE;
    var inside := rest + (marker + wrapped);
    NoEndMarkerInside(id, json);
    MarkersOpenOnce(id);
    NoEndAtMarker(id, wrapped);
    forall i: nat
      ensures !OccursAt(inside, end, i)
    {
      if i < |rest| {
        OccursInFirst(rest, marker + wrapped, end, i);
      } else {
        OccursInSecond(rest, marker + wrapped, end, i);
        BeginsNowhere(id, wrapped, i - |rest|);
      }
    }
    FirstOccurrence(inside, end, []);
    assert inside + end + [] == inside + end;
  }

  lemma BeginsNowhere(id: string, wrapped: string, i: nat)
    requires PlainIdentity(id) && forall j: nat :: !OccursAt(wrapped, EndMarker(id), j)
    requires !OccursAt(StateMarker(id) + wrapped, EndMarker(id), 0)
    ensures !OccursAt(StateMarker(id) + wrapped, EndMarker(id), i)
  {
    var marker, end := StateMarker(id), EndMarker(id);
    MarkersOpenOnce(id);
    if i >= |marker| {
      OccursInSecond(marker, wrapped, end, i);
    } else if i > 0 {
      assert (marker + wrapped)[i + 0] == marker[i] != end[0];
      OccurrenceChars(marker + wrapped, end, i);
    }
  }

  lemma TrimLeftOfMarker(id: string, rest: string) returns (p: string)
    ensures TrimLeft(rest + StateMarker(id)) == p + StateMarker(id)
  {
    var marker := StateMarker(id);
    if Solid(rest) {
      TrimLeftStops(rest, marker);
      p := TrimLeft(rest);
    } else {
      TrimLeftSkips(rest, marker);
      p := [];
      assert [] + marker == marker;
    }
  }

  /** What is read behind an open head still has the opening line of the wrapper in it. */
  lemma OpenHeadLeavesWrapper(id: string, rest: string, json: string)
    ensures Contains(Unwrapped(rest + (StateMarker(id) + (OPEN + json + CLOSE))), "\n<")
  {
    hide TrimLeft, TrimRight, Contains;
    var marker, inner := StateMarker(id), "!--\n" + json + "\n";
    var text := rest + (marker + (OPEN + json + CLOSE));
    assert text == (rest + marker) + "\n<" + (inner + "-->" + "\n");
    assert !IsSpace(marker[|marker| - 1]) && (rest + marker)[|rest + marker| - 1] == marker[|marker| - 1];
    assert inner[0] == '!' && (inner + "-->" + "\n")[0] == '!';
    TrimKeepsMiddle(rest + marker, "\n<", inner + "-->" + "\n");
    var p := TrimLeftOfMarker(id, rest);
    TrimmedClose(inner);
    var trimmed := p + marker + "\n<" + (inner + "-->");
    assert TrimSpace(text) == trimmed;
    var q := if "<!--" <= trimmed then (p + marker)[4..] else p + marker;
    assert TrimPrefix(trimmed, "<!--") == q + "\n<" + inner + "-->";
    assert TrimSuffix(q + "\n<" + inner + "-->", "-->") == q + "\n<" + inner;
    assert q[|q| - 1] == marker[|marker| - 1];
    TrimKeepsMiddle(q, "\n<", inner);
    MiddleOccurs(TrimLeft(q), "\n<", TrimRight(inner));
  }

  lemma TrimmedClose(inner: string)
    ensures TrimRight(inner + "-->" + "\n") == inner + "-->"
  {
    TrimRightSkips(inner + "-->", "\n");
  }

  lemma MiddleOccurs(a: string, sub: string, b: string)
    ensures Contains(a + sub + b, sub)
  {
    assert OccursAt(a + sub + b, sub, |a|);
  }

  /** What is read back from a printed comment, whatever the text before the state. */
  function ReadBack(id: string, head: string, json: string): string {
    match HeadBlock(id, head)
    case NoMarker => json
    case Block(other) => other
    case Open(rest) => Unwrapped(rest + (StateMarker(id) + (OPEN + json + CLOSE)))
  }

  lemma ExtractReadsBack(id: string, botInfo: string, json: string, message: string)
    requires PlainIdentity(id) && PlainJson(json)
    ensures ExtractState(id, BuildCommentContent(id, botInfo, json, message))
            == Text(ReadBack(id, Head(id, botInfo, message), json))
  {
    hide Head, Unwrapped, Contains, Index, ExtractState, StateMarker, EndMarker;
    var head, printed := Head(id, botInfo, message), StateMarker(id) + (OPEN + json + CLOSE);
    assert BuildCommentContent(id, botInfo, json, message) == head + (printed + EndMarker(id));
    if HeadBlock(id, head).NoMarker? {
      NoMarkerMeansNone(id, head);
      ExtractInvertsBuild(id, botInfo, json, message);
    } else if HeadBlock(id, head).Block? {
      ExtractClosed(id, head, printed + EndMarker(id));
    } else {
      ExtractOpen(id, head, json);
    }
  }

  lemma NoMarkerMeansNone(id: string, head: string)
    requires Index(head, StateMarker(id), 0).None?
    ensures !Contains(head, StateMarker(id))
  {
  }

  /** A block in the head is read whatever follows. */
  lemma ExtractClosed(id: string, head: string, more: string)
    requires HeadBlock(id, head).Block?
    ensures ExtractState(id, head + more) == Text(HeadBlock(id, head).json)
  {
    hide Unwrapped, Index, StateMarker, EndMarker;
    var at := Index(head, StateMarker(id), 0).value + |StateMarker(id)|;
    var rest := head[at..];
    FirstOccurrenceStays(head, StateMarker(id), more);
    FirstOccurrenceStays(rest, EndMarker(id), more);
    assert (head + more)[at..] == rest + more;
    var n := Index(rest, EndMarker(id), 0).value;
    assert (rest + more)[..n] == rest[..n];
    ExtractBetween(id, head + more, at, n);
  }

  lemma ExtractOpen(id: string, head: string, json: string)
    requires PlainIdentity(id) && PlainJson(json) && HeadBlock(id, head).Open?
    ensures var printed := StateMarker(id) + (OPEN + json + CLOSE);
            ExtractState(id, head + (printed + EndMarker(id)))
            == Text(Unwrapped(HeadBlock(id, head).rest + printed))
  {
    hide Unwrapped, Index, StateMarker, EndMarker;
    var at := Index(head, StateMarker(id), 0).value + |StateMarker(id)|;
    var rest, printed := head[at..], StateMarker(id) + (OPEN + json + CLOSE);
    var body := head + (printed + EndMarker(id));
    FirstOccurrenceStays(head, StateMarker(id), printed + EndMarker(id));
    EndBehindOpenHead(id, rest, json);
    assert body[at..] == rest + printed + EndMarker(id);
    assert (rest + printed + EndMarker(id))[..|rest + printed|] == rest + printed;
    ExtractBetween(id, body, at, |rest + printed|);
  }

  lemma ExtractBetween(id: string, body: string, at: nat, n: nat)
    requires Index(body, StateMarker(id), 0).Some? && at == Index(body, StateMarker(id), 0).value + |StateMarker(id)|
    requires Index(body[at..], EndMarker(id), 0) == Some(n)
    ensures ExtractState(id, body) == Text(Unwrapped(body[at..][..n]))
  {
    hide Index, StateMarker, EndMarker, TrimSpace, TrimPrefix, TrimSuffix;
  }

  /** On any comment: there is no state exactly without a state marker, and a malformed one exactly when no
      end marker follows the first. */
  lemma ExtractedExactly(id: string, body: string)
    ensures ExtractState(id, body).NoState? <==> !Contains(body, StateMarker(id))
    ensures ExtractState(id, body).Malformed? <==>
            exists before, rest ::
              && body == before + StateMarker(id) + rest && !Contains(rest, EndMarker(id))
              && Index(body, StateMarker(id), 0) == Some(|before|)
  {
    hide Unwrapped, StateMarker, EndMarker;
    var marker := StateMarker(id);
    var start := Index(body, marker, 0);
    if start.Some? {
      var before, rest := body[..start.value], body[start.value + |marker|..];
      assert body == before + marker + rest;
      forall b, r | body == b + marker + r && start == Some(|b|)
        ensures r == rest
      {
        assert r == body[|b| + |marker|..];
      }
      assert Index(rest, EndMarker(id), 0).None? <==> !Contains(rest, EndMarker(id));
    }
  }

  /** The round trip holds if and only if the text before the state has no state marker in it, or has a
      state block with the same JSON first. */
  lemma RoundTripIsExact(id: string, botInfo: string, json: string, message: string)
    requires PlainIdentity(id) && PlainJson(json)
    ensures ExtractState(id, BuildCommentContent(id, botInfo, json, message)) == Text(json)
            <==> match HeadBlock(id, Head(id, botInfo, message))
                 case NoMarker => true
                 case Open(_) => false
                 case Block(other) => other == json
  {
    hide ExtractState, BuildCommentContent, Head, Unwrapped, Contains;
    ExtractReadsBack(id, botInfo, json, message);
    var block := HeadBlock(id, Head(id, botInfo, message));
    if block.Open? {
      OpenHeadLeavesWrapper(id, block.rest, json);
      PlainHasNoBracket(json);
    }
  }

  lemma PlainHasNoBracket(json: string)
    requires PlainJson(json)
    ensures !Contains(json, "\n<")
  {
    forall i: nat
      ensures !OccursAt(json, "\n<", i)
    {
      assert "\n<"[1] == '<';
      OccurrenceChars(json, "\n<", i);
    }
  }

  /** A bare state marker as the message is an open head: the state is lost. */
  lemma BareMarkerLosesState(id: string, botInfo: string, json: string)
    requires PlainIdentity(id) && PlainJson(json)
    requires !Contains(IdentityMarker(id) + "\n\n" + botInfo + "\n\n---\n\n", StateMarker(id))
    ensures ExtractState(id, BuildCommentContent(id, botInfo, json, StateMarker(id))) != Text(json)
  {
    hide ExtractState, BuildCommentContent, Unwrapped, Contains;
    var marker, before := StateMarker(id), IdentityMarker(id) + "\n\n" + botInfo + "\n\n---\n\n";
    var head := Head(id, botInfo, marker);
    assert head == before + marker + "\n\n";
    MarkersOpenOnce(id);
    NoOccurrence(before, marker);
    FirstOccurrence(before, marker, "\n\n");
    assert head[|before| + |marker|..] == "\n\n";
    RoundTripIsExact(id, botInfo, json, marker);
  }

  lemma NoOccurrence(s: string, sub: string)
    requires !Contains(s, sub)
    ensures forall i: nat :: !OccursAt(s, sub, i)
  {
  }

  /** A message that carries a state block of its own replaces the state: the round trip then holds if
      and only if that block holds the same JSON. */
  lemma BlockInMessageWins(id: string, botInfo: string, json: string, before: string, other: string, after: string)
    requires PlainIdentity(id) && PlainJson(other)
    requires !Contains(IdentityMarker(id) + "\n\n" + botInfo + "\n\n---\n\n" + before, StateMarker(id))
    ensures var message := before + StateMarker(id) + (OPEN + other + CLOSE + EndMarker(id) + after);
            ExtractState(id, BuildCommentContent(id, botInfo, json, message)) == Text(json) <==> other == json
  {
    hide ExtractState;
    var block := OPEN + other + CLOSE + EndMarker(id) + after;
    var message := before + StateMarker(id) + block;
    var head := IdentityMarker(id) + "\n\n" + botInfo + "\n\n---\n\n" + before;
    var rest := "\n\n" + StateMarker(id) + (OPEN + json + CLOSE + EndMarker(id));
    ExtractFirstBlock(id, head, other, after + rest);
    assert BuildCommentContent(id, botInfo, json, message)
        == head + StateMarker(id) + (OPEN + other + CLOSE + EndMarker(id) + (after + rest));
  }

  /** The identity marker is in front of every printed comment. */
  lemma BuiltCommentIsRecognised(id: string, botInfo: string, json: string, message: string)
    ensures Contains(BuildCommentContent(id, botInfo, json, message), IdentityMarker(id))
    ensures Contains(BuildCommentContent(id, botInfo, json, message), StateMarker(id))
  {
    var body := BuildCommentContent(id, botInfo, json, message);
    assert OccursAt(body, IdentityMarker(id), 0);
    assert OccursAt(body, StateMarker(id), |Head(id, botInfo, message)|);
  }

  // Commit and fetch

  datatype Comment = Comment(id: nat, body: Option<string>)

  /** The JSON encoding of the state type. */
  datatype Codec<!T> = Codec(encode: T -> string, decode: string -> Option<T>)

  ghost predicate Lawful<T(!new)>(c: Codec<T>) {
    forall s :: c.decode(c.encode(s)) == Some(s) && PlainJson(c.encode(s))
  }

  predicate Matches(c: Comment, marker: string) {
    c.body.Some? && Contains(c.body.value, marker)
  }

  /** The first comment with the marker. */
  function FirstMatch(list: seq<Comment>, marker: string): (r: Option<nat>)
    ensures r.Some? ==> r.value < |list| && Matches(list[r.value], marker)
    ensures forall i | 0 <= i < (if r.Some? then r.value else |list|) :: !Matches(list[i], marker)
  {
    if list == [] then None
    else if Matches(list[0], marker) then Some(0)
    else
      var rest := FirstMatch(list[1..], marker);
      if rest.None? then None else Some(rest.value + 1)
  }

  /** The state in a comment, if there is one that can be read. */
  function StateIn<T>(codec: Codec<T>, id: string, body: string): Option<T> {
    if !Contains(body, StateMarker(id)) then None
    else match ExtractState(id, body)
      case Text(json) => codec.decode(json)
      case _ => None
  }

  function Fetched<T>(codec: Codec<T>, id: string, list: seq<Comment>): Option<T> {
    var i := FirstMatch(list, IdentityMarker(id));
    if i.None? then None else StateIn(codec, id, list[i.value].body.value)
  }

  /** The first matching comment is rewritten; without one a comment is added at the end. */
  function Committed(list: seq<Comment>, marker: string, content: string, newId: nat): seq<Comment> {
    var i := FirstMatch(list, marker);
    if i.Some? then list[i.value := list[i.value].(body := Some(content))] else list + [Comment(newId, Some(content))]
  }

  lemma FirstMatchAfterCommit(list: seq<Comment>, marker: string, content: string, newId: nat)
    requires Contains(content, marker)
    ensures FirstMatch(Committed(list, marker, content, newId), marker)
            == Some(if FirstMatch(list, marker).Some? then FirstMatch(list, marker).value else |list|)
  {
    hide Contains;
    var i := if FirstMatch(list, marker).Some? then FirstMatch(list, marker).value else |list|;
    var after := Committed(list, marker, content, newId);
    assert Matches(after[i], marker);
    var j := FirstMatch(after, marker);
    assert forall k | 0 <= k < i :: after[k] == list[k];
  }

  /** Fetch after Commit returns the state committed, for any comment list before it; Commit touches no
      other comment and creates one only when none carried the identity. */
  lemma FetchAfterCommit<T(!new)>(codec: Codec<T>, id: string, botInfo: string, state: T, message: string,
                                  list: seq<Comment>, newId: nat)
    requires Lawful(codec) && PlainIdentity(id) && !Contains(Head(id, botInfo, message), StateMarker(id))
    ensures var content := BuildCommentContent(id, botInfo, codec.encode(state), message);
            var after := Committed(list, IdentityMarker(id), content, newId);
            && Fetched(codec, id, after) == Some(state)
            && |after| == |list| + (if exists c | c in list :: Matches(c, IdentityMarker(id)) then 0 else 1)
            && (forall i | 0 <= i < |list| && FirstMatch(list, IdentityMarker(id)) != Some(i) :: after[i] == list[i])
  {
    hide Contains, ExtractState, Head;
    var json := codec.encode(state);
    var content := BuildCommentContent(id, botInfo, json, message);
    assert codec.decode(json) == Some(state) && PlainJson(json);
    ExtractInvertsBuild(id, botInfo, json, message);
    BuiltCommentIsRecognised(id, botInfo, json, message);
    hide BuildCommentContent;
    FirstMatchAfterCommit(list, IdentityMarker(id), content, newId);
  }

  /** Decoding refuses a line break followed by '<': neither may stand in a JSON string, and '<' not outside. */
  ghost predicate Strict<T(!new)>(c: Codec<T>) {
    forall text | Contains(text, "\n<") :: c.decode(text).None?
  }

  /** Fetch after Commit returns the state if and only if the text before it has no state marker in it, or
      has a state block first that decodes to the same state. */
  lemma FetchAfterCommitIsExact<T(!new)>(codec: Codec<T>, id: string, botInfo: string, state: T, message: string,
                                         list: seq<Comment>, newId: nat)
    requires Lawful(codec) && Strict(codec) && PlainIdentity(id)
    ensures var content := BuildCommentContent(id, botInfo, codec.encode(state), message);
            Fetched(codec, id, Committed(list, IdentityMarker(id), content, newId)) == Some(state)
            <==> match HeadBlock(id, Head(id, botInfo, message))
                 case NoMarker => true
                 case Open(_) => false
                 case Block(other) => codec.decode(other) == Some(state)
  {
    hide Contains, ExtractState, Head, Unwrapped;
    var json := codec.encode(state);
    var content := BuildCommentContent(id, botInfo, json, message);
    assert codec.decode(json) == Some(state) && PlainJson(json);
    ExtractReadsBack(id, botInfo, json, message);
    BuiltCommentIsRecognised(id, botInfo, json, message);
    hide BuildCommentContent;
    FirstMatchAfterCommit(list, IdentityMarker(id), content, newId);
    var block := HeadBlock(id, Head(id, botInfo, message));
    if block.Open? {
      OpenHeadLeavesWrapper(id, block.rest, json);
    }
  }

  lemma {:induction false} FirstMatchOfParts(before: seq<Comment>, after: seq<Comment>, marker: string)
    requires FirstMatch(before, marker).None?
    ensures FirstMatch(before + after, marker)
            == if FirstMatch(after, marker).Some? then Some(|before| + FirstMatch(after, marker).value) else None
  {
    hide Matches;
    if before == [] {
      assert before + after == after;
    } else {
      FirstMatchOfParts(before[1..], after, marker);
      assert (before + after)[1..] == before[1..] + after;
    }
  }

  // Several identities on one issue

  /** Both markers of a state block are identity markers too, of longer identities. */
  lemma MarkersOfLongerIdentities(id: string)
    ensures StateMarker(id) == IdentityMarker(id + "-state") && EndMarker(id) == IdentityMarker("/" + id + "-state")
  {
    assert "<!--" + (id + "-state") == "<!--" + id + "-state";
    assert "<!--" + ("/" + id + "-state") == "<!--/" + id + "-state";
  }

  /** Where an identity marker stands, another begins only at its front, and only if it is the same: each has
      its only '>' at its end. */
  lemma MarkerInMarker(x: string, w: string, more: string, i: nat)
    requires PlainIdentity(x) && PlainIdentity(w) && i < |IdentityMarker(w)|
    ensures OccursAt(IdentityMarker(w) + more, IdentityMarker(x), i) <==> i == 0 && x == w
  {
    var text, a, b := IdentityMarker(w) + more, IdentityMarker(x), IdentityMarker(w);
    OccurrenceChars(text, a, i);
    assert forall j | 1 <= j < |b| :: b[j] != '<';
    if i > 0 {
      assert text[i + 0] == b[i] != a[0];
    } else {
      assert text[..|b|] == b;
      var n, m := |a| - 1, |b| - 1;
      assert forall j | 0 <= j < n :: a[j] != '>';
      assert forall j | 0 <= j < m :: b[j] != '>';
      assert n < |text| ==> text[0 + n] == if n <= m then b[n] else text[n];
      assert m < n ==> text[0 + m] == b[m] != a[m];
      assert n < m ==> text[0 + n] == b[n] != a[n];
      if n == m && OccursAt(text, a, 0) {
        assert a == b;
        assert x == a[4..4 + |x|] && w == b[4..4 + |w|];
      }
    }
  }

  lemma MarkerNotInWrapper(x: string, json: string, more: string, i: nat)
    requires PlainIdentity(x) && PlainJson(json) && i < |OPEN + json + CLOSE|
    ensures !OccursAt(OPEN + json + CLOSE + more, IdentityMarker(x), i)
  {
    var wrapped, marker := OPEN + json + CLOSE, IdentityMarker(x);
    var text := wrapped + more;
    OnlyOpensOnce(json, i);
    OccurrenceChars(text, marker, i);
    assert text[i + 0] == wrapped[i] && marker[0] == '<' && marker[4] != '\n';
    assert i == 1 ==> text[i + 4] == '\n';
  }

  /** What is printed between the identity marker and the state marker. */
  function Middle(botInfo: string, message: string): string {
    "\n\n" + botInfo + "\n\n---\n\n" + message + "\n\n"
  }

  /** The marker `x` is one of the three that a comment of `y` prints. */
  predicate Clashes(x: string, y: string) {
    x == y || x == y + "-state" || x == "/" + y + "-state"
  }

  lemma ContentParts(y: string, botInfo: string, json: string, message: string)
    ensures BuildCommentContent(y, botInfo, json, message)
            == IdentityMarker(y) + (Middle(botInfo, message)
               + (StateMarker(y) + (OPEN + json + CLOSE + EndMarker(y))))
  {
  }

  /** A comment of `y` is taken for one of `x` if and only if `x` is one of its three markers, or the text
      between them has the marker of `x` in it. */
  lemma RecognisedExactly(x: string, y: string, botInfo: string, json: string, message: string)
    requires PlainIdentity(x) && PlainIdentity(y) && PlainJson(json)
    ensures Contains(BuildCommentContent(y, botInfo, json, message), IdentityMarker(x))
            <==> Clashes(x, y) || Contains(Middle(botInfo, message), IdentityMarker(x))
  {
    hide BuildCommentContent, Middle, Contains;
    ContentParts(y, botInfo, json, message);
    MarkersOfLongerIdentities(y);
    var marker, middle := IdentityMarker(x), Middle(botInfo, message);
    var end := EndMarker(y);
    var last := OPEN + json + CLOSE + end;
    var block := StateMarker(y) + last;
    InMarker(x, y, middle + block);
    InFirst(x, middle, block);
    InMarker(x, y + "-state", last);
    InWrapper(x, json, end);
    InMarker(x, "/" + y + "-state", []);
    assert end + [] == end;
    NotInNothing(marker);
  }

  lemma NotInNothing(marker: string)
    requires marker != []
    ensures !Contains([], marker)
  {
  }

  lemma InMarker(x: string, w: string, more: string)
    requires PlainIdentity(x) && PlainIdentity(w)
    ensures Contains(IdentityMarker(w) + more, IdentityMarker(x)) <==> x == w || Contains(more, IdentityMarker(x))
  {
    var text, marker := IdentityMarker(w) + more, IdentityMarker(x);
    MarkerInMarker(x, w, more, 0);
    ContainsSecond(IdentityMarker(w), more, marker);
    if Contains(text, marker) {
      var i := Index(text, marker, 0).value;
      if i < |IdentityMarker(w)| {
        MarkerInMarker(x, w, more, i);
      } else {
        OccursInSecond(IdentityMarker(w), more, marker, i);
        assert OccursAt(more, marker, i - |IdentityMarker(w)|);
      }
    }
  }

  lemma ContainsSecond(a: string, b: string, sub: string)
    ensures Contains(b, sub) ==> Contains(a + b, sub)
  {
    if Contains(b, sub) {
      var i := Index(b, sub, 0).value;
      assert (a + b)[|a| + i..|a| + i + |sub|] == b[i..i + |sub|];
      assert OccursAt(a + b, sub, |a| + i);
    }
  }

  lemma InFirst(x: string, a: string, b: string)
    requires PlainIdentity(x) && b != [] && b[0] == '<'
    ensures Contains(a + b, IdentityMarker(x)) <==> Contains(a, IdentityMarker(x)) || Contains(b, IdentityMarker(x))
  {
    var marker := IdentityMarker(x);
    ContainsSecond(a, b, marker);
    if Contains(a, marker) {
      var i := Index(a, marker, 0).value;
      assert (a + b)[i..i + |marker|] == a[i..i + |marker|];
      assert OccursAt(a + b, marker, i);
    }
    if Contains(a + b, marker) {
      var i := Index(a + b, marker, 0).value;
      if i < |a| {
        OccursInFirst(a, b, marker, i);
      } else {
        OccursInSecond(a, b, marker, i);
      }
    }
  }

  lemma InWrapper(x: string, json: string, more: string)
    requires PlainIdentity(x) && PlainJson(json)
    ensures Contains(OPEN + json + CLOSE + more, IdentityMarker(x)) <==> Contains(more, IdentityMarker(x))
  {
    var wrapped, marker := OPEN + json + CLOSE, IdentityMarker(x);
    ContainsSecond(wrapped, more, marker);
    if Contains(wrapped + more, marker) {
      var i := Index(wrapped + more, marker, 0).value;
      if i < |wrapped| {
        MarkerNotInWrapper(x, json, more, i);
        assert false;
      }
      OccursInSecond(wrapped, more, marker, i);
    }
  }

  /** Identities that do not clash leave each other's state alone: a commit for `y` does not change what is
      fetched for `x`, if `x` does not already share the comment that `y` rewrites. */
  lemma CommitLeavesOthersAlone<T>(codec: Codec<T>, x: string, y: string, botInfo: string, json: string,
                                   message: string, list: seq<Comment>, newId: nat)
    requires PlainIdentity(x) && PlainIdentity(y) && PlainJson(json) && !Clashes(x, y)
    requires !Contains(Middle(botInfo, message), IdentityMarker(x))
    requires var i := FirstMatch(list, IdentityMarker(y)); i.Some? ==> !Matches(list[i.value], IdentityMarker(x))
    ensures var content := BuildCommentContent(y, botInfo, json, message);
            Fetched(codec, x, Committed(list, IdentityMarker(y), content, newId)) == Fetched(codec, x, list)
  {
    hide Contains, BuildCommentContent, StateIn;
    RecognisedExactly(x, y, botInfo, json, message);
    var content := BuildCommentContent(y, botInfo, json, message);
    OtherMatchStays(list, IdentityMarker(x), IdentityMarker(y), content, newId);
  }

  lemma OtherMatchStays(list: seq<Comment>, x: string, y: string, content: string, newId: nat)
    requires !Contains(content, x)
    requires var i := FirstMatch(list, y); i.Some? ==> !Matches(list[i.value], x)
    ensures var (after, i) := (Committed(list, y, content, newId), FirstMatch(list, x));
            FirstMatch(after, x) == i && (i.Some? ==> after[i.value] == list[i.value])
  {
    hide Contains;
    var after := Committed(list, y, content, newId);
    var i, j := FirstMatch(list, x), FirstMatch(after, x);
    assert forall k | 0 <= k < |list| :: Matches(after[k], x) <==> Matches(list[k], x);
    assert |after| > |list| ==> !Matches(after[|list|], x);
    if i.Some? {
      assert Matches(after[i.value], x);
    }
    if j.Some? {
      assert j.value < |list| && Matches(list[j.value], x);
    }
  }

  /** Identities that clash do not: on an issue where neither has a comment, `x` overwrites the one of `y`. */
  lemma ClashOverwrites(x: string, y: string, botInfo: string, json: string, message: string,
                        content: string, list: seq<Comment>, newId: nat, newerId: nat)
    requires PlainIdentity(x) && PlainIdentity(y) && PlainJson(json) && Clashes(x, y)
    requires FirstMatch(list, IdentityMarker(x)).None? && FirstMatch(list, IdentityMarker(y)).None?
    ensures var once := Committed(list, IdentityMarker(y), BuildCommentContent(y, botInfo, json, message), newId);
            Committed(once, IdentityMarker(x), content, newerId) == list + [Comment(newId, Some(content))]
  {
    hide Contains, BuildCommentContent;
    var c := Comment(newId, Some(BuildCommentContent(y, botInfo, json, message)));
    RecognisedExactly(x, y, botInfo, json, message);
    FirstMatchOfParts(list, [c], IdentityMarker(x));
    assert FirstMatch([c], IdentityMarker(x)) == Some(0);
    assert (list + [c])[|list| := Comment(newId, Some(content))] == list + [Comment(newId, Some(content))];
  }

  // The paginated list

  const PER_PAGE: nat := 100

  /** How many comments come before a page. Pages count from 1, and page 0 is the first one too. */
  function Offset(page: nat): nat {
    if page == 0 then 0 else (page - 1) * PER_PAGE
  }

  /** The comments of one issue behind the paginated API. */
  class Comments {
    var list: seq<Comment>
    var nextId: nat

    ghost predicate Valid()
      reads this
    {
      && (forall i, j | 0 <= i < j < |list| :: list[i].id != list[j].id)
      && (forall i | 0 <= i < |list| :: list[i].id < nextId)
    }

    constructor ()
      ensures Valid() && list == []
    {
      list, nextId := [], 0;
    }

    /** One page, and the number of the next one or 0 after the last. */
    method ListComments(page: nat) returns (comments: seq<Comment>, nextPage: nat)
      requires Valid() && Offset(page) <= |list|
      ensures Offset(page) + |comments| <= |list|
      ensures comments == list[Offset(page)..Offset(page) + |comments|]
      ensures nextPage == 0 ==> Offset(page) + |comments| == |list|
      ensures nextPage != 0 ==> nextPage > page && Offset(nextPage) == Offset(page) + |comments| < |list|
      ensures nextPage != 0 ==> |comments| == PER_PAGE
    {
      var last := Offset(page) + PER_PAGE >= |list|;
      comments := list[Offset(page)..if last then |list| else Offset(page) + PER_PAGE];
      nextPage := if last then 0 else (if page == 0 then 1 else page) + 1;
    }

    method EditComment(id: nat, body: string)
      requires Valid()
      modifies this`list
      ensures Valid() && |list| == |old(list)|
      ensures forall i | 0 <= i < |list| ::
                list[i] == if old(list)[i].id == id then Comment(id, Some(body)) else old(list)[i]
    {
      list := seq(|list|, i requires 0 <= i < |list| reads this =>
                    if list[i].id == id then Comment(id, Some(body)) else list[i]);
    }

    method CreateComment(body: string)
      requires Valid()
      modifies this
      ensures Valid() && list == old(list) + [Comment(old(nextId), Some(body))]
    {
      list := list + [Comment(nextId, Some(body))];
      nextId := nextId + 1;
    }
  }

  class State<T(!new)> {
    const id: string
    const botInfo: string
    const codec: Codec<T>
    const client: Comments

    constructor (id: string, botInfo: string, codec: Codec<T>, client: Comments)
      ensures this.id == id && this.botInfo == botInfo && this.codec == codec && this.client == client
    {
      this.id, this.botInfo, this.codec, this.client := id, botInfo, codec, client;
    }

    /** Walks the pages up to the first comment with the identity marker. */
    method FindExistingComment() returns (found: Option<Comment>)
      requires client.Valid()
      ensures var i := FirstMatch(client.list, IdentityMarker(id));
              found == if i.Some? then Some(client.list[i.value]) else None
    {
      hide Contains, FirstMatch;
      var marker := IdentityMarker(id);
      var page := 0;
      while true
        invariant Offset(page) <= |client.list| && FirstMatch(client.list[..Offset(page)], marker).None?
        decreases |client.list| - Offset(page)
      {
        var comments, nextPage := client.ListComments(page);
        ghost var offset := Offset(page);
        for i := 0 to |comments|
          invariant FirstMatch(client.list[..offset + i], marker).None?
        {
          assert client.list[..offset + i + 1] == client.list[..offset + i] + [comments[i]];
          FirstMatchOfParts(client.list[..offset + i], [comments[i]], marker);
          if comments[i].body.Some? && Contains(comments[i].body.value, marker) {
            assert client.list == client.list[..offset + i] + ([comments[i]] + client.list[offset + i + 1..]);
            FirstMatchOfParts(client.list[..offset + i], [comments[i]] + client.list[offset + i + 1..], marker);
            return Some(comments[i]);
          }
        }
        if nextPage == 0 {
          assert client.list[..offset + |comments|] == client.list;
          break;
        }
        page := nextPage;
      }
      found := None;
    }

    method Fetch() returns (state: Option<T>)
      requires client.Valid()
      ensures state == Fetched(codec, id, client.list)
    {
      hide Contains, ExtractState;
      var comment := FindExistingComment();
      if comment.None? {
        return None;
      }
      var body := comment.value.body.value;
      if Contains(body, StateMarker(id)) {
        match ExtractState(id, body) {
          case Text(json) => return codec.decode(json);
          case _ => return None;
        }
      }
      state := None;
    }

    method Commit(state: T, message: string)
      requires client.Valid()
      modifies client
      ensures client.Valid()
      ensures client.list == Committed(old(client.list), IdentityMarker(id),
                                       BuildCommentContent(id, botInfo, codec.encode(state), message),
                                       old(client.nextId))
    {
      hide Contains, BuildCommentContent;
      var content := BuildCommentContent(id, botInfo, codec.encode(state), message);
      var existing := FindExistingComment();
      if existing.Some? {
        ghost var i := FirstMatch(client.list, IdentityMarker(id)).value;
        if existing.value.body == Some(content) {
          assert client.list[i := client.list[i].(body := Some(content))] == client.list;
          return;
        }
        client.EditComment(existing.value.id, content);
        assert client.list == old(client.list)[i := old(client.list)[i].(body := Some(content))];
      } else {
        client.CreateComment(content);
      }
    }
  }
}
